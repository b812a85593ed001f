/** What a product costs: list price, timed product discount, single-use coupon. */
module Pricing {
  import opened Options

  datatype ProductType = Fixed | VariableQuantity | OtherType

  datatype Product = Product(
    kind: ProductType, fixedPrice: Option<int>, unitPrice: Option<int>,
    minQuantity: Option<int>, maxQuantity: Option<int>, active: bool,
    discountPercent: Option<int>, discountExpires: Option<int>,
    isVpn: bool, vpnDays: Option<int>)

  datatype PriceError = MissingPrice | InvalidQuantity | UnsupportedType

  datatype PriceResult =
    | Price(unitPrice: int, quantity: int, total: int, originalTotal: Option<int>)
    | NoPrice(error: PriceError)

  /** `percent` hundredths of `amount`, rounded down. */
  function PercentOf(amount: int, percent: int): int {
    amount * percent / 100
  }

  predicate IsDiscountActive(product: Product, now: int) {
    && product.discountPercent.Some? && 0 < product.discountPercent.value
    && product.discountExpires.Some? && now < product.discountExpires.value
  }

  function ApplyDiscount(product: Product, total: int, now: int): (int, Option<int>) {
    if !IsDiscountActive(product, now) then (total, None)
    else
      var percent := if product.discountPercent.value < 90 then product.discountPercent.value else 90;
      (total - PercentOf(total, percent), Some(total))
  }

  function CalculatePrice(product: Product, quantity: int, now: int): PriceResult {
    match product.kind
    case Fixed =>
      if product.fixedPrice == None then NoPrice(MissingPrice)
      else
        var (total, original) := ApplyDiscount(product, product.fixedPrice.value, now);
        Price(product.fixedPrice.value, 1, total, original)
    case VariableQuantity =>
      if product.unitPrice == None then NoPrice(MissingPrice)
      else
        var min := if product.minQuantity.Some? && product.minQuantity.value != 0 then product.minQuantity.value else 1;
        if quantity < min then NoPrice(InvalidQuantity)
        else if product.maxQuantity.Some? && product.maxQuantity.value != 0 && product.maxQuantity.value < quantity
        then NoPrice(InvalidQuantity)
        else
          var (total, original) := ApplyDiscount(product, product.unitPrice.value * quantity, now);
          Price(product.unitPrice.value, quantity, total, original)
    case OtherType => NoPrice(UnsupportedType)
  }

  /** The coupon's discount, on top of a total. */
  function CouponPrice(total: int, percent: int): int {
    total - PercentOf(total, percent)
  }

  // ----- what a request should cost, from the product's row alone -----

  /** The percentage a row takes off at an instant: at most 90, and 0 outside the discount's time. */
  function ActivePercent(product: Product, now: int): (percent: int)
    ensures 0 <= percent <= 90
  {
    match (product.discountPercent, product.discountExpires)
    case (Some(percent), Some(end)) => if percent <= 0 || end <= now then 0 else if percent > 90 then 90 else percent
    case _ => 0
  }

  /** The row sells this quantity: FIXED products come in one piece, the others in a range of quantities. */
  predicate Sells(product: Product, quantity: int) {
    match product.kind
    case Fixed => product.fixedPrice.Some?
    case VariableQuantity =>
      && product.unitPrice.Some?
      && (if product.minQuantity == None || product.minQuantity == Some(0) then 1 else product.minQuantity.value)
         <= quantity
      && (product.maxQuantity == None || product.maxQuantity == Some(0) || quantity <= product.maxQuantity.value)
    case OtherType => false
  }

  function PriceTag(product: Product): int
    requires product.kind.Fixed? ==> product.fixedPrice.Some?
    requires product.kind.VariableQuantity? ==> product.unitPrice.Some?
  {
    match product.kind
    case Fixed => product.fixedPrice.value
    case VariableQuantity => product.unitPrice.value
    case OtherType => 0
  }

  function Pieces(product: Product, quantity: int): int {
    if product.kind.Fixed? then 1 else quantity
  }

  /** The undiscounted price of a request. */
  function ListTotal(product: Product, quantity: int): int
    requires Sells(product, quantity)
  {
    PriceTag(product) * Pieces(product, quantity)
  }

  // ----- rounding -----

  /** Taking off a rounded-down percentage rounds the rest up: less than one unit above the exact value. */
  lemma DiscountRoundsUp(total: int, percent: int)
    ensures 0 <= 100 * CouponPrice(total, percent) - total * (100 - percent) < 100
  {
  }

  lemma MulMonotone(a: int, b: int, k: int)
    requires a <= b && 0 <= k
    ensures a * k <= b * k
  {
  }

  lemma DiscountMonotone(a: int, b: int, percent: int)
    requires a <= b && 0 <= percent <= 100
    ensures CouponPrice(a, percent) <= CouponPrice(b, percent)
  {
    MulMonotone(a, b, 100 - percent);
    DiscountRoundsUp(a, percent);
    DiscountRoundsUp(b, percent);
  }

  /** The price charged with a coupon of `coupon` percent (0: none) on a product at an instant. */
  function Charged(product: Product, quantity: int, now: int, coupon: int): int
    requires CalculatePrice(product, quantity, now).Price?
  {
    CouponPrice(CalculatePrice(product, quantity, now).total, coupon)
  }

  /** A request has a price exactly when the row sells its quantity; the price names the requested quantity and the
      row's own price, and its total is the list total less the active discount, rounded up. */
  lemma PriceOfRequest(product: Product, quantity: int, now: int)
    ensures CalculatePrice(product, quantity, now).Price? <==> Sells(product, quantity)
    ensures Sells(product, quantity) ==>
              var price, t := CalculatePrice(product, quantity, now), ListTotal(product, quantity);
              && price.quantity == Pieces(product, quantity) && price.unitPrice == PriceTag(product)
              && price.total == CouponPrice(t, ActivePercent(product, now))
              && 0 <= 100 * price.total - t * (100 - ActivePercent(product, now)) < 100
              && price.originalTotal == if ActivePercent(product, now) == 0 then None else Some(t)
  {
    if Sells(product, quantity) {
      NoPercent(ListTotal(product, quantity));
      DiscountRoundsUp(ListTotal(product, quantity), ActivePercent(product, now));
    }
  }

  /** Both discounts together are off by less than two units from the exact product of percentages, in
      the shop's favour, and the charge stays a valid debit amount. */
  lemma StackedDiscounts(product: Product, quantity: int, now: int, coupon: int)
    requires Sells(product, quantity) && 0 <= coupon <= 90
    requires 1 <= ListTotal(product, quantity)
    ensures CalculatePrice(product, quantity, now).Price?
    ensures var t, f, p := ListTotal(product, quantity), Charged(product, quantity, now, coupon),
                           ActivePercent(product, now);
            0 <= 10000 * f - t * (100 - p) * (100 - coupon) < 20000 && 1 <= f <= t
  {
    hide CouponPrice, CalculatePrice, ActivePercent, Sells, ListTotal;
    var t, p := ListTotal(product, quantity), ActivePercent(product, now);
    PriceOfRequest(product, quantity, now);
    var d := CalculatePrice(product, quantity, now).total;
    DiscountRoundsUp(d, coupon);
    StackedArithmetic(t, p, coupon, d, CouponPrice(d, coupon));
  }

  lemma NoPercent(t: int)
    ensures PercentOf(t, 0) == 0
  {
  }

  lemma StackedArithmetic(t: int, p: int, c: int, d: int, f: int)
    requires 1 <= t && 0 <= p <= 90 && 0 <= c <= 90
    requires 0 <= 100 * d - t * (100 - p) < 100
    requires 0 <= 100 * f - d * (100 - c) < 100
    ensures 0 <= 10000 * f - t * (100 - p) * (100 - c) < 20000 && 1 <= f <= t
  {
    var x := 100 * d - t * (100 - p);
    var y := 100 * f - d * (100 - c);
    Spread(t * (100 - p), x, c);
    assert 10000 * f == 100 * y + 100 * (d * (100 - c));
    assert 100 * (d * (100 - c)) == (100 * d) * (100 - c);
    assert 0 <= x * (100 - c) <= 99 * 100 by {
      MulMonotone(0, x, 100 - c);
      MulMonotone(x, 99, 100 - c);
      MulMonotone(0, c, 99);
    }
    MulMonotone(1, t, 100 - p);
    assert t * (100 - p) <= t * 100 by { MulMonotone(0, p, t); }
    assert 1 <= d <= t;
    MulMonotone(1, d, 100 - c);
    assert d * (100 - c) <= d * 100 by { MulMonotone(0, c, d); }
  }

  lemma Spread(a: int, x: int, c: int)
    ensures (a + x) * (100 - c) == a * (100 - c) + x * (100 - c)
  {
  }

  /** A larger quantity never costs less. */
  lemma ChargeMonotone(product: Product, q: int, r: int, now: int, coupon: int)
    requires q <= r && 0 <= coupon <= 90 && Sells(product, q) && Sells(product, r)
    requires 0 <= PriceTag(product)
    ensures CalculatePrice(product, q, now).Price? && CalculatePrice(product, r, now).Price?
    ensures Charged(product, q, now, coupon) <= Charged(product, r, now, coupon)
  {
    hide CouponPrice, CalculatePrice, ActivePercent;
    PriceOfRequest(product, q, now);
    PriceOfRequest(product, r, now);
    var p := ActivePercent(product, now);
    MulMonotone(Pieces(product, q), Pieces(product, r), PriceTag(product));
    DiscountMonotone(ListTotal(product, q), ListTotal(product, r), p);
    DiscountMonotone(CalculatePrice(product, q, now).total, CalculatePrice(product, r, now).total, coupon);
  }
}
