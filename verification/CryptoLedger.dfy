/**
 * The crypto wallets: every credit and debit is recorded in a ledger, and a reference can be used once per
 * kind of entry.  Amounts are integers in units of the eighth decimal.
 */
module CryptoLedger {
  import opened Options

  datatype Currency = Trx | Ton
  datatype Wallet = Wallet(user: int, currency: Currency)
  datatype Kind = Deposit | AdminAdjustment | ConversionOut | ConversionIn | Withdrawal

  /** What an entry refers to: a deposit order, or a name given by another caller. */
  datatype Reference = OrderRef(order: int) | Named(name: string)

  datatype Row = Row(wallet: Wallet, amount: int, before: int, after: int, kind: Kind, reference: Option<Reference>)

  datatype Books = Books(balances: map<Wallet, int>, rows: seq<Row>)

  const EMPTY_BOOKS := Books(map[], [])

  datatype CryptoError = InvalidAmount | InsufficientBalance | DuplicateReference
  datatype Reply = Done(row: Row) | Refused(error: CryptoError)
  datatype Answer = Answer(books: Books, reply: Reply)

  /** A credit or a debit of `amount`. */
  datatype Op = Op(credit: bool, wallet: Wallet, amount: int, kind: Kind, reference: Option<Reference>)

  /** An empty name counts as no reference when entries are looked up. */
  predicate Referenced(reference: Option<Reference>) {
    reference.Some? && reference.value != Named("")
  }

  predicate Matches(row: Row, reference: Option<Reference>, kind: Kind) {
    row.reference == reference && row.kind == kind
  }

  function Find(rows: seq<Row>, reference: Option<Reference>, kind: Kind): (r: Option<Row>)
    ensures r.Some? ==> r.value in rows && Matches(r.value, reference, kind)
    ensures r == None ==> forall row :: row in rows ==> !Matches(row, reference, kind)
  {
    if rows == [] then None
    else if Matches(rows[0], reference, kind) then Some(rows[0])
    else Find(rows[1..], reference, kind)
  }

  function FindExisting(rows: seq<Row>, reference: Option<Reference>, kind: Kind): Option<Row> {
    if Referenced(reference) then Find(rows, reference, kind) else None
  }

  function BalanceOf(b: Books, w: Wallet): int {
    if w in b.balances then b.balances[w] else 0
  }

  function Signed(op: Op): int {
    if op.credit then op.amount else -op.amount
  }

  function Posted(b: Books, op: Op): Row {
    var before := BalanceOf(b, op.wallet);
    Row(op.wallet, Signed(op), before, before + Signed(op), op.kind, op.reference)
  }

  /** One credit or debit.  The last refusal is the database's: an empty name is stored like any other
      reference, so its second entry of a kind violates the unique constraint. */
  function Do(b: Books, op: Op): Answer {
    var existing := FindExisting(b.rows, op.reference, op.kind);
    if op.amount <= 0 then Answer(b, Refused(InvalidAmount))
    else if existing.Some? then Answer(b, Done(existing.value))
    else if !op.credit && BalanceOf(b, op.wallet) < op.amount then Answer(b, Refused(InsufficientBalance))
    else if op.reference.Some? && Find(b.rows, op.reference, op.kind).Some? then Answer(b, Refused(DuplicateReference))
    else
      var row := Posted(b, op);
      Answer(Books(b.balances[op.wallet := row.after], b.rows + [row]), Done(row))
  }

  function DoAll(b: Books, ops: seq<Op>): Books
    decreases |ops|
  {
    if ops == [] then b else DoAll(Do(b, ops[0]).books, ops[1..])
  }

  // ----- what every credit and debit keeps -----

  function SumFor(rows: seq<Row>, w: Wallet): int {
    if rows == [] then 0
    else SumFor(rows[..|rows| - 1], w) + if rows[|rows| - 1].wallet == w then rows[|rows| - 1].amount else 0
  }

  lemma SumSnoc(rows: seq<Row>, row: Row)
    ensures forall w :: SumFor(rows + [row], w) == SumFor(rows, w) + if row.wallet == w then row.amount else 0
  {
    assert (rows + [row])[..|rows|] == rows;
  }

  /** No two entries of one kind share a reference. */
  predicate Unique(rows: seq<Row>) {
    forall i, j | 0 <= i < j < |rows| ::
      rows[i].reference.Some? && rows[i].reference == rows[j].reference ==> rows[i].kind != rows[j].kind
  }

  /** Each entry takes up the balance its predecessors left. */
  predicate Linked(rows: seq<Row>) {
    forall i :: 0 <= i < |rows| ==> rows[i].before == SumFor(rows[..i], rows[i].wallet)
                                    && rows[i].after == rows[i].before + rows[i].amount && 0 <= rows[i].after
  }

  ghost predicate BooksOk(b: Books) {
    && Unique(b.rows)
    && Linked(b.rows)
    && (forall w :: w in b.balances ==> 0 <= b.balances[w])
    && (forall w :: BalanceOf(b, w) == SumFor(b.rows, w))
  }

  /** Appending an entry that takes up the balance and carries a new reference. */
  lemma AppendKeepsBooks(b: Books, row: Row)
    requires BooksOk(b)
    requires row.before == BalanceOf(b, row.wallet) && row.after == row.before + row.amount && 0 <= row.after
    requires row.reference.Some? ==> forall r :: r in b.rows ==> !Matches(r, row.reference, row.kind)
    ensures BooksOk(Books(b.balances[row.wallet := row.after], b.rows + [row]))
  {
    hide SumFor;
    var rows := b.rows + [row];
    SumSnoc(b.rows, row);
    forall i | 0 <= i < |rows|
      ensures rows[..i] == if i < |b.rows| then b.rows[..i] else b.rows
    {
    }
    assert Linked(rows);
    assert forall i :: 0 <= i < |b.rows| ==> b.rows[i] in b.rows;
    assert Unique(rows);
  }

  lemma DoKeepsBooks(b: Books, op: Op)
    requires BooksOk(b)
    ensures BooksOk(Do(b, op).books)
    ensures Do(b, op).books == b || (Do(b, op).reply.Done? && Do(b, op).books.rows == b.rows + [Do(b, op).reply.row])
    ensures op.amount > 0 && Do(b, op).reply.Done? ==>
              Do(b, op).reply.row in Do(b, op).books.rows
              && Matches(Do(b, op).reply.row, op.reference, op.kind)
  {
    hide SumFor, Linked, Unique;
    if Do(b, op).books.rows != b.rows {
      AppendKeepsBooks(b, Posted(b, op));
    }
  }

  /** A credit raises and a debit lowers exactly its own wallet, by exactly the amount; it takes effect exactly when the
      amount is positive, a debit is covered, and no entry of its kind carries its reference.  Without a reference
      nothing can be taken. */
  lemma DoEffect(b: Books, op: Op)
    ensures var taken := op.reference.Some? && exists row :: row in b.rows && Matches(row, op.reference, op.kind);
            var before := BalanceOf(b, op.wallet);
            var after := if op.credit then before + op.amount else before - op.amount;
            if 0 < op.amount && !taken && (op.credit || op.amount <= before)
            then
              && Do(b, op).books.rows
                 == b.rows + [Row(op.wallet, after - before, before, after, op.kind, op.reference)]
              && BalanceOf(Do(b, op).books, op.wallet) == after
              && (forall w :: w != op.wallet ==> BalanceOf(Do(b, op).books, w) == BalanceOf(b, w))
            else Do(b, op).books == b
    ensures Do(b, op).reply == Refused(InsufficientBalance) ==> !op.credit && BalanceOf(b, op.wallet) < op.amount
  {
  }

  lemma {:induction false} DoAllKeepsBooks(b: Books, ops: seq<Op>)
    requires BooksOk(b)
    ensures BooksOk(DoAll(b, ops)) && b.rows <= DoAll(b, ops).rows
    decreases |ops|
  {
    hide BooksOk, Do;
    if ops != [] {
      DoKeepsBooks(b, ops[0]);
      DoAllKeepsBooks(Do(b, ops[0]).books, ops[1..]);
    }
  }

  lemma EmptyBooksOk()
    ensures BooksOk(EMPTY_BOOKS)
  {
  }

  /** An entry found under a reference is the only one. */
  lemma FoundIsOnly(b: Books, row: Row, reference: Option<Reference>, kind: Kind)
    requires BooksOk(b) && row in b.rows && Matches(row, reference, kind) && reference.Some?
    ensures Find(b.rows, reference, kind) == Some(row)
  {
    hide SumFor;
    var found := Find(b.rows, reference, kind).value;
    var i :| 0 <= i < |b.rows| && b.rows[i] == row;
    var j :| 0 <= j < |b.rows| && b.rows[j] == found;
  }

  /** In any run, the entry of an applied operation with a reference, empty or not, stays the one stored under it. */
  lemma AppliedStaysFound(earlier: seq<Op>, first: Op, between: seq<Op>)
    requires first.reference.Some? && Do(DoAll(EMPTY_BOOKS, earlier), first).reply.Done?
    ensures var done := Do(DoAll(EMPTY_BOOKS, earlier), first);
            Find(DoAll(done.books, between).rows, first.reference, first.kind) == Some(done.reply.row)
  {
    hide BooksOk;
    EmptyBooksOk();
    DoAllKeepsBooks(EMPTY_BOOKS, earlier);
    var b := DoAll(EMPTY_BOOKS, earlier);
    DoKeepsBooks(b, first);
    var done := Do(b, first);
    DoAllKeepsBooks(done.books, between);
    var later := DoAll(done.books, between);
    assert done.reply.row in later.rows;
    FoundIsOnly(later, done.reply.row, first.reference, first.kind);
  }

  /** In any run, once a referenced credit or debit has been applied, any later one with the same reference
      and kind, whatever its wallet or amount, changes nothing and returns the earlier entry. */
  lemma ReplayReturnsEarlierEntry(earlier: seq<Op>, first: Op, between: seq<Op>, again: Op)
    requires Referenced(first.reference) && Do(DoAll(EMPTY_BOOKS, earlier), first).reply.Done?
    requires again.reference == first.reference && again.kind == first.kind && 0 < again.amount
    ensures var done := Do(DoAll(EMPTY_BOOKS, earlier), first);
            var later := DoAll(done.books, between);
            Do(later, again) == Answer(later, done.reply)
  {
    hide DoAll;
    AppliedStaysFound(earlier, first, between);
  }

  /** An empty name protects against a second entry only by being refused: once an operation under it has been
      applied, any later one of its kind fails and leaves the books as they are. */
  lemma EmptyNameIsRefused(earlier: seq<Op>, first: Op, between: seq<Op>, again: Op)
    requires first.reference == Some(Named("")) && Do(DoAll(EMPTY_BOOKS, earlier), first).reply.Done?
    requires again.reference == first.reference && again.kind == first.kind && 0 < again.amount
    ensures var later := DoAll(Do(DoAll(EMPTY_BOOKS, earlier), first).books, between);
            Do(later, again).books == later && Do(later, again).reply.Refused?
  {
    hide DoAll;
    AppliedStaysFound(earlier, first, between);
  }

  /** Exactly when a repetition is idempotent: in any run, with any reference or none, a later operation with the
      reference and kind of an applied one leaves the books and returns the earlier entry just when the
      reference is present and not empty.  With an empty one it is refused; with none it is a new operation. */
  lemma RepetitionIsIdempotentExactly(earlier: seq<Op>, first: Op, between: seq<Op>, again: Op)
    requires Do(DoAll(EMPTY_BOOKS, earlier), first).reply.Done?
    requires again.reference == first.reference && again.kind == first.kind && 0 < again.amount
    ensures var done := Do(DoAll(EMPTY_BOOKS, earlier), first);
            var later := DoAll(done.books, between);
            && (Do(later, again) == Answer(later, done.reply) <==> Referenced(first.reference))
            && (Do(later, again).books == later <==> first.reference.Some? || Do(later, again).reply.Refused?)
  {
    hide BooksOk, DoAll;
    if Referenced(first.reference) {
      ReplayReturnsEarlierEntry(earlier, first, between, again);
    } else if first.reference.Some? {
      EmptyNameIsRefused(earlier, first, between, again);
    }
  }

  /** In any run every balance is the sum of its wallet's entries, is never negative, and each entry takes up
      the balance its predecessors left; at most one entry of a kind carries a given reference. */
  lemma BalancesAreSums(ops: seq<Op>, w: Wallet)
    ensures var b := DoAll(EMPTY_BOOKS, ops);
            0 <= BalanceOf(b, w) == SumFor(b.rows, w) && Linked(b.rows) && Unique(b.rows)
  {
    EmptyBooksOk();
    DoAllKeepsBooks(EMPTY_BOOKS, ops);
  }

  /** A run with every applied, referenced operation repeated at the end is the run without the repetition. */
  lemma {:induction false} RepeatedRunIsSame(ops: seq<Op>, again: seq<Op>)
    requires forall op :: op in again ==>
               Referenced(op.reference) && 0 < op.amount
               && Find(DoAll(EMPTY_BOOKS, ops).rows, op.reference, op.kind).Some?
    ensures DoAll(DoAll(EMPTY_BOOKS, ops), again) == DoAll(EMPTY_BOOKS, ops)
    decreases |again|
  {
    if again != [] {
      assert again[0] in again;
      RepeatedRunIsSame(ops, again[1..]);
    }
  }
}

/**
 * Crypto deposits: a webhook or a direct verification credits the wallet in one commit and marks the order
 * verified in a second one; between the two the process may die and others may run.
 */
module CryptoDeposits {
  import opened Options
  import opened CryptoLedger

  datatype DepositStatus = PendingPayment | Verified | DepositFailed
  datatype DepositOrder = DepositOrder(user: int, amount: int, status: DepositStatus)

  /** A process between its credit and its second commit, or idle. */
  datatype Process = Idle | Credited(order: int)

  datatype System = System(books: Books, orders: map<int, DepositOrder>, processes: map<int, Process>)

  const START := System(EMPTY_BOOKS, map[], map[])

  function DepositOp(id: int, o: DepositOrder): Op {
    Op(true, Wallet(o.user, Trx), o.amount, Deposit, Some(OrderRef(id)))
  }

  /** `Post` is any other credit or debit; `Settle` is the credit of a verified order, by a process whose view
      of the order's status may be out of date when `stale`; `Finish` is that process's second commit. */
  datatype Step =
    | Post(credit: bool, wallet: Wallet, amount: int, kind: Kind, name: Option<string>)
    | Create(order: int, user: int, amount: int)
    | Settle(process: int, order: int, stale: bool)
    | Finish(process: int)
    | Reject(order: int)
    | Crash(process: int)

  function PostOp(s: Step): Op
    requires s.Post?
  {
    Op(s.credit, s.wallet, s.amount, s.kind, if s.name == None then None else Some(Named(s.name.value)))
  }

  function ProcessOf(s: System, p: int): Process {
    if p in s.processes then s.processes[p] else Idle
  }

  predicate CanSettle(s: System, p: int, id: int, stale: bool) {
    && ProcessOf(s, p).Idle? && id in s.orders
    && (stale || !s.orders[id].status.Verified?)
  }

  function Next(s: System, step: Step): System {
    match step
    case Post(_, _, _, _, _) => s.(books := Do(s.books, PostOp(step)).books)
    case Create(id, user, amount) =>
      if id in s.orders then s else s.(orders := s.orders[id := DepositOrder(user, amount, PendingPayment)])
    case Settle(p, id, stale) =>
      if !CanSettle(s, p, id, stale) then s
      else
        var answer := Do(s.books, DepositOp(id, s.orders[id]));
        if answer.reply.Done? then s.(books := answer.books, processes := s.processes[p := Credited(id)]) else s
    case Finish(p) =>
      (match ProcessOf(s, p)
       case Idle => s
       case Credited(id) =>
         if id !in s.orders then s
         else s.(orders := s.orders[id := s.orders[id].(status := Verified)], processes := s.processes[p := Idle]))
    case Reject(id) =>
      if id in s.orders && !s.orders[id].status.Verified?
      then s.(orders := s.orders[id := s.orders[id].(status := DepositFailed)]) else s
    case Crash(p) => s.(processes := s.processes[p := Idle])
  }

  function Schedule(s: System, steps: seq<Step>): System
    decreases |steps|
  {
    if steps == [] then s else Schedule(Next(s, steps[0]), steps[1..])
  }

  /** The order has been credited: its entry is there, to its user and with its amount. */
  predicate Paid(rows: seq<Row>, id: int, o: DepositOrder) {
    exists row :: row in rows && Matches(row, Some(OrderRef(id)), Deposit)
                  && row.wallet == Wallet(o.user, Trx) && row.amount == o.amount
  }

  ghost predicate Ok(s: System) {
    && BooksOk(s.books)
    && (forall id :: id in s.orders && s.orders[id].status.Verified? ==> Paid(s.books.rows, id, s.orders[id]))
    && (forall p :: p in s.processes && s.processes[p].Credited? ==>
          s.processes[p].order in s.orders
          && Paid(s.books.rows, s.processes[p].order, s.orders[s.processes[p].order]))
    && (forall row :: row in s.books.rows && row.reference.Some? && row.reference.value.OrderRef? ==>
          var id := row.reference.value.order;
          id in s.orders && Matches(row, Some(OrderRef(id)), Deposit)
          && row.wallet == Wallet(s.orders[id].user, Trx) && row.amount == s.orders[id].amount)
  }

  lemma PaidStays(rows: seq<Row>, more: seq<Row>, id: int, o: DepositOrder, o': DepositOrder)
    requires Paid(rows, id, o) && rows <= more && o'.user == o.user && o'.amount == o.amount
    ensures Paid(more, id, o')
  {
    var row :| row in rows && Matches(row, Some(OrderRef(id)), Deposit)
               && row.wallet == Wallet(o.user, Trx) && row.amount == o.amount;
    assert row in more;
  }

  lemma NextIsOk(s: System, step: Step)
    requires Ok(s)
    ensures Ok(Next(s, step))
    ensures s.books.rows <= Next(s, step).books.rows
    ensures forall id :: id in s.orders ==>
              id in Next(s, step).orders
              && Next(s, step).orders[id].user == s.orders[id].user
              && Next(s, step).orders[id].amount == s.orders[id].amount
              && (s.orders[id].status.Verified? ==> Next(s, step).orders[id].status.Verified?)
  {
    hide BooksOk, Do, Paid;
    var s' := Next(s, step);
    match step {
      case Post(_, _, _, _, _) =>
        DoKeepsBooks(s.books, PostOp(step));
        Grows(s, s');
        NewRow(s, step);
      case Settle(p, id, stale) =>
        if CanSettle(s, p, id, stale) && Do(s.books, DepositOp(id, s.orders[id])).reply.Done? {
          DoKeepsBooks(s.books, DepositOp(id, s.orders[id]));
          Grows(s, s');
          SettlePays(s, id);
        }
      case _ =>
        Grows(s, s');
    }
  }

  /** What was paid stays paid while rows and orders are only added to. */
  lemma Grows(s: System, s': System)
    requires s.books.rows <= s'.books.rows
    requires forall id :: id in s.orders ==> id in s'.orders && s'.orders[id].user == s.orders[id].user
                                              && s'.orders[id].amount == s.orders[id].amount
    ensures forall id :: id in s.orders && Paid(s.books.rows, id, s.orders[id]) ==>
              Paid(s'.books.rows, id, s'.orders[id])
  {
    forall id | id in s.orders && Paid(s.books.rows, id, s.orders[id])
      ensures Paid(s'.books.rows, id, s'.orders[id])
    {
      PaidStays(s.books.rows, s'.books.rows, id, s.orders[id], s'.orders[id]);
    }
  }

  /** Another caller's posting adds no entry for a deposit order. */
  lemma NewRow(s: System, step: Step)
    requires step.Post?
    ensures forall row :: row in Do(s.books, PostOp(step)).books.rows ==>
              row in s.books.rows || row.reference == None || row.reference.value.Named?
  {
  }

  /** Crediting an order pays it, whether the entry is new or was found. */
  lemma SettlePays(s: System, id: int)
    requires Ok(s) && id in s.orders && Do(s.books, DepositOp(id, s.orders[id])).reply.Done?
    ensures var books := Do(s.books, DepositOp(id, s.orders[id])).books;
            && Paid(books.rows, id, s.orders[id])
            && (forall row :: row in books.rows ==>
                  row in s.books.rows
                  || (Matches(row, Some(OrderRef(id)), Deposit)
                      && row.wallet == Wallet(s.orders[id].user, Trx) && row.amount == s.orders[id].amount))
  {
    hide BooksOk;
    var answer := Do(s.books, DepositOp(id, s.orders[id]));
    DoKeepsBooks(s.books, DepositOp(id, s.orders[id]));
    assert answer.reply.row in answer.books.rows;
  }

  lemma StartIsOk()
    ensures Ok(START)
  {
    EmptyBooksOk();
  }

  lemma {:induction false} ScheduleIsOk(s: System, steps: seq<Step>)
    requires Ok(s)
    ensures Ok(Schedule(s, steps))
    ensures forall id :: id in s.orders && s.orders[id].status.Verified? ==>
              id in Schedule(s, steps).orders && Schedule(s, steps).orders[id].status.Verified?
    decreases |steps|
  {
    hide Ok, Next;
    if steps != [] {
      NextIsOk(s, steps[0]);
      ScheduleIsOk(Next(s, steps[0]), steps[1..]);
    }
  }

  /** However webhooks, direct verifications, rejections and deaths between the two commits interleave: no two
      entries credit one order, an entry for an order goes to its user with its amount, a verified order has
      exactly one, and verified is never left. */
  lemma DepositCreditedAtMostOnce(steps: seq<Step>, more: seq<Step>, id: int)
    ensures var s := Schedule(START, steps);
            && (forall i, j | 0 <= i < j < |s.books.rows| ::
                  !(s.books.rows[i].reference == s.books.rows[j].reference == Some(OrderRef(id))))
            && (forall row :: row in s.books.rows && row.reference == Some(OrderRef(id)) ==>
                  id in s.orders && row.kind == Deposit
                  && row.wallet == Wallet(s.orders[id].user, Trx) && row.amount == s.orders[id].amount)
            && (id in s.orders && s.orders[id].status.Verified? ==>
                  && Paid(s.books.rows, id, s.orders[id])
                  && id in Schedule(s, more).orders && Schedule(s, more).orders[id].status.Verified?)
  {
    hide SumFor, Paid, Schedule;
    StartIsOk();
    ScheduleIsOk(START, steps);
    ScheduleIsOk(Schedule(START, steps), more);
    var rows := Schedule(START, steps).books.rows;
    forall i, j | 0 <= i < j < |rows|
      ensures !(rows[i].reference == rows[j].reference == Some(OrderRef(id)))
    {
      assert rows[i] in rows && rows[j] in rows;
    }
  }

  /** A settlement that is not cut short verifies the order, and raises the payer's TRX balance by exactly the order's
      amount when the order had no entry yet; nothing else moves. */
  lemma SettlementCredits(steps: seq<Step>, p: int, id: int)
    requires var s := Schedule(START, steps); CanSettle(s, p, id, false) && 0 < s.orders[id].amount
    ensures var s := Schedule(START, steps);
            var done, o := Next(Next(s, Settle(p, id, false)), Finish(p)), s.orders[id];
            var payer := Wallet(o.user, Trx);
            && done.orders == s.orders[id := DepositOrder(o.user, o.amount, Verified)]
            && BalanceOf(done.books, payer)
               == BalanceOf(s.books, payer) + (if Paid(s.books.rows, id, o) then 0 else o.amount)
            && (forall w :: w != payer ==> BalanceOf(done.books, w) == BalanceOf(s.books, w))
  {
    hide Schedule, SumFor, Do;
    StartIsOk();
    ScheduleIsOk(START, steps);
    var s := Schedule(START, steps);
    var o := s.orders[id];
    hide BooksOk;
    DoEffect(s.books, DepositOp(id, o));
    OrderCanBePaid(s.books, DepositOp(id, o));
  }

  /** A positive credit under an order's reference is never refused. */
  lemma OrderCanBePaid(b: Books, op: Op)
    requires op.credit && 0 < op.amount && Referenced(op.reference)
    ensures Do(b, op).reply.Done?
  {
  }

  /** The provider's refusal fails an order that is not verified, and changes nothing else. */
  lemma RejectionFails(s: System, id: int)
    ensures Next(s, Reject(id))
         == if id in s.orders && s.orders[id].status != Verified
            then s.(orders := s.orders[id := DepositOrder(s.orders[id].user, s.orders[id].amount, DepositFailed)])
            else s
  {
  }

  /** A process that dies between its two commits leaves an order that any later settlement completes without
      a second credit. */
  lemma CrashIsRepaired(steps: seq<Step>, p: int, q: int, id: int)
    requires var s := Schedule(START, steps);
             CanSettle(s, p, id, false) && ProcessOf(s, q).Idle? && q != p
             && Do(s.books, DepositOp(id, s.orders[id])).reply.Done?
    ensures var s := Schedule(START, steps);
            var died := Next(Next(s, Settle(p, id, false)), Crash(p));
            var repaired := Next(Next(died, Settle(q, id, false)), Finish(q));
            && died.orders == s.orders
            && repaired.books == died.books == Do(s.books, DepositOp(id, s.orders[id])).books
            && repaired.orders[id].status.Verified?
  {
    hide Ok, BooksOk, Do, Find;
    StartIsOk();
    ScheduleIsOk(START, steps);
    var s := Schedule(START, steps);
    CreditTwice(s.books, DepositOp(id, s.orders[id])) by { Unfold(s); }
  }

  lemma Unfold(s: System)
    requires Ok(s)
    ensures BooksOk(s.books)
  {
  }

  lemma CreditTwice(b: Books, op: Op)
    requires BooksOk(b) && Referenced(op.reference) && Do(b, op).reply.Done?
    ensures Do(Do(b, op).books, op) == Do(b, op)
  {
    hide BooksOk;
    DoKeepsBooks(b, op);
    FoundIsOnly(Do(b, op).books, Do(b, op).reply.row, op.reference, op.kind) by {
      DoKeepsBooks(b, op);
    }
  }
}
