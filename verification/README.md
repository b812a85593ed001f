# Money, escrow and retry in the shop bot

This project models the services of a Telegram shop that move money, hold stakes, and call machines that may
fail, and proves what those services promise. It has four components.

**Tokens and the Reaction Battle** (`TokenBooks`, `GameRules`, `GameInvariants`, `GameRuns`, `GameTheorems`,
`GameEffects`, `GameLifetime`, `PlayerStats`, `GameService`). Users hold tokens; a game locks one entry per player and is
paid out by one of two settlements or one of three refunds. `GameRules` gives each call as a step on the tables,
`GameService` does the same calls step by step on a session and is proved equal to them, and the theorems
speak about every run of any steps. `GameEffects` says of each single call when it is accepted, who pays and is paid
how much, and the rows it leaves, from the rows before the call and the numbers of the code.

**The toman wallet and its commit points** (`Pricing`, `ShopTables`, `ShopCalls`, `ShopInvariants`, `ShopRuns`,
`ShopFrames`, `ShopTheorems`, `ShopEffects`, `PurchaseEffects`, `TournamentFees`, `Reconciliation`, `Prizes`,
`RenewalCharges`, `PaymentProtocol`, and the service classes in `ShopSessions`, `ShopDeposits`, `ShopRenewals`,
`ShopTournaments`). Wallet credits and debits commit inside the call, so a purchase or a
webhook commits several times. `ShopCalls` gives for each call the list of states it commits; the service
classes work on a session with a working copy and a committed store, and are proved to commit exactly those
states. A crash run stops any call after any of its commits. `ShopEffects`, `PurchaseEffects` and `TournamentFees` say
of each call, from the rows it finds, when it is accepted, what it costs or pays and to whom. `PaymentProtocol` takes webhook deliveries apart
further: they lock the payment row, lose the lock at each commit, interleave, and die anywhere.
The crypto wallets (`CryptoLedger`, `CryptoService`) are a second ledger whose entries are idempotent by reference.

**VPN failover and renewal** (`Retry`, `Sorting`, `VpnPanels`, `Provisioning`, `Renewal`, `VpnService`, and `RenewalRefunds`, which joins it with the shop). A panel is a
user table behind calls that may be refused, fail, or take effect and lose the reply; how each attempt ends is
an arbitrary function, so the theorems hold for every behaviour of the panels.

**Smaller refinements** (`Catalogue`, `CatalogueRuns`, `CatalogueService`, `CheckIn`). The catalogue refines ordered
lists, and the check-in streak is the longest block of days.

`Ledgers` holds what all the token and toman books share: sums over tables and the append-only chained ledger.

## Findings

Places where the code does not do what its text says, each with the lemma that shows it.

- The header of `app/services/order_service.py` (lines 4-8) calls creating, paying and confirming an order one
  atomic unit. The debit commits on its own: `ShopTheorems.CrashPointDecides` says for each crash point what is
  left, and after the first commit that is a paid order in status PENDING that no revenue figure counts.
  What does hold at every commit point is in `ShopTheorems.OrdersArePaidOnce` and `ShopTheorems.CouponsAreUsedOnce`.
- The amount recorded on a PAID payment need not be the amount credited. Over all schedules that deliver given notices
  of a payment, the two agree exactly when all notices that can settle it, those that are paid and state at least the
  invoice, state one amount (`PaymentProtocol.AmountsAgreeExactly`). Otherwise a delivery that dies after its credit,
  followed by one that states another amount, leaves the two different (`PaymentProtocol.AmountsCanDiffer`).
- The comments in `app/services/product_service.py` (75-78) and `app/services/category_service.py` (83-86) say
  that `move` also works among equal sort orders. On any table it is the swap with the neighbour exactly when the two
  rows are apart: their numbers differ, and no third row with one of the numbers has an id that gets in between
  (`Ordering.MoveSwapsExactly`). `Ordering.TiedMovesAreNotSwaps` shows a row that does not move at all and one that
  jumps two places. Sort orders stay distinct from an empty or seeded database, where every move is exact
  (`Catalogues.CatalogueRefinesLists`).
- After a renewal whose traffic reset took effect but never answered, the local record shows the old usage;
  `Renewal.UsageAgreesUnlessResetLost` says exactly when.
- A renewal can move the panel's expiry back, after one that took effect but was reported failed. It does exactly when
  an attempt takes effect and the new date, counted from the record, lies before the panel's
  (`Renewal.ShortensExactly`); after such a failure, while the old expiry lies ahead, that is exactly when the second
  renewal is for fewer days (`Renewal.SecondRenewalShortensExactly`). It never happens in a run whose days never fall
  (`Renewal.AccessNeverShrinks`).
- An automatic renewal can refund the buyer although the panel was extended: exactly when it is reported failed, an
  attempt took effect, and the date differs (`RenewalRefunds.RefundedThoughExtended`). The other way round never happens:
  whoever is charged has the new date (`RenewalRefunds.NobodyPaysForNothing`).
- A repeated crypto credit or debit returns the earlier entry exactly when its reference is present and not empty
  (`CryptoLedger.RepetitionIsIdempotentExactly`). Under an empty name the lookup is skipped, and the unique constraint
  refuses the repetition (`CryptoLedger.EmptyNameIsRefused`). The one caller in the repository, the deposit service,
  always passes a generated, non-empty name.

## Model

| member | source | states |
|---|---|---|
| `Ledgers.ChainBalance` | app/services/wallet_service.py:53-69 | in a ledger whose rows each start where the user's last one stopped, the last balance is the sum of the user's amounts and is never negative |
| `Ledgers.ChainLinks` | app/services/wallet_service.py:84-103 | two consecutive rows of one user fit: the later starts at the balance the earlier left |
| `TokenBooks.PostKeepsBooks` | app/services/game_service.py:37-55 | a posting that leaves no negative balance keeps every balance and every spending counter equal to its ledger sum |
| `GameTheorems.TokensConserved` | app/services/game_service.py:37-340 | in every reachable state balances, stakes of open games, game fees and transfer fees add up to the tokens issued, and each balance is the non-negative sum of its user's rows |
| `GameTheorems.GameClosedForm` | app/services/game_service.py:177-340 | in every reachable state the rows of a game sum to minus its entry while waiting, minus two entries while active, minus the fee when completed and zero otherwise, likewise per player, and a platform fee row of exactly the fee exists just for completed games |
| `GameTheorems.OthersUntouched` | app/services/game_service.py:199-340 | a step on one game changes neither row, reactions nor ledger rows of another |
| `GameTheorems.ClosedForever` | app/services/game_service.py:199-229 | a completed, expired or cancelled game keeps its row, its reactions and its ledger rows through any run |
| `GameTheorems.StepsMakeProgress` | app/services/game_service.py:199-340 | any step that changes a game or its reactions strictly lowers a measure, so a game changes a bounded number of times |
| `GameTheorems.WinnersAreFirst` | app/services/game_service.py:240-335 | under a clock that never goes back both settlements name the two distinct players as winner and loser, the winner's time is at most the loser's, and the first to react wins unless the milliseconds tie |
| `GameTheorems.ReactionsAreFew` | app/services/game_service.py:240-294 | in every reachable state waiting and given-up games have no reaction, active ones at most one, completed ones one or two, always by different players of the game |
| `GameLifetime.PassClosesDueGames` | app/services/game_service.py:299-340 | an uncontended scheduler pass leaves no open game whose deadline has come |
| `GameLifetime.OpenGamesAreYoung` | app/services/game_service.py:440-448 | with uncontended passes at most a gap apart, a game still open is younger than the waiting limit, the active limit and two gaps together |
| `GameRuns.ApplyKeepsInv` | app/services/game_service.py:37-340 | every call keeps all accounts, game rows and reactions consistent |
| `GameRuns.FeeBounds` | app/services/game_service.py:103-110 | the fee is the greatest whole number of tokens within the percentage of the amount, and lies between nothing and the amount |
| `GameEffects.TransferEffect` | app/services/game_service.py:71-139 | with that fee a transfer is accepted exactly when amount, parties, percentage and blocking allow it and the sender covers amount and fee; the sender then loses both, the recipient gains the amount, the fee rows grow by the fee, and nobody else's row changes; a lack of tokens is the refusal exactly when only the balance is missing |
| `GameEffects.IssueEffect` | app/services/game_service.py:57-61 | a known user is issued exactly the positive amount asked for, under one row, and anything else changes nothing |
| `GameEffects.AdjustEffect` | app/services/game_service.py:141-153 | an adjustment moves one balance by its amount exactly when the result is not negative |
| `GameEffects.CreateEffect` | app/services/game_service.py:177-197 | a game is opened exactly within the limits by someone who can pay; the row holds twice the entry, a tenth of that rounded down as the fee, the rest as the reward, and the deadline of the waiting limit |
| `GameEffects.JoinEffect` | app/services/game_service.py:199-216 | in every consistent state a waiting game is joined exactly by another known user who covers the entry, who pays it; the ready time and the deadline are now plus the two settings in seconds |
| `GameEffects.CancelEffect` | app/services/game_service.py:218-229 | exactly the creator cancels, exactly a waiting game, and gets the entry back |
| `GameEffects.StartEffect` | app/services/game_service.py:231-238 | the phase of an active game starts once, at the moment of the call |
| `GameEffects.ReactEffect` | app/services/game_service.py:240-297 | a player who has not reacted is recorded with the whole milliseconds since the start; the first reaction is only recorded, the second pays the prize to the faster, or the query's choice of equals, the fee to the platform, and each player's half to the fee counters |
| `GameEffects.ExpireWaitingEffect` | app/services/game_service.py:299-311 | exactly a waiting game past its deadline expires, and its creator gets the entry back |
| `GameEffects.ExpireActiveEffect` | app/services/game_service.py:313-340 | exactly an active game past its deadline closes: both entries back when nobody reacted, else the prize to who did and the fee to the platform, with no fee counter moved |
| `PlayerStats.LossesAreLostGames` | app/services/game_service.py:342-366 | played games split into won and lost ones, so played minus wins is the number of games lost |
| `PlayerStats.GameLedgerOfPlayer` | app/services/game_service.py:261-335 | a player's game rows sum to prizes net of entries, less lost entries, less entries locked in open games |
| `PlayerStats.StatisticsAgree` | app/services/game_service.py:342-366 | in every reachable state played minus won is the number lost, and the player's game rows are prizes net of entries less lost and locked entries |
| `PlayerStats.ProfileOf` | app/services/game_service.py:342-366 | the profile's losses, lost tokens and rank are those of the game table |
| `GameServices.TokenService.Record` | app/services/game_service.py:37-55 | moves balance and counters and appends one row, or refuses a negative balance and changes nothing |
| `GameServices.TokenService.Credit` | app/services/game_service.py:57-61 | posts a positive amount to a known user, else refuses with the right error |
| `GameServices.TokenService.Debit` | app/services/game_service.py:63-69 | posts minus a covered positive amount, else refuses and changes nothing |
| `GameServices.TokenService.TransferTokens` | app/services/game_service.py:71-139 | the session performs exactly the transfer step, or refuses for exactly its reason, and stays consistent; what the step moves is `GameEffects.TransferEffect` |
| `GameServices.TokenService.AdminAdjust` | app/services/game_service.py:141-153 | the session performs exactly the adjustment step, or refuses a negative result |
| `GameServices.GameService.CreateGame` | app/services/game_service.py:177-197 | the session performs exactly the create step and stays consistent |
| `GameServices.GameService.JoinGame` | app/services/game_service.py:199-216 | the session performs exactly the join step and stays consistent |
| `GameServices.GameService.CancelGame` | app/services/game_service.py:218-229 | the session performs exactly the cancel step and stays consistent |
| `GameServices.GameService.StartReaction` | app/services/game_service.py:231-238 | opens the reaction phase once, else does nothing |
| `GameServices.GameService.ReactTo` | app/services/game_service.py:240-297 | the session performs exactly the reaction step, settling on the second reaction |
| `GameServices.GameService.ExpireWaitingGames` | app/services/game_service.py:299-311 | closes exactly the due waiting games whose rows are not held by others, each once, as a run of expiry steps |
| `GameServices.GameService.ExpireActiveGames` | app/services/game_service.py:313-340 | refunds or settles exactly the due active games whose rows are not held by others, each once |
| `Pricing.PriceOfRequest` | app/services/pricing_service.py:29-70 | a request is priced exactly when the row sells the quantity; the price is for the quantity asked, or one piece of a FIXED product, at the row's price, less the row's percentage, at most 90, rounded up, and names the list total exactly when a discount is active |
| `Pricing.StackedDiscounts` | app/services/pricing_service.py:40-70 | product discount and coupon together are within two units above the exact product of the percentages of the row's list total for the quantity asked, and the charge stays between 1 and that total |
| `Pricing.ChargeMonotone` | app/services/pricing_service.py:48-70 | of the quantities a row sells, a larger one never costs less |
| `ShopSessions.WalletService.Credit` | app/services/wallet_service.py:40-69 | posts the row, raises the balance and commits everything pending, or refuses and changes nothing |
| `ShopSessions.WalletService.Debit` | app/services/wallet_service.py:71-103 | posts minus a covered amount and commits everything pending, or refuses and changes nothing |
| `OrderServices.OrderService.CreateAndPay` | app/services/order_service.py:39-102 | commits exactly the states of a purchase without coupon, in order; a refusal leaves the committed database as it was, although the order was already pending in the session, and success leaves the order waiting for delivery; what these states hold is `PurchaseEffects.PurchaseCostsWhatItShould` |
| `OrderServices.OrderService.CreateAndPayWithCoupon` | app/services/order_service.py:104-174 | commits exactly the states of a purchase with a coupon, redeemed with the debit; a refusal, even after order and coupon were changed in the session, leaves the committed orders, ledger and coupons as they were; what these states hold is `PurchaseEffects.PurchaseCostsWhatItShould` |
| `OrderServices.OrderService.MarkDelivered` | app/services/order_service.py:228-236 | completes an order that waits for delivery, once |
| `OrderServices.OrderService.TotalRevenue` | app/services/order_service.py:259-265 | computes the sum of the prices of waiting and completed orders |
| `OrderServices.CouponService.Create` | app/services/coupon_service.py:88-106 | adds an unused coupon of 1 to 90 percent under a new code, else refuses |
| `OrderServices.CouponService.Validate` | app/services/coupon_service.py:48-61 | finds the coupon with the code and reports exactly why it cannot be used |
| `OrderServices.CouponService.RedeemLocked` | app/services/coupon_service.py:63-84 | marks an unused, unexpired coupon used by user and order, and refuses any other |
| `OrderServices.CouponService.Delete` | app/services/coupon_service.py:117-124 | removes an unused coupon only |
| `PurchaseEffects.PurchaseAcceptedExactly` | app/services/order_service.py:39-57 | a purchase is accepted exactly when the product is on sale in this quantity, key and coupon are usable and the wallet covers a positive price |
| `PurchaseEffects.PurchaseCostsWhatItShould` | app/services/order_service.py:39-174 | in any run with crashes the order of an accepted purchase has the quantity asked and the row's price, its final price is within two units above the list total less discount and coupon, the buyer alone pays exactly that, and the coupon is stored as used by buyer and order |
| `PurchaseEffects.PurchaseRewards` | app/services/order_service.py:77-101 | a completed purchase leaves the order waiting, counts it for the buyer, and pays the referrer the whole part of the percentage of the price exactly when there is one to pay, and nobody otherwise |
| `PurchaseEffects.NewCoupon` | app/services/coupon_service.py:88-106 | a coupon is created exactly for 1 to 90 percent under a new code and key, unused |
| `PurchaseEffects.RenewalAcceptedExactly` | app/services/auto_delivery_service.py:96-123 | an automatic renewal is accepted exactly for the caller's own service whose product is on sale at a positive price the wallet covers |
| `PurchaseEffects.RenewalWrites` | app/services/auto_delivery_service.py:123-179 | a renewal of a FIXED product costs its fixed price and of any other its unit price; then the new date and a completed order, or the same price back and a refunded one |
| `PurchaseEffects.VpnRenewalAcceptedExactly` | app/services/vpn_renewal_service.py:66-100 | this renewal is accepted exactly for the caller's own service, from an order of a VPN product that sells one piece, on an active panel, at a positive price the wallet covers |
| `PurchaseEffects.VpnRenewalWrites` | app/services/vpn_renewal_service.py:66-138 | the renewal costs one piece of the product first bought less its active discount, and a failure gives exactly that back |
| `ShopTheorems.OrdersArePaidOnce` | app/services/order_service.py:47-70 | whatever call dies after whatever commit, each order has exactly one purchase row of exactly minus its final price, and no such row lacks its order |
| `ShopTheorems.RefundsMatchStatus` | app/services/auto_delivery_service.py:123-179 | whatever crashes, a renewal order is refunded at most once, fully when its status is REFUNDED and not at all when COMPLETED |
| `ShopTheorems.CouponsAreUsedOnce` | app/services/coupon_service.py:63-84 | whatever crashes, used coupons and orders that carry a code correspond one to one |
| `ShopTheorems.CrashPointDecides` | app/services/order_service.py:39-102 | for each number of commits survived, what a purchase leaves in wallet, order status and revenue |
| `ShopRuns.CrashRunIsSafe` | app/services/wallet_service.py:40-103 | every state any call commits, in any run with crashes after any commit, keeps wallets equal to the ledger and orders, coupons, requests and payments matched with their rows |
| `ShopRuns.EveryCommitIsSafe` | app/services/order_service.py:39-174 | each intermediate commit of each call is consistent, not just the last one |
| `Reconciliation.WalletsReconcile` | app/services/order_service.py:259-265 | after calls that completed, all wallets total approved toman deposits plus credited payments plus cashbacks, less revenue, renewal takings and tournament takings |
| `Reconciliation.LedgerSplits` | app/services/wallet_service.py:57-67 | the ledger total is the sum over the classes of references, none counted twice |
| `Reconciliation.CallKeepsClean` | app/services/deposit_service.py:115-168 | every completed call keeps each table reconciled with its class of ledger rows |
| `RenewalCharges.RefundsNeverExceedCharges` | app/services/vpn_renewal_service.py:89-125 | whatever call dies after whatever commit, the refunds of a service's renewals at a moment never exceed their charges, and the takings are never negative |
| `Prizes.PrizePaidOnceToWinner` | app/services/tournament_service.py:223-263 | whatever call dies after whatever commit, a tournament has exactly one prize row, of the prize's amount, to its stored winner and participant, when it is settled with winner and prize, and none otherwise |
| `Prizes.StoredWinnerWasBest` | app/services/tournament_service.py:237-250 | whatever crashes, the stored winner of a settled tournament was at its settlement a participant of maximal positive score, and there is none only if nobody had scored |
| `Prizes.TournamentClosedForm` | app/services/tournament_service.py:97-163 | after completed calls participants are distinct known users, entries sum to minus the fees, refunds to the fees when cancelled and zero otherwise, and the prize is one row to the winner when settled with one and none otherwise |
| `TournamentFees.FeesUserByUser` | app/services/tournament_service.py:97-163 | after completed calls each participant of a tournament with a fee has exactly one row that pays it and, exactly when it is cancelled, exactly one that gives it back; every other user has neither |
| `TournamentFees.CancelRefundsEach` | app/services/tournament_service.py:97-127 | in every state completed calls reach, a cancellation of an active or ended tournament raises the wallet of each participant by exactly the fee and no other wallet |
| `TournamentFees.JoinPaysFee` | app/services/tournament_service.py:131-163 | a join is accepted exactly in an active tournament, once, with the fee covered, and only the joiner pays exactly the fee |
| `ShopEffects.SettlementPaysPrize` | app/services/tournament_service.py:223-263 | settling an active or ended tournament stores the winner and credits the winner alone with exactly the prize, in one commit, or keeps nothing when the prize cannot be credited; any other tournament is left |
| `Reconciliation.WinnerIsBest` | app/services/tournament_service.py:223-241 | the winner is a participant of maximal positive score, and there is none only when nobody scored |
| `DepositServices.DepositService.CreateRequest` | app/services/deposit_service.py:32-65 | stores a request that awaits its decision, or refuses a non-positive amount |
| `DepositServices.DepositService.Approve` | app/services/deposit_service.py:115-168 | decides a request once; decision and toman credit are one commit |
| `DepositServices.DepositService.Reject` | app/services/deposit_service.py:170-194 | rejects an undecided request only |
| `DepositServices.PaymentService.CreateDeposit` | app/services/payment_service.py:29-73 | stores a pending payment, or a failed one when the provider fails |
| `DepositServices.PaymentService.HandleTronadoWebhook` | app/services/payment_service.py:82-161 | commits exactly the states of one delivery: nothing, a marked row, or the credit and then the PAID row |
| `ShopEffects.RequestStored` | app/services/deposit_service.py:32-65 | a request is stored undecided exactly for positive amounts, with a token amount only for tokens |
| `ShopEffects.ApprovalCredits` | app/services/deposit_service.py:115-168 | an undecided request is approved once, in one commit, which credits the asker with exactly the amount asked when it is in toman and moves no toman when it is in tokens |
| `ShopEffects.UnpaidNoticeMarks` | app/services/payment_service.py:103-118 | a notice that reports no payment moves no money and rejects the payment exactly when the provider refused it, else leaves it pending; the first stated reference stays |
| `ShopEffects.PaidNoticeCredits` | app/services/payment_service.py:120-159 | too little is marked UNDERPAID without credit; otherwise the payer is credited with the whole stated amount, unless a row for the payment exists, and that amount is recorded as paid |
| `ShopEffects.UnclearNoticeIsRefused` | app/services/payment_service.py:120-129 | a paid notice without a positive amount of its own, and none to be had for a known reference, keeps nothing |
| `ShopEffects.AutoDeliveryCompletes` | app/services/auto_delivery_service.py:44-93 | an automatic delivery stores the account made and then completes the order as delivered by the API; without an account nothing changes |
| `ShopEffects.SignupOpensWallet` | app/services/user_service.py:24-73 | a new user starts with an empty wallet, and the referrer counts exactly when it is another known user |
| `PaymentProtocol.CreditedExactlyOnce` | app/services/payment_service.py:90-159 | for any number of interleaved deliveries that lose their lock at each commit and may die anywhere, a payment is credited at most once, to its user, with at least the invoiced amount, and PAID implies exactly once |
| `PaymentProtocol.PaidForever` | app/services/payment_service.py:100-118 | a payment that is PAID stays PAID through any schedule |
| `PaymentProtocol.AgreeingAmounts` | app/services/payment_service.py:120-158 | when all notices that can settle a payment state one amount, every schedule of them credits and records that amount |
| `PaymentProtocol.AmountsCanDiffer` | app/services/payment_service.py:147-158 | two deliveries that can settle, the first dying after its credit, leave the first's amount in the wallet and the second's on the row, in a schedule from the empty database |
| `PaymentProtocol.AmountsAgreeExactly` | app/services/payment_service.py:90-158 | recorded and credited amount agree in every schedule over given notices exactly when all notices that are paid and state at least the invoice state one amount |
| `PaymentProtocol.UninterruptedIsSequential` | app/services/payment_service.py:82-161 | the moves of one uninterrupted delivery leave exactly the last state the sequential webhook commits, and no lock |
| `RenewalServices.AutoDelivery.TryAutoDeliver` | app/services/auto_delivery_service.py:44-93 | stores the service, then completes the order, whatever its status was, or changes nothing when no panel answers |
| `RenewalServices.AutoDelivery.TryAutoRenew` | app/services/auto_delivery_service.py:96-179 | commits exactly the states of a renewal: paid order, then extension and completion, or refund and REFUNDED |
| `RenewalServices.VPNRenewalService.RenewService` | app/services/vpn_renewal_service.py:66-138 | commits the debit, then the new date or the refund of the same amount, and reports failure in the latter case |
| `TournamentServices.TournamentService.Join` | app/services/tournament_service.py:131-163 | commits the fee and then the participant, and refuses closed tournaments, second joins and uncovered fees |
| `TournamentServices.TournamentService.Cancel` | app/services/tournament_service.py:97-127 | commits one refund per participant and then the status; who gets it is `TournamentFees.CancelRefundsEach` |
| `TournamentServices.TournamentService.EndNow` | app/services/tournament_service.py:85-95 | ends an active tournament only |
| `TournamentServices.TournamentService.Leaderboard` | app/services/tournament_service.py:200-219 | returns the first rows of the sorted board of known participants |
| `TournamentServices.BoardIsSorted` | app/services/tournament_service.py:210-219 | the board holds the same rows by falling score |
| `TournamentServices.BoardStartsWithLeader` | app/services/tournament_service.py:218-241 | the first row of the sorted board is the earliest participant among those with the highest score |
| `TournamentServices.TournamentService.Settle` | app/services/tournament_service.py:223-263 | fixes status, winner and prize in one commit, and refuses settled and cancelled tournaments |
| `CryptoLedger.ReplayReturnsEarlierEntry` | app/services/crypto_wallet_service.py:46-140 | in any run, a credit or debit repeated later under the reference and kind of one already applied changes nothing and returns the earlier entry |
| `CryptoLedger.EmptyNameIsRefused` | app/services/crypto_wallet_service.py:46-50 | after an operation under an empty name, any later one of its kind is refused and changes nothing |
| `CryptoLedger.RepetitionIsIdempotentExactly` | app/services/crypto_wallet_service.py:46-140 | in any run a repetition, with any reference or none, returns the earlier entry and changes nothing exactly when the reference is present and not empty |
| `CryptoLedger.RepeatedRunIsSame` | app/services/crypto_wallet_service.py:79-118 | repeating any list of applied referenced operations leaves the very same books |
| `CryptoLedger.BalancesAreSums` | app/models/crypto_wallet.py:50-77 | in any run each balance is the non-negative sum of its wallet's entries, entries link up, and no reference occurs twice in a kind |
| `CryptoLedger.DoEffect` | app/services/crypto_wallet_service.py:59-140 | a credit raises and a debit lowers exactly its own wallet by exactly the amount, and takes effect exactly when the amount is positive, a debit is covered and no entry of its kind has its reference |
| `CryptoLedger.DoKeepsBooks` | app/services/crypto_wallet_service.py:59-140 | a credit or debit keeps the books and either changes nothing or appends the entry it returns |
| `CryptoDeposits.DepositCreditedAtMostOnce` | app/services/crypto_deposit_service.py:112-171 | however webhooks, direct verifications, rejections and deaths between the two commits interleave, an order is credited at most once, to its user, with its amount; VERIFIED implies it was, and is never left |
| `CryptoDeposits.SettlementCredits` | app/services/crypto_deposit_service.py:112-135 | in any reachable system an uncut settlement verifies the order and raises the payer's balance by exactly its amount unless it was credited before, and no other balance |
| `CryptoDeposits.CrashIsRepaired` | app/services/crypto_deposit_service.py:123-134 | after a death between credit and VERIFIED, a later settlement completes the order without a second credit |
| `CryptoServices.CryptoWalletService.Credit` | app/services/crypto_wallet_service.py:59-100 | books and reply are those of one credit of the ledger |
| `CryptoServices.CryptoWalletService.Debit` | app/services/crypto_wallet_service.py:102-140 | books and reply are those of one debit of the ledger |
| `CryptoServices.CryptoDepositService.CreateDepositRequest` | app/services/crypto_deposit_service.py:60-102 | stores a pending order with the quoted amount, or nothing when the provider fails |
| `CryptoServices.CryptoDepositService.MarkVerifiedAndCredit` | app/services/crypto_deposit_service.py:112-135 | performs the settling step and then the finishing step of the protocol, unless the credit is refused |
| `CryptoServices.CryptoDepositService.HandleWebhook` | app/services/crypto_deposit_service.py:137-171 | a delivery settles, rejects or leaves the order, by the provider's verification, and reports exactly why a verified deposit could not be credited |
| `Retry.RetryProviderCall` | app/core/retry.py:23-53 | makes exactly the attempts up to the first that ends the retry, and waits exactly the doubling delays |
| `Retry.RetryOutcome` | app/core/retry.py:36-53 | a retried call succeeds exactly when an allowed attempt does after only retryable failures, and fails exactly on a refusal or a last failure so reached |
| `Retry.DelaysTotal` | app/core/retry.py:48-53 | the waits before attempt n+1 total the base delay times 2^n - 1 |
| `Sorting.SortIsStable` | app/services/vpn_provisioning_service.py:52-55 | the sort permutes its list, orders it by the key and keeps the previous order among equal keys |
| `VpnPanels.PickedInOrder` | app/services/vpn_provisioning_service.py:46-55 | the panels tried are exactly the active ones, strictly ordered by priority, then health, then id |
| `Provisioning.FailoverPicksLeast` | app/services/vpn_provisioning_service.py:101-146 | the account is created on exactly the least active panel whose retried call succeeds, and provisioning fails exactly when all fail |
| `Provisioning.TrialsAreBounded` | app/services/vpn_provisioning_service.py:57-71 | panels are tried in order, at most four times with waits of 1, 2 and 4, and each one left behind refused outright or failed four times |
| `Provisioning.CreatedAsAsked` | app/services/vpn_provisioning_service.py:108-142 | the chosen panel holds an active, unused account with the limit and expiry asked for, and untried panels are unchanged |
| `VpnServices.VPNProvisioningService.ProvisionForUser` | app/services/vpn_provisioning_service.py:83-146 | the loop tries, waits and records exactly as the search does; the stored record is the request's user, order, product, name, limit and expiry, and equals the account its panel holds |
| `VpnServices.ProvisionedShowsPanel` | app/services/vpn_provisioning_service.py:101-146 | the record of a created account lives on the least active panel that answers and agrees with it in limit, usage, status and expiry |
| `VpnServices.ProvisionedRenewals` | app/services/vpn_provisioning_service.py:83-212 | of every account the service created, any run of renewals is counted from the expiry asked for, and while the days never fall the panel never grants less than that |
| `VpnServices.RenewalReachesPanel` | app/services/vpn_provisioning_service.py:166-171 | a renewal reaches the panel exactly when the service is known and its panel is active |
| `VpnServices.VPNProvisioningService.RenewService` | app/services/vpn_provisioning_service.py:148-212 | panel and record end as one renewal leaves them, or the call is refused before the panel is asked |
| `Renewal.ModifyIsIdempotent` | app/services/vpn_provisioning_service.py:184-190 | any number of attempts that take effect leave the panel as a single one would |
| `Renewal.RenewalExtendsOnce` | app/services/vpn_provisioning_service.py:173-212 | a renewal that reports success moved the panel to the one new date, and account and record are active and agree; one that fails left the record alone, and the panel has the new date exactly when some attempt took effect |
| `Renewal.RenewalDate` | app/services/vpn_provisioning_service.py:173-190 | a successful renewal by d days ends d times 86,400 seconds after the later of the recorded expiry and now, and one by no days leaves the date |
| `Renewal.UsageAgreesUnlessResetLost` | app/services/vpn_provisioning_service.py:191-210 | the recorded usage is the panel's exactly unless a reset of some usage took effect and its reply was lost for good |
| `Renewal.RenewalClosedForm` | app/services/vpn_provisioning_service.py:173-180 | after any run the recorded expiry is the greatest of the old expiry plus all days and of each successful renewal's moment plus the days from it on |
| `Renewal.RunCountsSuccesses` | app/services/vpn_provisioning_service.py:173-212 | over any run with failures and lost replies the recorded expiry counts exactly the renewals that reported success |
| `Renewal.EarlyRenewalsLoseNothing` | app/services/vpn_provisioning_service.py:176-180 | no time is lost exactly when each renewal comes before the expiry it extends |
| `Renewal.AccessNeverShrinks` | app/services/vpn_provisioning_service.py:173-212 | in any run of renewals whose days never fall no renewal, reported failed or not, shortens the panel's expiry, and the panel is at most one renewal ahead of the record |
| `Renewal.AccessOutlastsStart` | app/services/vpn_provisioning_service.py:173-212 | no run of such renewals leaves the panel with an earlier expiry than it started with |
| `Renewal.ShortensExactly` | app/services/vpn_provisioning_service.py:173-190 | a renewal makes the panel's expiry earlier exactly when it asks for days, an attempt takes effect, and the date counted from the record lies before it |
| `Renewal.SecondRenewalShortensExactly` | app/services/vpn_provisioning_service.py:173-190 | after a renewal that took effect but was reported failed, a successful one sets the panel to its own date from the same record, earlier exactly when it is for fewer days while the old expiry lies ahead |
| `RenewalRefunds.RefundedThoughExtended` | app/services/auto_delivery_service.py:136-179 | with the panel's part included, the buyer is charged exactly when the renewal reports success and refunded otherwise, and is refunded although the date moved exactly when it reports failure, an attempt took effect and the date differs |
| `RenewalRefunds.NobodyPaysForNothing` | app/services/auto_delivery_service.py:150-179 | for an agreeing record and a positive number of days, whoever is charged has the new, later date, and whoever is refunded has it exactly when an attempt took effect |
| `Ordering.CreateAppends` | app/services/product_service.py:152-183 | creating a row appends it to its group's list and keeps numbers distinct |
| `Ordering.DeleteRemoves` | app/services/product_service.py:206-207 | deleting a row removes it from the list and changes no other order |
| `Ordering.NeighbourIsAdjacent` | app/services/product_service.py:83-95 | the row a move swaps with is the one next to it in the shown list |
| `Ordering.MoveSwapsAdjacent` | app/services/product_service.py:74-98 | with distinct numbers a move is exactly the adjacent swap, nothing at the ends, and no other list changes |
| `Ordering.MoveBack` | app/services/category_service.py:82-106 | away from the ends a move that is an adjacent swap and the opposite move give back the same table |
| `Ordering.MoveSwapsExactly` | app/services/product_service.py:74-98 | on any table, equal numbers or not, a move is the adjacent swap, or nothing at the ends, exactly when there is no neighbour or the two rows' numbers differ and no third row's id gets in between |
| `Ordering.TiedMovesAreNotSwaps` | app/services/category_service.py:82-106 | with two rows of equal number and a third, one move changes nothing and another jumps two places |
| `Catalogues.CatalogueRefinesLists` | app/services/product_service.py:74-98 | over any run of edits the shown lists are those of appending, removing and swapping neighbours, and numbers stay distinct |
| `Catalogues.CategoryEditRefines` | app/services/category_service.py:57-128 | each category edit acts on the shown lists as append, removal of an empty category, or adjacent swap |
| `Catalogues.ProductEditRefines` | app/services/product_service.py:74-98 | moving and deleting products acts on the shown lists as adjacent swap and removal |
| `Catalogues.NewProductRefines` | app/services/product_service.py:158-238 | a new product is appended to its category's list, unless its key is taken or the category is missing |
| `Catalogues.MovesUndoInAnyRun` | app/database/seed.py:33-80 | from an empty or seeded database, in every reachable catalogue a move away from the end is undone by the opposite one |
| `CatalogueServices.CategoryService.ListAll` | app/services/category_service.py:24-26 | returns all categories in list order |
| `CatalogueServices.CategoryService.Create` | app/services/category_service.py:57-80 | performs the create edit or refuses a bad column count |
| `CatalogueServices.CategoryService.Move` | app/services/category_service.py:82-106 | performs the move edit on the session, on any table |
| `CatalogueServices.CategoryService.Delete` | app/services/category_service.py:108-128 | deletes a category without products only |
| `CatalogueServices.ProductService.ListByCategory` | app/services/product_service.py:12-18 | returns exactly the active products of the category in list order |
| `CatalogueServices.ProductService.Create` | app/services/product_service.py:158-183 | performs the create edit at the end of the category |
| `CatalogueServices.ProductService.Move` | app/services/product_service.py:74-98 | performs the move edit on the session, on any table |
| `CatalogueServices.ProductService.Delete` | app/services/product_service.py:185-207 | deletes a product without orders only |
| `CatalogueServices.NextSortOrder` | app/services/product_service.py:152-156 | computes one more than the greatest number of the group, or zero |
| `CheckIns.StreakIsLongestBlock` | app/services/user_service.py:155-188 | over any run whose dates never go back the stored streak is the length of the longest block of consecutive check-in days ending at the last one |
| `CheckIns.OneClaimADay` | app/services/user_service.py:155-188 | after any such run a claim is accepted exactly when it is enabled and is the member's first of its day |
| `CheckIns.RewardsArePaidExactly` | app/services/user_service.py:77-188 | over any such run the rows under each check-in, join bonus and referral bonus are exactly those the accepted calls owe: one row of the right user, kind and amount when the amount is positive, and none otherwise |
| `CheckIns.BalancesCountRewards` | app/services/user_service.py:77-188 | over any run each balance is the sum of the user's token rows |
| `CheckIns.UserService.ClaimDailyCheckin` | app/services/user_service.py:155-188 | performs the check-in step or refuses a second one on the same day |
| `CheckIns.UserService.AwardStartBonuses` | app/services/user_service.py:77-135 | performs the bonus step and reports what was paid |

## Left out

- Telegram handlers, keyboards, message texts, reports, dashboards, broadcasts and throttling: user interface.
- The HTTP adapters, webhook signatures, field names and encryption: a provider is an arbitrary answer, and a delivery is taken as verified and parsed.
- SQL and the object mapper: a query is a function of the tables, row identity and aliasing of mapped objects are not modelled, and outside `PaymentProtocol` and `CryptoDeposits` each call runs alone.
- Telegram ids: they are identified with user ids, although the services look users up by either.
- Random codes and keys: a new row's key is an argument that the caller supplies unused.
- The float in the transfer fee: the fee is the floor of the exact quotient; likewise reaction times are exact milliseconds.
- Decimal rounding of crypto amounts: amounts are whole numbers of the smallest unit.
- Coupon codes are compared as given; trimming and upper-casing are not modelled.
- The weekly leaderboard payout of the game scheduler: it is one more way of issuing tokens.
- The unique constraint on a payment's provider reference: a delivery or a new payment that repeats another payment's reference would fail at its commit; the model stores it.
- Automatic deliveries other than the one that follows a purchase: runs of calls contain only that one, on an order that waits for manual delivery.
- Token-paid orders: their code follows a return and cannot be reached.
- `total_game_fees_paid`: it moves at one of the two settlements only, so it is claimed per settlement and not as a total of fees.
- Tournament scores: they are an argument of settling; how referrals and purchases are counted is not modelled.
- Crashes inside tournament joins and cancellations: these commit before the participant or status is saved, so their closed form is claimed for completed calls only.
- The token side of an approved token deposit: its credit is an issuing step of the token model, and the two components are not joined into one database.
- Duplicate accounts when the reply to a creation is lost and another panel is tried: the code promises nothing.
- A traffic limit of zero: the panels read it as no limit; the model keeps the number.
- A panel that reports other than what was set, such as whole seconds: the model's panels report what they hold.
- Renewal.RenewalClosedForm: is stated for services that have an expiry, because the code gives the others a finite one.
- RenewalServices.AutoDelivery.TryAutoRenew: takes the panel's answer as an argument; `RenewalRefunds` joins it with the panel.
- RenewalServices.VPNRenewalService.RenewService: takes the panel's answer as an argument; its single, unretried call of the panel is not joined with it.
- The lookup and the insert of a crypto entry are one step; racing inserts would meet the unique constraint.
