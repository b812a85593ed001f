/**
 * Any number of webhook deliveries at once.  A delivery locks its payment row when it reads it and holds
 * the lock to its next commit; crediting the wallet commits, so the row is free between the credit and
 * the write of status PAID.  A delivery may die at any point, and the rest of the shop goes on meanwhile.
 */
module PaymentProtocol {
  import opened Options
  import opened Ledgers
  import opened ShopTables
  import opened ShopCalls
  import opened ShopInvariants
  import opened ShopRuns
  import opened ShopFrames

  datatype Process =
    | Arrived(payment: int, notice: Notice)
    | Reading(payment: int, notice: Notice)
    | Crediting(payment: int, noted: Payment, amount: int)
    | Settling(payment: int, noted: Payment, amount: int, held: bool)
    | Gone

  datatype System = System(db: Db, locks: map<int, int>, processes: map<int, Process>)

  datatype Move =
    | Arrive(process: int, payment: int, notice: Notice)
    | Lock(process: int)
    | Decide(process: int)
    | CreditWallet(process: int)
    | WritePaid(process: int)
    | Die(process: int)
    | Others(event: Event)

  predicate Free(s: System, p: int) {
    p !in s.locks
  }

  function End(s: System, i: int): System {
    s.(processes := s.processes[i := Gone], locks := map p | p in s.locks && s.locks[p] != i :: s.locks[p])
  }

  /** Reads the row under its lock; a row already PAID ends the delivery, and so does an unknown payment. */
  function Locked(s: System, i: int): System
    requires i in s.processes && s.processes[i].Arrived?
  {
    var p := s.processes[i].payment;
    if p !in s.db.payments then End(s, i)
    else if !Free(s, p) then s
    else if s.db.payments[p].status.Paid? then End(s, i)
    else s.(locks := s.locks[p := i], processes := s.processes[i := Reading(p, s.processes[i].notice)])
  }

  /** Everything a delivery does under its lock up to its first commit, or to the credit. */
  function DecidedBy(s: System, i: int): System
    requires i in s.processes && s.processes[i].Reading?
  {
    var p := s.processes[i].payment;
    match WebhookEffect(s.db, p, s.processes[i].notice)
    case NoEffect => End(s, i)
    case Marked(row) =>
      if row.status.Paid? && row.paid.Some? then
        s.(processes := s.processes[i := Settling(p, row, row.paid.value, true)])
      else End(s.(db := MarkPayment(s.db, p, row)), i)
    case Credited(noted, amount) => s.(processes := s.processes[i := Crediting(p, noted, amount)])
  }

  /** The credit commits and so gives the row lock back. */
  function CreditedBy(s: System, i: int): System
    requires i in s.processes && s.processes[i].Crediting?
  {
    var Crediting(p, noted, amount) := s.processes[i];
    if noted.user !in s.db.wallets then End(s, i)
    else
      var freed := End(s, i);
      freed.(db := CreditPayment(s.db, p, noted, amount),
             processes := freed.processes[i := Settling(p, noted, amount, false)])
  }

  /** Writes the changed columns; waits while another delivery holds the row. */
  function PaidBy(s: System, i: int): System
    requires i in s.processes && s.processes[i].Settling?
  {
    var Settling(p, noted, amount, held) := s.processes[i];
    if p !in s.db.payments || (!held && !Free(s, p)) then s
    else
      var row := s.db.payments[p].(reference := if held then noted.reference else s.db.payments[p].reference);
      End(s.(db := MarkPayment(s.db, p, SettledRow(row, amount))), i)
  }

  /** One move; a move that is not possible changes nothing. */
  function Next(s: System, m: Move): System {
    match m
    case Arrive(i, p, d) => if i in s.processes then s else s.(processes := s.processes[i := Arrived(p, d)])
    case Lock(i) => if i in s.processes && s.processes[i].Arrived? then Locked(s, i) else s
    case Decide(i) =>
      if i in s.processes && s.processes[i].Reading? then DecidedBy(s, i) else s
    case CreditWallet(i) => if i in s.processes && s.processes[i].Crediting? then CreditedBy(s, i) else s
    case WritePaid(i) => if i in s.processes && s.processes[i].Settling? then PaidBy(s, i) else s
    case Die(i) => if i in s.processes then End(s, i) else s
    case Others(e) => if e.call.Webhook? then s else s.(db := Persisted(s.db, e))
  }

  function Schedule(s: System, moves: seq<Move>): System
    decreases |moves|
  {
    if moves == [] then s else Schedule(Next(s, moves[0]), moves[1..])
  }

  const START := System(EMPTY_DB, map[], map[])

  // ----- the invariant -----

  ghost predicate Holds(s: System, i: int, p: int) {
    p in s.locks && s.locks[p] == i
  }

  ghost predicate ProcessOk(s: System, i: int, q: Process) {
    match q
    case Arrived(_, _) | Gone => true
    case Reading(p, d) => Holds(s, i, p) && p in s.db.payments && !s.db.payments[p].status.Paid?
    case Crediting(p, noted, amount) =>
      && Holds(s, i, p) && p in s.db.payments && !s.db.payments[p].status.Paid?
      && noted.status == s.db.payments[p].status && noted.user == s.db.payments[p].user
      && noted.amount == s.db.payments[p].amount <= amount && 0 < amount
      && RowsFor(s.db.ledger, PaymentRef(p)) == []
    case Settling(p, noted, amount, held) =>
      && (held ==> Holds(s, i, p)) && p in s.db.payments
      && s.db.payments[p].amount <= amount
      && RowsFor(s.db.ledger, PaymentRef(p)) != []
  }

  ghost predicate ProcessesOk(s: System) {
    forall i :: i in s.processes ==> ProcessOk(s, i, s.processes[i])
  }

  ghost predicate Ok(s: System) {
    Safe(s.db) && ProcessesOk(s)
  }

  lemma NextIsOk(s: System, m: Move)
    requires Ok(s)
    ensures Ok(Next(s, m))
  {
    hide Safe, RowsFor, PaidAmount, Commits;
    match m
    case Arrive(i, p, d) =>
    case Lock(i) =>
    case Decide(i) =>
      if i in s.processes && s.processes[i].Reading? {
        DecideIsOk(s, i);
      }
    case CreditWallet(i) => if i in s.processes && s.processes[i].Crediting? { CreditIsOk(s, i); }
    case WritePaid(i) => if i in s.processes && s.processes[i].Settling? { WriteIsOk(s, i); }
    case Die(i) =>
    case Others(e) => if !e.call.Webhook? { OthersAreOk(s, e); }
  }

  lemma DecideIsOk(s: System, i: int)
    requires i in s.processes && s.processes[i].Reading?
    requires Ok(s)
    ensures Ok(DecidedBy(s, i))
  {
    hide Safe, RowsFor, WebhookEffect;
    var p, d := s.processes[i].payment, s.processes[i].notice;
    assert ProcessOk(s, i, s.processes[i]);
    EffectFacts(s.db, p, d);
    HasRowSelects(s.db.ledger, PaymentRef(p));
    PaymentFacts(s.db, p);
    match WebhookEffect(s.db, p, d)
    case NoEffect =>
    case Marked(row) => MarkPaymentIsSafe(s.db, p, row);
    case Credited(noted, amount) =>
  }

  lemma CreditIsOk(s: System, i: int)
    requires i in s.processes && s.processes[i].Crediting?
    requires Ok(s)
    ensures Ok(CreditedBy(s, i))
  {
    hide Safe, RowsFor, SumWhere;
    var Crediting(p, noted, amount) := s.processes[i];
    assert ProcessOk(s, i, s.processes[i]);
    if noted.user in s.db.wallets {
      CreditPaymentIsSafe(s.db, p, noted, amount);
      PostSelects(MarkPayment(s.db, p, noted), noted.user, Deposit, amount, PaymentRef(p));
    }
  }

  lemma WriteIsOk(s: System, i: int)
    requires i in s.processes && s.processes[i].Settling?
    requires Ok(s)
    ensures Ok(PaidBy(s, i))
  {
    hide Safe, RowsFor;
    var Settling(p, noted, amount, held) := s.processes[i];
    assert ProcessOk(s, i, s.processes[i]);
    PaymentFacts(s.db, p);
    if held || Free(s, p) {
      var row := s.db.payments[p].(reference := if held then noted.reference else s.db.payments[p].reference);
      MarkPaymentIsSafe(s.db, p, SettledRow(row, amount));
    }
  }

  /** Payments keep their rows, and a new one is open and has the amount it was created with. */
  ghost predicate PaymentsKept(db: Db, db': Db, call: Call) {
    && (forall p :: p in db.payments ==> p in db'.payments && db'.payments[p] == db.payments[p])
    && (forall p :: p in db'.payments && p !in db.payments ==>
          !db'.payments[p].status.Paid? && call.CreatePayment? && call.payment == p
          && db'.payments[p].amount == call.amount)
    && (forall p :: RowsFor(db'.ledger, PaymentRef(p)) == RowsFor(db.ledger, PaymentRef(p)))
  }

  lemma OthersKeepPayments(db: Db, e: Event)
    requires !e.call.Webhook?
    ensures PaymentsKept(db, Persisted(db, e), e.call)
  {
    hide RowsFor, Commits, Persisted;
    if e.call.CreatePayment? {
      var CreatePayment(p, u, amount, quote) := e.call;
      NewPaymentKept(db, p, u, amount, quote, e.survive);
    } else {
      PersistedStays(PaymentSide, db, e);
    }
  }

  lemma NewPaymentKept(db: Db, p: int, u: int, amount: int, quote: Option<int>, survive: nat)
    ensures var call := CreatePayment(p, u, amount, quote);
            PaymentsKept(db, Persisted(db, Event(call, survive)), call)
  {
    hide RowsFor, Commits;
    CreatePaymentCommits(db, p, u, amount, quote);
  }

  lemma OthersAreOk(s: System, e: Event)
    requires !e.call.Webhook?
    requires Ok(s)
    ensures Ok(s.(db := Persisted(s.db, e)))
  {
    hide Safe, RowsFor, Commits;
    EveryCommitIsSafe(s.db, e.call);
    OthersKeepPayments(s.db, e);
  }

  lemma {:induction false} ScheduleIsOk(s: System, moves: seq<Move>)
    requires Ok(s)
    ensures Ok(Schedule(s, moves))
    decreases |moves|
  {
    hide Ok, Next;
    if moves != [] {
      NextIsOk(s, moves[0]);
      ScheduleIsOk(Next(s, moves[0]), moves[1..]);
    }
  }

  lemma StartIsOk()
    ensures Ok(START)
  {
    hide Safe;
    EmptyIsSafe();
  }

  // ----- exactly once -----

  /**
   * However deliveries interleave and wherever processes die: a payment's credit exists at most once and
   * is never below the invoice, and a payment marked PAID has it.
   */
  lemma CreditedExactlyOnce(moves: seq<Move>, p: int)
    ensures var s := Schedule(START, moves);
            var rows := RowsFor(s.db.ledger, PaymentRef(p));
            && |rows| <= 1
            && (rows != [] ==> p in s.db.payments && rows[0].user == s.db.payments[p].user
                               && rows[0].kind == Deposit && s.db.payments[p].amount <= rows[0].amount)
            && (p in s.db.payments && s.db.payments[p].status.Paid? ==> |rows| == 1)
  {
    hide Schedule, Safe, RowsFor;
    StartIsOk();
    ScheduleIsOk(START, moves);
    PaymentFacts(Schedule(START, moves).db, p);
  }

  lemma ProcessFacts(s: System, i: int)
    requires i in s.processes
    requires Ok(s)
    ensures ProcessOk(s, i, s.processes[i])
  {
  }

  lemma DecideKeepsPaid(s: System, i: int, p: int)
    requires p in s.db.payments && s.db.payments[p].status.Paid?
    requires i in s.processes && s.processes[i].Reading?
    ensures p in DecidedBy(s, i).db.payments && DecidedBy(s, i).db.payments[p].status.Paid?
  {
    hide WebhookEffect;
    EffectFacts(s.db, s.processes[i].payment, s.processes[i].notice);
  }

  lemma CreditKeepsPaid(s: System, i: int, p: int)
    requires p in s.db.payments && s.db.payments[p].status.Paid?
    requires i in s.processes && s.processes[i].Crediting?
    requires ProcessOk(s, i, s.processes[i])
    ensures p in CreditedBy(s, i).db.payments && CreditedBy(s, i).db.payments[p].status.Paid?
  {
    hide RowsFor;
  }

  lemma WriteKeepsPaid(s: System, i: int, p: int)
    requires p in s.db.payments && s.db.payments[p].status.Paid?
    requires i in s.processes && s.processes[i].Settling?
    ensures p in PaidBy(s, i).db.payments && PaidBy(s, i).db.payments[p].status.Paid?
  {
  }

  /** No move takes a payment out of status PAID. */
  lemma PaidStays(s: System, m: Move, p: int)
    requires p in s.db.payments && s.db.payments[p].status.Paid?
    requires Ok(s)
    ensures p in Next(s, m).db.payments && Next(s, m).db.payments[p].status.Paid?
  {
    hide Ok, ProcessOk, DecidedBy, CreditedBy, PaidBy, RowsFor, Persisted;
    match m
    case Decide(i) =>
      if i in s.processes && s.processes[i].Reading? {
        ProcessFacts(s, i);
        DecideKeepsPaid(s, i, p);
      }
    case CreditWallet(i) =>
      if i in s.processes && s.processes[i].Crediting? {
        ProcessFacts(s, i);
        CreditKeepsPaid(s, i, p);
      }
    case Others(e) =>
      if !e.call.Webhook? { OthersKeepPayments(s.db, e); }
    case WritePaid(i) => if i in s.processes && s.processes[i].Settling? { WriteKeepsPaid(s, i, p); }
    case _ =>
  }

  lemma {:induction false} PaidForever(s: System, moves: seq<Move>, p: int)
    requires p in s.db.payments && s.db.payments[p].status.Paid?
    requires Ok(s)
    ensures p in Schedule(s, moves).db.payments && Schedule(s, moves).db.payments[p].status.Paid?
    decreases |moves|
  {
    hide Ok, Next;
    if moves != [] {
      PaidStays(s, moves[0], p);
      NextIsOk(s, moves[0]);
      PaidForever(Next(s, moves[0]), moves[1..], p);
    }
  }

  // ----- the recorded amount -----

  /** The amount a notice stands for on a payment that the provider knows. */
  function Stated(d: Notice): Option<int> {
    if d.paidToman.Some? then d.paidToman else d.queried
  }

  /** A notice that can settle a payment with this invoice: it is paid and states at least the invoice. */
  predicate Settles(d: Notice, invoice: int) {
    0 < invoice && d.paid && Stated(d).Some? && invoice <= Stated(d).value
  }

  predicate Says(d: Notice, invoice: int, a: int) {
    Settles(d, invoice) ==> Stated(d) == Some(a)
  }

  /** Whatever this process does to payment `p`, it does with amount `a`. */
  predicate Agrees(q: Process, p: int, invoice: int, a: int) {
    match q
    case Arrived(r, d) => r == p ==> Says(d, invoice, a)
    case Reading(r, d) => r == p ==> Says(d, invoice, a)
    case Crediting(r, _, amount) => r == p ==> amount == a
    case Settling(r, _, amount, _) => r == p ==> amount == a
    case Gone => true
  }

  ghost predicate Consistent(s: System, p: int, invoice: int, a: int) {
    && (forall i :: i in s.processes ==> Agrees(s.processes[i], p, invoice, a))
    && (var rows := RowsFor(s.db.ledger, PaymentRef(p)); rows != [] ==> rows[0].amount == a)
    && (p in s.db.payments ==>
          s.db.payments[p].amount == invoice
          && (s.db.payments[p].status.Paid? ==> s.db.payments[p].paid == Some(a)))
  }

  lemma EffectSays(db: Db, p: int, d: Notice, invoice: int, a: int)
    requires p in db.payments && db.payments[p].amount == invoice && 0 < invoice && Says(d, invoice, a)
    ensures match WebhookEffect(db, p, d)
            case NoEffect => true
            case Marked(row) => row.status.Paid? ==> row.paid == Some(a)
            case Credited(_, amount) => amount == a
  {
  }

  lemma DecideIsConsistent(s: System, i: int, p: int, invoice: int, a: int)
    requires i in s.processes && s.processes[i].Reading? && s.processes[i].payment in s.db.payments
    requires Consistent(s, p, invoice, a)
    requires Safe(s.db)
    ensures Consistent(DecidedBy(s, i), p, invoice, a)
  {
    hide RowsFor, WebhookEffect, Safe, Says;
    var r, d := s.processes[i].payment, s.processes[i].notice;
    assert Agrees(s.processes[i], p, invoice, a);
    EffectFacts(s.db, r, d);
    PaymentFacts(s.db, r);
    if r == p { EffectSays(s.db, p, d, invoice, a); }
    DecidedKeeps(s, i, p, invoice, a);
  }

  /** `Consistent` survives a move of one process that posts nothing and writes at most one payment row. */
  lemma StaysConsistent(s: System, s': System, i: int, q: Process, r: int, row: Payment, p: int, invoice: int, a: int)
    requires s'.processes == s.processes[i := q] && Agrees(q, p, invoice, a)
    requires s'.db == s.db || s'.db == MarkPayment(s.db, r, row)
    requires r in s.db.payments && row.amount == s.db.payments[r].amount
    requires r == p && row.status.Paid? ==> row.paid == Some(a)
    requires Consistent(s, p, invoice, a)
    ensures Consistent(s', p, invoice, a)
  {
    hide RowsFor, Agrees;
  }

  /** `Consistent` survives a decision whose effect states the amount. */
  lemma DecidedKeeps(s: System, i: int, p: int, invoice: int, a: int)
    requires i in s.processes && s.processes[i].Reading? && s.processes[i].payment in s.db.payments
    requires var r := s.processes[i].payment;
             match WebhookEffect(s.db, r, s.processes[i].notice)
             case NoEffect => true
             case Marked(row) =>
               row.amount == s.db.payments[r].amount && (r == p && row.status.Paid? ==> row.paid == Some(a))
             case Credited(_, amount) => r == p ==> amount == a
    requires Consistent(s, p, invoice, a)
    ensures Consistent(DecidedBy(s, i), p, invoice, a)
  {
    hide RowsFor, WebhookEffect, Says, Consistent, MarkPayment;
    var r, s' := s.processes[i].payment, DecidedBy(s, i);
    PaidIsSaid(s, r, p, invoice, a);
    match WebhookEffect(s.db, r, s.processes[i].notice)
    case NoEffect => StaysConsistent(s, s', i, Gone, r, s.db.payments[r], p, invoice, a);
    case Marked(row) =>
      var q := if row.status.Paid? && row.paid.Some? then Settling(r, row, row.paid.value, true) else Gone;
      StaysConsistent(s, s', i, q, r, row, p, invoice, a);
    case Credited(noted, amount) =>
      StaysConsistent(s, s', i, Crediting(r, noted, amount), r, s.db.payments[r], p, invoice, a);
  }

  lemma PaidIsSaid(s: System, r: int, p: int, invoice: int, a: int)
    requires r in s.db.payments && Consistent(s, p, invoice, a)
    ensures r == p && s.db.payments[r].status.Paid? ==> s.db.payments[r].paid == Some(a)
  {
    hide RowsFor;
  }

  lemma CreditIsConsistent(s: System, i: int, p: int, invoice: int, a: int)
    requires i in s.processes && s.processes[i].Crediting?
    requires ProcessOk(s, i, s.processes[i])
    requires Consistent(s, p, invoice, a)
    ensures Consistent(CreditedBy(s, i), p, invoice, a)
  {
    hide RowsFor, SumWhere, Says;
    var Crediting(r, noted, amount) := s.processes[i];
    assert Agrees(s.processes[i], p, invoice, a);
    if noted.user in s.db.wallets {
      PostSelects(MarkPayment(s.db, r, noted), noted.user, Deposit, amount, PaymentRef(r));
    }
  }

  lemma WriteIsConsistent(s: System, i: int, p: int, invoice: int, a: int)
    requires i in s.processes && s.processes[i].Settling?
    requires Consistent(s, p, invoice, a)
    ensures Consistent(PaidBy(s, i), p, invoice, a)
  {
    hide RowsFor, Says;
    assert Agrees(s.processes[i], p, invoice, a);
  }

  /** A delivery of `p` is one of the notices, and `p` is created with this invoice. */
  predicate Allowed(m: Move, p: int, invoice: int, notices: iset<Notice>) {
    && (m.Arrive? && m.payment == p ==> m.notice in notices)
    && (m.Others? && m.event.call.CreatePayment? && m.event.call.payment == p ==> m.event.call.amount == invoice)
  }

  predicate Over(moves: seq<Move>, p: int, invoice: int, notices: iset<Notice>) {
    forall i :: 0 <= i < |moves| ==> Allowed(moves[i], p, invoice, notices)
  }

  /** All notices that can settle state this amount. */
  ghost predicate AllSay(notices: iset<Notice>, invoice: int, a: int) {
    forall d :: d in notices ==> Says(d, invoice, a)
  }

  lemma MoveIsConsistent(s: System, m: Move, p: int, invoice: int, notices: iset<Notice>, a: int)
    requires Allowed(m, p, invoice, notices) && AllSay(notices, invoice, a)
    requires Consistent(s, p, invoice, a)
    requires Ok(s)
    ensures Consistent(Next(s, m), p, invoice, a)
  {
    hide ProcessOk, DecidedBy, CreditedBy, PaidBy, Persisted, RowsFor, Safe, Says;
    match m
    case Decide(i) =>
      if i in s.processes && s.processes[i].Reading? {
        ProcessFacts(s, i);
        assert s.processes[i].payment in s.db.payments by { ReadingFacts(s, i); }
        DecideIsConsistent(s, i, p, invoice, a);
      }
    case CreditWallet(i) =>
      if i in s.processes && s.processes[i].Crediting? {
        ProcessFacts(s, i);
        CreditIsConsistent(s, i, p, invoice, a);
      }
    case WritePaid(i) =>
      if i in s.processes && s.processes[i].Settling? { WriteIsConsistent(s, i, p, invoice, a); }
    case Others(e) =>
      if !e.call.Webhook? { OthersKeepPayments(s.db, e); }
    case _ =>
  }

  lemma ReadingFacts(s: System, i: int)
    requires i in s.processes && s.processes[i].Reading? && ProcessOk(s, i, s.processes[i])
    ensures s.processes[i].payment in s.db.payments
  {
  }

  lemma {:induction false} ScheduleIsConsistent(
      s: System, moves: seq<Move>, p: int, invoice: int, notices: iset<Notice>, a: int)
    requires Over(moves, p, invoice, notices) && AllSay(notices, invoice, a) && Consistent(s, p, invoice, a)
    requires Ok(s)
    ensures Ok(Schedule(s, moves)) && Consistent(Schedule(s, moves), p, invoice, a)
    decreases |moves|
  {
    hide Ok, Next, Consistent, Allowed, AllSay;
    if moves != [] {
      MoveIsConsistent(s, moves[0], p, invoice, notices, a);
      NextIsOk(s, moves[0]);
      ScheduleIsConsistent(Next(s, moves[0]), moves[1..], p, invoice, notices, a);
    }
  }

  /** A payment that is PAID records the amount its wallet got. */
  ghost predicate AmountsAgree(db: Db, p: int) {
    p in db.payments && db.payments[p].status.Paid? ==>
      |RowsFor(db.ledger, PaymentRef(p))| == 1
      && db.payments[p].paid == Some(RowsFor(db.ledger, PaymentRef(p))[0].amount)
  }

  /** When all notices that can settle a payment state one amount, that amount is what the wallet gets and what
      the PAID row records, in every schedule of such notices. */
  lemma AgreeingAmounts(moves: seq<Move>, p: int, invoice: int, notices: iset<Notice>, a: int)
    requires Over(moves, p, invoice, notices) && AllSay(notices, invoice, a)
    ensures var db := Schedule(START, moves).db;
            && AmountsAgree(db, p)
            && (p in db.payments && db.payments[p].status.Paid? ==> db.payments[p].paid == Some(a))
  {
    hide Schedule, Ok, RowsFor, Over, AllSay;
    StartIsOk();
    assert Consistent(START, p, invoice, a) by { StartRows(p); }
    ScheduleIsConsistent(START, moves, p, invoice, notices, a);
    CreditedExactlyOnce(moves, p);
  }

  lemma StartRows(p: int)
    ensures RowsFor(START.db.ledger, PaymentRef(p)) == []
  {
  }

  // ----- one delivery by itself -----

  /** A delivery that nothing interrupts. */
  function Deliver(s: System, i: int, p: int, d: Notice): System {
    Next(Next(Next(Next(Next(s, Arrive(i, p, d)), Lock(i)), Decide(i)), CreditWallet(i)), WritePaid(i))
  }

  lemma EndUnheld(s: System, i: int)
    requires forall q :: q in s.locks ==> s.locks[q] != i
    ensures End(s, i) == System(s.db, s.locks, s.processes[i := Gone])
  {
    var left := End(s, i).locks;
    forall q
      ensures (q in left <==> q in s.locks) && (q in left ==> left[q] == s.locks[q])
    {
    }
    assert left == s.locks;
  }

  lemma EndHeld(s: System, i: int, p: int, locks: map<int, int>)
    requires s.locks == locks[p := i] && p !in locks && forall q :: q in locks ==> locks[q] != i
    ensures End(s, i) == System(s.db, locks, s.processes[i := Gone])
  {
    var left := End(s, i).locks;
    forall q
      ensures (q in left <==> q in locks) && (q in left ==> left[q] == locks[q])
    {
    }
    assert left == locks;
  }

  /** The rows an effect writes differ from the stored row in the reference and the settlement only. */
  lemma EffectRow(db: Db, p: int, d: Notice)
    ensures match WebhookEffect(db, p, d)
            case NoEffect => true
            case Marked(row) =>
              p in db.payments
              && (row.status.Paid? && row.paid.Some? ==>
                    row == SettledRow(db.payments[p].(reference := row.reference), row.paid.value))
            case Credited(noted, amount) =>
              p in db.payments && noted == db.payments[p].(reference := noted.reference)
  {
  }

  /** The protocol refines the sequential webhook: uninterrupted, its moves leave exactly the last state the
      sequential call commits, and no lock. */
  lemma UninterruptedIsSequential(s: System, i: int, p: int, d: Notice)
    requires i !in s.processes && Free(s, p) && (forall q :: q in s.locks ==> s.locks[q] != i)
    ensures Deliver(s, i, p, d)
         == System(Last(s.db, WebhookCommits(s.db, p, d)), s.locks, s.processes[i := Gone])
  {
    hide WebhookEffect, Post, End;
    var arrived := Next(s, Arrive(i, p, d));
    var locked := Next(arrived, Lock(i));
    assert arrived.processes[i := Gone] == s.processes[i := Gone];
    assert arrived.processes[i := Reading(p, d)] == s.processes[i := Reading(p, d)];
    if p in s.db.payments && !s.db.payments[p].status.Paid? {
      DecidedAlone(s, locked, i, p, d);
    } else {
      EffectFacts(s.db, p, d);
      EffectRow(s.db, p, d);
      EndUnheld(arrived, i);
    }
  }

  lemma DecidedAlone(s: System, locked: System, i: int, p: int, d: Notice)
    requires locked == System(s.db, s.locks[p := i], s.processes[i := Reading(p, d)])
    requires Free(s, p) && (forall q :: q in s.locks ==> s.locks[q] != i) && p in s.db.payments
    ensures Next(Next(Next(locked, Decide(i)), CreditWallet(i)), WritePaid(i))
         == System(Last(s.db, WebhookCommits(s.db, p, d)), s.locks, s.processes[i := Gone])
  {
    hide WebhookEffect, Post, End;
    EffectFacts(s.db, p, d);
    EffectRow(s.db, p, d);
    assert locked.processes[i := Gone] == s.processes[i := Gone];
    match WebhookEffect(s.db, p, d) {
      case NoEffect =>
        EndHeld(locked, i, p, s.locks);
      case Marked(row) =>
        if row.status.Paid? && row.paid.Some? {
          MarkedAlone(s, locked, i, p, d, row);
        } else {
          EndHeld(locked.(db := MarkPayment(s.db, p, row)), i, p, s.locks);
        }
      case Credited(noted, amount) =>
        CreditedAlone(s, locked, i, p, d, noted, amount);
    }
  }

  lemma MarkedAlone(s: System, locked: System, i: int, p: int, d: Notice, row: Payment)
    requires locked == System(s.db, s.locks[p := i], s.processes[i := Reading(p, d)])
    requires Free(s, p) && (forall q :: q in s.locks ==> s.locks[q] != i) && p in s.db.payments
    requires WebhookEffect(s.db, p, d) == Marked(row) && row.status.Paid? && row.paid.Some?
    ensures Next(Next(Next(locked, Decide(i)), CreditWallet(i)), WritePaid(i))
         == System(Last(s.db, WebhookCommits(s.db, p, d)), s.locks, s.processes[i := Gone])
  {
    hide WebhookEffect, End;
    EffectRow(s.db, p, d);
    var decided := locked.(processes := locked.processes[i := Settling(p, row, row.paid.value, true)]);
    assert decided.processes[i := Gone] == s.processes[i := Gone];
    EndHeld(decided.(db := MarkPayment(s.db, p, row)), i, p, s.locks);
  }

  /** A delivery up to its credit: the credit is committed, the row is free, and the PAID row is still to come. */
  lemma CreditsFirst(s: System, locked: System, i: int, p: int, d: Notice, noted: Payment, amount: int)
    requires locked == System(s.db, s.locks[p := i], s.processes[i := Reading(p, d)])
    requires Free(s, p) && (forall q :: q in s.locks ==> s.locks[q] != i) && p in s.db.payments
    requires WebhookEffect(s.db, p, d) == Credited(noted, amount) && noted.user in s.db.wallets
    ensures Next(Next(locked, Decide(i)), CreditWallet(i))
         == System(CreditPayment(s.db, p, noted, amount), s.locks,
                   s.processes[i := Settling(p, noted, amount, false)])
  {
    hide WebhookEffect, Post, End, CreditPayment;
    var decided := locked.(processes := locked.processes[i := Crediting(p, noted, amount)]);
    EndHeld(decided, i, p, s.locks);
    assert decided.processes[i := Gone][i := Settling(p, noted, amount, false)]
        == s.processes[i := Settling(p, noted, amount, false)];
  }

  lemma CreditedAlone(s: System, locked: System, i: int, p: int, d: Notice, noted: Payment, amount: int)
    requires locked == System(s.db, s.locks[p := i], s.processes[i := Reading(p, d)])
    requires Free(s, p) && (forall q :: q in s.locks ==> s.locks[q] != i) && p in s.db.payments
    requires WebhookEffect(s.db, p, d) == Credited(noted, amount) && noted.user in s.db.wallets
    ensures Next(Next(Next(locked, Decide(i)), CreditWallet(i)), WritePaid(i))
         == System(Last(s.db, WebhookCommits(s.db, p, d)), s.locks, s.processes[i := Gone])
  {
    hide WebhookEffect, Post, End, CreditPayment;
    EffectRow(s.db, p, d);
    CreditsFirst(s, locked, i, p, d, noted, amount);
    var db' := CreditPayment(s.db, p, noted, amount);
    CreditLeavesPayments(s.db, p, noted, amount);
    var credited := System(db', s.locks, s.processes[i := Settling(p, noted, amount, false)]);
    assert credited.processes[i := Gone] == s.processes[i := Gone];
    EndUnheld(credited.(db := MarkPayment(db', p, SettledRow(noted, amount))), i);
  }

  lemma CreditLeavesPayments(db: Db, p: int, noted: Payment, amount: int)
    requires noted.user in db.wallets
    ensures CreditPayment(db, p, noted, amount).payments == db.payments[p := noted]
  {
  }

  // ----- exactly when the amounts agree -----

  lemma {:induction false} ScheduleJoins(s: System, first: seq<Move>, second: seq<Move>)
    ensures Schedule(s, first + second) == Schedule(Schedule(s, first), second)
    decreases |first|
  {
    hide Next;
    if first == [] {
      assert first + second == second;
    } else {
      assert (first + second)[0] == first[0] && (first + second)[1..] == first[1..] + second;
      ScheduleJoins(Next(s, first[0]), first[1..], second);
    }
  }

  lemma TwoMoves(s: System, a: Move, b: Move)
    ensures Schedule(s, [a, b]) == Next(Next(s, a), b)
  {
    hide Next;
    assert [a, b][1..] == [b] && [b][1..] == [];
    assert Schedule(Next(s, a), [b]) == Schedule(Next(Next(s, a), b), []);
  }

  lemma FiveMoves(s: System, a: Move, b: Move, c: Move, d: Move, e: Move)
    ensures Schedule(s, [a, b, c, d, e]) == Next(Next(Next(Next(Next(s, a), b), c), d), e)
  {
    hide Next;
    assert [a, b, c, d, e] == [a, b] + ([c, d] + [e]);
    ScheduleJoins(s, [a, b], [c, d] + [e]);
    TwoMoves(s, a, b);
    var t := Schedule(s, [a, b]);
    ScheduleJoins(t, [c, d], [e]);
    TwoMoves(t, c, d);
    assert [e][1..] == [];
    assert Schedule(Next(Next(t, c), d), [e]) == Schedule(Next(Next(Next(t, c), d), e), []);
  }

  /** A user, a payment the provider knows, a delivery that dies after its credit, and one that completes. */
  function Race(p: int, u: int, invoice: int, reference: int, d: Notice, e: Notice): seq<Move> {
    [Others(Event(Signup(u, None), 1)), Others(Event(CreatePayment(p, u, invoice, Some(reference)), 1))]
    + ([Arrive(0, p, d), Lock(0), Decide(0), CreditWallet(0), Die(0)]
       + [Arrive(1, p, e), Lock(1), Decide(1), CreditWallet(1), WritePaid(1)])
  }

  function Invoiced(p: int, u: int, invoice: int, reference: int): Db {
    EMPTY_DB.(customers := map[u := Customer(None, 0, 0)], wallets := map[u := 0],
              payments := map[p := Payment(u, invoice, PaymentPending, None, Some(reference))])
  }

  lemma RaceStarts(p: int, u: int, invoice: int, reference: int)
    requires 0 < invoice
    ensures Schedule(START, [Others(Event(Signup(u, None), 1)),
                             Others(Event(CreatePayment(p, u, invoice, Some(reference)), 1))])
         == System(Invoiced(p, u, invoice, reference), map[], map[])
  {
    hide Schedule, Commits;
    TwoMoves(START, Others(Event(Signup(u, None), 1)),
             Others(Event(CreatePayment(p, u, invoice, Some(reference)), 1)));
    SignupCommits(u);
    var joined := EMPTY_DB.(customers := map[u := Customer(None, 0, 0)], wallets := map[u := 0]);
    CreatePaymentCommits(joined, p, u, invoice, Some(reference));
  }

  lemma SignupCommits(u: int)
    ensures Commits(EMPTY_DB, Signup(u, None))
         == [EMPTY_DB.(customers := map[u := Customer(None, 0, 0)], wallets := map[u := 0])]
  {
  }

  /** A delivery that states enough on an uncredited open payment credits the stated amount; on a credited one it
      only writes the amount it states itself. */
  lemma SettlingEffect(db: Db, p: int, d: Notice)
    requires p in db.payments && !db.payments[p].status.Paid? && db.payments[p].reference.Some?
    requires db.payments[p].user in db.wallets && Settles(d, db.payments[p].amount)
    ensures WebhookEffect(db, p, d)
         == if HasRow(db, PaymentRef(p)) then Marked(SettledRow(db.payments[p], Stated(d).value))
            else Credited(db.payments[p], Stated(d).value)
  {
  }

  lemma DiesAfterCredit(s: System, i: int, p: int, d: Notice)
    requires i !in s.processes && Free(s, p) && (forall q :: q in s.locks ==> s.locks[q] != i)
    requires p in s.db.payments && !s.db.payments[p].status.Paid? && s.db.payments[p].reference.Some?
    requires s.db.payments[p].user in s.db.wallets && Settles(d, s.db.payments[p].amount)
    requires !HasRow(s.db, PaymentRef(p))
    ensures Schedule(s, [Arrive(i, p, d), Lock(i), Decide(i), CreditWallet(i), Die(i)])
         == System(CreditPayment(s.db, p, s.db.payments[p], Stated(d).value), s.locks, s.processes[i := Gone])
  {
    hide Schedule, WebhookEffect, Post, End, CreditPayment, HasRow;
    FiveMoves(s, Arrive(i, p, d), Lock(i), Decide(i), CreditWallet(i), Die(i));
    SettlingEffect(s.db, p, d);
    var arrived := Next(s, Arrive(i, p, d));
    var locked := Next(arrived, Lock(i));
    assert arrived.processes[i := Reading(p, d)] == s.processes[i := Reading(p, d)];
    var row, amount := s.db.payments[p], Stated(d).value;
    CreditsFirst(s, locked, i, p, d, row, amount);
    var credited := System(CreditPayment(s.db, p, row, amount), s.locks,
                           s.processes[i := Settling(p, row, amount, false)]);
    EndUnheld(credited, i);
    assert credited.processes[i := Gone] == s.processes[i := Gone];
  }

  lemma CreditFacts(db: Db, p: int, row: Payment, amount: int)
    requires p in db.payments && db.payments[p] == row && row.user in db.wallets
    requires RowsFor(db.ledger, PaymentRef(p)) == []
    ensures var credited := CreditPayment(db, p, row, amount);
            && credited.payments == db.payments && row.user in credited.wallets && HasRow(credited, PaymentRef(p))
            && |RowsFor(credited.ledger, PaymentRef(p))| == 1
            && RowsFor(credited.ledger, PaymentRef(p))[0].amount == amount
  {
    hide RowsFor, SumWhere;
    PostSelects(MarkPayment(db, p, row), row.user, Deposit, amount, PaymentRef(p));
    HasRowSelects(CreditPayment(db, p, row, amount).ledger, PaymentRef(p));
    assert db.payments[p := row] == db.payments;
    assert CreditPayment(db, p, row, amount).ledger[|db.ledger|].ref == PaymentRef(p);
  }

  lemma RaceEnds(p: int, u: int, invoice: int, reference: int, d: Notice, e: Notice)
    requires Settles(d, invoice) && Settles(e, invoice)
    ensures var db := Invoiced(p, u, invoice, reference);
            Schedule(START, Race(p, u, invoice, reference, d, e)).db
            == MarkPayment(CreditPayment(db, p, db.payments[p], Stated(d).value), p,
                           SettledRow(db.payments[p], Stated(e).value))
  {
    hide Schedule, RowsFor, Deliver, Next, CreditPayment, HasRow, Settles, SettledRow, MarkPayment;
    var db := Invoiced(p, u, invoice, reference);
    var s := System(db, map[], map[]);
    var start := [Others(Event(Signup(u, None), 1)), Others(Event(CreatePayment(p, u, invoice, Some(reference)), 1))];
    var first := [Arrive(0, p, d), Lock(0), Decide(0), CreditWallet(0), Die(0)];
    var second := [Arrive(1, p, e), Lock(1), Decide(1), CreditWallet(1), WritePaid(1)];
    SettlesPositive(d, invoice);
    RaceStarts(p, u, invoice, reference);
    ScheduleJoins(START, start, first + second);
    ScheduleJoins(s, first, second);
    NoRowYet(p, u, invoice, reference);
    DiesAfterCredit(s, 0, p, d);
    var credited := CreditPayment(db, p, db.payments[p], Stated(d).value);
    CreditFacts(db, p, db.payments[p], Stated(d).value);
    var s' := System(credited, map[], map[0 := Gone]);
    FiveMoves(s', Arrive(1, p, e), Lock(1), Decide(1), CreditWallet(1), WritePaid(1));
    SecondWrites(s', p, e, db.payments[p]);
    DeliverIsFive(s', 1, p, e);
  }

  lemma SettlesPositive(d: Notice, invoice: int)
    requires Settles(d, invoice)
    ensures 0 < invoice && Stated(d).Some?
  {
  }

  lemma NoRowYet(p: int, u: int, invoice: int, reference: int)
    ensures var db := Invoiced(p, u, invoice, reference);
            RowsFor(db.ledger, PaymentRef(p)) == [] && !HasRow(db, PaymentRef(p))
  {
  }

  lemma DeliverIsFive(s: System, i: int, p: int, d: Notice)
    ensures Deliver(s, i, p, d)
         == Next(Next(Next(Next(Next(s, Arrive(i, p, d)), Lock(i)), Decide(i)), CreditWallet(i)), WritePaid(i))
  {
    hide Next;
  }

  /** Two deliveries that can settle, the first dying after its credit, leave what the first states in the wallet
      and what the second states on the PAID row. */
  lemma AmountsCanDiffer(p: int, u: int, invoice: int, reference: int, d: Notice, e: Notice)
    requires Settles(d, invoice) && Settles(e, invoice)
    ensures var db := Schedule(START, Race(p, u, invoice, reference, d, e)).db;
            && p in db.payments && db.payments[p].status.Paid? && db.payments[p].paid == Stated(e)
            && |RowsFor(db.ledger, PaymentRef(p))| == 1
            && Some(RowsFor(db.ledger, PaymentRef(p))[0].amount) == Stated(d)
  {
    hide Schedule, RowsFor, CreditPayment, Race;
    RaceEnds(p, u, invoice, reference, d, e);
    NoRowYet(p, u, invoice, reference);
    var db := Invoiced(p, u, invoice, reference);
    CreditFacts(db, p, db.payments[p], Stated(d).value);
  }

  lemma SecondWrites(s: System, p: int, e: Notice, row: Payment)
    requires 1 !in s.processes && s.locks == map[]
    requires p in s.db.payments && s.db.payments[p] == row && !row.status.Paid? && row.reference.Some?
    requires row.user in s.db.wallets && Settles(e, row.amount) && HasRow(s.db, PaymentRef(p))
    ensures Deliver(s, 1, p, e).db == MarkPayment(s.db, p, SettledRow(row, Stated(e).value))
  {
    hide Deliver, WebhookEffect, HasRow;
    UninterruptedIsSequential(s, 1, p, e);
    SettlingEffect(s.db, p, e);
  }

  /** The notices that can settle a payment with this invoice all state the same amount. */
  ghost predicate OneAmount(notices: iset<Notice>, invoice: int) {
    forall d, e | d in notices && e in notices :: Settles(d, invoice) && Settles(e, invoice) ==> Stated(d) == Stated(e)
  }

  /** Exactly when a PAID payment is sure to record the amount credited: in every schedule that delivers only these
      notices, interleaved with anything and dying anywhere, just when all of them that are paid and state at
      least the invoice state one amount. */
  lemma AmountsAgreeExactly(p: int, invoice: int, notices: iset<Notice>)
    ensures (forall moves :: Over(moves, p, invoice, notices) ==> AmountsAgree(Schedule(START, moves).db, p))
            <==> OneAmount(notices, invoice)
  {
    hide Schedule, AmountsAgree, Over, Settles;
    if OneAmount(notices, invoice) {
      forall moves | Over(moves, p, invoice, notices)
        ensures AmountsAgree(Schedule(START, moves).db, p)
      {
        var a := TheAmount(notices, invoice);
        AgreeingAmounts(moves, p, invoice, notices, a);
      }
    } else {
      var d, e :| d in notices && e in notices && Settles(d, invoice) && Settles(e, invoice) && Stated(d) != Stated(e);
      DifferingRace(p, invoice, notices, d, e);
    }
  }

  lemma TheAmount(notices: iset<Notice>, invoice: int) returns (a: int)
    requires OneAmount(notices, invoice)
    ensures AllSay(notices, invoice, a)
  {
    if d :| d in notices && Settles(d, invoice) {
      a := Stated(d).value;
    } else {
      a := 0;
    }
  }

  lemma DifferingRace(p: int, invoice: int, notices: iset<Notice>, d: Notice, e: Notice)
    requires d in notices && e in notices && Settles(d, invoice) && Settles(e, invoice) && Stated(d) != Stated(e)
    ensures Over(Race(p, 0, invoice, 0, d, e), p, invoice, notices)
    ensures !AmountsAgree(Schedule(START, Race(p, 0, invoice, 0, d, e)).db, p)
  {
    hide Schedule, RowsFor;
    AmountsCanDiffer(p, 0, invoice, 0, d, e);
  }
}
