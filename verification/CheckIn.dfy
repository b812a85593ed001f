/** The rewards a user collects: the daily check-in with its streak, and the bonuses paid once. */
module CheckIns {
  import opened Options
  import opened Ledgers
  import opened TokenBooks

  /** Days are numbered consecutively. */
  datatype Member = Member(
    lastCheckin: Option<int>, streak: nat, referredBy: Option<int>, joinClaimed: bool, referralPaid: bool)

  datatype Club = Club(members: map<int, Member>, tokens: Tables)

  const NEW_CLUB := Club(map[], EMPTY)

  datatype Bonus = Bonus(enabled: bool, amount: int)

  datatype Step =
    | SignUp(user: int, referrer: Option<int>)
    | Claim(user: int, today: int, reward: Bonus)
    | Award(user: int, join: Bonus, referral: Bonus)
    | OtherPosting(user: int, kind: Kind, amount: int, ref: OtherRef)

  /** References that only the rewards of this module carry. */
  predicate RewardRef(ref: Ref) {
    ref.CheckinOf? || ref.JoinBonusOf? || ref.ReferralInviteOf?
  }

  type OtherRef = ref: Ref | !RewardRef(ref) witness NoRef

  datatype ClaimError = CheckinDisabled | AlreadyCheckedIn

  function ClaimRefusal(c: Club, u: int, today: int, reward: Bonus): Option<ClaimError>
    requires u in c.members
  {
    if !reward.enabled then Some(CheckinDisabled)
    else if c.members[u].lastCheckin == Some(today) then Some(AlreadyCheckedIn)
    else None
  }

  function CheckedIn(m: Member, today: int): Member {
    m.(lastCheckin := Some(today), streak := if m.lastCheckin == Some(today - 1) then m.streak + 1 else 1)
  }

  function Pays(c: Club, u: int, amount: int, kind: Kind, ref: Ref): Club
    requires u in c.tokens.users
  {
    c.(tokens := Post(c.tokens, u, kind, amount, ref))
  }

  function Claimed(c: Club, u: int, today: int, reward: Bonus): Club
    requires u in c.members && u in c.tokens.users
  {
    var marked := c.(members := c.members[u := CheckedIn(c.members[u], today)]);
    if 0 < reward.amount then Pays(marked, u, reward.amount, DailyCheckin, CheckinOf(u, today)) else marked
  }

  predicate JoinDue(c: Club, u: int, join: Bonus)
    requires u in c.members
  {
    !c.members[u].joinClaimed && join.enabled && 0 < join.amount
  }

  /** The referrer, when the bonus for inviting `u` is due. */
  function ReferralDue(c: Club, u: int, referral: Bonus): Option<int>
    requires u in c.members
  {
    var m := c.members[u];
    if m.referredBy.Some? && !m.referralPaid && referral.enabled && 0 < referral.amount
       && m.referredBy.value in c.tokens.users
    then m.referredBy else None
  }

  function JoinPaid(c: Club, u: int, join: Bonus): Club
    requires u in c.members && u in c.tokens.users
  {
    if !JoinDue(c, u, join) then c
    else
      var marked := c.(members := c.members[u := c.members[u].(joinClaimed := true)]);
      Pays(marked, u, join.amount, JoinBonus, JoinBonusOf(u))
  }

  function ReferralPaid(c: Club, u: int, referral: Bonus): Club
    requires u in c.members
  {
    match ReferralDue(c, u, referral)
    case None => c
    case Some(r) =>
      Pays(c.(members := c.members[u := c.members[u].(referralPaid := true)]), r, referral.amount,
           ReferralInviteBonus, ReferralInviteOf(u))
  }

  function Next(c: Club, s: Step): Club {
    match s
    case SignUp(u, referrer) =>
      if u in c.members || u in c.tokens.users then c
      else Club(c.members[u := Member(None, 0, referrer, false, false)],
                c.tokens.(users := c.tokens.users[u := NEW_USER]))
    case Claim(u, today, reward) =>
      if u !in c.members || u !in c.tokens.users || ClaimRefusal(c, u, today, reward).Some? then c
      else Claimed(c, u, today, reward)
    case Award(u, join, referral) =>
      if u !in c.members || u !in c.tokens.users then c else ReferralPaid(JoinPaid(c, u, join), u, referral)
    case OtherPosting(u, kind, amount, ref) =>
      if u in c.tokens.users then Pays(c, u, amount, kind, ref) else c
  }

  function Run(steps: seq<Step>): Club
    decreases |steps|
  {
    if steps == [] then NEW_CLUB else Next(Run(steps[..|steps| - 1]), steps[|steps| - 1])
  }

  // ----- the history of a run, from its steps alone -----

  predicate SignedUp(steps: seq<Step>, u: int) {
    exists i :: 0 <= i < |steps| && steps[i].SignUp? && steps[i].user == u
  }

  /** The referrer named when `u` signed up first. */
  function ReferrerOf(steps: seq<Step>, u: int): Option<int>
    decreases |steps|
  {
    if steps == [] then None
    else
      var front, s := steps[..|steps| - 1], steps[|steps| - 1];
      if !SignedUp(front, u) && s.SignUp? && s.user == u then s.referrer else ReferrerOf(front, u)
  }

  /** The days on which `u` checked in, with the reward on offer: the first enabled claim of each day counts. */
  function Claims(steps: seq<Step>, u: int): map<int, int>
    decreases |steps|
  {
    if steps == [] then map[]
    else
      var front, s := steps[..|steps| - 1], steps[|steps| - 1];
      if s.Claim? && s.user == u && SignedUp(front, u) && s.reward.enabled && s.today !in Claims(front, u)
      then Claims(front, u)[s.today := s.reward.amount]
      else Claims(front, u)
  }

  /** The join bonus of `u`: that of the first award at which it is enabled and positive. */
  function JoinHistory(steps: seq<Step>, u: int): Option<int>
    decreases |steps|
  {
    if steps == [] then None
    else
      var front, s := steps[..|steps| - 1], steps[|steps| - 1];
      if JoinHistory(front, u) == None && s.Award? && s.user == u && SignedUp(front, u)
         && s.join.enabled && 0 < s.join.amount
      then Some(s.join.amount) else JoinHistory(front, u)
  }

  /** The bonus for inviting `u`, with its receiver: that of the first award at which it is enabled and positive and the
      referrer is signed up. */
  function ReferralHistory(steps: seq<Step>, u: int): Option<(int, int)>
    decreases |steps|
  {
    if steps == [] then None
    else
      var front, s := steps[..|steps| - 1], steps[|steps| - 1];
      if ReferralHistory(front, u) == None && s.Award? && s.user == u && SignedUp(front, u)
         && ReferrerOf(front, u).Some? && SignedUp(front, ReferrerOf(front, u).value)
         && s.referral.enabled && 0 < s.referral.amount
      then Some((ReferrerOf(front, u).value, s.referral.amount)) else ReferralHistory(front, u)
  }

  /** The dates of the check-in calls never go back. */
  predicate ClockForward(steps: seq<Step>) {
    forall i, j :: 0 <= i < j < |steps| && steps[i].Claim? && steps[j].Claim? ==> steps[i].today <= steps[j].today
  }

  /** `n` is the length of the longest block of consecutive days of `days` that ends at its greatest day. */
  predicate LongestBlock(days: set<int>, last: int, n: nat) {
    && last in days && (forall d :: d in days ==> d <= last)
    && 0 < n && (forall d :: last - n < d <= last ==> d in days) && last - n !in days
  }

  predicate StreakOk(c: Club, days: set<int>, u: int) {
    if u !in c.members then days == {}
    else
      match c.members[u].lastCheckin
      case None => days == {} && c.members[u].streak == 0
      case Some(last) => LongestBlock(days, last, c.members[u].streak)
  }

  lemma ClaimExtendsBlock(days: set<int>, last: int, n: nat, today: int)
    requires LongestBlock(days, last, n) && last < today
    ensures LongestBlock(days + {today}, today, if last == today - 1 then n + 1 else 1)
  {
    if last != today - 1 {
      assert today - 1 !in days;
    }
  }

  lemma FirstDay(today: int)
    ensures LongestBlock({} + {today}, today, 1)
  {
  }

  lemma SignedUpStep(front: seq<Step>, s: Step, u: int)
    ensures SignedUp(front + [s], u) <==> SignedUp(front, u) || (s.SignUp? && s.user == u)
  {
    if SignedUp(front, u) {
      var i :| 0 <= i < |front| && front[i].SignUp? && front[i].user == u;
      assert (front + [s])[i] == front[i];
    }
    if s.SignUp? && s.user == u {
      assert (front + [s])[|front|] == s;
    }
  }

  /** The members and token users are those who signed up, and members keep the referrer they came with. */
  lemma {:induction false} MembersSignedUp(steps: seq<Step>, u: int)
    ensures var c := Run(steps);
            && (u in c.members <==> SignedUp(steps, u)) && (u in c.tokens.users <==> SignedUp(steps, u))
            && (u in c.members ==> c.members[u].referredBy == ReferrerOf(steps, u))
    decreases |steps|
  {
    hide SignedUp;
    if steps == [] {
      assert !SignedUp([], u) by { NobodyYet(u); }
    } else {
      var front, s := steps[..|steps| - 1], steps[|steps| - 1];
      assert steps == front + [s];
      SignedUpStep(front, s, u);
      MembersSignedUp(front, u);
    }
  }

  lemma NobodyYet(u: int)
    ensures !SignedUp([], u)
  {
  }

  lemma {:induction false} LastIsEarlier(steps: seq<Step>, u: int, today: int)
    requires forall i :: 0 <= i < |steps| && steps[i].Claim? ==> steps[i].today <= today
    ensures u in Run(steps).members && Run(steps).members[u].lastCheckin.Some? ==>
              Run(steps).members[u].lastCheckin.value <= today
    decreases |steps|
  {
    hide Post;
    if steps != [] {
      LastIsEarlier(steps[..|steps| - 1], u, today);
    }
  }

  /** The step is a check-in of `u` that the service accepts. */
  predicate Succeeds(c: Club, s: Step, u: int) {
    && s.Claim? && s.user == u && u in c.members && u in c.tokens.users
    && ClaimRefusal(c, u, s.today, s.reward) == None
  }

  /** Under a clock that never goes back the service accepts exactly the first enabled claim of each day. */
  lemma AcceptedExactly(front: seq<Step>, s: Step, u: int)
    requires s.Claim? && s.user == u && forall i :: 0 <= i < |front| && front[i].Claim? ==> front[i].today <= s.today
    requires StreakOk(Run(front), Claims(front, u).Keys, u)
    ensures Succeeds(Run(front), s, u)
            <==> SignedUp(front, u) && s.reward.enabled && s.today !in Claims(front, u)
  {
    hide Run, Claims, SignedUp;
    MembersSignedUp(front, u);
    LastIsEarlier(front, u, s.today);
  }

  /** Over any run whose dates never go back, the stored streak is the length of the longest block of
      consecutive check-in days that ends at the last one. */
  lemma {:induction false} StreakIsLongestBlock(steps: seq<Step>, u: int)
    requires ClockForward(steps)
    ensures StreakOk(Run(steps), Claims(steps, u).Keys, u)
    decreases |steps|
  {
    hide Post, LongestBlock, SignedUp;
    if steps != [] {
      var front, s := steps[..|steps| - 1], steps[|steps| - 1];
      StreakIsLongestBlock(front, u);
      if s.Claim? && s.user == u {
        AcceptedExactly(front, s, u);
        if Succeeds(Run(front), s, u) {
          LastIsEarlier(front, u, s.today);
          assert Claims(steps, u).Keys == Claims(front, u).Keys + {s.today};
          var m := Run(front).members[u];
          if m.lastCheckin.Some? {
            LastClaimed(front, u);
            ClaimExtendsBlock(Claims(front, u).Keys, m.lastCheckin.value, m.streak, s.today);
          } else {
            FirstDay(s.today);
          }
        }
      }
    }
  }

  /** After any run whose dates never go back, a claim is accepted exactly when it is enabled and is the member's
      first of its day; it stores that day as the last. */
  lemma OneClaimADay(front: seq<Step>, s: Step, u: int)
    requires s.Claim? && s.user == u && ClockForward(front + [s])
    ensures Succeeds(Run(front), s, u) <==> SignedUp(front, u) && s.reward.enabled && s.today !in Claims(front, u)
    ensures Succeeds(Run(front), s, u) ==> u in Run(front + [s]).members
                                           && Run(front + [s]).members[u].lastCheckin == Some(s.today)
  {
    hide SignedUp, Claims, StreakOk, Post;
    var steps := front + [s];
    assert steps[..|steps| - 1] == front;
    assert forall i :: 0 <= i < |front| ==> steps[i] == front[i];
    assert steps[|front|] == s;
    StreakIsLongestBlock(front, u);
    AcceptedExactly(front, s, u);
  }

  lemma LastClaimed(front: seq<Step>, u: int)
    requires StreakOk(Run(front), Claims(front, u).Keys, u)
    ensures u in Run(front).members && Run(front).members[u].lastCheckin.Some? ==>
              Run(front).members[u].lastCheckin.value in Claims(front, u)
  {
  }

  // ----- the ledger -----

  ghost function WithRef(ref: Ref): (int, Kind, Ref) -> bool {
    (u: int, k: Kind, r: Ref) => r == ref
  }

  ghost function Rows(c: Club, ref: Ref): seq<TokenEntry> {
    Select(c.tokens.ledger, WithRef(ref))
  }

  lemma PaysRows(c: Club, u: int, amount: int, kind: Kind, ref: Ref)
    requires u in c.tokens.users
    ensures forall r :: Rows(Pays(c, u, amount, kind, ref), r)
                        == if r == ref then Rows(c, r) + [Entry(u, kind, amount, c.tokens.users[u].balance,
                                                                c.tokens.users[u].balance + amount, ref)]
                           else Rows(c, r)
  {
    hide Select;
    SelectAppend(c.tokens.ledger, Entry(u, kind, amount, c.tokens.users[u].balance,
                                        c.tokens.users[u].balance + amount, ref));
  }

  ghost predicate OnlyRow(rows: seq<TokenEntry>, user: int, kind: Kind, amount: int) {
    |rows| == 1 && rows[0].user == user && rows[0].kind == kind && rows[0].amount == amount
  }

  /** Each reward of the history has exactly its one entry, and there is no other under these references. */
  ghost predicate RewardsOk(c: Club, claims: map<int, int>, join: Option<int>, referral: Option<(int, int)>, u: int) {
    && (forall d ::
          if d in claims && 0 < claims[d] then OnlyRow(Rows(c, CheckinOf(u, d)), u, DailyCheckin, claims[d])
          else Rows(c, CheckinOf(u, d)) == [])
    && (if join.Some? then OnlyRow(Rows(c, JoinBonusOf(u)), u, JoinBonus, join.value)
        else Rows(c, JoinBonusOf(u)) == [])
    && (if referral.Some?
        then OnlyRow(Rows(c, ReferralInviteOf(u)), referral.value.0, ReferralInviteBonus, referral.value.1)
        else Rows(c, ReferralInviteOf(u)) == [])
    && (u in c.members ==>
          (c.members[u].joinClaimed <==> join.Some?) && (c.members[u].referralPaid <==> referral.Some?))
    && (u !in c.members ==> join == None && referral == None)
  }

  ghost predicate RewardsMatch(steps: seq<Step>, u: int) {
    RewardsOk(Run(steps), Claims(steps, u), JoinHistory(steps, u), ReferralHistory(steps, u), u)
  }

  lemma SameLedger(c: Club, c': Club)
    requires c.tokens.ledger == c'.tokens.ledger
    ensures forall r :: Rows(c', r) == Rows(c, r)
  {
  }

  lemma ClaimKeepsRewards(
      c: Club, claims: map<int, int>, join: Option<int>, referral: Option<(int, int)>, u: int, v: int, today: int,
      reward: Bonus)
    requires v in c.members && v in c.tokens.users && RewardsOk(c, claims, join, referral, u)
    requires v == u ==> today !in claims
    ensures RewardsOk(Claimed(c, v, today, reward), if v == u then claims[today := reward.amount] else claims,
                      join, referral, u)
  {
    hide Rows;
    var marked := c.(members := c.members[v := CheckedIn(c.members[v], today)]);
    SameLedger(c, marked);
    if 0 < reward.amount {
      PaysRows(marked, v, reward.amount, DailyCheckin, CheckinOf(v, today));
    }
  }

  lemma JoinKeepsRewards(
      c: Club, claims: map<int, int>, join: Option<int>, referral: Option<(int, int)>, u: int, v: int, bonus: Bonus)
    requires v in c.members && v in c.tokens.users && RewardsOk(c, claims, join, referral, u)
    ensures RewardsOk(JoinPaid(c, v, bonus), claims,
                      if v == u && join == None && bonus.enabled && 0 < bonus.amount then Some(bonus.amount) else join,
                      referral, u)
    ensures JoinPaid(c, v, bonus).members.Keys == c.members.Keys
    ensures JoinPaid(c, v, bonus).tokens.users.Keys == c.tokens.users.Keys
    ensures JoinPaid(c, v, bonus).members[v].referredBy == c.members[v].referredBy
  {
    hide Rows;
    if JoinDue(c, v, bonus) {
      var marked := c.(members := c.members[v := c.members[v].(joinClaimed := true)]);
      SameLedger(c, marked);
      PaysRows(marked, v, bonus.amount, JoinBonus, JoinBonusOf(v));
    }
  }

  lemma ReferralKeepsRewards(
      c: Club, claims: map<int, int>, join: Option<int>, referral: Option<(int, int)>, u: int, v: int, bonus: Bonus)
    requires v in c.members && RewardsOk(c, claims, join, referral, u)
    ensures var r := c.members[v].referredBy;
            RewardsOk(ReferralPaid(c, v, bonus), claims, join,
                      if v == u && referral == None && r.Some? && r.value in c.tokens.users
                         && bonus.enabled && 0 < bonus.amount
                      then Some((r.value, bonus.amount)) else referral, u)
  {
    hide Rows;
    if ReferralDue(c, v, bonus).Some? {
      var marked := c.(members := c.members[v := c.members[v].(referralPaid := true)]);
      SameLedger(c, marked);
      PaysRows(marked, c.members[v].referredBy.value, bonus.amount, ReferralInviteBonus, ReferralInviteOf(v));
    }
  }

  /** Over any run whose dates never go back: each check-in with a positive reward has exactly one entry, of the user
      and with the amount on offer at that claim, and no other day has one; the join and referral bonuses have exactly
      the entry of the award that paid them, the latter to the referrer. */
  lemma {:induction false} RewardsArePaidExactly(steps: seq<Step>, u: int)
    requires ClockForward(steps)
    ensures RewardsMatch(steps, u)
    decreases |steps|
  {
    hide Rows, Claimed, JoinPaid, ReferralPaid, Pays, RewardsOk, StreakOk, LongestBlock, SignedUp;
    if steps == [] {
      StartRewards(u);
    } else {
      var front, s := steps[..|steps| - 1], steps[|steps| - 1];
      var c, claims := Run(front), Claims(front, u);
      var join, referral := JoinHistory(front, u), ReferralHistory(front, u);
      RewardsArePaidExactly(front, u);
      match s {
        case Claim(v, today, reward) =>
          if Succeeds(c, s, v) {
            StreakIsLongestBlock(front, v);
            AcceptedExactly(front, s, v);
            ClaimKeepsRewards(c, claims, join, referral, u, v, today, reward);
          } else if v == u {
            StreakIsLongestBlock(front, u);
            AcceptedExactly(front, s, u);
          }
        case Award(v, _, _) =>
          AwardKeepsRewards(front, s, u);
        case SignUp(v, referrer) =>
          SignUpKeepsRewards(c, s, claims, join, referral, u);
        case OtherPosting(v, kind, amount, ref) =>
          if v in c.tokens.users {
            OtherKeepsRewards(c, s, claims, join, referral, u);
          }
      }
    }
  }

  lemma AwardKeepsRewards(front: seq<Step>, s: Step, u: int)
    requires s.Award? && RewardsMatch(front, u)
    ensures RewardsMatch(front + [s], u)
  {
    hide Rows, JoinPaid, ReferralPaid, RewardsOk, SignedUp;
    var c, v := Run(front), s.user;
    assert (front + [s])[..|front|] == front;
    MembersSignedUp(front, v);
    if v in c.members {
      JoinKeepsRewards(c, Claims(front, u), JoinHistory(front, u), ReferralHistory(front, u), u, v, s.join);
      if c.members[v].referredBy.Some? { MembersSignedUp(front, c.members[v].referredBy.value); }
      ReferralKeepsRewards(JoinPaid(c, v, s.join), Claims(front, u), JoinHistory(front + [s], u),
                           ReferralHistory(front, u), u, v, s.referral);
    }
  }

  lemma StartRewards(u: int)
    ensures RewardsMatch([], u)
  {
  }

  lemma SignUpKeepsRewards(
      c: Club, s: Step, claims: map<int, int>, join: Option<int>, referral: Option<(int, int)>, u: int)
    requires s.SignUp? && RewardsOk(c, claims, join, referral, u)
    ensures RewardsOk(Next(c, s), claims, join, referral, u)
  {
    hide Rows;
    SameLedger(c, Next(c, s));
  }

  lemma OtherKeepsRewards(
      c: Club, s: Step, claims: map<int, int>, join: Option<int>, referral: Option<(int, int)>, u: int)
    requires s.OtherPosting? && s.user in c.tokens.users && RewardsOk(c, claims, join, referral, u)
    ensures RewardsOk(Next(c, s), claims, join, referral, u)
  {
    hide Rows;
    PaysRows(c, s.user, s.amount, s.kind, s.ref);
  }

  /** In every run a user's token balance is the sum of the user's entries, rewards included. */
  lemma {:induction false} BalancesCountRewards(steps: seq<Step>, u: int)
    ensures var c := Run(steps);
            SumWhere(c.tokens.ledger, ByUser(u)) == if u in c.tokens.users then c.tokens.users[u].balance else 0
    decreases |steps|
  {
    hide SumWhere, Pays, Recorded;
    if steps == [] {
      NoEntries(u);
    } else {
      var front, s := steps[..|steps| - 1], steps[|steps| - 1];
      BalancesCountRewards(front, u);
      NextCounts(Run(front), s, u);
    }
  }

  lemma NoEntries(u: int)
    ensures SumWhere(EMPTY.ledger, ByUser(u)) == 0
  {
  }

  ghost predicate Counted(c: Club, u: int) {
    SumWhere(c.tokens.ledger, ByUser(u)) == if u in c.tokens.users then c.tokens.users[u].balance else 0
  }

  lemma PaysCounts(c: Club, v: int, amount: int, kind: Kind, ref: Ref, u: int)
    requires v in c.tokens.users && Counted(c, u)
    ensures Counted(Pays(c, v, amount, kind, ref), u)
  {
    hide SumWhere;
    var before := c.tokens.users[v].balance;
    SumAppend(c.tokens.ledger, Entry(v, kind, amount, before, before + amount, ref));
  }

  lemma NextCounts(c: Club, s: Step, u: int)
    requires Counted(c, u)
    ensures Counted(Next(c, s), u)
  {
    hide SumWhere, Pays, Counted;
    match s
    case SignUp(v, _) => SignUpCounts(c, s, u);
    case Claim(v, today, reward) =>
      if Succeeds(c, s, v) {
        var marked := c.(members := c.members[v := CheckedIn(c.members[v], today)]);
        SameCounts(c, marked, u);
        if 0 < reward.amount { PaysCounts(marked, v, reward.amount, DailyCheckin, CheckinOf(v, today), u); }
      }
    case Award(v, join, referral) =>
      if v in c.members && v in c.tokens.users {
        JoinCounts(c, v, join, u);
        ReferralCounts(JoinPaid(c, v, join), v, referral, u);
      }
    case OtherPosting(v, kind, amount, ref) =>
      if v in c.tokens.users { PaysCounts(c, v, amount, kind, ref, u); }
  }

  lemma SameCounts(c: Club, c': Club, u: int)
    requires c'.tokens == c.tokens && Counted(c, u)
    ensures Counted(c', u)
  {
  }

  lemma SignUpCounts(c: Club, s: Step, u: int)
    requires s.SignUp? && Counted(c, u)
    ensures Counted(Next(c, s), u)
  {
    hide SumWhere;
  }

  lemma JoinCounts(c: Club, v: int, bonus: Bonus, u: int)
    requires v in c.members && v in c.tokens.users && Counted(c, u)
    ensures Counted(JoinPaid(c, v, bonus), u) && v in JoinPaid(c, v, bonus).members
  {
    hide SumWhere, Counted;
    if JoinDue(c, v, bonus) {
      var marked := c.(members := c.members[v := c.members[v].(joinClaimed := true)]);
      SameCounts(c, marked, u);
      PaysCounts(marked, v, bonus.amount, JoinBonus, JoinBonusOf(v), u);
    }
  }

  lemma ReferralCounts(c: Club, v: int, bonus: Bonus, u: int)
    requires v in c.members && Counted(c, u)
    ensures Counted(ReferralPaid(c, v, bonus), u)
  {
    hide SumWhere, Counted;
    if ReferralDue(c, v, bonus).Some? {
      var marked := c.(members := c.members[v := c.members[v].(referralPaid := true)]);
      SameCounts(c, marked, u);
      PaysCounts(marked, c.members[v].referredBy.value, bonus.amount, ReferralInviteBonus, ReferralInviteOf(v), u);
    }
  }

  // ----- the service -----

  class UserService {
    var members: map<int, Member>
    var tokens: Tables

    ghost function View(): Club
      reads this
    {
      Club(members, tokens)
    }

    constructor ()
      ensures View() == NEW_CLUB
    {
      members, tokens := map[], EMPTY;
    }

    /** The token service's credit of a positive amount to a known user. */
    method Credit(u: int, amount: int, kind: Kind, ref: Ref)
      requires 0 < amount && u in tokens.users
      modifies this`tokens
      ensures tokens == Post(old(tokens), u, kind, amount, ref)
    {
      var before := tokens.users[u].balance;
      tokens := tokens.(users := tokens.users[u := Recorded(tokens.users[u], kind, amount)],
                        ledger := tokens.ledger + [Entry(u, kind, amount, before, before + amount, ref)]);
    }

    method ClaimDailyCheckin(u: int, today: int, reward: Bonus) returns (error: Option<ClaimError>, streak: nat)
      requires u in members && u in tokens.users
      modifies this
      ensures error == ClaimRefusal(old(View()), u, today, reward)
      ensures View() == Next(old(View()), Claim(u, today, reward))
      ensures error == None ==> u in members && streak == members[u].streak
    {
      hide Post;
      if !reward.enabled { return Some(CheckinDisabled), 0; }
      var user := members[u];
      if user.lastCheckin == Some(today) { return Some(AlreadyCheckedIn), 0; }
      if user.lastCheckin == Some(today - 1) {
        user := user.(streak := user.streak + 1);
      } else {
        user := user.(streak := 1);
      }
      user := user.(lastCheckin := Some(today));
      members := members[u := user];
      if reward.amount > 0 {
        Credit(u, reward.amount, DailyCheckin, CheckinOf(u, today));
      }
      return None, user.streak;
    }

    /** Returns what was paid to the user and to the referrer. */
    method AwardStartBonuses(u: int, join: Bonus, referral: Bonus) returns (joined: int, referred: int)
      requires u in members && u in tokens.users
      modifies this
      ensures View() == Next(old(View()), Award(u, join, referral))
      ensures joined == if JoinDue(old(View()), u, join) then join.amount else 0
      ensures referred == if ReferralDue(old(View()), u, referral).Some? then referral.amount else 0
    {
      joined, referred := 0, 0;
      if !members[u].joinClaimed && join.enabled && join.amount > 0 {
        Credit(u, join.amount, JoinBonus, JoinBonusOf(u));
        members := members[u := members[u].(joinClaimed := true)];
        joined := join.amount;
      }
      var referrer := members[u].referredBy;
      if referrer.Some? && !members[u].referralPaid && referral.enabled && referral.amount > 0 {
        if referrer.value in tokens.users {
          Credit(referrer.value, referral.amount, ReferralInviteBonus, ReferralInviteOf(u));
          members := members[u := members[u].(referralPaid := true)];
          referred := referral.amount;
        }
      }
    }
  }
}
