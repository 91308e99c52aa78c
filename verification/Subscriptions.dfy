/** The subscription lifecycle over whole runs: one ACTIVE row per employer,
    no way back, one expiry notice, and a bound on monthly renewals. */
module Subscriptions {
  import opened Options
  import opened Credits
  import opened Billing

  // ----- invariants of every reachable state -----

  predicate DistinctSubs(subs: seq<Subscription>) {
    forall i, j :: 0 <= i < j < |subs| ==> subs[i].id != subs[j].id
  }

  predicate OneActive(subs: seq<Subscription>) {
    forall i, j :: 0 <= i < j < |subs| && subs[i].employerId == subs[j].employerId ==>
      !(subs[i].status == ACTIVE && subs[j].status == ACTIVE)
  }

  predicate GrantsInThePast(s: State) {
    forall i :: 0 <= i < |s.subs| ==> s.subs[i].lastGrant <= s.now
  }

  /** A caller about to flip has read a row that has really lapsed. */
  predicate PendingLapsed(s: State) {
    forall c :: c in s.pending ==>
      exists i :: 0 <= i < |s.subs| && s.subs[i].id == s.pending[c] && s.subs[i].endDate < s.now
  }

  ghost predicate Sound(s: State) {
    DistinctSubs(s.subs) && OneActive(s.subs) && GrantsInThePast(s) && PendingLapsed(s)
  }

  /** What every step preserves of every subscription row. */
  predicate SameTerms(x: Subscription, y: Subscription) {
    && y.id == x.id && y.employerId == x.employerId && y.planId == x.planId
    && y.startDate == x.startDate && y.endDate == x.endDate && y.paymentId == x.paymentId
    && (x.status != ACTIVE ==> y == x)
  }

  predicate Evolves(s: State, s': State) {
    && s.now <= s'.now && |s.subs| <= |s'.subs|
    && forall i :: 0 <= i < |s.subs| ==> SameTerms(s.subs[i], s'.subs[i])
  }

  /** A call either changes nothing or is its transaction. */
  lemma StepIsTry(s: State, c: Call)
    ensures var r := Step(s, c);
      (r.st == s && (r.out.Raised? || r.out.DryRun?)) || r == Try(s, c.op, c.commit)
  {
  }

  /** The operations that leave subscriptions, pending reads and the clock alone. */
  predicate Elsewhere(op: Op) {
    || op.CheckPhone? || op.CreateEmployer? || op.PostJob? || op.Purchase? || op.CreateOrder? || op.MarkSuccess?
    || op.RecordRenewal? || op.SetPlan?
  }

  predicate LeavesSubs(s: State, r: Reply) {
    r.st.subs == s.subs && r.st.pending == s.pending && r.st.now == s.now && !r.out.Claimed? && !r.out.Lapsed?
  }

  lemma ChargeLeavesSubs(s: State, op: Op, commit: bool)
    requires op.PostJob? || op.Purchase? || op.RecordRenewal?
    ensures LeavesSubs(s, Try(s, op, commit)) && Try(s, op, commit).st.plans == s.plans
  {
    hide Rows;
  }

  lemma ElsewhereLeavesSubs(s: State, op: Op, commit: bool)
    requires Elsewhere(op)
    ensures LeavesSubs(s, Try(s, op, commit))
    ensures !op.SetPlan? ==> Try(s, op, commit).st.plans == s.plans
  {
    if op.PostJob? || op.Purchase? || op.RecordRenewal? {
      ChargeLeavesSubs(s, op, commit);
    }
  }

  lemma ActivateSubs(s: State, op: Op)
    requires op.Activate?
    ensures var r := TryActivate(s, op);
      && r.st.pending == s.pending && r.st.now == s.now && r.st.plans == s.plans && !r.out.Claimed? && !r.out.Lapsed?
      && (if r.out.Committed? then
            && Find(s.subs, (x: Subscription) => x.id == op.subId) < 0
            && r.st.subs
               == UpdateWhere(s.subs, (x: Subscription) => IsActiveOf(x, op.employerId), Expire) + [NewSub(s, op)]
          else r.st.subs == s.subs)
  {
  }

  /** An UPDATE that keeps the terms keeps the pending reads lapsed. */
  lemma PendingKept(s: State, s': State)
    requires PendingLapsed(s) && Evolves(s, s') && s'.pending.Keys <= s.pending.Keys
    requires forall c :: c in s'.pending ==> s'.pending[c] == s.pending[c]
    ensures PendingLapsed(s')
  {
    forall c | c in s'.pending
      ensures exists i :: 0 <= i < |s'.subs| && s'.subs[i].id == s'.pending[c] && s'.subs[i].endDate < s'.now
    {
      var i :| 0 <= i < |s.subs| && s.subs[i].id == s.pending[c] && s.subs[i].endDate < s.now;
      assert SameTerms(s.subs[i], s'.subs[i]);
    }
  }

  /** An UPDATE that revives no row and grants nothing in the future is sound. */
  lemma UpdateSound(s: State, s': State)
    requires Sound(s) && s.now <= s'.now && |s'.subs| == |s.subs|
    requires forall i :: 0 <= i < |s.subs| ==> SameTerms(s.subs[i], s'.subs[i]) && s'.subs[i].lastGrant <= s'.now
    requires s'.pending.Keys <= s.pending.Keys && forall c :: c in s'.pending ==> s'.pending[c] == s.pending[c]
    ensures Sound(s') && Evolves(s, s')
  {
    PendingKept(s, s');
    forall i, j | 0 <= i < j < |s'.subs| ensures s'.subs[i].id != s'.subs[j].id {
      assert SameTerms(s.subs[i], s'.subs[i]) && SameTerms(s.subs[j], s'.subs[j]);
    }
    forall i, j | 0 <= i < j < |s'.subs| && s'.subs[i].employerId == s'.subs[j].employerId
      ensures !(s'.subs[i].status == ACTIVE && s'.subs[j].status == ACTIVE)
    {
      assert SameTerms(s.subs[i], s'.subs[i]) && SameTerms(s.subs[j], s'.subs[j]);
    }
  }

  lemma ActivateSound(s: State, op: Op)
    requires Sound(s) && op.Activate? && TryActivate(s, op).out.Committed?
    ensures Sound(TryActivate(s, op).st) && Evolves(s, TryActivate(s, op).st)
  {
    ActivateSubs(s, op);
    var s' := TryActivate(s, op).st;
    var retired := UpdateWhere(s.subs, (x: Subscription) => IsActiveOf(x, op.employerId), Expire);
    UpdateSound(s, s.(subs := retired));
    AppendSound(s.subs, retired, NewSub(s, op));
    PendingKept(s, s');
  }

  /** A new ACTIVE row beside retired ones, with an id none of them has. */
  lemma AppendSound(subs: seq<Subscription>, retired: seq<Subscription>, x: Subscription)
    requires |retired| == |subs| && DistinctSubs(retired) && OneActive(retired)
    requires forall i :: 0 <= i < |subs| ==> SameTerms(subs[i], retired[i]) && subs[i].id != x.id
    requires forall i :: 0 <= i < |retired| ==> !IsActiveOf(retired[i], x.employerId)
    ensures DistinctSubs(retired + [x]) && OneActive(retired + [x])
  {
    var all, n := retired + [x], |retired|;
    forall i, j | 0 <= i < j < |all| ensures all[i].id != all[j].id {
      if j == n {
        assert SameTerms(subs[i], retired[i]);
      }
    }
    forall i, j | 0 <= i < j < |all| && all[i].employerId == all[j].employerId
      ensures !(all[i].status == ACTIVE && all[j].status == ACTIVE)
    {
      if j == n {
        assert !IsActiveOf(retired[i], x.employerId);
      }
    }
  }

  lemma ReadSound(s: State, op: Op)
    requires Sound(s) && op.ReadEntitlement?
    ensures Sound(TryReadEntitlement(s, op).st) && Evolves(s, TryReadEntitlement(s, op).st)
  {
    var s' := TryReadEntitlement(s, op).st;
    assert s'.subs == s.subs && s'.now == s.now;
    var i := LatestActive(s.subs, op.employerId);
    forall c | c in s'.pending
      ensures exists i :: 0 <= i < |s'.subs| && s'.subs[i].id == s'.pending[c] && s'.subs[i].endDate < s'.now
    {
      if c == op.caller {
        assert s'.subs[i].id == s'.pending[c];
      } else {
        assert c in s.pending && s'.pending[c] == s.pending[c];
      }
    }
  }

  lemma ClaimSound(s: State, op: Op)
    requires Sound(s) && op.ClaimRenewal?
    ensures Sound(TryClaimRenewal(s, op).st) && Evolves(s, TryClaimRenewal(s, op).st)
  {
    UpdateSound(s, TryClaimRenewal(s, op).st);
  }

  lemma CancelSound(s: State, op: Op)
    requires Sound(s) && op.Cancel?
    ensures Sound(TryCancel(s, op).st) && Evolves(s, TryCancel(s, op).st)
  {
    UpdateSound(s, TryCancel(s, op).st);
  }

  lemma FlipSound(s: State, op: Op)
    requires Sound(s) && op.FlipEntitlement?
    ensures Sound(TryFlipEntitlement(s, op).st) && Evolves(s, TryFlipEntitlement(s, op).st)
  {
    UpdateSound(s, TryFlipEntitlement(s, op).st);
  }

  lemma ElsewhereSound(s: State, op: Op, commit: bool)
    requires Sound(s) && (Elsewhere(op) || op.Tick?)
    ensures Sound(Try(s, op, commit).st) && Evolves(s, Try(s, op, commit).st)
  {
    var s' := Try(s, op, commit).st;
    if Elsewhere(op) {
      ElsewhereLeavesSubs(s, op, commit);
    } else {
      assert s' == s.(now := s.now + op.ticks);
    }
    assert s'.subs == s.subs && s'.pending == s.pending && s.now <= s'.now;
    UpdateSound(s, s');
  }

  lemma TrySound(s: State, op: Op, commit: bool)
    requires Sound(s)
    ensures Sound(Try(s, op, commit).st) && Evolves(s, Try(s, op, commit).st)
  {
    match op
    case Activate(_, _, _, _, _, _, _) =>
      ActivateSubs(s, op);
      if TryActivate(s, op).out.Committed? {
        ActivateSound(s, op);
      } else {
        UpdateSound(s, TryActivate(s, op).st);
      }
    case ReadEntitlement(_, _) => ReadSound(s, op);
    case Cancel(_) => CancelSound(s, op);
    case ClaimRenewal(_, _) => ClaimSound(s, op);
    case FlipEntitlement(_) => FlipSound(s, op);
    case _ => ElsewhereSound(s, op, commit);
  }

  /** One step keeps the invariants and the terms of every existing row. */
  lemma StepSound(s: State, c: Call)
    requires Sound(s)
    ensures Sound(Step(s, c).st) && Evolves(s, Step(s, c).st)
  {
    StepIsTry(s, c);
    TrySound(s, c.op, c.commit);
  }

  lemma {:induction false} EvolvesTrans(a: State, b: State, c: State)
    requires Evolves(a, b) && Evolves(b, c)
    ensures Evolves(a, c)
  {
    forall i | 0 <= i < |a.subs| ensures SameTerms(a.subs[i], c.subs[i]) {
      assert SameTerms(a.subs[i], b.subs[i]) && SameTerms(b.subs[i], c.subs[i]);
    }
  }

  /** In every reachable state an employer has at most one ACTIVE subscription;
      a row that has left ACTIVE stays exactly as it was. */
  lemma {:induction false} Lifecycle(s: State, calls: seq<Call>)
    requires Sound(s)
    ensures Sound(Run(s, calls)) && Evolves(s, Run(s, calls))
    decreases |calls|
  {
    hide Step;
    if calls != [] {
      var s1 := Step(s, calls[0]).st;
      StepSound(s, calls[0]);
      Lifecycle(s1, calls[1..]);
      EvolvesTrans(s, s1, Run(s1, calls[1..]));
    }
  }

  /** So from empty tables no employer ever has two ACTIVE subscriptions. */
  lemma LifecycleFromEmpty(s: State, calls: seq<Call>, i: nat, j: nat)
    requires s.subs == [] && s.pending == map[]
    ensures var subs := Run(s, calls).subs;
      i < |subs| && j < |subs| && subs[i].employerId == subs[j].employerId ==>
        (subs[i].status == ACTIVE && subs[j].status == ACTIVE ==> i == j)
  {
    Lifecycle(s, calls);
  }

  // ----- the expiry notice fires once -----

  function Notices(outs: seq<Out>, id: Id): nat {
    if outs == [] then 0
    else (if outs[0] == Lapsed(id, true) then 1 else 0) + Notices(outs[1..], id)
  }

  lemma FlipOutcome(s: State, c: Call, id: Id)
    requires Step(s, c).out == Lapsed(id, true)
    ensures c.op.FlipEntitlement?
    ensures exists i ::
      && 0 <= i < |s.subs| && s.subs[i].id == id && s.subs[i].status == ACTIVE
      && i < |Step(s, c).st.subs| && Step(s, c).st.subs[i].id == id && Step(s, c).st.subs[i].status == EXPIRED
  {
    StepIsTry(s, c);
    if c.op.Activate? {
      ActivateSubs(s, c.op);
    } else if Elsewhere(c.op) {
      ElsewhereLeavesSubs(s, c.op, c.commit);
    }
    var i := Find(s.subs, (x: Subscription) => x.id == id && x.status == ACTIVE);
    assert s.subs[i].id == id;
  }

  lemma {:induction false} NoNoticeOnceOver(s: State, calls: seq<Call>, i: nat)
    requires Sound(s) && i < |s.subs| && s.subs[i].status != ACTIVE
    ensures Notices(Outs(s, calls), s.subs[i].id) == 0
    decreases |calls|
  {
    hide Step;
    if calls != [] {
      var r, id := Step(s, calls[0]), s.subs[i].id;
      StepSound(s, calls[0]);
      assert SameTerms(s.subs[i], r.st.subs[i]);
      if r.out == Lapsed(id, true) {
        FlipOutcome(s, calls[0], id);
        assert false;
      }
      NoNoticeOnceOver(r.st, calls[1..], i);
      assert Outs(s, calls)[1..] == Outs(r.st, calls[1..]);
    }
  }

  /** `just_expired` is answered true at most once per subscription, however the
      reads and flips of any number of callers interleave. */
  lemma {:induction false} JustExpiredOnce(s: State, calls: seq<Call>, id: Id)
    requires Sound(s)
    ensures Notices(Outs(s, calls), id) <= 1
    decreases |calls|
  {
    hide Step;
    if calls != [] {
      var r := Step(s, calls[0]);
      StepSound(s, calls[0]);
      assert Outs(s, calls)[1..] == Outs(r.st, calls[1..]);
      if r.out == Lapsed(id, true) {
        FlipOutcome(s, calls[0], id);
        var i :| 0 <= i < |r.st.subs| && r.st.subs[i].id == id && r.st.subs[i].status == EXPIRED;
        NoNoticeOnceOver(r.st, calls[1..], i);
      } else {
        JustExpiredOnce(r.st, calls[1..], id);
      }
    }
  }

  /** The notice is never premature: the flipped row's end date has passed. */
  lemma NoticeIsLate(s: State, c: Call, id: Id)
    requires Sound(s) && Step(s, c).out == Lapsed(id, true)
    ensures exists i ::
      0 <= i < |s.subs| && s.subs[i].id == id && s.subs[i].status == ACTIVE && s.subs[i].endDate < s.now
  {
    FlipOutcome(s, c, id);
    assert s.pending[c.op.caller] == id;
    var i :| 0 <= i < |s.subs| && s.subs[i].id == id && s.subs[i].endDate < s.now;
    var j :| 0 <= j < |s.subs| && s.subs[j].id == id && s.subs[j].status == ACTIVE;
    assert i == j;
  }

  // ----- entitlement and cancellation -----

  /** The read answers Entitled exactly for the employer's ACTIVE row while it has
      not passed its end, and sends the caller on to flip it exactly when it has. */
  lemma EntitledIff(s: State, caller: nat, e: Id, i: nat)
    requires Sound(s) && e != "" && i < |s.subs|
    ensures var out := TryReadEntitlement(s, ReadEntitlement(caller, e)).out;
      && (out == Entitled(s.subs[i].id) <==> IsActiveOf(s.subs[i], e) && s.subs[i].endDate >= s.now)
      && (out == MustFlip(s.subs[i].id) <==> IsActiveOf(s.subs[i], e) && s.subs[i].endDate < s.now)
  {
    var k := LatestActive(s.subs, e);
    if k >= 0 {
      assert IsActiveOf(s.subs[k], e);
      assert IsActiveOf(s.subs[i], e) ==> i == k;
      assert i != k ==> s.subs[i].id != s.subs[k].id;
    }
  }

  /** Cancelling succeeds exactly when an ACTIVE row's plan is still in the
      catalog, and stops the benefits: no ACTIVE row is left, nothing is due. */
  lemma CancelStopsBenefits(s: State, e: Id, cycleDays: int)
    requires Sound(s) && e != ""
    ensures var r := TryCancel(s, Op.Cancel(e));
      && (r.out.Committed?
          <==> exists i :: 0 <= i < |s.subs| && IsActiveOf(s.subs[i], e) && s.subs[i].planId in s.plans)
      && (r.out.Committed? ==>
          && (forall i :: 0 <= i < |r.st.subs| ==> !IsActiveOf(r.st.subs[i], e))
          && TryClaimRenewal(r.st, ClaimRenewal(e, cycleDays)) == Reply(r.st, Refused))
  {
    var hit := (x: Subscription) => IsActiveOf(x, e) && x.planId in s.plans;
    var k := Find(s.subs, hit);
    var r := TryCancel(s, Op.Cancel(e));
    if k >= 0 {
      assert hit(s.subs[k]);
      forall i | 0 <= i < |r.st.subs| ensures !IsActiveOf(r.st.subs[i], e) {
        assert IsActiveOf(s.subs[i], e) ==> i == k;
      }
    }
  }

  /** The witness: once an ACTIVE row's plan is taken out of the catalog, cancelling
      is refused and the row stays ACTIVE. */
  lemma DroppedPlanCannotBeCancelled(s: State, e: Id, i: nat)
    requires Sound(s) && e != "" && i < |s.subs| && IsActiveOf(s.subs[i], e)
    ensures var s1 := Step(s, Call(SetPlan(s.subs[i].planId, None), true, false)).st;
      && IsActiveOf(s1.subs[i], e)
      && Step(s1, Call(Op.Cancel(e), true, false)) == Reply(s1, Refused)
  {
    var drop := Call(SetPlan(s.subs[i].planId, None), true, false);
    var s1 := Step(s, drop).st;
    StepSound(s, drop);
    assert s1.subs == s.subs && s.subs[i].planId !in s1.plans;
    forall j | 0 <= j < |s1.subs| && IsActiveOf(s1.subs[j], e) ensures s1.subs[j].planId !in s1.plans {
      assert j == i;
    }
    CancelStopsBenefits(s1, e, 0);
  }

  // ----- monthly renewals -----

  predicate IsClaim(o: Out, id: Id) {
    o.Claimed? && o.subId == id
  }

  function Claims(outs: seq<Out>, id: Id): nat {
    if outs == [] then 0 else (if IsClaim(outs[0], id) then 1 else 0) + Claims(outs[1..], id)
  }

  function Cycles(outs: seq<Out>, id: Id): int {
    if outs == [] then 0 else (if IsClaim(outs[0], id) then outs[0].cycleDays else 0) + Cycles(outs[1..], id)
  }

  function Granted(outs: seq<Out>, id: Id): int {
    if outs == [] then 0 else (if IsClaim(outs[0], id) then outs[0].credits else 0) + Granted(outs[1..], id)
  }

  function GrantedBoosts(outs: seq<Out>, id: Id): int {
    if outs == [] then 0 else (if IsClaim(outs[0], id) then outs[0].boosts else 0) + GrantedBoosts(outs[1..], id)
  }

  predicate ClaimEffect(s: State, r: Reply, i: nat)
    requires i < |s.subs| && i < |r.st.subs|
  {
    var x, y := s.subs[i], r.st.subs[i];
    if IsClaim(r.out, x.id) then
      && y.lastGrant >= x.lastGrant + r.out.cycleDays * DAY && y.lastGrant < y.endDate
      && y.credits == x.credits + r.out.credits && y.boosts == x.boosts + r.out.boosts
      && x.planId in s.plans && Plan(r.out.credits, r.out.boosts) == s.plans[x.planId]
    else y.lastGrant == x.lastGrant && y.credits == x.credits && y.boosts == x.boosts
  }

  /** Only one row is ever due: the claimed one. */
  lemma ClaimedRow(s: State, op: Op, i: nat)
    requires Sound(s) && i < |s.subs| && op.ClaimRenewal?
    ensures ClaimEffect(s, TryClaimRenewal(s, op), i)
  {
    var due := (x: Subscription) => Due(s, x, op.employerId, op.cycleDays);
    var k := Find(s.subs, due);
    if k >= 0 {
      assert due(s.subs[k]);
      if k != i && due(s.subs[i]) {
        assert false;
      }
    }
  }

  /** One step, seen from row `i`: a claim moves its grant date by at least a
      cycle, stays before its end and adds the catalog's credits and boosts; nothing
      else touches the three columns. */
  lemma StepClaims(s: State, c: Call, i: nat)
    requires Sound(s) && i < |s.subs|
    ensures i < |Step(s, c).st.subs|
    ensures ClaimEffect(s, Step(s, c), i)
  {
    StepIsTry(s, c);
    if Step(s, c) == Try(s, c.op, c.commit) {
      TryClaims(s, c.op, c.commit, i);
    }
  }

  lemma TryClaims(s: State, op: Op, commit: bool, i: nat)
    requires Sound(s) && i < |s.subs|
    ensures i < |Try(s, op, commit).st.subs|
    ensures ClaimEffect(s, Try(s, op, commit), i)
  {
    match op
    case ClaimRenewal(_, _) => ClaimedRow(s, op, i);
    case Activate(_, _, _, _, _, _, _) => ActivateSubs(s, op);
    case Cancel(_) => OthersClaimNothing(s, op, commit, i);
    case ReadEntitlement(_, _) => OthersClaimNothing(s, op, commit, i);
    case FlipEntitlement(_) => OthersClaimNothing(s, op, commit, i);
    case Tick(_) => OthersClaimNothing(s, op, commit, i);
    case _ => ElsewhereLeavesSubs(s, op, commit);
  }

  lemma OthersClaimNothing(s: State, op: Op, commit: bool, i: nat)
    requires i < |s.subs| && (op.Cancel? || op.ReadEntitlement? || op.FlipEntitlement? || op.Tick?)
    ensures i < |Try(s, op, commit).st.subs|
    ensures ClaimEffect(s, Try(s, op, commit), i)
  {
  }

  lemma {:induction false} RunClaims(s: State, calls: seq<Call>, i: nat)
    requires Sound(s) && i < |s.subs|
    ensures i < |Run(s, calls).subs|
    ensures var outs, x, y := Outs(s, calls), s.subs[i], Run(s, calls).subs[i];
      && y.lastGrant >= x.lastGrant + Cycles(outs, x.id) * DAY
      && (Claims(outs, x.id) > 0 ==> y.lastGrant < x.endDate)
      && (Claims(outs, x.id) == 0 ==> y.lastGrant == x.lastGrant)
      && y.credits == x.credits + Granted(outs, x.id) && y.boosts == x.boosts + GrantedBoosts(outs, x.id)
    decreases |calls|
  {
    hide Step;
    if calls != [] {
      var r := Step(s, calls[0]);
      StepSound(s, calls[0]);
      StepClaims(s, calls[0], i);
      assert SameTerms(s.subs[i], r.st.subs[i]);
      RunClaims(r.st, calls[1..], i);
      assert Outs(s, calls)[1..] == Outs(r.st, calls[1..]);
    }
  }

  lemma {:induction false} CyclesAtLeast(outs: seq<Out>, id: Id, c: int)
    requires forall k :: 0 <= k < |outs| && IsClaim(outs[k], id) ==> outs[k].cycleDays >= c
    ensures Cycles(outs, id) >= Claims(outs, id) * c
  {
    if outs != [] {
      CyclesAtLeast(outs[1..], id, c);
      var n := Claims(outs[1..], id);
      assert (n + 1) * c == n * c + c;
    }
  }

  /** What a committed activation leaves at the end of the table. */
  lemma ActivatedRow(s: State, act: Call)
    requires act.op.Activate? && Step(s, act).out.Committed?
    ensures var s1 := Step(s, act).st;
      |s1.subs| == |s.subs| + 1 && s1.subs[|s.subs|] == NewSub(s, act.op) && s1.plans == s.plans
  {
    ActivateSubs(s, act.op);
  }

  /** For a subscription activated for `days`, n >= 1 successful claims with
      cycles of at least c days imply n * c < days, for any callers and clock;
      and the row's two counters are the first grants plus what was claimed. */
  lemma RenewalBound(s: State, act: Call, calls: seq<Call>, c: int)
    requires Sound(s) && act.op.Activate? && Step(s, act).out.Committed?
    requires var outs := Outs(Step(s, act).st, calls);
      forall k :: 0 <= k < |outs| && IsClaim(outs[k], act.op.subId) ==> outs[k].cycleDays >= c
    ensures var s1, id := Step(s, act).st, act.op.subId;
      var outs, s' := Outs(s1, calls), Run(s1, calls);
      && (Claims(outs, id) >= 1 ==> Claims(outs, id) * c < act.op.days)
      && |s.subs| < |s'.subs| && s'.subs[|s.subs|].id == id
      && s'.subs[|s.subs|].credits == act.op.monthly.unlock + Granted(outs, id)
      && s'.subs[|s.subs|].boosts == act.op.monthly.boost + GrantedBoosts(outs, id)
  {
    hide Step;
    ActivatedRow(s, act);
    StepSound(s, act);
    var s1, id, i := Step(s, act).st, act.op.subId, |s.subs|;
    assert s1.subs[i] == NewSub(s, act.op);
    var outs := Outs(s1, calls);
    RunClaims(s1, calls, i);
    Lifecycle(s1, calls);
    assert SameTerms(s1.subs[i], Run(s1, calls).subs[i]);
    CyclesAtLeast(outs, id, c);
    if Claims(outs, id) >= 1 {
      var n := Claims(outs, id);
      assert n * c <= Cycles(outs, id);
      assert Cycles(outs, id) * DAY < act.op.days * DAY;
    }
  }

  predicate CatalogFixed(calls: seq<Call>, planId: Id) {
    forall k :: 0 <= k < |calls| ==> calls[k].op.SetPlan? ==> calls[k].op.planId != planId
  }

  lemma PlansKept(s: State, c: Call, planId: Id)
    requires planId in s.plans && (c.op.SetPlan? ==> c.op.planId != planId)
    ensures planId in Step(s, c).st.plans && Step(s, c).st.plans[planId] == s.plans[planId]
  {
    StepIsTry(s, c);
    if c.op.Activate? {
      ActivateSubs(s, c.op);
    } else if Elsewhere(c.op) {
      ElsewhereLeavesSubs(s, c.op, c.commit);
    }
  }

  /** Under a fixed catalog every claim hands out the same monthly grant. */
  lemma {:induction false} FixedCatalogGrants(s: State, calls: seq<Call>, i: nat)
    requires Sound(s) && i < |s.subs| && s.subs[i].planId in s.plans && CatalogFixed(calls, s.subs[i].planId)
    ensures Granted(Outs(s, calls), s.subs[i].id)
      == Claims(Outs(s, calls), s.subs[i].id) * s.plans[s.subs[i].planId].monthlyCredits
    ensures GrantedBoosts(Outs(s, calls), s.subs[i].id)
      == Claims(Outs(s, calls), s.subs[i].id) * s.plans[s.subs[i].planId].monthlyBoosts
    decreases |calls|
  {
    hide Step;
    if calls != [] {
      var r, id, planId := Step(s, calls[0]), s.subs[i].id, s.subs[i].planId;
      var plan := s.plans[planId];
      StepSound(s, calls[0]);
      StepClaims(s, calls[0], i);
      assert SameTerms(s.subs[i], r.st.subs[i]);
      assert calls[0].op.SetPlan? ==> calls[0].op.planId != planId;
      PlansKept(s, calls[0], planId);
      FixedCatalogGrants(r.st, calls[1..], i);
      AddOne(Claims(Outs(r.st, calls[1..]), id), plan.monthlyCredits);
      AddOne(Claims(Outs(r.st, calls[1..]), id), plan.monthlyBoosts);
      assert Outs(s, calls)[0] == r.out && Outs(s, calls)[1..] == Outs(r.st, calls[1..]);
    }
  }

  lemma AddOne(n: int, m: int)
    ensures (n + 1) * m == n * m + m
  {
  }

  /** `creditsGrantedThisMonth` and `boostsGrantedThisMonth` are `monthly * (1 + n)`
      after n claims, when the activation itself used the catalog's figures. */
  lemma CounterUnderFixedCatalog(s: State, act: Call, calls: seq<Call>)
    requires Sound(s) && act.op.Activate? && Step(s, act).out.Committed?
    requires act.op.planId in s.plans && s.plans[act.op.planId] == Plan(act.op.monthly.unlock, act.op.monthly.boost)
    requires CatalogFixed(calls, act.op.planId)
    ensures var s1, id := Step(s, act).st, act.op.subId;
      && |s.subs| < |Run(s1, calls).subs|
      && Run(s1, calls).subs[|s.subs|].credits == act.op.monthly.unlock * (1 + Claims(Outs(s1, calls), id))
      && Run(s1, calls).subs[|s.subs|].boosts == act.op.monthly.boost * (1 + Claims(Outs(s1, calls), id))
  {
    hide Step;
    ActivatedRow(s, act);
    StepSound(s, act);
    var s1, id, i := Step(s, act).st, act.op.subId, |s.subs|;
    assert s1.subs[i] == NewSub(s, act.op);
    RunClaims(s1, calls, i);
    FixedCatalogGrants(s1, calls, i);
    assert s1.subs[i].planId == act.op.planId && s1.plans == s.plans;
    AddOne(Claims(Outs(s1, calls), id), act.op.monthly.unlock);
    AddOne(Claims(Outs(s1, calls), id), act.op.monthly.boost);
  }

  function Repeat(c: Call, n: nat): seq<Call> {
    if n == 0 then [] else [c] + Repeat(c, n - 1)
  }

  lemma ClaimAtOnce(s: State, e: Id, c: int, i: nat)
    requires c <= 0 && Sound(s) && i < |s.subs| && e != ""
    requires IsActiveOf(s.subs[i], e) && s.subs[i].planId in s.plans && s.subs[i].endDate > s.now
    ensures var r := Step(s, Call(ClaimRenewal(e, c), true, false));
      && IsClaim(r.out, s.subs[i].id) && Sound(r.st) && i < |r.st.subs|
      && r.st.now == s.now && r.st.plans == s.plans && r.st.subs[i].id == s.subs[i].id
      && r.st.subs[i].planId == s.subs[i].planId && r.st.subs[i].endDate == s.subs[i].endDate
      && IsActiveOf(r.st.subs[i], e)
  {
    StepSound(s, Call(ClaimRenewal(e, c), true, false));
    assert Due(s, s.subs[i], e, c);
    assert Find(s.subs, (x: Subscription) => Due(s, x, e, c)) == i;
  }

  /** The bound needs c >= 1: with a cycle of zero or fewer days a live
      subscription can be claimed any number of times at one instant. */
  lemma {:induction false} CycleBelowOneNeverStops(s: State, e: Id, c: int, i: nat, n: nat)
    requires c <= 0 && Sound(s) && i < |s.subs| && e != ""
    requires IsActiveOf(s.subs[i], e) && s.subs[i].planId in s.plans && s.subs[i].endDate > s.now
    ensures Claims(Outs(s, Repeat(Call(ClaimRenewal(e, c), true, false), n)), s.subs[i].id) == n
    decreases n
  {
    hide Step;
    if n > 0 {
      var call := Call(ClaimRenewal(e, c), true, false);
      var r := Step(s, call);
      ClaimAtOnce(s, e, c, i);
      CycleBelowOneNeverStops(r.st, e, c, i, n - 1);
      var calls := Repeat(call, n);
      assert calls[1..] == Repeat(call, n - 1);
      assert Outs(s, calls)[1..] == Outs(r.st, calls[1..]);
    }
  }

  // ----- payments -----

  predicate DistinctOrders(payments: seq<Payment>) {
    forall i, j :: 0 <= i < j < |payments| ==> payments[i].orderId != payments[j].orderId
  }

  function Verified(outs: seq<Out>, orderId: Id): nat {
    if outs == [] then 0
    else (if outs[0] == Committed(MarkSuccess(orderId)) then 1 else 0) + Verified(outs[1..], orderId)
  }

  /** Payment rows keep their order and a SUCCESS is final; a reported update turned
      the order's pending row into one. */
  predicate PaymentsKept(s: State, r: Reply) {
    && DistinctOrders(r.st.payments) && |s.payments| <= |r.st.payments|
    && (forall i :: 0 <= i < |s.payments| ==>
          && r.st.payments[i].orderId == s.payments[i].orderId
          && (s.payments[i].status == SUCCESS ==> r.st.payments[i] == s.payments[i]))
    && (r.out.Committed? && r.out.op.MarkSuccess? ==>
          exists i :: 0 <= i < |s.payments| && IsPendingOrder(s.payments[i], r.out.op.orderId)
            && r.st.payments[i].status == SUCCESS)
  }

  lemma PaymentsElsewhere(s: State, op: Op, commit: bool)
    requires !op.CreateOrder? && !op.MarkSuccess?
    ensures Try(s, op, commit).st.payments == s.payments
    ensures Try(s, op, commit).out.Committed? ==> Try(s, op, commit).out.op == op
  {
    hide Rows;
    hide ApplyDelta;
  }

  lemma MarkPayments(s: State, op: Op)
    requires DistinctOrders(s.payments) && op.MarkSuccess?
    ensures PaymentsKept(s, TryMarkSuccess(s, op))
  {
    var i := Find(s.payments, (p: Payment) => IsPendingOrder(p, op.orderId));
    assert i >= 0 ==> IsPendingOrder(s.payments[i], op.orderId);
  }

  lemma OrderPayments(s: State, op: Op)
    requires DistinctOrders(s.payments) && op.CreateOrder?
    ensures PaymentsKept(s, TryCreateOrder(s, op))
  {
  }

  lemma StepPayments(s: State, c: Call)
    requires DistinctOrders(s.payments)
    ensures PaymentsKept(s, Step(s, c))
  {
    StepIsTry(s, c);
    if c.op.MarkSuccess? {
      MarkPayments(s, c.op);
    } else if c.op.CreateOrder? {
      OrderPayments(s, c.op);
    } else {
      PaymentsElsewhere(s, c.op, c.commit);
      hide Try;
    }
    hide Step;
  }

  lemma NotVerifiedAgain(s: State, c: Call, i: nat)
    requires DistinctOrders(s.payments) && i < |s.payments| && s.payments[i].status == SUCCESS
    ensures Step(s, c).out != Committed(MarkSuccess(s.payments[i].orderId))
  {
    StepPayments(s, c);
  }

  lemma {:induction false} PaidStaysPaid(s: State, calls: seq<Call>, i: nat)
    requires DistinctOrders(s.payments) && i < |s.payments| && s.payments[i].status == SUCCESS
    ensures Verified(Outs(s, calls), s.payments[i].orderId) == 0
    decreases |calls|
  {
    hide Step;
    if calls != [] {
      var r, o := Step(s, calls[0]), s.payments[i].orderId;
      StepPayments(s, calls[0]);
      assert r.out != Committed(MarkSuccess(o)) by {
        NotVerifiedAgain(s, calls[0], i);
      }
      PaidStaysPaid(r.st, calls[1..], i);
      assert Outs(s, calls)[1..] == Outs(r.st, calls[1..]);
    }
  }

  /** An order has at most one payment row, and `mark_success` reports `updated`
      for it at most once: a replayed verify is detectable. */
  lemma {:induction false} VerifiedOnce(s: State, calls: seq<Call>, orderId: Id)
    requires DistinctOrders(s.payments)
    ensures DistinctOrders(Run(s, calls).payments)
    ensures Verified(Outs(s, calls), orderId) <= 1
    decreases |calls|
  {
    hide Step;
    if calls != [] {
      var r := Step(s, calls[0]);
      StepPayments(s, calls[0]);
      assert Outs(s, calls)[1..] == Outs(r.st, calls[1..]);
      VerifiedOnce(r.st, calls[1..], orderId);
      if r.out == Committed(MarkSuccess(orderId)) {
        var i :| 0 <= i < |s.payments| && r.st.payments[i].orderId == orderId && r.st.payments[i].status == SUCCESS;
        PaidStaysPaid(r.st, calls[1..], i);
      }
    }
  }
}
