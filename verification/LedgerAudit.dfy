/** The ledger explains the wallets: replaying a wallet's rows, floored at zero,
    reproduces every recorded balance and ends at the live one. */
module LedgerAudit {
  import opened Options
  import opened Credits
  import opened Billing

  /** One bucket of one wallet, recomputed from its ledger rows alone. */
  function Replay(ledger: seq<LedgerRow>, wid: Id, b: Bucket): int {
    if ledger == [] then 0
    else
      var init, r := ledger[..|ledger| - 1], ledger[|ledger| - 1];
      if r.walletId == wid && r.bucket == b then Floor(Replay(init, wid, b) + Signed(r.action, r.amount))
      else Replay(init, wid, b)
  }

  /** Every row records the balance its own replay gives. */
  predicate RowsAgree(ledger: seq<LedgerRow>) {
    forall i :: 0 <= i < |ledger| ==>
      ledger[i].balance == Replay(ledger[..i + 1], ledger[i].walletId, ledger[i].bucket)
  }

  /** Every wallet holds the balance its replay gives. */
  ghost predicate WalletsAgree(wallets: seq<Wallet>, ledger: seq<LedgerRow>) {
    forall i, b :: 0 <= i < |wallets| ==>
      wallets[i].balances.Get(b) == Replay(ledger, wallets[i].id, b)
  }

  predicate DistinctIds(wallets: seq<Wallet>) {
    forall i, j :: 0 <= i < j < |wallets| ==> wallets[i].id != wallets[j].id
  }

  predicate Owned(wallets: seq<Wallet>, ledger: seq<LedgerRow>) {
    forall i :: 0 <= i < |ledger| ==> exists j :: 0 <= j < |wallets| && wallets[j].id == ledger[i].walletId
  }

  ghost predicate Audited(s: State) {
    && DistinctIds(s.wallets)
    && Owned(s.wallets, s.ledger)
    && RowsAgree(s.ledger)
    && WalletsAgree(s.wallets, s.ledger)
  }

  lemma {:induction false} ReplayNeverNegative(ledger: seq<LedgerRow>, wid: Id, b: Bucket)
    ensures Replay(ledger, wid, b) >= 0
  {
    if ledger != [] {
      ReplayNeverNegative(ledger[..|ledger| - 1], wid, b);
    }
  }

  lemma {:induction false} ReplayOfStranger(ledger: seq<LedgerRow>, wid: Id, b: Bucket)
    requires forall i :: 0 <= i < |ledger| ==> ledger[i].walletId != wid
    ensures Replay(ledger, wid, b) == 0
  {
    if ledger != [] {
      ReplayOfStranger(ledger[..|ledger| - 1], wid, b);
    }
  }

  lemma AddRow(ledger: seq<LedgerRow>, r: LedgerRow)
    requires RowsAgree(ledger)
    ensures forall wid, b ::
      Replay(ledger + [r], wid, b) ==
      (if r.walletId == wid && r.bucket == b then Floor(Replay(ledger, wid, b) + Signed(r.action, r.amount))
       else Replay(ledger, wid, b))
    ensures r.balance == Replay(ledger + [r], r.walletId, r.bucket) ==> RowsAgree(ledger + [r])
  {
    var l := ledger + [r];
    assert l[..|l| - 1] == ledger;
    assert l[..|ledger| + 1] == l;
    if r.balance == Replay(l, r.walletId, r.bucket) {
      forall i | 0 <= i < |l| ensures l[i].balance == Replay(l[..i + 1], l[i].walletId, l[i].bucket) {
        if i < |ledger| {
          assert l[i] == ledger[i] && l[..i + 1] == ledger[..i + 1];
        }
      }
    }
  }

  predicate Distinct(bs: seq<Bucket>) {
    forall i, j :: 0 <= i < j < |bs| ==> bs[i] != bs[j]
  }

  /** Replay of `l` differs from that of `ledger` only in the written buckets of `wid`. */
  predicate Moved(ledger: seq<LedgerRow>, l: seq<LedgerRow>, w: Id, b: Bucket, wid: Id, bs: seq<Bucket>,
                  amt: Amounts, nb: Amounts) {
    Replay(l, w, b) == if w == wid && b in bs && amt.Get(b) > 0 then nb.Get(b) else Replay(ledger, w, b)
  }

  lemma MovedOneMore(ledger: seq<LedgerRow>, l: seq<LedgerRow>, l': seq<LedgerRow>, w: Id, x: Bucket, wid: Id,
                     init: seq<Bucket>, b: Bucket, amt: Amounts, nb: Amounts)
    requires Moved(ledger, l, w, x, wid, init, amt, nb)
    requires Replay(l', w, x) == if w == wid && x == b && amt.Get(b) > 0 then nb.Get(b) else Replay(l, w, x)
    ensures Moved(ledger, l', w, x, wid, init + [b], amt, nb)
  {
    hide Replay;
  }

  /** Appending one transaction's rows moves each written bucket of the wallet by
      its signed amount, and no other bucket of any wallet. */
  lemma {:induction false} AddRows(ledger: seq<LedgerRow>, bs: seq<Bucket>, wid: Id, amt: Amounts, nb: Amounts,
                                   action: Action, rt: string, rid: Id)
    requires Distinct(bs) && RowsAgree(ledger)
    requires forall b :: b in bs && amt.Get(b) > 0 ==>
      nb.Get(b) == Floor(Replay(ledger, wid, b) + Signed(action, amt.Get(b)))
    ensures var l := ledger + Rows(bs, wid, amt, nb, action, rt, rid);
      && RowsAgree(l)
      && forall w, b :: Moved(ledger, l, w, b, wid, bs, amt, nb)
  {
    if bs == [] {
      assert ledger + Rows(bs, wid, amt, nb, action, rt, rid) == ledger;
    } else {
      var init, b := bs[..|bs| - 1], bs[|bs| - 1];
      var l := ledger + Rows(init, wid, amt, nb, action, rt, rid);
      var l' := ledger + Rows(bs, wid, amt, nb, action, rt, rid);
      var r := LedgerRow(wid, b, action, amt.Get(b), nb.Get(b), rt, rid);
      assert l' == l + if amt.Get(b) > 0 then [r] else [];
      hide Rows;
      hide Replay;
      assert bs == init + [b] && b !in init;
      AddRows(ledger, init, wid, amt, nb, action, rt, rid);
      assert Moved(ledger, l, wid, b, wid, init, amt, nb);
      assert l + [] == l;
      hide Moved;
      AddRow(l, r);
      forall w, x ensures Moved(ledger, l', w, x, wid, bs, amt, nb) {
        MovedOneMore(ledger, l, l', w, x, wid, init, b, amt, nb);
      }
    }
  }

  lemma {:induction false} RowsBelong(bs: seq<Bucket>, wid: Id, amt: Amounts, nb: Amounts, action: Action,
                                      rt: string, rid: Id)
    ensures forall r :: r in Rows(bs, wid, amt, nb, action, rt, rid) ==>
      r.walletId == wid && r.refId == rid && r.action == action
  {
    if bs != [] {
      RowsBelong(bs[..|bs| - 1], wid, amt, nb, action, rt, rid);
    }
  }

  /** What the caller can check before charging: every amount that will not be
      written as a row leaves its bucket alone. */
  predicate Explained(s: State, e: Id, bs: seq<Bucket>, amt: Amounts, action: Action) {
    forall b :: (b in bs && amt.Get(b) > 0)
      || Floor(Holding(s.wallets, e).Get(b) + Signed(action, amt.Get(b))) == Holding(s.wallets, e).Get(b)
  }

  lemma AppliedGet(bal: Amounts, action: Action, amt: Amounts, b: Bucket)
    ensures Shift(bal, SignedAll(action, amt)).Get(b) == Floor(bal.Get(b) + Signed(action, amt.Get(b)))
  {
  }

  /** The wallet at `k` was shifted or newly opened; all others are as before. */
  predicate Touched(ws: seq<Wallet>, ws': seq<Wallet>, k: nat, wid: Id, nb: Amounts) {
    && k < |ws'| && |ws| <= |ws'| && (|ws'| == |ws| || k == |ws| == |ws'| - 1)
    && ws'[k].id == wid && ws'[k].balances == nb
    && (forall j :: 0 <= j < |ws'| && j != k ==> ws'[j] == ws[j])
    && (k < |ws| ==> ws[k].id == wid)
    && (k == |ws| ==> forall j :: 0 <= j < |ws| ==> ws[j].id != wid)
  }

  lemma TouchedOwned(ws: seq<Wallet>, ws': seq<Wallet>, k: nat, wid: Id, nb: Amounts,
                     ledger: seq<LedgerRow>, rows: seq<LedgerRow>)
    requires Touched(ws, ws', k, wid, nb) && DistinctIds(ws) && Owned(ws, ledger)
    requires forall r :: r in rows ==> r.walletId == wid
    ensures DistinctIds(ws') && Owned(ws', ledger + rows)
  {
    var l := ledger + rows;
    assert forall j :: 0 <= j < |ws| ==> ws'[j].id == ws[j].id;
    forall x | 0 <= x < |l| ensures exists j :: 0 <= j < |ws'| && ws'[j].id == l[x].walletId {
      if x < |ledger| {
        var j :| 0 <= j < |ws| && ws[j].id == ledger[x].walletId;
        assert ws'[j].id == l[x].walletId;
      } else {
        assert l[x] == rows[x - |ledger|];
        assert ws'[k].id == l[x].walletId;
      }
    }
  }

  lemma TouchedAgree(ws: seq<Wallet>, ws': seq<Wallet>, k: nat, wid: Id, nb: Amounts,
                     ledger: seq<LedgerRow>, l: seq<LedgerRow>, bs: seq<Bucket>, amt: Amounts)
    requires Touched(ws, ws', k, wid, nb) && DistinctIds(ws') && WalletsAgree(ws, ledger)
    requires forall w, b :: Moved(ledger, l, w, b, wid, bs, amt, nb)
    ensures WalletsAgree(ws', l)
      <==> forall b :: (b in bs && amt.Get(b) > 0) || nb.Get(b) == Replay(ledger, wid, b)
  {
    if forall b :: (b in bs && amt.Get(b) > 0) || nb.Get(b) == Replay(ledger, wid, b) {
      forall j, b | 0 <= j < |ws'| ensures ws'[j].balances.Get(b) == Replay(l, ws'[j].id, b) {
        assert Moved(ledger, l, ws'[j].id, b, wid, bs, amt, nb);
      }
    } else {
      var b :| !(b in bs && amt.Get(b) > 0) && nb.Get(b) != Replay(ledger, wid, b);
      assert Moved(ledger, l, wid, b, wid, bs, amt, nb);
      assert ws'[k].balances.Get(b) != Replay(l, ws'[k].id, b);
    }
  }

  /** What `_apply_delta` touches, and that it starts from the replayed balance. */
  lemma AppliedTouches(s: State, e: Id, d: Amounts, newId: Id) returns (k: nat)
    requires Audited(s) && ApplyDelta(s.wallets, e, d, newId).Some?
    ensures var a := ApplyDelta(s.wallets, e, d, newId).value;
      && Touched(s.wallets, a.wallets, k, a.walletId, a.balances)
      && a.balances == Shift(Holding(s.wallets, e), d)
      && forall b :: Replay(s.ledger, a.walletId, b) == Holding(s.wallets, e).Get(b)
  {
    var i := Find(s.wallets, (w: Wallet) => w.employerId == e);
    k := if i < 0 then |s.wallets| else i;
    var a := ApplyDelta(s.wallets, e, d, newId).value;
    forall b ensures Replay(s.ledger, a.walletId, b) == Holding(s.wallets, e).Get(b) {
      if i < 0 {
        ReplayOfStranger(s.ledger, newId, b);
      }
    }
  }

  /** A charge on audited tables stays audited exactly when it is explained. */
  lemma ChargeAudit(s: State, e: Id, newId: Id, bs: seq<Bucket>, amt: Amounts, action: Action, rt: string, rid: Id)
    requires Audited(s) && Distinct(bs)
    requires Charge(s, e, newId, bs, amt, action, rt, rid).Some?
    ensures Audited(Charge(s, e, newId, bs, amt, action, rt, rid).value) <==> Explained(s, e, bs, amt, action)
  {
    var a := ApplyDelta(s.wallets, e, SignedAll(action, amt), newId).value;
    var rows := Rows(bs, a.walletId, amt, a.balances, action, rt, rid);
    var k := AppliedTouches(s, e, SignedAll(action, amt), newId);
    forall b ensures a.balances.Get(b) == Floor(Replay(s.ledger, a.walletId, b) + Signed(action, amt.Get(b))) {
      AppliedGet(Holding(s.wallets, e), action, amt, b);
    }
    AddRows(s.ledger, bs, a.walletId, amt, a.balances, action, rt, rid);
    RowsBelong(bs, a.walletId, amt, a.balances, action, rt, rid);
    TouchedOwned(s.wallets, a.wallets, k, a.walletId, a.balances, s.ledger, rows);
    TouchedAgree(s.wallets, a.wallets, k, a.walletId, a.balances, s.ledger, s.ledger + rows, bs, amt);
  }

  /** `Explained`, read off the arguments of each operation. */
  predicate Clean(s: State, op: Op) {
    match op
    case PostJob(e, _, need, _) => need >= 0
    case Purchase(e, g, _, _, _, _) =>
      forall b :: g.Get(b) >= 0 || Holding(s.wallets, e).Get(b) == 0
    case Activate(e, _, _, m, _, _, _) =>
      forall b :: b != Bucket.Job ==> m.Get(b) >= 0 || Holding(s.wallets, e).Get(b) == 0
    case RecordRenewal(e, _, m, _) =>
      forall b :: b != Bucket.Job ==> m.Get(b) >= 0 || Holding(s.wallets, e).Get(b) == 0
    case _ => true
  }

  lemma HoldingNotNegative(s: State, e: Id, b: Bucket)
    requires Audited(s)
    ensures Holding(s.wallets, e).Get(b) >= 0
  {
    var i := Find(s.wallets, (w: Wallet) => w.employerId == e);
    if i >= 0 {
      ReplayNeverNegative(s.ledger, s.wallets[i].id, b);
      assert s.wallets[i].balances.Get(b) == Replay(s.ledger, s.wallets[i].id, b);
    }
  }

  lemma WelcomeAudit(s: State, op: Op, commit: bool)
    requires Audited(s) && op.CreateEmployer?
    ensures Audited(TryCreateEmployer(s, op, commit).st)
  {
    var s' := TryCreateEmployer(s, op, commit).st;
    if s'.wallets != s.wallets {
      var bal := Amounts(op.welcome, 0, 0);
      var r := LedgerRow(op.walletId, Bucket.Job, CREDIT_WELCOME_SIGNUP, op.welcome, op.welcome, "signup", op.empId);
      assert s'.ledger == s.ledger + [r] && s'.wallets == s.wallets + [Wallet(op.walletId, op.empId, bal)];
      assert op.welcome > 0 && forall j :: 0 <= j < |s.wallets| ==> s.wallets[j].id != op.walletId;
      hide TryCreateEmployer;
      OpenedWalletAudit(s.wallets, s.ledger, Wallet(op.walletId, op.empId, bal), r);
    } else {
      assert s'.ledger == s.ledger;
    }
  }

  /** A new wallet with one bucket filled, beside the row that says so. */
  lemma OpenedWalletAudit(ws: seq<Wallet>, ledger: seq<LedgerRow>, w: Wallet, r: LedgerRow)
    requires DistinctIds(ws) && Owned(ws, ledger) && RowsAgree(ledger) && WalletsAgree(ws, ledger)
    requires forall j :: 0 <= j < |ws| ==> ws[j].id != w.id
    requires r.walletId == w.id && r.bucket == Bucket.Job && Signed(r.action, r.amount) == r.balance > 0
    requires w.balances == Amounts(r.balance, 0, 0)
    ensures DistinctIds(ws + [w]) && Owned(ws + [w], ledger + [r])
    ensures RowsAgree(ledger + [r]) && WalletsAgree(ws + [w], ledger + [r])
  {
    var ws', l, n := ws + [w], ledger + [r], |ws|;
    TouchedOwned(ws, ws', n, w.id, w.balances, ledger, [r]);
    AddRow(ledger, r);
    forall b ensures Replay(ledger, w.id, b) == 0 {
      ReplayOfStranger(ledger, w.id, b);
    }
    hide Replay;
    forall j, b | 0 <= j < |ws'| ensures ws'[j].balances.Get(b) == Replay(l, ws'[j].id, b) {
      if j < n {
        assert ws'[j] == ws[j];
      }
    }
  }

  lemma PostAudit(s: State, op: Op)
    requires Audited(s) && op.PostJob? && TryPostJob(s, op).out.Committed?
    ensures Audited(TryPostJob(s, op).st) <==> Clean(s, op)
  {
    var e, amt := op.employerId, Amounts(op.need, 0, 0);
    var s1 := s.(jobs := s.jobs + [JobRow(op.jobId, e)]);
    HoldingNotNegative(s, e, Bucket.Job);
    HoldingNotNegative(s, e, Unlock);
    HoldingNotNegative(s, e, Boost);
    ChargeAudit(s1, e, op.walletId, [Bucket.Job], amt, DEBIT_JOB_POST, "job_activation", op.jobId);
    assert Holding(s1.wallets, e) == Holding(s.wallets, e);
    assert amt.Get(Bucket.Job) == op.need;
  }

  lemma PurchaseAudit(s: State, op: Op)
    requires Audited(s) && op.Purchase? && TryPurchase(s, op).out.Committed?
    ensures Audited(TryPurchase(s, op).st) <==> Clean(s, op)
  {
    var e, g := op.employerId, op.grants;
    var s1 := if op.bundle then s.(bundles := s.bundles + [BundlePurchase(e, g)]) else s;
    var action := if op.bundle then CREDIT_BUNDLE else CREDIT_INDIVIDUAL;
    assert Holding(s1.wallets, e) == Holding(s.wallets, e);
    ChargeAudit(s1, e, op.walletId, BUCKETS, g, action,
                if op.bundle then "bundle_purchase" else "individual_purchase", PurchaseRef(op));
    CreditExplained(s, e, BUCKETS, g, action);
  }

  /** For a credit, an unwritten bucket is left alone when its grant is zero, or
      negative on an already empty bucket. */
  lemma CreditExplained(s: State, e: Id, bs: seq<Bucket>, amt: Amounts, action: Action)
    requires Audited(s) && action != DEBIT_JOB_POST
    requires forall b :: b !in bs ==> amt.Get(b) == 0
    ensures Explained(s, e, bs, amt, action)
      <==> forall b :: amt.Get(b) >= 0 || Holding(s.wallets, e).Get(b) == 0
  {
    forall b ensures Holding(s.wallets, e).Get(b) >= 0 {
      HoldingNotNegative(s, e, b);
    }
    forall b
      ensures ((b in bs && amt.Get(b) > 0)
               || Floor(Holding(s.wallets, e).Get(b) + Signed(action, amt.Get(b))) == Holding(s.wallets, e).Get(b))
              <==> (amt.Get(b) >= 0 || Holding(s.wallets, e).Get(b) == 0)
    {
    }
  }

  lemma PlanCredits(s: State, e: Id, m: Amounts, newId: Id, rt: string, rid: Id)
    requires Audited(s) && Charge(s, e, newId, [Unlock, Boost], m.(job := 0), CREDIT_PLAN, rt, rid).Some?
    ensures Audited(Charge(s, e, newId, [Unlock, Boost], m.(job := 0), CREDIT_PLAN, rt, rid).value)
      <==> forall b :: b != Bucket.Job ==> m.Get(b) >= 0 || Holding(s.wallets, e).Get(b) == 0
  {
    var amt := m.(job := 0);
    ChargeAudit(s, e, newId, [Unlock, Boost], amt, CREDIT_PLAN, rt, rid);
    assert forall b :: b !in [Unlock, Boost] ==> b == Bucket.Job;
    CreditExplained(s, e, [Unlock, Boost], amt, CREDIT_PLAN);
    forall b ensures (amt.Get(b) >= 0 || Holding(s.wallets, e).Get(b) == 0)
      <==> (b != Bucket.Job ==> m.Get(b) >= 0 || Holding(s.wallets, e).Get(b) == 0)
    {
    }
  }

  lemma PlanAudit(s: State, op: Op)
    requires Audited(s)
    requires (op.Activate? || op.RecordRenewal?) && Try(s, op, true).out.Committed?
    ensures Audited(Try(s, op, true).st) <==> Clean(s, op)
  {
    var e, m := op.employerId, op.monthly;
    if op.Activate? {
      var retired := UpdateWhere(s.subs, (x: Subscription) => IsActiveOf(x, e), Expire);
      var s1 := s.(subs := retired + [NewSub(s, op)]);
      PlanCredits(s1, e, m, op.walletId, "subscription",
                  if op.paymentRowId != "" then op.paymentRowId else "sub_" + op.subId);
      assert Holding(s1.wallets, e) == Holding(s.wallets, e);
    } else {
      PlanCredits(s, e, m, op.walletId, "subscription_renewal", "sub_renew_" + op.subId);
    }
  }

  /** One call on audited tables leaves them audited exactly when it did not
      commit or its amounts were clean. */
  lemma StepAudit(s: State, c: Call)
    requires Audited(s)
    ensures Audited(Step(s, c).st) <==> (!Step(s, c).out.Committed? || Clean(s, c.op))
  {
    if Step(s, c).out.Committed? {
      match c.op
      case PostJob(_, _, _, _) => PostAudit(s, c.op);
      case Purchase(_, _, _, _, _, _) => PurchaseAudit(s, c.op);
      case Activate(_, _, _, _, _, _, _) => PlanAudit(s, c.op);
      case RecordRenewal(_, _, _, _) => PlanAudit(s, c.op);
      case CreateEmployer(_, _, _, _, _) => WelcomeAudit(s, c.op, c.commit);
      case _ =>
    } else {
      OnlyCommittedWrites(s, c);
    }
  }

  /** The witness: posting a job for a negative need credits a wallet that no row explains. */
  lemma NegativeNeedBreaksAudit(s: State, e: Id, jobId: Id, walletId: Id)
    requires s.wallets == [] && s.ledger == [] && s.jobs == []
    ensures var r := Step(s, Call(PostJob(e, jobId, -1, walletId), true, false));
      r.out.Committed? && Holding(r.st.wallets, e).job == 1 && r.st.ledger == [] && !Audited(r.st)
  {
    var r := Step(s, Call(PostJob(e, jobId, -1, walletId), true, false));
    var one := [Bucket.Job];
    assert one[..0] == [];
    assert Rows(one, walletId, Amounts(-1, 0, 0), Amounts(1, 0, 0), DEBIT_JOB_POST, "job_activation", jobId) == [];
    assert r.st.wallets == [Wallet(walletId, e, Amounts(1, 0, 0))];
    assert r.st.ledger == [];
    assert r.st.wallets[0].balances.Get(Bucket.Job) == 1 && Replay([], walletId, Bucket.Job) == 0;
  }

  /** What the callers of the repositories pass: no negative grant and no negative need. */
  predicate NonNegative(op: Op) {
    match op
    case PostJob(_, _, need, _) => need >= 0
    case Purchase(_, g, _, _, _, _) => g.job >= 0 && g.unlock >= 0 && g.boost >= 0
    case Activate(_, _, _, m, _, _, _) => m.unlock >= 0 && m.boost >= 0
    case RecordRenewal(_, _, m, _) => m.unlock >= 0 && m.boost >= 0
    case _ => true
  }

  /** The ledger audit holds in every reachable state, whatever the calls,
      failures and dry runs. */
  lemma {:induction false} LedgerAlwaysAudits(s: State, calls: seq<Call>)
    requires Audited(s)
    requires forall i :: 0 <= i < |calls| ==> NonNegative(calls[i].op)
    ensures Audited(Run(s, calls))
    decreases |calls|
  {
    hide Step;
    if calls != [] {
      StepAudit(s, calls[0]);
      LedgerAlwaysAudits(Step(s, calls[0]).st, calls[1..]);
    }
  }

  /** So every state reachable from empty tables is audited. */
  lemma AuditFromEmpty(s: State, calls: seq<Call>)
    requires s.wallets == [] && s.ledger == []
    requires forall i :: 0 <= i < |calls| ==> NonNegative(calls[i].op)
    ensures Audited(Run(s, calls))
  {
    LedgerAlwaysAudits(s, calls);
  }
}
