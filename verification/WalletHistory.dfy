/** Where the money goes: over whole runs each bucket of each employer is one
    floored counter, moved by exactly the amounts of the committed calls. */
module WalletHistory {
  import opened Options
  import opened Credits
  import opened Billing

  predicate Solvent(a: Amounts) {
    a.job >= 0 && a.unlock >= 0 && a.boost >= 0
  }

  predicate NoDebt(wallets: seq<Wallet>) {
    forall i :: 0 <= i < |wallets| ==> Solvent(wallets[i].balances)
  }

  lemma {:induction false} FirstMatch(ws: seq<Wallet>, ws': seq<Wallet>, e: Id)
    requires |ws'| == |ws| && forall k :: 0 <= k < |ws| ==> ws'[k].employerId == ws[k].employerId
    ensures Find(ws', (w: Wallet) => w.employerId == e) == Find(ws, (w: Wallet) => w.employerId == e)
  {
    if ws != [] {
      FirstMatch(ws[..|ws| - 1], ws'[..|ws| - 1], e);
    }
  }

  predicate Walletless(ws: seq<Wallet>, e: Id) {
    Find(ws, (w: Wallet) => w.employerId == e) < 0
  }

  lemma AppendedWallet(ws: seq<Wallet>, w: Wallet, e: Id)
    ensures Holding(ws + [w], e)
      == if Walletless(ws, e) && w.employerId == e then w.balances else Holding(ws, e)
  {
    assert (ws + [w])[..|ws|] == ws;
  }

  /** Get-or-create is an update from zero, and finds the same wallet next time. */
  lemma ApplyDeltaIsShift(ws: seq<Wallet>, e: Id, d: Amounts, newId: Id)
    requires ApplyDelta(ws, e, d, newId).Some?
    ensures Holding(ApplyDelta(ws, e, d, newId).value.wallets, e) == Shift(Holding(ws, e), d)
  {
    var i := Find(ws, (w: Wallet) => w.employerId == e);
    var ws' := ApplyDelta(ws, e, d, newId).value.wallets;
    if i < 0 {
      var w := Wallet(newId, e, Amounts(Floor(d.job), Floor(d.unlock), Floor(d.boost)));
      AppendedWallet(ws, w, e);
      assert ws' == ws + [w];
    } else {
      FirstMatch(ws, ws', e);
    }
  }

  /** No other employer's wallet moves. */
  lemma OthersKeepTheirs(ws: seq<Wallet>, e: Id, d: Amounts, newId: Id, other: Id)
    requires ApplyDelta(ws, e, d, newId).Some? && other != e
    ensures Holding(ApplyDelta(ws, e, d, newId).value.wallets, other) == Holding(ws, other)
  {
    var i := Find(ws, (w: Wallet) => w.employerId == e);
    var ws' := ApplyDelta(ws, e, d, newId).value.wallets;
    if i < 0 {
      AppendedWallet(ws, ws'[|ws|], other);
    } else {
      FirstMatch(ws, ws', other);
    }
  }

  /** What a call does to the wallet of `e`, read off its arguments. A welcome
      credit counts only while the employer has no wallet. */
  function OpDelta(s: State, c: Call, e: Id): Amounts {
    if !Step(s, c).out.Committed? then ZERO
    else
      match c.op
      case PostJob(x, _, need, _) => if x == e then Amounts(-need, 0, 0) else ZERO
      case Purchase(x, grants, _, _, _, _) => if x == e then grants else ZERO
      case Activate(x, _, _, m, _, _, _) => if x == e then m.(job := 0) else ZERO
      case RecordRenewal(x, _, m, _) => if x == e then m.(job := 0) else ZERO
      case CreateEmployer(_, x, _, welcome, _) =>
        if x == e && welcome > 0 && Walletless(s.wallets, e) then Amounts(welcome, 0, 0)
        else ZERO
      case _ => ZERO
  }

  lemma NoDebtHolding(wallets: seq<Wallet>, e: Id)
    requires NoDebt(wallets)
    ensures Shift(Holding(wallets, e), ZERO) == Holding(wallets, e)
  {
    assert Solvent(Holding(wallets, e));
  }

  lemma ChargeMoves(s: State, x: Id, newId: Id, bs: seq<Bucket>, amt: Amounts, action: Action, rt: string, rid: Id,
                    e: Id)
    requires NoDebt(s.wallets) && Charge(s, x, newId, bs, amt, action, rt, rid).Some?
    ensures var s' := Charge(s, x, newId, bs, amt, action, rt, rid).value;
      && NoDebt(s'.wallets)
      && Holding(s'.wallets, e) == Shift(Holding(s.wallets, e), if x == e then SignedAll(action, amt) else ZERO)
  {
    hide Rows;
    var d := SignedAll(action, amt);
    var ws' := ApplyDelta(s.wallets, x, d, newId).value.wallets;
    assert forall i :: 0 <= i < |ws'| ==> Solvent(ws'[i].balances);
    if x == e {
      ApplyDeltaIsShift(s.wallets, e, d, newId);
    } else {
      OthersKeepTheirs(s.wallets, x, d, newId, e);
      NoDebtHolding(s.wallets, e);
    }
  }

  lemma WelcomeWallets(s: State, op: Op, commit: bool)
    requires op.CreateEmployer?
    ensures var r := Try(s, op, commit);
      r.st.wallets == s.wallets
        + if r.out.Committed? && op.welcome > 0 then [Wallet(op.walletId, op.empId, Amounts(op.welcome, 0, 0))] else []
  {
  }

  lemma EmptyHolding(ws: seq<Wallet>, e: Id)
    ensures Walletless(ws, e) ==> Holding(ws, e) == ZERO
  {
  }

  lemma ShiftFromZero(a: Amounts)
    requires Solvent(a)
    ensures Shift(ZERO, a) == a
  {
  }

  lemma OpenedWallet(ws: seq<Wallet>, w: Wallet, e: Id)
    requires NoDebt(ws) && Solvent(w.balances)
    ensures Holding(ws + [w], e) == Shift(Holding(ws, e),
      if w.employerId == e && Walletless(ws, e) then w.balances else ZERO)
  {
    EmptyHolding(ws, e);
    AppendedWallet(ws, w, e);
    NoDebtHolding(ws, e);
    ShiftFromZero(w.balances);
    hide Holding;
    hide Walletless;
    hide Shift;
    hide Find;
  }

  lemma WelcomeNoDebt(s: State, op: Op, commit: bool)
    requires NoDebt(s.wallets) && op.CreateEmployer?
    ensures NoDebt(Try(s, op, commit).st.wallets)
  {
    WelcomeWallets(s, op, commit);
    hide Try;
  }

  lemma WelcomeMoves(s: State, op: Op, commit: bool, e: Id)
    requires NoDebt(s.wallets) && op.CreateEmployer? && Try(s, op, commit).out.Committed?
    ensures Holding(Try(s, op, commit).st.wallets, e) == Shift(Holding(s.wallets, e),
      if op.empId == e && op.welcome > 0 && Walletless(s.wallets, e) then Amounts(op.welcome, 0, 0) else ZERO)
  {
    WelcomeWallets(s, op, commit);
    if op.welcome > 0 {
      OpenedWallet(s.wallets, Wallet(op.walletId, op.empId, Amounts(op.welcome, 0, 0)), e);
    } else {
      assert s.wallets + [] == s.wallets;
      NoDebtHolding(s.wallets, e);
    }
    hide Try;
    hide Holding;
    hide Walletless;
    hide Shift;
    hide Find;
  }

  /** The billing transactions charge the amounts their arguments name. */
  lemma BillingMoves(s: State, op: Op, commit: bool, e: Id)
    requires NoDebt(s.wallets) && Try(s, op, commit).out.Committed?
    requires op.PostJob? || op.Purchase? || op.Activate? || op.RecordRenewal?
    ensures var s' := Try(s, op, commit).st;
      && NoDebt(s'.wallets)
      && Holding(s'.wallets, e) == Shift(Holding(s.wallets, e),
           if op.employerId != e then ZERO
           else if op.PostJob? then Amounts(-op.need, 0, 0)
           else if op.Purchase? then op.grants
           else op.monthly.(job := 0))
  {
    hide Charge;
    hide Holding;
    hide Shift;
    match op
    case PostJob(x, jobId, need, newId) =>
      ChargeMoves(s.(jobs := s.jobs + [JobRow(jobId, x)]), x, newId, [Bucket.Job], Amounts(need, 0, 0),
                  DEBIT_JOB_POST, "job_activation", jobId, e);
    case Purchase(x, g, _, bundle, _, newId) =>
      var s1 := if bundle then s.(bundles := s.bundles + [BundlePurchase(x, g)]) else s;
      ChargeMoves(s1, x, newId, BUCKETS, g, if bundle then CREDIT_BUNDLE else CREDIT_INDIVIDUAL,
                  if bundle then "bundle_purchase" else "individual_purchase", PurchaseRef(op), e);
    case Activate(x, _, _, m, row, subId, newId) =>
      var retired := UpdateWhere(s.subs, (y: Subscription) => IsActiveOf(y, x), Expire);
      ChargeMoves(s.(subs := retired + [NewSub(s, op)]), x, newId, [Unlock, Boost], m.(job := 0), CREDIT_PLAN,
                  "subscription", if row != "" then row else "sub_" + subId, e);
    case RecordRenewal(x, subId, m, newId) =>
      ChargeMoves(s, x, newId, [Unlock, Boost], m.(job := 0), CREDIT_PLAN, "subscription_renewal",
                  "sub_renew_" + subId, e);
  }

  lemma OthersMoveNothing(s: State, op: Op, commit: bool)
    requires !op.PostJob? && !op.Purchase? && !op.Activate? && !op.RecordRenewal? && !op.CreateEmployer?
    ensures Try(s, op, commit).st.wallets == s.wallets
  {
  }

  lemma CommittedIsTry(s: State, c: Call)
    requires Step(s, c).out.Committed?
    ensures Step(s, c) == Try(s, c.op, c.commit)
  {
  }

  lemma StepMoves(s: State, c: Call, e: Id)
    requires NoDebt(s.wallets)
    ensures var s' := Step(s, c).st;
      NoDebt(s'.wallets) && Holding(s'.wallets, e) == Shift(Holding(s.wallets, e), OpDelta(s, c, e))
  {
    hide Step;
    hide Try;
    hide Holding;
    NoDebtHolding(s.wallets, e);
    if !Step(s, c).out.Committed? {
      OnlyCommittedWrites(s, c);
    } else {
      CommittedIsTry(s, c);
      if c.op.CreateEmployer? {
        WelcomeNoDebt(s, c.op, c.commit);
        WelcomeMoves(s, c.op, c.commit, e);
      } else if c.op.PostJob? || c.op.Purchase? || c.op.Activate? || c.op.RecordRenewal? {
        BillingMoves(s, c.op, c.commit, e);
      } else {
        OthersMoveNothing(s, c.op, c.commit);
      }
    }
  }

  /** The deltas a run applies to one bucket of one employer, in order. */
  function Deltas(s: State, calls: seq<Call>, e: Id, b: Bucket): (r: seq<int>)
    ensures |r| == |calls|
    decreases |calls|
  {
    if calls == [] then [] else [OpDelta(s, calls[0], e).Get(b)] + Deltas(Step(s, calls[0]).st, calls[1..], e, b)
  }

  lemma {:induction false} BalanceFromFront(b0: int, d: int, ds: seq<int>)
    ensures Balance(b0, [d] + ds) == Balance(Floor(b0 + d), ds)
  {
    var all, n := [d] + ds, |ds|;
    if ds == [] {
      assert all[..0] == [] && all[0] == d;
    } else {
      BalanceFromFront(b0, d, ds[..n - 1]);
      assert all[..n] == [d] + ds[..n - 1];
    }
  }

  lemma ShiftGet(bal: Amounts, d: Amounts, b: Bucket)
    ensures Shift(bal, d).Get(b) == Floor(bal.Get(b) + d.Get(b))
  {
  }

  /** Over any run, whatever commits, fails, is retried or refused, an employer's
      balance is the floored counter of the deltas of the committed calls. */
  lemma {:induction false} WalletIsFlooredCounter(s: State, calls: seq<Call>, e: Id, b: Bucket)
    requires NoDebt(s.wallets)
    ensures NoDebt(Run(s, calls).wallets)
    ensures Holding(Run(s, calls).wallets, e).Get(b) == Balance(Holding(s.wallets, e).Get(b), Deltas(s, calls, e, b))
    decreases |calls|
  {
    hide Step;
    hide OpDelta;
    if calls != [] {
      var s1 := Step(s, calls[0]).st;
      StepMoves(s, calls[0], e);
      ShiftGet(Holding(s.wallets, e), OpDelta(s, calls[0], e), b);
      WalletIsFlooredCounter(s1, calls[1..], e, b);
      BalanceFromFront(Holding(s.wallets, e).Get(b), OpDelta(s, calls[0], e).Get(b), Deltas(s1, calls[1..], e, b));
    }
  }

  /** So a run never loses credit: the balance is at least the old one plus the
      plain sum of the deltas, and equal to it exactly when the running balance
      never went below zero. */
  lemma RunsNeverLoseCredit(s: State, calls: seq<Call>, e: Id, b: Bucket)
    requires NoDebt(s.wallets)
    ensures var b0, b1 := Holding(s.wallets, e).Get(b), Holding(Run(s, calls).wallets, e).Get(b);
      var ds := Deltas(s, calls, e, b);
      && b1 >= b0 + Prefix(ds, |ds|)
      && (b1 == b0 + Prefix(ds, |ds|) <==> forall k :: 0 <= k <= |ds| ==> b0 + Prefix(ds, k) >= 0)
  {
    WalletIsFlooredCounter(s, calls, e, b);
    assert Solvent(Holding(s.wallets, e));
    FloorIsSlack(Holding(s.wallets, e).Get(b), Deltas(s, calls, e, b));
  }
}
