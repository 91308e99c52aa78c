/** Retried purchases, job posts and paid activations are invisible. */
module Retries {
  import opened Options
  import opened Credits
  import opened Billing
  import opened LedgerAudit
  import opened WalletHistory

  /** The idempotency key of a call, by kind: payment id, job id or payment row. */
  datatype Key = PaymentKey(id: Id) | JobKey(id: Id) | RowKey(id: Id)

  function KeyOf(op: Op): Option<Key> {
    match op
    case PostJob(_, jobId, _, _) => Some(JobKey(jobId))
    case Purchase(_, _, paymentId, _, _, _) => if paymentId == "" then None else Some(PaymentKey(paymentId))
    case Activate(_, _, _, _, row, _, _) => if row == "" then None else Some(RowKey(row))
    case _ => None
  }

  /** The stored row that marks a key as spent. */
  predicate Marked(s: State, k: Key) {
    match k
    case PaymentKey(id) => exists i :: 0 <= i < |s.ledger| && s.ledger[i].refId == id
    case JobKey(id) => exists i :: 0 <= i < |s.jobs| && s.jobs[i].id == id
    case RowKey(id) => exists i :: 0 <= i < |s.subs| && s.subs[i].paymentId == Some(id)
  }

  /** A spent key refuses the call and changes nothing. */
  lemma MarkedIsNoOp(s: State, c: Call, k: Key)
    requires KeyOf(c.op) == Some(k) && Marked(s, k)
    ensures Step(s, c).st == s && !Step(s, c).out.Committed?
  {
  }

  lemma {:induction false} RowForPositive(bs: seq<Bucket>, b: Bucket, wid: Id, amt: Amounts, nb: Amounts,
                                          action: Action, rt: string, rid: Id)
    requires b in bs && amt.Get(b) > 0
    ensures exists r :: r in Rows(bs, wid, amt, nb, action, rt, rid) && r.refId == rid
  {
    var last := bs[|bs| - 1];
    if last == b {
      assert LedgerRow(wid, b, action, amt.Get(b), nb.Get(b), rt, rid) in Rows(bs, wid, amt, nb, action, rt, rid);
    } else {
      assert b in bs[..|bs| - 1];
      RowForPositive(bs[..|bs| - 1], b, wid, amt, nb, action, rt, rid);
    }
  }

  lemma PurchaseRows(s: State, op: Op) returns (rows: seq<LedgerRow>)
    requires op.Purchase? && TryPurchase(s, op).out.Committed?
    ensures TryPurchase(s, op).st.ledger == s.ledger + rows
    ensures exists r :: r in rows && r.refId == PurchaseRef(op)
  {
    var e, g, ref := op.employerId, op.grants, PurchaseRef(op);
    var action := if op.bundle then CREDIT_BUNDLE else CREDIT_INDIVIDUAL;
    var a := ApplyDelta(s.wallets, e, SignedAll(action, g), op.walletId).value;
    var b := if g.job > 0 then Bucket.Job else if g.unlock > 0 then Unlock else Boost;
    var rt := if op.bundle then "bundle_purchase" else "individual_purchase";
    RowForPositive(BUCKETS, b, a.walletId, g, a.balances, action, rt, ref);
    hide Rows;
    hide ApplyDelta;
    rows := Rows(BUCKETS, a.walletId, g, a.balances, action, rt, ref);
  }

  lemma ReferenceAppears(ledger: seq<LedgerRow>, rows: seq<LedgerRow>, ref: Id)
    requires exists r :: r in rows && r.refId == ref
    ensures exists i :: 0 <= i < |ledger + rows| && (ledger + rows)[i].refId == ref
  {
    var r :| r in rows && r.refId == ref;
    var i :| 0 <= i < |rows| && rows[i] == r;
    assert (ledger + rows)[|ledger| + i].refId == ref;
  }

  lemma PostMarks(s: State, op: Op)
    requires op.PostJob? && TryPostJob(s, op).out.Committed?
    ensures TryPostJob(s, op).st.jobs == s.jobs + [JobRow(op.jobId, op.employerId)]
  {
  }

  lemma ActivateMarks(s: State, op: Op)
    requires op.Activate? && TryActivate(s, op).out.Committed?
    ensures |TryActivate(s, op).st.subs| == |s.subs| + 1
    ensures TryActivate(s, op).st.subs[|s.subs|].paymentId
      == if op.paymentRowId == "" then None else Some(op.paymentRowId)
  {
  }

  /** A committed call spends its key. */
  lemma CommitMarks(s: State, c: Call, k: Key)
    requires KeyOf(c.op) == Some(k) && Step(s, c).out.Committed?
    ensures Marked(Step(s, c).st, k)
  {
    var s' := Step(s, c).st;
    if c.op.PostJob? {
      PostMarks(s, c.op);
      assert s'.jobs[|s.jobs|].id == c.op.jobId;
    } else if c.op.Activate? {
      ActivateMarks(s, c.op);
      assert s'.subs[|s.subs|].paymentId == Some(c.op.paymentRowId);
    } else {
      var rows := PurchaseRows(s, c.op);
      ReferenceAppears(s.ledger, rows, PurchaseRef(c.op));
    }
  }

  /** Rows are never deleted and never change their reference. */
  predicate Grows(s: State, s': State) {
    && s.ledger <= s'.ledger && s.jobs <= s'.jobs && |s.subs| <= |s'.subs|
    && forall i :: 0 <= i < |s.subs| ==> s'.subs[i].paymentId == s.subs[i].paymentId
  }

  lemma StepGrows(s: State, c: Call)
    ensures Grows(s, Step(s, c).st)
  {
    match c.op
    case CreateEmployer(_, _, _, _, _) => RegisterGrows(s, c);
    case PostJob(_, _, _, _) => BillingGrows(s, c);
    case Purchase(_, _, _, _, _, _) => BillingGrows(s, c);
    case Activate(_, _, _, _, _, _, _) => ActivateGrows(s, c);
    case RecordRenewal(_, _, _, _) => BillingGrows(s, c);
    case Cancel(_) => SubsUpdateGrows(s, c);
    case ClaimRenewal(_, _) => SubsUpdateGrows(s, c);
    case FlipEntitlement(_) => SubsUpdateGrows(s, c);
    case _ => OtherGrows(s, c);
  }

  lemma RegisterGrows(s: State, c: Call)
    requires c.op.CreateEmployer?
    ensures Grows(s, Step(s, c).st)
  {
  }

  lemma BillingGrows(s: State, c: Call)
    requires c.op.PostJob? || c.op.Purchase? || c.op.RecordRenewal?
    ensures Grows(s, Step(s, c).st)
  {
    assert s.ledger <= Step(s, c).st.ledger;
  }

  lemma SubsUpdateGrows(s: State, c: Call)
    requires c.op.Cancel? || c.op.ClaimRenewal? || c.op.FlipEntitlement?
    ensures Grows(s, Step(s, c).st)
  {
    var s' := Step(s, c).st;
    assert s'.ledger == s.ledger && s'.jobs == s.jobs;
  }

  lemma ActivateGrows(s: State, c: Call)
    requires c.op.Activate?
    ensures Grows(s, Step(s, c).st)
  {
    var r := TryActivate(s, c.op);
    if r.out.Committed? {
      assert forall i :: 0 <= i < |s.subs| ==> r.st.subs[i].paymentId == s.subs[i].paymentId;
    }
  }

  lemma OtherGrows(s: State, c: Call)
    requires
      || c.op.CheckPhone? || c.op.CreateOrder? || c.op.MarkSuccess? || c.op.ReadEntitlement? || c.op.SetPlan?
      || c.op.Tick?
    ensures Grows(s, Step(s, c).st)
  {
    var s' := Step(s, c).st;
    assert s'.ledger == s.ledger && s'.jobs == s.jobs;
  }

  lemma MarkSurvives(s: State, s': State, k: Key)
    requires Grows(s, s') && Marked(s, k)
    ensures Marked(s', k)
  {
    match k
    case PaymentKey(id) =>
      var i :| 0 <= i < |s.ledger| && s.ledger[i].refId == id;
      assert s'.ledger[i] == s.ledger[i];
    case JobKey(id) =>
      var i :| 0 <= i < |s.jobs| && s.jobs[i].id == id;
      assert s'.jobs[i] == s.jobs[i];
    case RowKey(id) =>
      var i :| 0 <= i < |s.subs| && s.subs[i].paymentId == Some(id);
      assert s'.subs[i].paymentId == Some(id);
  }

  /** The run without its retries: of the keyed calls, only the first committed
      one of each key is kept; every other call stays. */
  function WithoutRetries(s: State, calls: seq<Call>): seq<Call>
    decreases |calls|
  {
    if calls == [] then []
    else
      var c, r := calls[0], Step(s, calls[0]);
      var rest := WithoutRetries(r.st, calls[1..]);
      if KeyOf(c.op).Some? && !r.out.Committed? then rest else [c] + rest
  }

  lemma KeyedLosersDoNothing(s: State, c: Call)
    requires KeyOf(c.op).Some? && !Step(s, c).out.Committed?
    ensures Step(s, c).st == s
  {
  }

  /** Retries, failed attempts and dry runs of keyed calls leave no trace: the run
      and the run without them end in the same tables. `KeyedCallCommitsIff` says
      that of the calls that could take effect it is only retries that are left out. */
  lemma {:induction false} RetriesAreInvisible(s: State, calls: seq<Call>)
    ensures Run(s, WithoutRetries(s, calls)) == Run(s, calls)
    decreases |calls|
  {
    hide Step;
    if calls != [] {
      var c, r := calls[0], Step(s, calls[0]);
      RetriesAreInvisible(r.st, calls[1..]);
      var rest := WithoutRetries(r.st, calls[1..]);
      if KeyOf(c.op).Some? && !r.out.Committed? {
        KeyedLosersDoNothing(s, c);
      } else {
        assert ([c] + rest)[1..] == rest;
      }
    }
  }

  predicate Absent(calls: seq<Call>, k: Option<Key>) {
    forall i :: 0 <= i < |calls| ==> KeyOf(calls[i].op) != k
  }

  lemma {:induction false} SpentKeyIsDropped(s: State, calls: seq<Call>, k: Key)
    requires Marked(s, k)
    ensures Absent(WithoutRetries(s, calls), Some(k))
    decreases |calls|
  {
    hide Step;
    if calls != [] {
      var c, s' := calls[0], Step(s, calls[0]).st;
      StepGrows(s, c);
      MarkSurvives(s, s', k);
      SpentKeyIsDropped(s', calls[1..], k);
      if KeyOf(c.op) == Some(k) {
        MarkedIsNoOp(s, c, k);
      }
    }
  }

  predicate KeysDistinct(calls: seq<Call>) {
    forall i, j :: 0 <= i < j < |calls| && KeyOf(calls[i].op).Some? ==> KeyOf(calls[i].op) != KeyOf(calls[j].op)
  }

  lemma PrependDistinct(c: Call, rest: seq<Call>)
    requires KeysDistinct(rest)
    requires KeyOf(c.op).Some? ==> Absent(rest, KeyOf(c.op))
    ensures KeysDistinct([c] + rest)
  {
    var kept := [c] + rest;
    forall i, j | 0 <= i < j < |kept| && KeyOf(kept[i].op).Some? ensures KeyOf(kept[i].op) != KeyOf(kept[j].op) {
      assert kept[j] == rest[j - 1];
      if i > 0 {
        assert kept[i] == rest[i - 1];
      }
    }
  }

  /** What is kept holds each key at most once: every effect happened once. */
  lemma {:induction false} EachKeyOnce(s: State, calls: seq<Call>)
    ensures KeysDistinct(WithoutRetries(s, calls))
    decreases |calls|
  {
    hide Step;
    if calls != [] {
      var c, r := calls[0], Step(s, calls[0]);
      var rest := WithoutRetries(r.st, calls[1..]);
      EachKeyOnce(r.st, calls[1..]);
      if KeyOf(c.op).None? {
        PrependDistinct(c, rest);
      } else if r.out.Committed? {
        var k := KeyOf(c.op).value;
        CommitMarks(s, c, k);
        SpentKeyIsDropped(r.st, calls[1..], k);
        PrependDistinct(c, rest);
      }
    }
  }

  /** A purchase without a payment id has no key: every time it moves the wallet by
      the whole grant and adds rows. */
  lemma UnkeyedPurchaseRepeats(s: State, op: Op)
    requires op.Purchase? && op.paymentId == "" && SomePositive(op.grants)
    requires WalletOpens(s.wallets, op.employerId, op.walletId)
    ensures var r, e := Step(s, Call(op, true, false)), op.employerId;
      && r.out == Committed(op)
      && |r.st.ledger| > |s.ledger| && s.ledger <= r.st.ledger
      && Holding(r.st.wallets, e) == Shift(Holding(s.wallets, e), op.grants)
      && WalletOpens(r.st.wallets, e, op.walletId)
  {
    var rows := PurchaseRows(s, op);
    ApplyDeltaIsShift(s.wallets, op.employerId, op.grants, op.walletId);
    WalletStays(s.wallets, op.employerId, op.grants, op.walletId);
  }

  lemma WalletStays(ws: seq<Wallet>, e: Id, d: Amounts, newId: Id)
    requires ApplyDelta(ws, e, d, newId).Some?
    ensures exists i :: 0 <= i < |ApplyDelta(ws, e, d, newId).value.wallets|
                        && ApplyDelta(ws, e, d, newId).value.wallets[i].employerId == e
  {
    var i := Find(ws, (w: Wallet) => w.employerId == e);
    var ws' := ApplyDelta(ws, e, d, newId).value.wallets;
    assert ws'[if i < 0 then |ws| else i].employerId == e;
  }

  // ----- a keyed call is only ever refused for its own key -----

  /** Committed, without an exception, with arguments the method accepts and minted
      ids that clash with nothing. */
  predicate Effective(s: State, c: Call) {
    && c.commit && !c.fault
    && match c.op
       case PostJob(e, _, _, newId) => WalletOpens(s.wallets, e, newId)
       case Purchase(e, grants, _, _, _, newId) => SomePositive(grants) && WalletOpens(s.wallets, e, newId)
       case Activate(e, planId, _, _, _, subId, newId) =>
         && e != "" && planId != "" && WalletOpens(s.wallets, e, newId)
         && forall i :: 0 <= i < |s.subs| ==> s.subs[i].id != subId
       case _ => true
  }

  /** The reference id on the ledger rows an operation writes. */
  function RefOf(op: Op): Option<Id> {
    match op
    case CreateEmployer(_, empId, _, _, _) => Some(empId)
    case PostJob(_, jobId, _, _) => Some(jobId)
    case Purchase(_, _, _, _, _, _) => Some(PurchaseRef(op))
    case Activate(_, _, _, _, row, subId, _) => Some(if row != "" then row else "sub_" + subId)
    case RecordRenewal(_, subId, _, _) => Some("sub_renew_" + subId)
    case _ => None
  }

  /** Reference namespaces are disjoint: nothing but purchases of this payment
      writes its id into the ledger. */
  predicate OwnReference(op: Op, k: Key) {
    k.PaymentKey? && RefOf(op) == Some(k.id) ==> KeyOf(op) == Some(k)
  }

  predicate OwnReferences(calls: seq<Call>, k: Key) {
    forall i :: 0 <= i < |calls| ==> OwnReference(calls[i].op, k)
  }

  /** What a transaction appends to the ledger carries its own reference. */
  predicate Appends(s: State, s': State, ref: Option<Id>) {
    && s.ledger <= s'.ledger
    && forall i :: |s.ledger| <= i < |s'.ledger| ==> Some(s'.ledger[i].refId) == ref
  }

  lemma ChargeAppends(s: State, e: Id, newId: Id, bs: seq<Bucket>, amt: Amounts, action: Action, rt: string, rid: Id)
    requires Charge(s, e, newId, bs, amt, action, rt, rid).Some?
    ensures Appends(s, Charge(s, e, newId, bs, amt, action, rt, rid).value, Some(rid))
  {
    hide Rows;
    hide ApplyDelta;
    var a := ApplyDelta(s.wallets, e, SignedAll(action, amt), newId).value;
    RowsBelong(bs, a.walletId, amt, a.balances, action, rt, rid);
    var rows := Rows(bs, a.walletId, amt, a.balances, action, rt, rid);
    assert forall i :: 0 <= i < |rows| ==> rows[i] in rows;
  }

  lemma TryAppends(s: State, op: Op, commit: bool)
    requires Try(s, op, commit).out.Committed?
    ensures Appends(s, Try(s, op, commit).st, RefOf(op))
  {
    hide Charge;
    match op
    case PostJob(x, jobId, need, newId) =>
      ChargeAppends(s.(jobs := s.jobs + [JobRow(jobId, x)]), x, newId, [Bucket.Job], Amounts(need, 0, 0),
                    DEBIT_JOB_POST, "job_activation", jobId);
    case Purchase(x, g, _, bundle, _, newId) =>
      var s1 := if bundle then s.(bundles := s.bundles + [BundlePurchase(x, g)]) else s;
      ChargeAppends(s1, x, newId, BUCKETS, g, if bundle then CREDIT_BUNDLE else CREDIT_INDIVIDUAL,
                    if bundle then "bundle_purchase" else "individual_purchase", PurchaseRef(op));
    case Activate(x, _, _, m, row, subId, newId) =>
      var retired := UpdateWhere(s.subs, (y: Subscription) => IsActiveOf(y, x), Expire);
      ChargeAppends(s.(subs := retired + [NewSub(s, op)]), x, newId, [Unlock, Boost], m.(job := 0), CREDIT_PLAN,
                    "subscription", if row != "" then row else "sub_" + subId);
    case RecordRenewal(x, subId, m, newId) =>
      ChargeAppends(s, x, newId, [Unlock, Boost], m.(job := 0), CREDIT_PLAN, "subscription_renewal",
                    "sub_renew_" + subId);
    case _ =>
  }

  /** New jobs come from posting them, new paid subscriptions from activating them. */
  lemma NewRows(s: State, op: Op, commit: bool)
    requires Try(s, op, commit).out.Committed?
    ensures var s' := Try(s, op, commit).st;
      && s'.jobs == s.jobs + (if op.PostJob? then [JobRow(op.jobId, op.employerId)] else [])
      && |s'.subs| == |s.subs| + if op.Activate? then 1 else 0
  {
    hide ApplyDelta;
    hide Rows;
    hide Find;
    hide LatestActive;
  }

  /** Only a committed call with the key marks it. */
  lemma MarkedByOwn(s: State, c: Call, k: Key)
    requires !Marked(s, k) && Marked(Step(s, c).st, k) && OwnReference(c.op, k)
    ensures KeyOf(c.op) == Some(k) && Step(s, c).out.Committed?
  {
    var s' := Step(s, c).st;
    StepGrows(s, c);
    if !Step(s, c).out.Committed? {
      OnlyCommittedWrites(s, c);
      hide Step;
      assert false;
    }
    CommittedIsTry(s, c);
    TryAppends(s, c.op, c.commit);
    NewRows(s, c.op, c.commit);
    hide Step;
    match k
    case PaymentKey(id) =>
      var i :| 0 <= i < |s'.ledger| && s'.ledger[i].refId == id;
      assert i >= |s.ledger|;
    case JobKey(id) =>
      var i :| 0 <= i < |s'.jobs| && s'.jobs[i].id == id;
      assert i >= |s.jobs|;
    case RowKey(id) =>
      var i :| 0 <= i < |s'.subs| && s'.subs[i].paymentId == Some(id);
      assert i == |s.subs|;
      ActivateMarks(s, c.op);
  }

  /** A call with this key committed somewhere in the run. */
  predicate CommittedIn(s: State, calls: seq<Call>, k: Key) {
    exists i :: 0 <= i < |calls| && KeyOf(calls[i].op) == Some(k) && Outs(s, calls)[i].Committed?
  }

  lemma CommittedCons(s: State, calls: seq<Call>, k: Key)
    requires calls != []
    ensures CommittedIn(s, calls, k) <==>
      (KeyOf(calls[0].op) == Some(k) && Step(s, calls[0]).out.Committed?)
      || CommittedIn(Step(s, calls[0]).st, calls[1..], k)
  {
    hide Step;
    var r, rest := Step(s, calls[0]), calls[1..];
    assert Outs(s, calls) == [r.out] + Outs(r.st, rest);
    if CommittedIn(r.st, rest, k) {
      var i :| 0 <= i < |rest| && KeyOf(rest[i].op) == Some(k) && Outs(r.st, rest)[i].Committed?;
      assert KeyOf(calls[i + 1].op) == Some(k) && Outs(s, calls)[i + 1].Committed?;
    }
    if CommittedIn(s, calls, k) {
      var i :| 0 <= i < |calls| && KeyOf(calls[i].op) == Some(k) && Outs(s, calls)[i].Committed?;
      if i > 0 {
        assert KeyOf(rest[i - 1].op) == Some(k) && Outs(r.st, rest)[i - 1].Committed?;
      }
    }
  }

  /** After any run a key is spent exactly when it was, or a call with it committed. */
  lemma {:induction false} MarkedIff(s: State, calls: seq<Call>, k: Key)
    requires OwnReferences(calls, k)
    ensures Marked(Run(s, calls), k) <==> Marked(s, k) || CommittedIn(s, calls, k)
    decreases |calls|
  {
    hide Step;
    hide Marked;
    if calls != [] {
      var c, r := calls[0], Step(s, calls[0]);
      CommittedCons(s, calls, k);
      MarkedIff(r.st, calls[1..], k);
      StepGrows(s, c);
      if Marked(s, k) {
        MarkSurvives(s, r.st, k);
      } else if KeyOf(c.op) == Some(k) && r.out.Committed? {
        CommitMarks(s, c, k);
      } else if Marked(r.st, k) {
        assert OwnReference(c.op, k);
        MarkedByOwn(s, c, k);
      }
    }
  }

  lemma FreshKeyCommits(s: State, c: Call, k: Key)
    requires KeyOf(c.op) == Some(k) && !Marked(s, k) && Effective(s, c)
    ensures Step(s, c).out.Committed?
  {
    hide Rows;
  }

  /** A retry and nothing else is refused: after any run, a keyed call that could
      take effect commits if and only if no earlier call with its key has. */
  lemma KeyedCallCommitsIff(s: State, calls: seq<Call>, c: Call, k: Key)
    requires KeyOf(c.op) == Some(k) && !Marked(s, k)
    requires OwnReferences(calls, k) && Effective(Run(s, calls), c)
    ensures Step(Run(s, calls), c).out.Committed? <==> !CommittedIn(s, calls, k)
  {
    MarkedIff(s, calls, k);
    if CommittedIn(s, calls, k) {
      MarkedIsNoOp(Run(s, calls), c, k);
    } else {
      FreshKeyCommits(Run(s, calls), c, k);
    }
  }
}
