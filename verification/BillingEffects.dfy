/** What each repository call does to the tables, in the terms of its SQL: exactly
    when it takes effect, which rows it touches, and what it leaves alone. */
module BillingEffects {
  import opened Options
  import opened Credits
  import opened Billing
  import opened Phones
  import opened Subscriptions
  import WalletHistory

  // ----- employers -----

  /** The phone check lets its caller on exactly when the phone is empty or nobody has
      its last ten digits. */
  lemma CheckPassesIff(s: State, caller: nat, phone: string)
    ensures var r := Step(s, Call(CheckPhone(caller, phone), true, false));
      && (r.out == MayInsert
          <==> phone == "" || forall i :: 0 <= i < |s.employers| ==> Last10(s.employers[i].phone) != Last10(phone))
      && (r.out == MayInsert ==> r.st == s.(checks := s.checks[caller := Checked(phone, |s.employers|)]))
      && (r.out != MayInsert ==> r == Reply(s.(checks := s.checks - {caller}), Refused))
  {
    hide Last10;
  }

  /** The insert goes through exactly when its caller's check stands and neither minted
      id is taken; it adds the employer, and with a welcome credit the wallet and the
      row that explains it. */
  lemma CreateCommitsIff(s: State, caller: nat, id: Id, phone: string, welcome: int, walletId: Id)
    ensures var op := Op.CreateEmployer(caller, id, phone, welcome, walletId);
      var r := Step(s, Call(op, true, false));
      && (r.out == Committed(op) <==>
          && caller in s.checks && s.checks[caller].phone == phone
          && (forall i :: 0 <= i < |s.employers| ==> s.employers[i].id != id)
          && (welcome > 0 ==> forall i :: 0 <= i < |s.wallets| ==> s.wallets[i].id != walletId))
      && (r.out != Committed(op) ==> r.st == s && (r.out == Refused || r.out == Raised))
      && (r.out == Committed(op) ==>
          && r.st == s.(employers := s.employers + [Employer(id, phone)], checks := s.checks - {caller},
                        wallets := r.st.wallets, ledger := r.st.ledger)
          && r.st.wallets == s.wallets + (if welcome > 0 then [Wallet(walletId, id, Amounts(welcome, 0, 0))] else [])
          && r.st.ledger == s.ledger + if welcome > 0 then
               [LedgerRow(walletId, Bucket.Job, CREDIT_WELCOME_SIGNUP, welcome, welcome, "signup", id)] else [])
  {
    hide Last10;
  }

  // ----- wallet and ledger rows -----

  /** A row for a positive amount, none otherwise. */
  function Entry(row: LedgerRow): seq<LedgerRow> {
    if row.amount > 0 then [row] else []
  }

  /** The employer's wallet after a charge; an existing one keeps its id. */
  predicate Charged(ws: seq<Wallet>, ws': seq<Wallet>, e: Id, newId: Id, w: Wallet) {
    && w in ws' && w.employerId == e && w.balances == Holding(ws', e)
    && (if HasWallet(ws, e) then exists i :: 0 <= i < |ws| && ws[i].employerId == e && ws[i].id == w.id
        else w.id == newId)
  }

  lemma RowsOne(wid: Id, amt: Amounts, nb: Amounts, action: Action, rt: string, ref: Id)
    ensures Rows([Bucket.Job], wid, amt, nb, action, rt, ref)
      == Entry(LedgerRow(wid, Bucket.Job, action, amt.job, nb.job, rt, ref))
  {
    var bs := [Bucket.Job];
    assert bs[..0] == [];
  }

  lemma RowsTwo(wid: Id, amt: Amounts, nb: Amounts, action: Action, rt: string, ref: Id)
    ensures Rows([Unlock, Boost], wid, amt, nb, action, rt, ref)
      == Entry(LedgerRow(wid, Unlock, action, amt.unlock, nb.unlock, rt, ref))
       + Entry(LedgerRow(wid, Boost, action, amt.boost, nb.boost, rt, ref))
  {
    var bs, one := [Unlock, Boost], [Unlock];
    assert bs[..1] == one && one[..0] == [];
    assert Rows(one, wid, amt, nb, action, rt, ref)
        == Entry(LedgerRow(wid, Unlock, action, amt.unlock, nb.unlock, rt, ref));
  }

  lemma RowsThree(wid: Id, amt: Amounts, nb: Amounts, action: Action, rt: string, ref: Id)
    ensures Rows(BUCKETS, wid, amt, nb, action, rt, ref)
      == Entry(LedgerRow(wid, Bucket.Job, action, amt.job, nb.job, rt, ref))
       + Entry(LedgerRow(wid, Unlock, action, amt.unlock, nb.unlock, rt, ref))
       + Entry(LedgerRow(wid, Boost, action, amt.boost, nb.boost, rt, ref))
  {
    var two := [Bucket.Job, Unlock];
    var one := [Bucket.Job];
    assert BUCKETS[..2] == two && two[..1] == one && one[..0] == [];
    RowsOne(wid, amt, nb, action, rt, ref);
    assert Rows(two, wid, amt, nb, action, rt, ref)
        == Rows(one, wid, amt, nb, action, rt, ref)
         + Entry(LedgerRow(wid, Unlock, action, amt.unlock, nb.unlock, rt, ref));
  }

  lemma AppliedWallet(ws: seq<Wallet>, e: Id, d: Amounts, newId: Id) returns (w: Wallet)
    ensures var a := ApplyDelta(ws, e, d, newId);
      && (a.Some? <==> WalletOpens(ws, e, newId))
      && (a.Some? ==> Charged(ws, a.value.wallets, e, newId, w)
                      && w.id == a.value.walletId && w.balances == a.value.balances)
  {
    var i := Find(ws, (x: Wallet) => x.employerId == e);
    var a := ApplyDelta(ws, e, d, newId);
    w := Wallet(newId, e, ZERO);
    if a.Some? {
      w := a.value.wallets[if i < 0 then |ws| else i];
      WalletHistory.ApplyDeltaIsShift(ws, e, d, newId);
      WalletHistory.EmptyHolding(ws, e);
      assert w in a.value.wallets;
      hide Holding;
    }
  }

  /** What a charge finds and leaves: it fails only when a new wallet's id is taken. */
  lemma ChargeEffect(s: State, e: Id, newId: Id, bs: seq<Bucket>, amt: Amounts, action: Action, rt: string, ref: Id)
    returns (w: Wallet)
    ensures var c := Charge(s, e, newId, bs, amt, action, rt, ref);
      && (c.Some? <==> WalletOpens(s.wallets, e, newId))
      && (c.Some? ==>
          && Charged(s.wallets, c.value.wallets, e, newId, w)
          && c.value == s.(wallets := c.value.wallets,
                           ledger := s.ledger + Rows(bs, w.id, amt, w.balances, action, rt, ref)))
  {
    w := AppliedWallet(s.wallets, e, SignedAll(action, amt), newId);
    hide Rows;
    hide ApplyDelta;
    hide Charged;
    hide WalletOpens;
  }

  /** A job post takes effect exactly when the job is new (and a new wallet's id is
      free): it adds the job, debits the job bucket, and writes one row for a positive
      need. */
  lemma PostJobCommitsIff(s: State, e: Id, jobId: Id, need: int, walletId: Id) returns (w: Wallet)
    ensures var op := PostJob(e, jobId, need, walletId);
      var r := Step(s, Call(op, true, false));
      && (r.out == Committed(op) <==>
          (forall i :: 0 <= i < |s.jobs| ==> s.jobs[i].id != jobId) && WalletOpens(s.wallets, e, walletId))
      && (r.out != Committed(op) ==> r.st == s)
      && (r.out == Committed(op) ==>
          && Charged(s.wallets, r.st.wallets, e, walletId, w)
          && r.st == s.(wallets := r.st.wallets, jobs := s.jobs + [JobRow(jobId, e)], ledger := s.ledger
               + Entry(LedgerRow(w.id, Bucket.Job, DEBIT_JOB_POST, need, w.balances.job, "job_activation", jobId))))
  {
    var s1 := s.(jobs := s.jobs + [JobRow(jobId, e)]);
    w := ChargeEffect(s1, e, walletId, [Bucket.Job], Amounts(need, 0, 0), DEBIT_JOB_POST, "job_activation", jobId);
    RowsOne(w.id, Amounts(need, 0, 0), w.balances, DEBIT_JOB_POST, "job_activation", jobId);
    hide Charge;
    hide Rows;
  }

  /** A purchase takes effect exactly when it grants something and no ledger row carries
      its payment id: it records a bundle's contents, and one credit row per bucket with
      a positive grant, under the payment id or else a minted one. */
  lemma PurchaseCommitsIff(s: State, op: Op) returns (w: Wallet)
    requires op.Purchase?
    ensures var r, e, g := Step(s, Call(op, true, false)), op.employerId, op.grants;
      && (r.out == Committed(op) <==>
          && (g.job > 0 || g.unlock > 0 || g.boost > 0)
          && (op.paymentId != "" ==> forall i :: 0 <= i < |s.ledger| ==> s.ledger[i].refId != op.paymentId)
          && WalletOpens(s.wallets, e, op.walletId))
      && (r.out != Committed(op) ==> r.st == s)
      && (r.out == Committed(op) ==>
          var action := if op.bundle then CREDIT_BUNDLE else CREDIT_INDIVIDUAL;
          var rt := if op.bundle then "bundle_purchase" else "individual_purchase";
          var ref := if op.paymentId != "" then op.paymentId else op.refUuid;
          && Charged(s.wallets, r.st.wallets, e, op.walletId, w)
          && r.st == s.(wallets := r.st.wallets, ledger := r.st.ledger,
                        bundles := s.bundles + if op.bundle then [BundlePurchase(e, g)] else [])
          && r.st.ledger == s.ledger
               + (Entry(LedgerRow(w.id, Bucket.Job, action, g.job, w.balances.job, rt, ref))
                + Entry(LedgerRow(w.id, Unlock, action, g.unlock, w.balances.unlock, rt, ref))
                + Entry(LedgerRow(w.id, Boost, action, g.boost, w.balances.boost, rt, ref))))
  {
    var e, g := op.employerId, op.grants;
    var s1 := if op.bundle then s.(bundles := s.bundles + [BundlePurchase(e, g)]) else s;
    var action := if op.bundle then CREDIT_BUNDLE else CREDIT_INDIVIDUAL;
    var rt := if op.bundle then "bundle_purchase" else "individual_purchase";
    w := ChargeEffect(s1, e, op.walletId, BUCKETS, g, action, rt, PurchaseRef(op));
    RowsThree(w.id, g, w.balances, action, rt, PurchaseRef(op));
    hide Charge;
    hide Rows;
    assert s.bundles + [] == s.bundles;
  }

  /** Mirroring a renewal always takes effect, but for a clash of a new wallet's id. */
  lemma RenewalRecords(s: State, e: Id, subId: Id, m: Amounts, walletId: Id) returns (w: Wallet)
    ensures var op := RecordRenewal(e, subId, m, walletId);
      var r := Step(s, Call(op, true, false));
      && (r.out == Committed(op) <==> WalletOpens(s.wallets, e, walletId))
      && (r.out != Committed(op) ==> r.st == s)
      && (r.out == Committed(op) ==>
          && Charged(s.wallets, r.st.wallets, e, walletId, w)
          && r.st == s.(wallets := r.st.wallets, ledger := r.st.ledger)
          && r.st.ledger == s.ledger
               + (Entry(LedgerRow(w.id, Unlock, CREDIT_PLAN, m.unlock, w.balances.unlock,
                                  "subscription_renewal", "sub_renew_" + subId))
                + Entry(LedgerRow(w.id, Boost, CREDIT_PLAN, m.boost, w.balances.boost,
                                  "subscription_renewal", "sub_renew_" + subId))))
  {
    w := ChargeEffect(s, e, walletId, [Unlock, Boost], m.(job := 0), CREDIT_PLAN, "subscription_renewal",
                      "sub_renew_" + subId);
    RowsTwo(w.id, m.(job := 0), w.balances, CREDIT_PLAN, "subscription_renewal", "sub_renew_" + subId);
    hide Charge;
    hide Rows;
  }

  // ----- payments -----

  /** An order gets its PENDING row exactly when employer and order are named, the order
      has no row yet and the minted id is free. */
  lemma OrderCommitsIff(s: State, e: Id, orderId: Id, rowId: Id)
    ensures var op := Op.CreateOrder(e, orderId, rowId);
      var r := Step(s, Call(op, true, false));
      && (r.out == Committed(op) <==> e != "" && orderId != "" && forall i :: 0 <= i < |s.payments| ==>
          s.payments[i].orderId != orderId && s.payments[i].id != rowId)
      && (r.out == Committed(op) ==>
          r.st == s.(payments := s.payments + [Payment(rowId, e, orderId, PAYMENT_PENDING)]))
      && (r.out != Committed(op) ==> r.st == s)
  {
  }

  /** A verify reports an update exactly when the order has a PENDING row, and turns
      that order's PENDING rows into SUCCESS; every other row is the very row it was. */
  lemma VerifyCommitsIff(s: State, orderId: Id)
    ensures var op := Op.MarkSuccess(orderId);
      var r := Step(s, Call(op, true, false));
      && (r.out == Committed(op) <==> orderId != "" && exists i ::
          0 <= i < |s.payments| && s.payments[i].orderId == orderId && s.payments[i].status == PAYMENT_PENDING)
      && (r.out != Committed(op) ==> r == Reply(s, Refused))
      && (r.out == Committed(op) ==>
          && r.st == s.(payments := r.st.payments) && |r.st.payments| == |s.payments|
          && forall i :: 0 <= i < |s.payments| ==>
               r.st.payments[i] == if s.payments[i].orderId == orderId && s.payments[i].status == PAYMENT_PENDING
                                   then s.payments[i].(status := SUCCESS) else s.payments[i])
  {
    var k := Find(s.payments, (p: Payment) => IsPendingOrder(p, orderId));
    assert k < 0 ==> forall i :: 0 <= i < |s.payments| ==> !IsPendingOrder(s.payments[i], orderId);
  }

  // ----- subscriptions -----

  /** An activation takes effect exactly when employer and plan are named, its payment
      row (or, unpaid, its plan while ACTIVE) has no subscription yet, and no minted id
      is taken. */
  lemma ActivateCommitsIff(s: State, op: Op) returns (w: Wallet)
    requires op.Activate?
    ensures var r, e := Step(s, Call(op, true, false)), op.employerId;
      && (r.out == Committed(op) <==>
          && e != "" && op.planId != ""
          && (forall i :: 0 <= i < |s.subs| ==>
                && s.subs[i].id != op.subId
                && (op.paymentRowId != "" ==> s.subs[i].paymentId != Some(op.paymentRowId))
                && (op.paymentRowId == "" ==>
                    !(s.subs[i].employerId == e && s.subs[i].planId == op.planId && s.subs[i].status == ACTIVE)))
          && WalletOpens(s.wallets, e, op.walletId))
      && (r.out != Committed(op) ==> r.st == s)
      && (r.out == Committed(op) ==>
          var ref := if op.paymentRowId != "" then op.paymentRowId else "sub_" + op.subId;
          && Charged(s.wallets, r.st.wallets, e, op.walletId, w)
          && r.st == s.(wallets := r.st.wallets, ledger := r.st.ledger, subs := r.st.subs)
          && r.st.ledger == s.ledger
               + (Entry(LedgerRow(w.id, Unlock, CREDIT_PLAN, op.monthly.unlock, w.balances.unlock, "subscription", ref))
                + Entry(LedgerRow(w.id, Boost, CREDIT_PLAN, op.monthly.boost, w.balances.boost, "subscription", ref))))
  {
    var e := op.employerId;
    var retired := UpdateWhere(s.subs, (x: Subscription) => IsActiveOf(x, e), Expire);
    var s1 := s.(subs := retired + [NewSub(s, op)]);
    var ref := if op.paymentRowId != "" then op.paymentRowId else "sub_" + op.subId;
    w := ChargeEffect(s1, e, op.walletId, [Unlock, Boost], op.monthly.(job := 0), CREDIT_PLAN, "subscription", ref);
    RowsTwo(w.id, op.monthly.(job := 0), w.balances, CREDIT_PLAN, "subscription", ref);
    hide Charge;
    hide Rows;
    assert AlreadyActivated(s, op) <==> !forall i :: 0 <= i < |s.subs| ==>
      && (op.paymentRowId != "" ==> s.subs[i].paymentId != Some(op.paymentRowId))
      && (op.paymentRowId == "" ==>
          !(s.subs[i].employerId == e && s.subs[i].planId == op.planId && s.subs[i].status == ACTIVE));
    hide AlreadyActivated;
    hide NewSub;
  }

  /** It leaves the new row ACTIVE for exactly `days` days, with this month's grants
      counted; the employer's earlier ACTIVE row is EXPIRED and every other row is the
      very row it was. */
  lemma ActivatedRows(s: State, op: Op)
    requires op.Activate? && Step(s, Call(op, true, false)).out.Committed?
    ensures var subs, n := Step(s, Call(op, true, false)).st.subs, |s.subs|;
      && |subs| == n + 1
      && subs[n] == Subscription(op.subId, op.employerId, op.planId, ACTIVE, s.now, s.now + op.days * 86400,
                                 if op.paymentRowId == "" then None else Some(op.paymentRowId), false, s.now,
                                 op.monthly.unlock, op.monthly.boost)
      && forall i :: 0 <= i < n ==>
           subs[i] == if s.subs[i].employerId == op.employerId && s.subs[i].status == ACTIVE
                      then s.subs[i].(status := EXPIRED) else s.subs[i]
  {
    ActivateSubs(s, op);
  }

  /** Cancelling answers by the employer's ACTIVE row whose plan is in the catalog: that
      row becomes CANCELLED and stops renewing, every other is the very row it was. */
  lemma CancelCommitsIff(s: State, e: Id)
    ensures var r := Step(s, Call(Op.Cancel(e), true, false));
      && (r.out == Committed(Op.Cancel(e)) <==> e != "" && exists i ::
          0 <= i < |s.subs| && s.subs[i].employerId == e && s.subs[i].status == ACTIVE && s.subs[i].planId in s.plans)
      && (r.out != Committed(Op.Cancel(e)) ==> r == Reply(s, Refused))
      && (r.out == Committed(Op.Cancel(e)) ==>
          && r.st == s.(subs := r.st.subs) && |r.st.subs| == |s.subs|
          && forall i :: 0 <= i < |s.subs| ==>
               r.st.subs[i] == if s.subs[i].employerId == e && s.subs[i].status == ACTIVE && s.subs[i].planId in s.plans
                               then s.subs[i].(status := CANCELLED, autoRenew := false) else s.subs[i])
  {
    var hit := (x: Subscription) => IsActiveOf(x, e) && x.planId in s.plans;
    var k := Find(s.subs, hit);
    assert k < 0 ==> forall i :: 0 <= i < |s.subs| ==> !hit(s.subs[i]);
  }

  /** A renewal is claimed exactly when it is due: the employer's ACTIVE row, its plan in
      the catalog, its end still ahead and a whole cycle gone since the last grant. The
      claim hands out the catalog's month, counts it, and touches no other row. */
  lemma RenewalClaimedIff(s: State, e: Id, cycleDays: int, i: nat)
    requires Sound(s) && i < |s.subs|
    ensures var r, x := Step(s, Call(ClaimRenewal(e, cycleDays), true, false)), s.subs[i];
      && (r.out.Claimed? && r.out.subId == x.id <==>
          && e != "" && x.employerId == e && x.status == ACTIVE && x.planId in s.plans
          && x.endDate > s.now && x.lastGrant + cycleDays * 86400 <= s.now)
      && (r.out.Claimed? && r.out.subId == x.id ==>
          var plan := s.plans[x.planId];
          && r.out == Claimed(x.id, cycleDays, plan.monthlyCredits, plan.monthlyBoosts)
          && r.st == s.(subs := s.subs[i := x.(lastGrant := s.now, credits := x.credits + plan.monthlyCredits,
                                               boosts := x.boosts + plan.monthlyBoosts)]))
      && (!r.out.Claimed? ==> r == Reply(s, Refused))
  {
    var due := (x: Subscription) => Due(s, x, e, cycleDays);
    var k := Find(s.subs, due);
    var r := TryClaimRenewal(s, ClaimRenewal(e, cycleDays));
    if e != "" && k >= 0 {
      assert due(s.subs[k]);
      forall j | 0 <= j < |s.subs| && j != k ensures !due(s.subs[j]) && s.subs[j].id != s.subs[k].id {
        assert IsActiveOf(s.subs[j], e) ==> j == k;
      }
      assert r.st.subs == s.subs[k := Renewed(s, s.subs[k])];
    }
  }

  /** The claimed row, if any, is a row of the table. */
  lemma ClaimIsOfARow(s: State, e: Id, cycleDays: int)
    requires Sound(s)
    ensures var r := Step(s, Call(ClaimRenewal(e, cycleDays), true, false));
      r.out.Claimed? ==> exists i :: 0 <= i < |s.subs| && s.subs[i].id == r.out.subId
  {
    var k := Find(s.subs, (x: Subscription) => Due(s, x, e, cycleDays));
    assert k >= 0 ==> s.subs[k].id == s.subs[k].id;
  }

  /** The entitlement read without an ACTIVE row is inactive; in any case it touches
      nothing but its caller's place, which it keeps exactly when the row has lapsed. */
  lemma ReadAnswers(s: State, caller: nat, e: Id)
    ensures var r := Step(s, Call(Op.ReadEntitlement(caller, e), true, false));
      && (r.out == Inactive
          <==> e == "" || forall i :: 0 <= i < |s.subs| ==> !(s.subs[i].employerId == e && s.subs[i].status == ACTIVE))
      && (r.out == Inactive || r.out.Entitled? || r.out.MustFlip?)
      && r.st == s.(pending := if r.out.MustFlip? then s.pending[caller := r.out.subId] else s.pending - {caller})
  {
    var k := LatestActive(s.subs, e);
    assert k < 0 ==> forall i :: 0 <= i < |s.subs| ==> !IsActiveOf(s.subs[i], e);
    assert k >= 0 ==> IsActiveOf(s.subs[k], e);
  }

  /** The flip says `just_expired` exactly when the row it read is still ACTIVE, expires
      that row and no other, and ends the caller's call. */
  lemma FlipExpiresIff(s: State, caller: nat)
    ensures var r := Step(s, Call(Op.FlipEntitlement(caller), true, false));
      if caller !in s.pending then r == Reply(s, Refused)
      else
        var id := s.pending[caller];
        && r.out.Lapsed? && r.out.subId == id
        && (r.out.justExpired <==>
            exists i :: 0 <= i < |s.subs| && s.subs[i].id == id && s.subs[i].status == ACTIVE)
        && r.st == s.(subs := r.st.subs, pending := s.pending - {caller}) && |r.st.subs| == |s.subs|
        && forall i :: 0 <= i < |s.subs| ==>
             r.st.subs[i] == if s.subs[i].id == id && s.subs[i].status == ACTIVE
                             then s.subs[i].(status := EXPIRED) else s.subs[i]
  {
    if caller in s.pending {
      var id := s.pending[caller];
      var hit := (x: Subscription) => x.id == id && x.status == ACTIVE;
      var k := Find(s.subs, hit);
      assert k < 0 ==> forall i :: 0 <= i < |s.subs| ==> !hit(s.subs[i]);
      assert k >= 0 ==> s.subs[k].id == id;
    }
  }

  /** A dry run answers for the call and leaves every table as it was; so does any call
      that meets an exception. */
  lemma DryRunsAndFaults(s: State, op: Op, commit: bool)
    ensures Step(s, Call(op, commit, true)) == Reply(s, Raised)
    ensures Step(s, Call(op, true, false)) == Try(s, op, true)
    ensures Try(s, op, false).out.Committed? ==> Step(s, Call(op, false, false)) == Reply(s, DryRun)
  {
  }
}
