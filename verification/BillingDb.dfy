/** The repositories as they run: methods that update the tables in place inside
    a transaction and roll back on an exception or a dry run. Each is proved to
    be one `Billing.Step`, so everything proved about runs holds of them. */
module BillingDb {
  import opened Options
  import opened Credits
  import opened Billing
  import opened Phones

  class Db {
    var now: int
    var employers: seq<Employer>
    var wallets: seq<Wallet>
    var ledger: seq<LedgerRow>
    var jobs: seq<Job>
    var bundles: seq<Bundle>
    var payments: seq<Payment>
    var subs: seq<Subscription>
    var plans: map<Id, Plan>
    var pending: map<nat, Id>
    var checks: map<nat, Checked>

    constructor ()
      ensures Tables().wallets == [] && Tables().ledger == [] && Tables().subs == [] && Tables().payments == []
      ensures Tables().employers == [] && Tables().pending == map[] && Tables().checks == map[]
    {
      now, employers, wallets, ledger, jobs, bundles, payments, subs := 0, [], [], [], [], [], [], [];
      plans, pending, checks := map[], map[], map[];
    }

    function Tables(): State
      reads this
    {
      State(now, employers, wallets, ledger, jobs, bundles, payments, subs, plans, pending, checks)
    }

    method Rollback(s: State)
      modifies this
      ensures Tables() == s
    {
      now, employers, wallets, ledger, jobs := s.now, s.employers, s.wallets, s.ledger, s.jobs;
      bundles, payments, subs, plans, pending := s.bundles, s.payments, s.subs, s.plans, s.pending;
      checks := s.checks;
    }

    /** Commit, or roll back to the tables at `begin`. */
    method Finish(begin: State, answer: Out, commit: bool, fault: bool) returns (out: Out)
      modifies this
      ensures out == if fault then Raised else if answer.Committed? && !commit then DryRun else answer
      ensures Tables() == if out.Raised? || out.DryRun? then begin else old(Tables())
    {
      out := if fault then Raised else if answer.Committed? && !commit then DryRun else answer;
      if out.Raised? || out.DryRun? {
        Rollback(begin);
      }
    }

    method ApplyDelta(employerId: Id, delta: Amounts, newId: Id) returns (r: Option<Applied>)
      modifies this`wallets
      ensures r == Billing.ApplyDelta(old(wallets), employerId, delta, newId)
      ensures wallets == if r.Some? then r.value.wallets else old(wallets)
    {
      var i := Find(wallets, (w: Wallet) => w.employerId == employerId);
      if i < 0 {
        if Find(wallets, (w: Wallet) => w.id == newId) >= 0 {
          return None;
        }
        var seed := Amounts(Floor(delta.job), Floor(delta.unlock), Floor(delta.boost));
        wallets := wallets + [Wallet(newId, employerId, seed)];
        return Some(Applied(wallets, newId, seed));
      }
      var bal := Shift(wallets[i].balances, delta);
      wallets := wallets[i := wallets[i].(balances := bal)];
      return Some(Applied(wallets, wallets[i].id, bal));
    }

    /** The loop over the buckets that writes one ledger row per positive amount. */
    method WriteRows(bs: seq<Bucket>, wid: Id, amt: Amounts, nb: Amounts, action: Action, refType: string, refId: Id)
      modifies this`ledger
      ensures ledger == old(ledger) + Rows(bs, wid, amt, nb, action, refType, refId)
    {
      for i := 0 to |bs|
        invariant ledger == old(ledger) + Rows(bs[..i], wid, amt, nb, action, refType, refId)
      {
        assert bs[..i + 1][..i] == bs[..i];
        if amt.Get(bs[i]) > 0 {
          ledger := ledger + [LedgerRow(wid, bs[i], action, amt.Get(bs[i]), nb.Get(bs[i]), refType, refId)];
        }
      }
      assert bs[..|bs|] == bs;
    }

    method ChargeWallet(employerId: Id, newId: Id, bs: seq<Bucket>, amt: Amounts, action: Action,
                        refType: string, refId: Id)
      returns (ok: bool)
      modifies this`wallets, this`ledger
      ensures var c := Charge(old(Tables()), employerId, newId, bs, amt, action, refType, refId);
        ok == c.Some? && Tables() == if ok then c.value else old(Tables())
    {
      var a := ApplyDelta(employerId, SignedAll(action, amt), newId);
      if a.None? {
        return false;
      }
      WriteRows(bs, a.value.walletId, amt, a.value.balances, action, refType, refId);
      return true;
    }

    method ExistsByPhone(caller: nat, phone: string, fault: bool) returns (out: Out)
      modifies this
      ensures Reply(Tables(), out) == Step(old(Tables()), Call(CheckPhone(caller, phone), true, fault))
    {
      var begin := Tables();
      var answer := MayInsert;
      if phone != "" && Find(employers, (m: Employer) => Last10(m.phone) == Last10(phone)) >= 0 {
        answer, checks := Refused, checks - {caller};
      } else {
        checks := checks[caller := Checked(phone, |employers|)];
      }
      out := Finish(begin, answer, true, fault);
    }

    method CreateEmployer(caller: nat, empId: Id, phone: string, welcome: int, walletId: Id, commit: bool, fault: bool)
      returns (out: Out)
      modifies this
      ensures Reply(Tables(), out)
        == Step(old(Tables()), Call(Op.CreateEmployer(caller, empId, phone, welcome, walletId), commit, fault))
    {
      hide Last10;
      var begin, op := Tables(), Op.CreateEmployer(caller, empId, phone, welcome, walletId);
      var answer := Committed(op);
      if commit && !(caller in checks && checks[caller].phone == phone) {
        answer := Refused;
      } else if Find(employers, (m: Employer) => m.id == empId) >= 0 {
        answer := Raised;
      } else {
        employers, checks := employers + [Employer(empId, phone)], checks - {caller};
        if welcome > 0 {
          if Find(wallets, (w: Wallet) => w.id == walletId) >= 0 {
            answer := Raised;
          } else {
            wallets := wallets + [Wallet(walletId, empId, Amounts(welcome, 0, 0))];
            ledger := ledger
              + [LedgerRow(walletId, Bucket.Job, CREDIT_WELCOME_SIGNUP, welcome, welcome, "signup", empId)];
          }
        }
      }
      out := Finish(begin, answer, commit, fault);
    }

    method PostJobWithBilling(employerId: Id, jobId: Id, need: int, walletId: Id, commit: bool, fault: bool)
      returns (out: Out)
      modifies this
      ensures Reply(Tables(), out)
        == Step(old(Tables()), Call(PostJob(employerId, jobId, need, walletId), commit, fault))
    {
      var begin, op := Tables(), PostJob(employerId, jobId, need, walletId);
      var answer := Committed(op);
      if Posted(begin, jobId) {
        answer := Refused;
      } else {
        jobs := jobs + [JobRow(jobId, employerId)];
        var ok := ChargeWallet(employerId, walletId, [Bucket.Job], Amounts(need, 0, 0), DEBIT_JOB_POST,
                               "job_activation", jobId);
        if !ok {
          answer := Raised;
        }
      }
      out := Finish(begin, answer, commit, fault);
    }

    method RecordPurchase(employerId: Id, grants: Amounts, paymentId: Id, bundle: bool, refUuid: Id, walletId: Id,
                          commit: bool, fault: bool)
      returns (out: Out)
      modifies this
      ensures Reply(Tables(), out)
        == Step(old(Tables()), Call(Purchase(employerId, grants, paymentId, bundle, refUuid, walletId), commit, fault))
    {
      hide Billing.ApplyDelta;
      hide Rows;
      var begin, op := Tables(), Purchase(employerId, grants, paymentId, bundle, refUuid, walletId);
      var answer := Committed(op);
      if !SomePositive(grants) {
        answer := Refused;
      } else if paymentId != "" && Referenced(ledger, paymentId) {
        answer := Refused;
      } else {
        if bundle {
          bundles := bundles + [BundlePurchase(employerId, grants)];
        }
        var ok := ChargeWallet(employerId, walletId, BUCKETS, grants,
                               if bundle then CREDIT_BUNDLE else CREDIT_INDIVIDUAL,
                               if bundle then "bundle_purchase" else "individual_purchase",
                               if paymentId != "" then paymentId else refUuid);
        if !ok {
          answer := Raised;
        }
      }
      out := Finish(begin, answer, commit, fault);
    }

    method CreateOrder(employerId: Id, orderId: Id, rowId: Id, commit: bool, fault: bool) returns (out: Out)
      modifies this
      ensures Reply(Tables(), out)
        == Step(old(Tables()), Call(Op.CreateOrder(employerId, orderId, rowId), commit, fault))
    {
      var begin, op := Tables(), Op.CreateOrder(employerId, orderId, rowId);
      var answer := Committed(op);
      if employerId == "" || orderId == "" {
        answer := Refused;
      } else if Find(payments, (p: Payment) => p.orderId == orderId) >= 0 {
        answer := Refused;
      } else if Find(payments, (p: Payment) => p.id == rowId) >= 0 {
        answer := Raised;
      } else {
        payments := payments + [Payment(rowId, employerId, orderId, PAYMENT_PENDING)];
      }
      out := Finish(begin, answer, commit, fault);
    }

    method MarkSuccess(orderId: Id, commit: bool, fault: bool) returns (out: Out)
      modifies this
      ensures Reply(Tables(), out) == Step(old(Tables()), Call(Op.MarkSuccess(orderId), commit, fault))
    {
      var begin, op := Tables(), Op.MarkSuccess(orderId);
      var hit := (p: Payment) => IsPendingOrder(p, orderId);
      var answer := Refused;
      if orderId != "" {
        var updated := Find(payments, hit) >= 0;
        payments := UpdateWhere(payments, hit, (p: Payment) => p.(status := SUCCESS));
        if updated {
          answer := Committed(op);
        } else {
          assert payments == begin.payments;
        }
      }
      out := Finish(begin, answer, commit, fault);
    }

    method Activate(employerId: Id, planId: Id, days: int, monthly: Amounts, paymentRowId: Id, subId: Id, walletId: Id,
                    commit: bool, fault: bool)
      returns (out: Out)
      modifies this
      ensures Reply(Tables(), out) == Step(old(Tables()),
        Call(Op.Activate(employerId, planId, days, monthly, paymentRowId, subId, walletId), commit, fault))
    {
      var begin, op := Tables(), Op.Activate(employerId, planId, days, monthly, paymentRowId, subId, walletId);
      var answer := Committed(op);
      if employerId == "" || planId == "" || AlreadyActivated(begin, op) {
        answer := Refused;
      } else {
        subs := UpdateWhere(subs, (x: Subscription) => IsActiveOf(x, op.employerId), Expire);
        if Find(begin.subs, (x: Subscription) => x.id == op.subId) >= 0 {
          answer := Raised;
        } else {
          subs := subs + [NewSub(begin, op)];
          var ok := ChargeWallet(employerId, walletId, [Unlock, Boost], monthly.(job := 0), CREDIT_PLAN,
                                 "subscription", if paymentRowId != "" then paymentRowId else "sub_" + subId);
          if !ok {
            answer := Raised;
          }
        }
      }
      out := Finish(begin, answer, commit, fault);
    }

    method Cancel(employerId: Id, commit: bool, fault: bool) returns (out: Out)
      modifies this
      ensures Reply(Tables(), out) == Step(old(Tables()), Call(Op.Cancel(employerId), commit, fault))
    {
      var begin, op := Tables(), Op.Cancel(employerId);
      var answer := Refused;
      if employerId != "" {
        var hit := (x: Subscription) => IsActiveOf(x, op.employerId) && x.planId in begin.plans;
        if Find(subs, hit) >= 0 {
          subs := UpdateWhere(subs, hit, (x: Subscription) => x.(status := CANCELLED, autoRenew := false));
          answer := Committed(op);
        }
      }
      out := Finish(begin, answer, commit, fault);
    }

    method ClaimDueRenewal(employerId: Id, cycleDays: int, fault: bool) returns (out: Out)
      modifies this
      ensures Reply(Tables(), out) == Step(old(Tables()), Call(ClaimRenewal(employerId, cycleDays), true, fault))
    {
      var begin, op := Tables(), ClaimRenewal(employerId, cycleDays);
      var answer := Refused;
      if employerId != "" {
        var due := (x: Subscription) => Due(begin, x, op.employerId, op.cycleDays);
        var i := Find(subs, due);
        if i >= 0 {
          var p := plans[subs[i].planId];
          answer := Claimed(subs[i].id, cycleDays, p.monthlyCredits, p.monthlyBoosts);
          subs := UpdateWhere(subs, due, (x: Subscription) => Renewed(begin, x));
        }
      }
      out := Finish(begin, answer, true, fault);
    }

    method RecordRenewalGrant(employerId: Id, subId: Id, monthly: Amounts, walletId: Id, commit: bool, fault: bool)
      returns (out: Out)
      modifies this
      ensures Reply(Tables(), out)
        == Step(old(Tables()), Call(RecordRenewal(employerId, subId, monthly, walletId), commit, fault))
    {
      var begin, op := Tables(), RecordRenewal(employerId, subId, monthly, walletId);
      var ok := ChargeWallet(employerId, walletId, [Unlock, Boost], monthly.(job := 0), CREDIT_PLAN,
                             "subscription_renewal", "sub_renew_" + subId);
      out := Finish(begin, if ok then Committed(op) else Raised, commit, fault);
    }

    method ReadEntitlement(caller: nat, employerId: Id, fault: bool) returns (out: Out)
      modifies this
      ensures Reply(Tables(), out) == Step(old(Tables()), Call(Op.ReadEntitlement(caller, employerId), true, fault))
    {
      var begin := Tables();
      var i := LatestActive(subs, employerId);
      var answer;
      if employerId == "" || i < 0 {
        answer, pending := Inactive, pending - {caller};
      } else if subs[i].endDate < now {
        answer, pending := MustFlip(subs[i].id), pending[caller := subs[i].id];
      } else {
        answer, pending := Entitled(subs[i].id), pending - {caller};
      }
      out := Finish(begin, answer, true, fault);
    }

    method FlipEntitlement(caller: nat, fault: bool) returns (out: Out)
      modifies this
      ensures Reply(Tables(), out) == Step(old(Tables()), Call(Op.FlipEntitlement(caller), true, fault))
    {
      var begin := Tables();
      var answer := Refused;
      if caller in pending {
        var id := pending[caller];
        var hit := (x: Subscription) => x.id == id && x.status == ACTIVE;
        answer := Lapsed(id, Find(subs, hit) >= 0);
        subs := UpdateWhere(subs, hit, Expire);
        pending := pending - {caller};
      }
      out := Finish(begin, answer, true, fault);
    }
  }
}
