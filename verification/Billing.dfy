/** The billing tables and what one transaction of the repositories does to them.

    Every repository call is one step on `State`. A call may be a dry run
    (`commit == false`) or may raise part-way (`fault`); both roll back.
    Identifiers minted by `uuid4` are arguments of the call: a clash with a
    primary key raises, like any other database error. Two calls run in two
    transactions and are two steps each, so that callers interleave between them:
    `get_entitlement`, its read and its guarded flip, and `EmployerRepository.create`,
    its phone check and its insert. */
module Billing {
  import opened Options
  import opened Credits
  import opened Phones

  type Id = string

  /** Clock ticks in one day of `make_interval(days => n)`. */
  const DAY: int := 86400

  datatype Action =
    CREDIT_WELCOME_SIGNUP | CREDIT_BUNDLE | CREDIT_INDIVIDUAL | CREDIT_PLAN | DEBIT_JOB_POST

  datatype Wallet = Wallet(id: Id, employerId: Id, balances: Amounts)

  datatype LedgerRow = LedgerRow(
    walletId: Id, bucket: Bucket, action: Action, amount: int, balance: int, refType: string, refId: Id)

  datatype Employer = Employer(id: Id, phone: string)

  datatype Job = JobRow(id: Id, employerId: Id)

  datatype Bundle = BundlePurchase(employerId: Id, added: Amounts)

  datatype PaymentStatus = PAYMENT_PENDING | SUCCESS

  datatype Payment = Payment(id: Id, employerId: Id, orderId: Id, status: PaymentStatus)

  datatype SubStatus = ACTIVE | EXPIRED | CANCELLED

  datatype Subscription = Subscription(
    id: Id, employerId: Id, planId: Id, status: SubStatus, startDate: int, endDate: int,
    paymentId: Option<Id>, autoRenew: bool, lastGrant: int, credits: int, boosts: int)

  datatype Plan = Plan(monthlyCredits: int, monthlyBoosts: int)

  /** A caller of `create` whose phone check found nobody. `seen` is history: how
      many employers that check went through. */
  datatype Checked = Checked(phone: string, seen: nat)

  datatype State = State(
    now: int,
    employers: seq<Employer>, wallets: seq<Wallet>, ledger: seq<LedgerRow>, jobs: seq<Job>,
    bundles: seq<Bundle>, payments: seq<Payment>, subs: seq<Subscription>,
    plans: map<Id, Plan>,
    pending: map<nat, Id>,      // caller of get_entitlement -> the lapsed row it has read
    checks: map<nat, Checked>)  // caller of create -> its phone check

  datatype Op =
    | CheckPhone(caller: nat, phone: string)
    | CreateEmployer(caller: nat, empId: Id, phone: string, welcome: int, walletId: Id)
    | PostJob(employerId: Id, jobId: Id, need: int, walletId: Id)
    | Purchase(employerId: Id, grants: Amounts, paymentId: Id, bundle: bool, refUuid: Id, walletId: Id)
    | CreateOrder(employerId: Id, orderId: Id, rowId: Id)
    | MarkSuccess(orderId: Id)
    | Activate(employerId: Id, planId: Id, days: int, monthly: Amounts, paymentRowId: Id, subId: Id, walletId: Id)
    | Cancel(employerId: Id)
    | ClaimRenewal(employerId: Id, cycleDays: int)
    | RecordRenewal(employerId: Id, subId: Id, monthly: Amounts, walletId: Id)
    | ReadEntitlement(caller: nat, employerId: Id)
    | FlipEntitlement(caller: nat)
    | SetPlan(planId: Id, plan: Option<Plan>)  // None: the plan is taken out of the catalog
    | Tick(ticks: nat)

  datatype Call = Call(op: Op, commit: bool, fault: bool)

  datatype Out =
    | Committed(op: Op)
    | Refused
    | Raised
    | DryRun
    | Claimed(subId: Id, cycleDays: int, credits: int, boosts: int)
    | Entitled(subId: Id)
    | Inactive
    | MustFlip(subId: Id)
    | Lapsed(subId: Id, justExpired: bool)
    | MayInsert

  datatype Reply = Reply(st: State, out: Out)

  // ----- the SQL statements the repositories issue -----

  /** `SELECT … WHERE p LIMIT 1`: the index of a matching row, or -1. */
  function Find<T>(rows: seq<T>, p: T -> bool): (r: int)
    ensures -1 <= r < |rows|
    ensures r >= 0 ==> p(rows[r])
    ensures r < 0 ==> forall i :: 0 <= i < |rows| ==> !p(rows[i])
  {
    if rows == [] then -1
    else if p(rows[|rows| - 1]) then
      var r := Find(rows[..|rows| - 1], p);
      if r >= 0 then r else |rows| - 1
    else Find(rows[..|rows| - 1], p)
  }

  /** `UPDATE … SET … WHERE p`. */
  function UpdateWhere<T>(rows: seq<T>, p: T -> bool, f: T -> T): (r: seq<T>)
    ensures |r| == |rows|
    ensures forall i :: 0 <= i < |rows| ==> r[i] == if p(rows[i]) then f(rows[i]) else rows[i]
  {
    seq(|rows|, i requires 0 <= i < |rows| => if p(rows[i]) then f(rows[i]) else rows[i])
  }

  /** `ORDER BY "endDate" DESC LIMIT 1` among an employer's ACTIVE rows. */
  function LatestActive(subs: seq<Subscription>, e: Id): (r: int)
    ensures -1 <= r < |subs|
    ensures r >= 0 ==> IsActiveOf(subs[r], e)
    ensures r >= 0 ==> forall i :: 0 <= i < |subs| && IsActiveOf(subs[i], e) ==> subs[i].endDate <= subs[r].endDate
    ensures r < 0 ==> forall i :: 0 <= i < |subs| ==> !IsActiveOf(subs[i], e)
  {
    if subs == [] then -1
    else
      var last := |subs| - 1;
      var r := LatestActive(subs[..last], e);
      if IsActiveOf(subs[last], e) && (r < 0 || subs[r].endDate < subs[last].endDate) then last else r
  }

  predicate IsActiveOf(sub: Subscription, e: Id) {
    sub.employerId == e && sub.status == ACTIVE
  }

  function Expire(sub: Subscription): Subscription {
    sub.(status := EXPIRED)
  }

  // ----- the wallet -----

  datatype Applied = Applied(wallets: seq<Wallet>, walletId: Id, balances: Amounts)

  /** `_apply_delta`: get-or-create the employer's wallet and shift it by `d`.
      `None` is a primary-key clash of the freshly minted wallet id. */
  function ApplyDelta(wallets: seq<Wallet>, e: Id, d: Amounts, newId: Id): Option<Applied> {
    var i := Find(wallets, (w: Wallet) => w.employerId == e);
    if i < 0 then
      if Find(wallets, (w: Wallet) => w.id == newId) >= 0 then None
      else
        var seed := Amounts(Floor(d.job), Floor(d.unlock), Floor(d.boost));
        Some(Applied(wallets + [Wallet(newId, e, seed)], newId, seed))
    else
      var bal := Shift(wallets[i].balances, d);
      Some(Applied(wallets[i := wallets[i].(balances := bal)], wallets[i].id, bal))
  }

  /** An employer's balances: zero when there is no wallet yet. */
  function Holding(wallets: seq<Wallet>, e: Id): Amounts {
    var i := Find(wallets, (w: Wallet) => w.employerId == e);
    if i < 0 then ZERO else wallets[i].balances
  }

  /** What a row of this action does to its bucket. */
  function Signed(action: Action, amount: int): int {
    if action == DEBIT_JOB_POST then -amount else amount
  }

  function SignedAll(action: Action, amt: Amounts): Amounts {
    Amounts(Signed(action, amt.job), Signed(action, amt.unlock), Signed(action, amt.boost))
  }

  /** The ledger rows of one transaction: one per bucket with a positive amount,
      each recording that bucket's balance after the change. */
  function Rows(bs: seq<Bucket>, wid: Id, amt: Amounts, nb: Amounts, action: Action, refType: string, refId: Id)
    : seq<LedgerRow>
  {
    if bs == [] then []
    else
      var b := bs[|bs| - 1];
      Rows(bs[..|bs| - 1], wid, amt, nb, action, refType, refId)
      + if amt.Get(b) > 0 then [LedgerRow(wid, b, action, amt.Get(b), nb.Get(b), refType, refId)] else []
  }

  /** Shift the wallet and write the rows: the billing half of every transaction. */
  function Charge(s: State, e: Id, newId: Id, bs: seq<Bucket>, amt: Amounts, action: Action, refType: string, refId: Id)
    : Option<State>
  {
    match ApplyDelta(s.wallets, e, SignedAll(action, amt), newId)
    case None => None
    case Some(a) => Some(s.(
      wallets := a.wallets,
      ledger := s.ledger + Rows(bs, a.walletId, amt, a.balances, action, refType, refId)))
  }

  function Billed(charged: Option<State>, s: State, op: Op): Reply {
    match charged
    case None => Reply(s, Raised)
    case Some(s') => Reply(s', Committed(op))
  }

  predicate HasWallet(wallets: seq<Wallet>, e: Id) {
    exists i :: 0 <= i < |wallets| && wallets[i].employerId == e
  }

  /** The employer has a wallet, or the id minted for a new one is free. */
  predicate WalletOpens(wallets: seq<Wallet>, e: Id, newId: Id) {
    HasWallet(wallets, e) || forall i :: 0 <= i < |wallets| ==> wallets[i].id != newId
  }

  // ----- one function per repository method -----

  predicate Registered(s: State, phone: string) {
    Find(s.employers, (m: Employer) => Last10(m.phone) == Last10(phone)) >= 0
  }

  /** `exists_by_phone`, in a session of its own: an empty phone is not looked up. */
  function TryCheckPhone(s: State, op: Op): Reply
    requires op.CheckPhone?
  {
    if op.phone != "" && Registered(s, op.phone) then Reply(s.(checks := s.checks - {op.caller}), Refused)
    else Reply(s.(checks := s.checks[op.caller := Checked(op.phone, |s.employers|)]), MayInsert)
  }

  /** The insert of `create`. A committing caller gets here through its phone
      check; a dry run makes none. */
  function TryCreateEmployer(s: State, op: Op, commit: bool): Reply
    requires op.CreateEmployer?
  {
    if commit && !(op.caller in s.checks && s.checks[op.caller].phone == op.phone) then
      Reply(s, Refused)
    else if Find(s.employers, (m: Employer) => m.id == op.empId) >= 0 then
      Reply(s, Raised)
    else
      var s1 := s.(employers := s.employers + [Employer(op.empId, op.phone)], checks := s.checks - {op.caller});
      if op.welcome <= 0 then Reply(s1, Committed(op))
      else if Find(s.wallets, (w: Wallet) => w.id == op.walletId) >= 0 then Reply(s, Raised)
      else
        var bal := Amounts(op.welcome, 0, 0);
        Reply(s1.(
          wallets := s.wallets + [Wallet(op.walletId, op.empId, bal)],
          ledger := s.ledger + [LedgerRow(op.walletId, Bucket.Job, CREDIT_WELCOME_SIGNUP, op.welcome, op.welcome,
                                          "signup", op.empId)]),
          Committed(op))
  }

  predicate Posted(s: State, jobId: Id) {
    Find(s.jobs, (j: Job) => j.id == jobId) >= 0
  }

  function TryPostJob(s: State, op: Op): Reply
    requires op.PostJob?
  {
    if Posted(s, op.jobId) then Reply(s, Refused)
    else
      var s1 := s.(jobs := s.jobs + [JobRow(op.jobId, op.employerId)]);
      Billed(Charge(s1, op.employerId, op.walletId, [Bucket.Job], Amounts(op.need, 0, 0),
                    DEBIT_JOB_POST, "job_activation", op.jobId), s, op)
  }

  predicate Referenced(ledger: seq<LedgerRow>, refId: Id) {
    Find(ledger, (r: LedgerRow) => r.refId == refId) >= 0
  }

  predicate SomePositive(a: Amounts) {
    a.job > 0 || a.unlock > 0 || a.boost > 0
  }

  function PurchaseRef(op: Op): Id
    requires op.Purchase?
  {
    if op.paymentId != "" then op.paymentId else op.refUuid
  }

  function TryPurchase(s: State, op: Op): Reply
    requires op.Purchase?
  {
    if !SomePositive(op.grants) then Reply(s, Refused)
    else if op.paymentId != "" && Referenced(s.ledger, op.paymentId) then Reply(s, Refused)
    else
      var s1 := if op.bundle then s.(bundles := s.bundles + [BundlePurchase(op.employerId, op.grants)]) else s;
      Billed(Charge(s1, op.employerId, op.walletId, BUCKETS, op.grants,
                    if op.bundle then CREDIT_BUNDLE else CREDIT_INDIVIDUAL,
                    if op.bundle then "bundle_purchase" else "individual_purchase",
                    PurchaseRef(op)), s, op)
  }

  function TryCreateOrder(s: State, op: Op): Reply
    requires op.CreateOrder?
  {
    if op.employerId == "" || op.orderId == "" then Reply(s, Refused)
    else if Find(s.payments, (p: Payment) => p.orderId == op.orderId) >= 0 then Reply(s, Refused)
    else if Find(s.payments, (p: Payment) => p.id == op.rowId) >= 0 then Reply(s, Raised)
    else Reply(s.(payments := s.payments + [Payment(op.rowId, op.employerId, op.orderId, PAYMENT_PENDING)]),
               Committed(op))
  }

  predicate IsPendingOrder(p: Payment, orderId: Id) {
    p.orderId == orderId && p.status == PAYMENT_PENDING
  }

  function TryMarkSuccess(s: State, op: Op): Reply
    requires op.MarkSuccess?
  {
    if op.orderId == "" || Find(s.payments, (p: Payment) => IsPendingOrder(p, op.orderId)) < 0 then
      Reply(s, Refused)
    else
      Reply(s.(payments := UpdateWhere(s.payments, (p: Payment) => IsPendingOrder(p, op.orderId),
                                       (p: Payment) => p.(status := SUCCESS))),
            Committed(op))
  }

  /** A paid activation is keyed on its payment row, a free one on an ACTIVE row
      of the same employer and plan. */
  predicate AlreadyActivated(s: State, op: Op)
    requires op.Activate?
  {
    if op.paymentRowId != "" then
      Find(s.subs, (x: Subscription) => x.paymentId == Some(op.paymentRowId)) >= 0
    else
      Find(s.subs, (x: Subscription) => IsActiveOf(x, op.employerId) && x.planId == op.planId) >= 0
  }

  function NewSub(s: State, op: Op): Subscription
    requires op.Activate?
  {
    Subscription(op.subId, op.employerId, op.planId, ACTIVE, s.now, s.now + op.days * DAY,
                 if op.paymentRowId == "" then None else Some(op.paymentRowId), false, s.now,
                 op.monthly.unlock, op.monthly.boost)
  }

  function TryActivate(s: State, op: Op): Reply
    requires op.Activate?
  {
    if op.employerId == "" || op.planId == "" then Reply(s, Refused)
    else if AlreadyActivated(s, op) then Reply(s, Refused)
    else if Find(s.subs, (x: Subscription) => x.id == op.subId) >= 0 then Reply(s, Raised)
    else
      var retired := UpdateWhere(s.subs, (x: Subscription) => IsActiveOf(x, op.employerId), Expire);
      var s1 := s.(subs := retired + [NewSub(s, op)]);
      Billed(Charge(s1, op.employerId, op.walletId, [Unlock, Boost], op.monthly.(job := 0), CREDIT_PLAN,
                    "subscription", if op.paymentRowId != "" then op.paymentRowId else "sub_" + op.subId), s, op)
  }

  /** The UPDATE joins `subscription_plans`: a row whose plan is gone is not matched. */
  function TryCancel(s: State, op: Op): Reply
    requires op.Cancel?
  {
    var hit := (x: Subscription) => IsActiveOf(x, op.employerId) && x.planId in s.plans;
    if op.employerId == "" || Find(s.subs, hit) < 0 then Reply(s, Refused)
    else Reply(s.(subs := UpdateWhere(s.subs, hit, (x: Subscription) => x.(status := CANCELLED, autoRenew := false))),
               Committed(op))
  }

  predicate Due(s: State, x: Subscription, e: Id, cycleDays: int) {
    IsActiveOf(x, e) && x.planId in s.plans && x.endDate > s.now && x.lastGrant <= s.now - cycleDays * DAY
  }

  function Renewed(s: State, x: Subscription): Subscription {
    if x.planId in s.plans then
      var p := s.plans[x.planId];
      x.(lastGrant := s.now, credits := x.credits + p.monthlyCredits, boosts := x.boosts + p.monthlyBoosts)
    else x
  }

  function TryClaimRenewal(s: State, op: Op): Reply
    requires op.ClaimRenewal?
  {
    var due := (x: Subscription) => Due(s, x, op.employerId, op.cycleDays);
    var i := Find(s.subs, due);
    if op.employerId == "" || i < 0 then Reply(s, Refused)
    else
      var p := s.plans[s.subs[i].planId];
      Reply(s.(subs := UpdateWhere(s.subs, due, (x: Subscription) => Renewed(s, x))),
            Claimed(s.subs[i].id, op.cycleDays, p.monthlyCredits, p.monthlyBoosts))
  }

  function TryRecordRenewal(s: State, op: Op): Reply
    requires op.RecordRenewal?
  {
    Billed(Charge(s, op.employerId, op.walletId, [Unlock, Boost], op.monthly.(job := 0), CREDIT_PLAN,
                  "subscription_renewal", "sub_renew_" + op.subId), s, op)
  }

  /** First half of `get_entitlement`: the SELECT. A lapsed row is remembered by
      the caller, who goes on to flip it. */
  function TryReadEntitlement(s: State, op: Op): Reply
    requires op.ReadEntitlement?
  {
    var i := LatestActive(s.subs, op.employerId);
    if op.employerId == "" || i < 0 then Reply(s.(pending := s.pending - {op.caller}), Inactive)
    else if s.subs[i].endDate < s.now then
      Reply(s.(pending := s.pending[op.caller := s.subs[i].id]), MustFlip(s.subs[i].id))
    else Reply(s.(pending := s.pending - {op.caller}), Entitled(s.subs[i].id))
  }

  /** Second half: the status-guarded UPDATE by id, whose row count is `just_expired`. */
  function TryFlipEntitlement(s: State, op: Op): Reply
    requires op.FlipEntitlement?
  {
    if op.caller !in s.pending then Reply(s, Refused)
    else
      var id := s.pending[op.caller];
      var hit := (x: Subscription) => x.id == id && x.status == ACTIVE;
      Reply(s.(subs := UpdateWhere(s.subs, hit, Expire), pending := s.pending - {op.caller}),
            Lapsed(id, Find(s.subs, hit) >= 0))
  }

  function Try(s: State, op: Op, commit: bool): Reply {
    match op
    case CheckPhone(_, _) => TryCheckPhone(s, op)
    case CreateEmployer(_, _, _, _, _) => TryCreateEmployer(s, op, commit)
    case PostJob(_, _, _, _) => TryPostJob(s, op)
    case Purchase(_, _, _, _, _, _) => TryPurchase(s, op)
    case CreateOrder(_, _, _) => TryCreateOrder(s, op)
    case MarkSuccess(_) => TryMarkSuccess(s, op)
    case Activate(_, _, _, _, _, _, _) => TryActivate(s, op)
    case Cancel(_) => TryCancel(s, op)
    case ClaimRenewal(_, _) => TryClaimRenewal(s, op)
    case RecordRenewal(_, _, _, _) => TryRecordRenewal(s, op)
    case ReadEntitlement(_, _) => TryReadEntitlement(s, op)
    case FlipEntitlement(_) => TryFlipEntitlement(s, op)
    case SetPlan(planId, plan) =>
      Reply(s.(plans := if plan.Some? then s.plans[planId := plan.value] else s.plans - {planId}), Committed(op))
    case Tick(n) => Reply(s.(now := s.now + n), Committed(op))
  }

  /** One call: an exception rolls everything back, and so does a dry run. */
  function Step(s: State, c: Call): Reply {
    if c.fault then Reply(s, Raised)
    else
      var r := Try(s, c.op, c.commit);
      if r.out.Committed? && !c.commit then Reply(s, DryRun) else r
  }

  function Run(s: State, calls: seq<Call>): State
    decreases |calls|
  {
    if calls == [] then s else Run(Step(s, calls[0]).st, calls[1..])
  }

  /** What the calls of a run answer, in order. */
  function Outs(s: State, calls: seq<Call>): (r: seq<Out>)
    ensures |r| == |calls|
    decreases |calls|
  {
    if calls == [] then []
    else
      var r := Step(s, calls[0]);
      [r.out] + Outs(r.st, calls[1..])
  }

  /** Wallets, ledger, jobs, bundles, payments, employers, catalog and clock are as
      before, and no subscription was added. */
  predicate TablesKept(s: State, s': State) {
    && s'.employers == s.employers && s'.wallets == s.wallets && s'.ledger == s.ledger
    && s'.jobs == s.jobs && s'.bundles == s.bundles && s'.payments == s.payments
    && |s'.subs| == |s.subs| && s'.plans == s.plans && s'.now == s.now
  }

  lemma UncommittedKeepsTables(s: State, op: Op, commit: bool)
    requires op.CheckPhone? || op.ReadEntitlement? || op.FlipEntitlement? || op.ClaimRenewal?
    ensures TablesKept(s, Try(s, op, commit).st)
  {
    hide Charge;
    hide Find;
    hide LatestActive;
    hide Last10;
  }

  lemma RefusedLeavesTables(s: State, op: Op, commit: bool)
    requires !op.CheckPhone? && !op.ReadEntitlement? && !op.FlipEntitlement? && !op.ClaimRenewal?
    ensures Try(s, op, commit).out.Committed? || Try(s, op, commit).st == s
  {
    hide Charge;
  }

  /** A call that does not answer Committed never touches a billing table; at most it
      moves a status, a renewal date or a caller's place in `create` or `get_entitlement`. */
  lemma OnlyCommittedWrites(s: State, c: Call)
    requires !Step(s, c).out.Committed?
    ensures TablesKept(s, Step(s, c).st)
  {
    if c.op.CheckPhone? || c.op.ReadEntitlement? || c.op.FlipEntitlement? || c.op.ClaimRenewal? {
      UncommittedKeepsTables(s, c.op, c.commit);
    } else {
      RefusedLeavesTables(s, c.op, c.commit);
    }
    hide Try;
  }
}
