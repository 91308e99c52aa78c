/** The Redis mirror of the wallet: three optional balances and a ledger trimmed
    to its last hundred rows, kept on the employer record. */
module RedisWallet {
  import opened Options
  import opened Credits
  import opened PyText
  import Billing
  import WalletHistory

  const MAX_LEDGER: nat := 100

  datatype Row = Row(bucket: Bucket, credit: bool, amount: int, balance: int, description: string)

  datatype Record = Record(
    job: Option<int>, unlock: Option<int>, boost: Option<int>, ledger: seq<Row>, subscription: Option<string>)
  {
    function Field(b: Bucket): Option<int> {
      match b
      case Job => job
      case Unlock => unlock
      case Boost => boost
    }

    function Set(b: Bucket, n: int): Record {
      match b
      case Job => this.(job := Some(n))
      case Unlock => this.(unlock := Some(n))
      case Boost => this.(boost := Some(n))
    }

    /** `int(rec.get(field) or 0)`. */
    function Bal(b: Bucket): int {
      match Field(b)
      case None => 0
      case Some(n) => n
    }

    function Balances(): Amounts {
      Amounts(Bal(Bucket.Job), Bal(Unlock), Bal(Boost))
    }
  }

  /** `_ledger_add`; `cap` is the trim, and `None` keeps the whole history. */
  function LedgerAdd(cap: Option<nat>, rec: Record, b: Bucket, delta: int, description: string): Record {
    var row := Row(b, delta >= 0, if delta < 0 then -delta else delta, rec.Bal(b), description);
    var led := rec.ledger + [row];
    rec.(ledger := if cap.Some? then LastN(cap.value, led) else led)
  }

  function GrantBucket(cap: Option<nat>, rec: Record, b: Bucket, delta: int, description: string): Record {
    if delta == 0 then rec
    else
      var r := rec.Set(b, Floor(rec.Bal(b) + delta));
      if description != "" then LedgerAdd(cap, r, b, delta, description) else r
  }

  function Grant(cap: Option<nat>, rec: Record, bs: seq<Bucket>, d: Amounts, description: string): Record {
    if bs == [] then rec
    else
      var b := bs[|bs| - 1];
      GrantBucket(cap, Grant(cap, rec, bs[..|bs| - 1], d, description), b, d.Get(b), description)
  }

  /** No floor here: the amount is simply added. */
  function SubscribeBucket(cap: Option<nat>, rec: Record, b: Bucket, amount: int, description: string): Record {
    if amount == 0 then rec
    else LedgerAdd(cap, rec.Set(b, rec.Bal(b) + amount), b, amount, description)
  }

  function Subscribe(cap: Option<nat>, rec: Record, plan: string, unlock: int, boost: int): Record {
    var description := plan + " subscription";
    var r := SubscribeBucket(cap, rec.(subscription := Some(plan)), Unlock, unlock, description);
    SubscribeBucket(cap, r, Boost, boost, description)
  }

  function SeedField(rec: Record, b: Bucket, n: int): Record {
    if rec.Field(b).None? then rec.Set(b, Floor(n)) else rec
  }

  function OpeningRow(cap: Option<nat>, rec: Record, b: Bucket, n: int): Record {
    if n > 0 then LedgerAdd(cap, rec, b, n, "Opening balance") else rec
  }

  /** `ensure_wallet`: fill the unset buckets, and on the very first creation
      write the welcome row or the opening rows. */
  function Ensure(cap: Option<nat>, rec: Record, seed: Amounts, welcome: bool): Record {
    var blank := rec.job.None? && rec.unlock.None? && rec.boost.None?;
    var r := SeedField(SeedField(SeedField(rec, Bucket.Job, seed.job), Unlock, seed.unlock), Boost, seed.boost);
    if !blank then r
    else if welcome && seed.job > 0 then LedgerAdd(cap, r, Bucket.Job, seed.job, "Congratulations!")
    else
      var r1 := OpeningRow(cap, r, Bucket.Job, seed.job);
      OpeningRow(cap, OpeningRow(cap, r1, Unlock, seed.unlock), Boost, seed.boost)
  }

  /** Seeding happens once: a second call changes nothing and writes no row, and
      a bucket that was set keeps its balance throughout. */
  lemma SeedingHappensOnce(cap: Option<nat>, rec: Record, seed: Amounts, welcome: bool, again: Amounts, welcome': bool)
    ensures var r := Ensure(cap, rec, seed, welcome);
      && Ensure(cap, r, again, welcome') == r
      && forall b :: r.Field(b) == if rec.Field(b).Some? then rec.Field(b) else Some(Floor(seed.Get(b)))
  {
  }

  datatype Event =
    | EnsureWallet(seed: Amounts, welcome: bool)
    | GrantCredits(delta: Amounts, description: string)
    | ActivateSubscription(plan: string, grantUnlock: int, grantBoost: int)

  function Apply(cap: Option<nat>, rec: Record, ev: Event): Record {
    match ev
    case EnsureWallet(seed, welcome) => Ensure(cap, rec, seed, welcome)
    case GrantCredits(d, description) => Grant(cap, rec, BUCKETS, d, description)
    case ActivateSubscription(plan, u, b) => Subscribe(cap, rec, plan, u, b)
  }

  function Replay(cap: Option<nat>, rec: Record, evs: seq<Event>): Record {
    if evs == [] then rec else Apply(cap, Replay(cap, rec, evs[..|evs| - 1]), evs[|evs| - 1])
  }

  // ----- the employer records, updated in place -----

  class EmployerRecords {
    var records: map<string, Record>

    constructor ()
      ensures records == map[]
    {
      records := map[];
    }

    method EnsureWallet(key: string, seed: Amounts, welcome: bool) returns (bal: Amounts)
      modifies this
      ensures key !in old(records) ==> records == old(records) && bal == ZERO
      ensures key in old(records) ==>
        && records == old(records)[key := Apply(Some(MAX_LEDGER), old(records)[key], Event.EnsureWallet(seed, welcome))]
        && bal == records[key].Balances()
    {
      if key !in records {
        return ZERO;
      }
      var rec := records[key];
      var blank, changed := true, false;
      for i := 0 to 3
        invariant blank == forall k :: 0 <= k < i ==> rec.Field(BUCKETS[k]).None?
      {
        blank := blank && rec.Field(BUCKETS[i]).None?;
      }
      assert blank == (rec.Field(BUCKETS[0]).None? && rec.Field(BUCKETS[1]).None? && rec.Field(BUCKETS[2]).None?);
      var r0, r1 := rec, SeedField(rec, BUCKETS[0], seed.job);
      var r2 := SeedField(r1, BUCKETS[1], seed.unlock);
      for i := 0 to 3
        invariant rec ==
          if i == 0 then r0 else if i == 1 then r1 else if i == 2 then r2 else SeedField(r2, BUCKETS[2], seed.boost)
        invariant changed == (rec != r0)
      {
        if rec.Field(BUCKETS[i]).None? {
          rec, changed := rec.Set(BUCKETS[i], Floor(seed.Get(BUCKETS[i]))), true;
        }
      }
      if changed && blank {
        if welcome && seed.job > 0 {
          rec := LedgerAdd(Some(MAX_LEDGER), rec, Bucket.Job, seed.job, "Congratulations!");
        } else {
          rec := OpeningRow(Some(MAX_LEDGER), rec, Bucket.Job, seed.job);
          rec := OpeningRow(Some(MAX_LEDGER), rec, Unlock, seed.unlock);
          rec := OpeningRow(Some(MAX_LEDGER), rec, Boost, seed.boost);
        }
      }
      if changed {
        records := records[key := rec];
      }
      bal := rec.Balances();
    }

    method GrantCredits(key: string, delta: Amounts, description: string) returns (bal: Option<Amounts>)
      modifies this
      ensures key !in old(records) ==> records == old(records) && bal == None
      ensures key in old(records) ==>
        && records
           == old(records)[key := Apply(Some(MAX_LEDGER), old(records)[key], Event.GrantCredits(delta, description))]
        && bal == Some(records[key].Balances())
    {
      if key !in records {
        return None;
      }
      var rec := records[key];
      for i := 0 to |BUCKETS|
        invariant rec == Grant(Some(MAX_LEDGER), records[key], BUCKETS[..i], delta, description)
      {
        assert BUCKETS[..i + 1][..i] == BUCKETS[..i];
        var b := BUCKETS[i];
        if delta.Get(b) != 0 {
          rec := rec.Set(b, Floor(rec.Bal(b) + delta.Get(b)));
          if description != "" {
            rec := LedgerAdd(Some(MAX_LEDGER), rec, b, delta.Get(b), description);
          }
        }
      }
      assert BUCKETS[..|BUCKETS|] == BUCKETS;
      records := records[key := rec];
      bal := Some(rec.Balances());
    }

    method AdjustJobCredits(key: string, delta: int, description: string) returns (job: Option<int>)
      modifies this
      ensures key !in old(records) ==> records == old(records) && job == None
      ensures key in old(records) ==>
        records == old(records)[key := Apply(Some(MAX_LEDGER), old(records)[key],
                                             Event.GrantCredits(Amounts(delta, 0, 0), description))]
      ensures key in old(records) ==> job == Some(records[key].Bal(Bucket.Job))
    {
      var bal := GrantCredits(key, Amounts(delta, 0, 0), description);
      job := if bal.None? then None else Some(bal.value.job);
    }

    method ActivateSubscription(key: string, plan: string, grantUnlock: int, grantBoost: int)
      returns (rec: Option<Record>)
      modifies this
      ensures key !in old(records) ==> records == old(records) && rec == None
      ensures key in old(records) ==>
        && records == old(records)[key := Apply(Some(MAX_LEDGER), old(records)[key],
                                                Event.ActivateSubscription(plan, grantUnlock, grantBoost))]
        && rec == Some(records[key])
    {
      if key !in records {
        return None;
      }
      var r := records[key].(subscription := Some(plan));
      var description := plan + " subscription";
      if grantUnlock != 0 {
        r := LedgerAdd(Some(MAX_LEDGER), r.Set(Unlock, r.Bal(Unlock) + grantUnlock), Unlock, grantUnlock, description);
      }
      if grantBoost != 0 {
        r := LedgerAdd(Some(MAX_LEDGER), r.Set(Boost, r.Bal(Boost) + grantBoost), Boost, grantBoost, description);
      }
      records := records[key := r];
      return Some(r);
    }
  }

  // ----- what an event records -----

  /** A change's row: its bucket, credit or debit by its sign, its size, the balance after
      it, and what it was for. A change of nothing has none. */
  function RowOf(b: Bucket, n: int, balance: int, description: string): seq<Row> {
    if n > 0 then [Row(b, true, n, balance, description)]
    else if n < 0 then [Row(b, false, -n, balance, description)]
    else []
  }

  function AtLeastZero(n: int): int {
    if n > 0 then n else 0
  }

  /** A bucket that a change of `n` leaves alone, or sets. */
  function After(was: Option<int>, n: int, balance: int): Option<int> {
    if n == 0 then was else Some(balance)
  }

  /** A grant moves each bucket, floored at zero, and with a description writes one row
      per bucket that was to change, in the order job, unlock, boost. */
  lemma GrantRecords(rec: Record, d: Amounts, description: string)
    ensures var r := Grant(None, rec, BUCKETS, d, description);
      var j := AtLeastZero(rec.Bal(Bucket.Job) + d.job);
      var u := AtLeastZero(rec.Bal(Unlock) + d.unlock);
      var b := AtLeastZero(rec.Bal(Boost) + d.boost);
      && r.job == After(rec.job, d.job, j) && r.unlock == After(rec.unlock, d.unlock, u)
      && r.boost == After(rec.boost, d.boost, b) && r.subscription == rec.subscription
      && r.ledger == rec.ledger + if description == "" then [] else
           RowOf(Bucket.Job, d.job, j, description) + RowOf(Unlock, d.unlock, u, description)
           + RowOf(Boost, d.boost, b, description)
  {
    GrantThree(None, rec, d, description);
    var r1 := GrantBucket(None, rec, Bucket.Job, d.job, description);
    var r2 := GrantBucket(None, r1, Unlock, d.unlock, description);
    BucketRecords(rec, Bucket.Job, d.job, description);
    BucketRecords(r1, Unlock, d.unlock, description);
    BucketRecords(r2, Boost, d.boost, description);
    hide Grant;
    hide GrantBucket;
    hide RowOf;
    assert rec.ledger + [] == rec.ledger;
  }

  lemma BucketRecords(rec: Record, b: Bucket, n: int, description: string)
    ensures var r, bal := GrantBucket(None, rec, b, n, description), AtLeastZero(rec.Bal(b) + n);
      && r.Field(b) == After(rec.Field(b), n, bal) && (forall x :: x != b ==> r.Field(x) == rec.Field(x))
      && r.Field(Bucket.Job) == r.job && r.Field(Unlock) == r.unlock && r.Field(Boost) == r.boost
      && r.subscription == rec.subscription
      && r.ledger == rec.ledger + if description == "" then [] else RowOf(b, n, bal, description)
  {
  }

  /** A subscription is stored, and its grants are added without a floor, each with its row. */
  lemma SubscribeRecords(rec: Record, plan: string, u: int, b: int)
    ensures var r, description := Subscribe(None, rec, plan, u, b), plan + " subscription";
      && r.subscription == Some(plan) && r.job == rec.job
      && r.unlock == After(rec.unlock, u, rec.Bal(Unlock) + u) && r.boost == After(rec.boost, b, rec.Bal(Boost) + b)
      && r.ledger == rec.ledger + RowOf(Unlock, u, rec.Bal(Unlock) + u, description)
                                + RowOf(Boost, b, rec.Bal(Boost) + b, description)
  {
  }

  /** The first seeding of a blank record writes the welcome row when there is one to
      write, and otherwise an opening row per bucket seeded above zero; any other seeding
      writes nothing. */
  lemma EnsureRecords(rec: Record, seed: Amounts, welcome: bool)
    ensures var r := Ensure(None, rec, seed, welcome);
      && r.subscription == rec.subscription
      && r.ledger == rec.ledger
         + if !(rec.job.None? && rec.unlock.None? && rec.boost.None?) then []
           else if welcome && seed.job > 0 then [Row(Bucket.Job, true, seed.job, seed.job, "Congratulations!")]
           else RowOf(Bucket.Job, AtLeastZero(seed.job), seed.job, "Opening balance")
                + RowOf(Unlock, AtLeastZero(seed.unlock), seed.unlock, "Opening balance")
                + RowOf(Boost, AtLeastZero(seed.boost), seed.boost, "Opening balance")
  {
    assert rec.ledger + [] == rec.ledger;
  }

  // ----- the mirror simulates the live wallet -----

  predicate Solvent(rec: Record) {
    forall b :: rec.Bal(b) >= 0
  }

  lemma GrantThree(cap: Option<nat>, rec: Record, d: Amounts, description: string)
    ensures Grant(cap, rec, BUCKETS, d, description)
      == GrantBucket(cap, GrantBucket(cap, GrantBucket(cap, rec, Bucket.Job, d.job, description),
                                      Unlock, d.unlock, description), Boost, d.boost, description)
  {
    var one, two := [Bucket.Job], [Bucket.Job, Unlock];
    assert one[..0] == [] && two[..1] == one && BUCKETS[..2] == two;
    assert Grant(cap, rec, one, d, description) == GrantBucket(cap, rec, Bucket.Job, d.job, description);
    assert Grant(cap, rec, two, d, description)
        == GrantBucket(cap, Grant(cap, rec, one, d, description), Unlock, d.unlock, description);
  }

  /** `grant_credits` moves the mirrored balances exactly as `_apply_delta` moves the live ones. */
  lemma GrantSimulates(cap: Option<nat>, rec: Record, d: Amounts, description: string)
    requires Solvent(rec)
    ensures Grant(cap, rec, BUCKETS, d, description).Balances() == Shift(rec.Balances(), d)
    ensures Solvent(Grant(cap, rec, BUCKETS, d, description))
  {
    GrantThree(cap, rec, d, description);
    assert rec.Bal(Bucket.Job) >= 0 && rec.Bal(Unlock) >= 0 && rec.Bal(Boost) >= 0;
    var r1 := GrantBucket(cap, rec, Bucket.Job, d.job, description);
    var r2 := GrantBucket(cap, r1, Unlock, d.unlock, description);
    GrantMoves(cap, rec, Bucket.Job, d.job, description);
    GrantMoves(cap, r1, Unlock, d.unlock, description);
    GrantMoves(cap, r2, Boost, d.boost, description);
    hide Grant;
    hide GrantBucket;
  }

  lemma GrantMoves(cap: Option<nat>, rec: Record, b: Bucket, delta: int, description: string)
    requires rec.Bal(b) >= 0
    ensures var r := GrantBucket(cap, rec, b, delta, description);
      forall x :: r.Bal(x) == if x == b then Floor(rec.Bal(b) + delta) else rec.Bal(x)
  {
  }

  /** `activate_subscription` has no floor: it agrees with the live wallet exactly
      when neither grant would overdraw its bucket. */
  lemma SubscribeSimulatesIff(cap: Option<nat>, rec: Record, plan: string, u: int, b: int)
    requires Solvent(rec)
    ensures Subscribe(cap, rec, plan, u, b).Balances() == Shift(rec.Balances(), Amounts(0, u, b))
      <==> rec.Bal(Unlock) + u >= 0 && rec.Bal(Boost) + b >= 0
    ensures rec.Bal(Unlock) + u >= 0 && rec.Bal(Boost) + b >= 0 ==> Solvent(Subscribe(cap, rec, plan, u, b))
  {
    assert rec.Bal(Bucket.Job) >= 0 && rec.Bal(Unlock) >= 0 && rec.Bal(Boost) >= 0;
  }

  /** The delta an event applies to the live wallet; seeding the mirror applies none. */
  function LiveDelta(ev: Event): Amounts {
    match ev
    case EnsureWallet(_, _) => ZERO
    case GrantCredits(d, _) => d
    case ActivateSubscription(_, u, b) => Amounts(0, u, b)
  }

  /** No subscription grant is negative. */
  predicate Mirrored(ev: Event) {
    ev.ActivateSubscription? ==> ev.grantUnlock >= 0 && ev.grantBoost >= 0
  }

  /** The live wallets after the same events. `newId` is minted for the wallet, if the
      employer has none; seeding the mirror does not touch the live tables. */
  function LiveRun(ws: seq<Billing.Wallet>, e: Billing.Id, evs: seq<Event>, newId: Billing.Id)
    : Option<seq<Billing.Wallet>>
  {
    if evs == [] then Some(ws)
    else
      var ev := evs[|evs| - 1];
      match LiveRun(ws, e, evs[..|evs| - 1], newId)
      case None => None
      case Some(ws') =>
        if ev.EnsureWallet? then Some(ws')
        else
          match Billing.ApplyDelta(ws', e, LiveDelta(ev), newId)
          case None => None
          case Some(a) => Some(a.wallets)
  }

  /** Every bucket is set: seeding has nothing left to fill. */
  predicate Seeded(rec: Record) {
    rec.job.Some? && rec.unlock.Some? && rec.boost.Some?
  }

  lemma SeedingIsIdle(cap: Option<nat>, rec: Record, seed: Amounts, welcome: bool)
    requires Seeded(rec)
    ensures Ensure(cap, rec, seed, welcome) == rec
  {
  }

  lemma {:induction false} StaysSeeded(cap: Option<nat>, rec: Record, ev: Event)
    requires Seeded(rec)
    ensures Seeded(Apply(cap, rec, ev))
  {
    match ev
    case EnsureWallet(seed, welcome) => SeedingIsIdle(cap, rec, seed, welcome);
    case GrantCredits(d, description) =>
      GrantThree(cap, rec, d, description);
      hide Grant;
    case ActivateSubscription(_, _, _) =>
  }

  /** One mirrored change keeps the mirror equal to the live wallet. */
  lemma ChangeFollowsLive(cap: Option<nat>, rec: Record, ws: seq<Billing.Wallet>, e: Billing.Id, ev: Event,
                          newId: Billing.Id)
    requires Solvent(rec) && rec.Balances() == Billing.Holding(ws, e) && Mirrored(ev) && !ev.EnsureWallet?
    requires Billing.ApplyDelta(ws, e, LiveDelta(ev), newId).Some?
    ensures Solvent(Apply(cap, rec, ev))
    ensures Apply(cap, rec, ev).Balances()
      == Billing.Holding(Billing.ApplyDelta(ws, e, LiveDelta(ev), newId).value.wallets, e)
  {
    WalletHistory.ApplyDeltaIsShift(ws, e, LiveDelta(ev), newId);
    match ev
    case GrantCredits(d, description) => GrantSimulates(cap, rec, d, description);
    case ActivateSubscription(plan, u, b) =>
      assert rec.Bal(Unlock) >= 0 && rec.Bal(Boost) >= 0;
      SubscribeSimulatesIff(cap, rec, plan, u, b);
  }

  /** From equal balances, the same events keep the mirror equal to the live wallet;
      once every bucket is set that includes any further seeding. */
  lemma {:induction false} MirrorFollowsLive(cap: Option<nat>, rec: Record, ws: seq<Billing.Wallet>, e: Billing.Id,
                                             evs: seq<Event>, newId: Billing.Id)
    requires Solvent(rec) && rec.Balances() == Billing.Holding(ws, e)
    requires forall i :: 0 <= i < |evs| ==> Mirrored(evs[i]) && (evs[i].EnsureWallet? ==> Seeded(rec))
    requires LiveRun(ws, e, evs, newId).Some?
    ensures Solvent(Replay(cap, rec, evs)) && (Seeded(rec) ==> Seeded(Replay(cap, rec, evs)))
    ensures Replay(cap, rec, evs).Balances() == Billing.Holding(LiveRun(ws, e, evs, newId).value, e)
  {
    if evs != [] {
      var init, ev := evs[..|evs| - 1], evs[|evs| - 1];
      MirrorFollowsLive(cap, rec, ws, e, init, newId);
      var r, ws' := Replay(cap, rec, init), LiveRun(ws, e, init, newId).value;
      hide Solvent;
      if Seeded(rec) {
        StaysSeeded(cap, r, ev);
      }
      if ev.EnsureWallet? {
        SeedingIsIdle(cap, r, ev.seed, ev.welcome);
      } else {
        ChangeFollowsLive(cap, r, ws', e, ev, newId);
      }
    }
  }

  predicate Blank(rec: Record) {
    rec.job.None? && rec.unlock.None? && rec.boost.None?
  }

  /** A blank record seeded with the live balances ends equal to them. */
  lemma SeedMakesEqual(cap: Option<nat>, rec: Record, ws: seq<Billing.Wallet>, e: Billing.Id, welcome: bool)
    requires Blank(rec) && WalletHistory.NoDebt(ws)
    ensures var r := Ensure(cap, rec, Billing.Holding(ws, e), welcome);
      Seeded(r) && Solvent(r) && r.Balances() == Billing.Holding(ws, e)
  {
    var seed := Billing.Holding(ws, e);
    assert WalletHistory.Solvent(seed);
    SeedingHappensOnce(cap, rec, seed, welcome, seed, welcome);
    var r := Ensure(cap, rec, seed, welcome);
    assert forall b :: r.Field(b) == Some(Floor(seed.Get(b)));
    assert r.Field(Bucket.Job).Some? && r.Field(Unlock).Some? && r.Field(Boost).Some?;
    hide Ensure;
    assert forall b :: r.Bal(b) == seed.Get(b);
  }

  /** So the mirror a new employer gets, seeded from the live wallet, shows the live
      balances after whatever seedings, grants and subscriptions follow. */
  lemma SeededMirrorFollowsLive(cap: Option<nat>, rec: Record, ws: seq<Billing.Wallet>, e: Billing.Id, welcome: bool,
                                evs: seq<Event>, newId: Billing.Id)
    requires Blank(rec) && WalletHistory.NoDebt(ws)
    requires forall i :: 0 <= i < |evs| ==> Mirrored(evs[i])
    requires LiveRun(ws, e, evs, newId).Some?
    ensures Replay(cap, Ensure(cap, rec, Billing.Holding(ws, e), welcome), evs).Balances()
      == Billing.Holding(LiveRun(ws, e, evs, newId).value, e)
  {
    SeedMakesEqual(cap, rec, ws, e, welcome);
    hide Ensure;
    MirrorFollowsLive(cap, Ensure(cap, rec, Billing.Holding(ws, e), welcome), ws, e, evs, newId);
  }

  // ----- the trimmed ledger is the tail of the full history -----

  /** The two records differ only in how much of the history they retain. */
  predicate Tail(cap: nat, short: Record, full: Record) {
    short == full.(ledger := LastN(cap, full.ledger))
  }

  lemma AddKeepsTail(cap: nat, short: Record, full: Record, b: Bucket, delta: int, description: string)
    requires Tail(cap, short, full)
    ensures Tail(cap, LedgerAdd(Some(cap), short, b, delta, description), LedgerAdd(None, full, b, delta, description))
  {
  }

  lemma GrantKeepsTail(cap: nat, short: Record, full: Record, b: Bucket, delta: int, description: string)
    requires Tail(cap, short, full)
    ensures Tail(cap, GrantBucket(Some(cap), short, b, delta, description),
                 GrantBucket(None, full, b, delta, description))
  {
    AddKeepsTail(cap, short.Set(b, Floor(short.Bal(b) + delta)), full.Set(b, Floor(full.Bal(b) + delta)),
                 b, delta, description);
  }

  lemma SubscribeKeepsTail(cap: nat, short: Record, full: Record, b: Bucket, amount: int, description: string)
    requires Tail(cap, short, full)
    ensures Tail(cap, SubscribeBucket(Some(cap), short, b, amount, description),
                 SubscribeBucket(None, full, b, amount, description))
  {
    AddKeepsTail(cap, short.Set(b, short.Bal(b) + amount), full.Set(b, full.Bal(b) + amount), b, amount, description);
  }

  lemma EnsureKeepsTail(cap: nat, short: Record, full: Record, seed: Amounts, welcome: bool)
    requires Tail(cap, short, full)
    ensures Tail(cap, Ensure(Some(cap), short, seed, welcome), Ensure(None, full, seed, welcome))
  {
    var s0 := SeedField(SeedField(SeedField(short, Bucket.Job, seed.job), Unlock, seed.unlock), Boost, seed.boost);
    var f0 := SeedField(SeedField(SeedField(full, Bucket.Job, seed.job), Unlock, seed.unlock), Boost, seed.boost);
    AddKeepsTail(cap, s0, f0, Bucket.Job, seed.job, "Congratulations!");
    AddKeepsTail(cap, s0, f0, Bucket.Job, seed.job, "Opening balance");
    var s1, f1 := OpeningRow(Some(cap), s0, Bucket.Job, seed.job), OpeningRow(None, f0, Bucket.Job, seed.job);
    AddKeepsTail(cap, s1, f1, Unlock, seed.unlock, "Opening balance");
    var s2, f2 := OpeningRow(Some(cap), s1, Unlock, seed.unlock), OpeningRow(None, f1, Unlock, seed.unlock);
    AddKeepsTail(cap, s2, f2, Boost, seed.boost, "Opening balance");
  }

  lemma ApplyKeepsTail(cap: nat, short: Record, full: Record, ev: Event)
    requires Tail(cap, short, full)
    ensures Tail(cap, Apply(Some(cap), short, ev), Apply(None, full, ev))
  {
    match ev
    case GrantCredits(d, description) =>
      GrantThree(Some(cap), short, d, description);
      GrantThree(None, full, d, description);
      var s1 := GrantBucket(Some(cap), short, Bucket.Job, d.job, description);
      var f1 := GrantBucket(None, full, Bucket.Job, d.job, description);
      var s2 := GrantBucket(Some(cap), s1, Unlock, d.unlock, description);
      var f2 := GrantBucket(None, f1, Unlock, d.unlock, description);
      GrantKeepsTail(cap, short, full, Bucket.Job, d.job, description);
      GrantKeepsTail(cap, s1, f1, Unlock, d.unlock, description);
      GrantKeepsTail(cap, s2, f2, Boost, d.boost, description);
    case ActivateSubscription(plan, u, b) =>
      var s0, f0 := short.(subscription := Some(plan)), full.(subscription := Some(plan));
      var description := plan + " subscription";
      SubscribeKeepsTail(cap, s0, f0, Unlock, u, description);
      SubscribeKeepsTail(cap, SubscribeBucket(Some(cap), s0, Unlock, u, description),
                         SubscribeBucket(None, f0, Unlock, u, description), Boost, b, description);
    case EnsureWallet(seed, welcome) =>
      EnsureKeepsTail(cap, short, full, seed, welcome);
  }

  /** After any events the Redis ledger is the last min(100, n) rows of the full history,
      and everything else on the record is the same. */
  lemma {:induction false} LedgerIsTail(rec: Record, evs: seq<Event>)
    requires |rec.ledger| <= 100
    ensures Tail(100, Replay(Some(MAX_LEDGER), rec, evs), Replay(None, rec, evs))
  {
    if evs != [] {
      LedgerIsTail(rec, evs[..|evs| - 1]);
      ApplyKeepsTail(MAX_LEDGER, Replay(Some(MAX_LEDGER), rec, evs[..|evs| - 1]),
                     Replay(None, rec, evs[..|evs| - 1]), evs[|evs| - 1]);
    }
  }

  // ----- the newest row of a bucket shows its balance -----

  function Newest(ledger: seq<Row>, b: Bucket): Option<int> {
    if ledger == [] then None
    else if ledger[|ledger| - 1].bucket == b then Some(ledger[|ledger| - 1].balance)
    else Newest(ledger[..|ledger| - 1], b)
  }

  predicate Showing(rec: Record, b: Bucket) {
    Newest(rec.ledger, b).Some? ==> rec.Field(b) == Newest(rec.ledger, b)
  }

  predicate UpToDate(rec: Record) {
    forall b :: Showing(rec, b)
  }

  lemma {:induction false} NewestOfTail(n: nat, rows: seq<Row>, b: Bucket)
    ensures Newest(LastN(n, rows), b).Some? ==> Newest(LastN(n, rows), b) == Newest(rows, b)
  {
    if |rows| > n > 0 {
      var tail := LastN(n, rows);
      assert tail[..n - 1] == LastN(n - 1, rows[..|rows| - 1]);
      NewestOfTail(n - 1, rows[..|rows| - 1], b);
    }
  }

  /** A change with its row: the bucket shows its new balance, the others are as before. */
  lemma ChangeWithRow(cap: Option<nat>, rec: Record, b: Bucket, delta: int, description: string)
    requires forall x :: x != b ==> Showing(rec, x)
    requires rec.Field(b).Some?
    ensures UpToDate(LedgerAdd(cap, rec, b, delta, description))
  {
    var row := Row(b, delta >= 0, if delta < 0 then -delta else delta, rec.Bal(b), description);
    var led := rec.ledger + [row];
    var r := LedgerAdd(cap, rec, b, delta, description);
    assert led[..|led| - 1] == rec.ledger;
    forall x ensures Showing(r, x) {
      if cap.Some? {
        NewestOfTail(cap.value, led, x);
      }
      assert x != b ==> Showing(rec, x);
    }
  }

  lemma SetShows(rec: Record, b: Bucket, n: int)
    requires UpToDate(rec)
    ensures forall x :: x != b ==> Showing(rec.Set(b, n), x)
    ensures UpToDate(rec.Set(b, n)) <==> (Newest(rec.ledger, b).None? || rec.Field(b) == Some(n))
  {
    var r := rec.Set(b, n);
    forall x | x != b ensures Showing(r, x) {
      assert Showing(rec, x);
    }
    assert Showing(rec, b);
    assert Showing(r, b) <==> (Newest(rec.ledger, b).None? || rec.Field(b) == Some(n));
  }

  lemma GrantShows(cap: Option<nat>, rec: Record, b: Bucket, delta: int, description: string)
    requires UpToDate(rec) && description != ""
    ensures UpToDate(GrantBucket(cap, rec, b, delta, description))
  {
    if delta != 0 {
      var n := Floor(rec.Bal(b) + delta);
      SetShows(rec, b, n);
      ChangeWithRow(cap, rec.Set(b, n), b, delta, description);
    }
  }

  lemma SubscribeShows(cap: Option<nat>, rec: Record, b: Bucket, amount: int, description: string)
    requires UpToDate(rec)
    ensures UpToDate(SubscribeBucket(cap, rec, b, amount, description))
  {
    if amount != 0 {
      SetShows(rec, b, rec.Bal(b) + amount);
      ChangeWithRow(cap, rec.Set(b, rec.Bal(b) + amount), b, amount, description);
    }
  }

  lemma SeedShows(rec: Record, b: Bucket, n: int)
    requires UpToDate(rec)
    ensures UpToDate(SeedField(rec, b, n))
  {
    if rec.Field(b).None? {
      assert Showing(rec, b);
      SetShows(rec, b, Floor(n));
    }
  }

  lemma OpeningShows(cap: Option<nat>, rec: Record, b: Bucket, n: int)
    requires UpToDate(rec) && rec.Field(b).Some?
    ensures UpToDate(OpeningRow(cap, rec, b, n))
  {
    if n > 0 {
      ChangeWithRow(cap, rec, b, n, "Opening balance");
    }
  }

  predicate Described(ev: Event) {
    ev.GrantCredits? ==> ev.description != ""
  }

  lemma ApplyShows(cap: Option<nat>, rec: Record, ev: Event)
    requires UpToDate(rec) && Described(ev)
    ensures UpToDate(Apply(cap, rec, ev))
  {
    match ev
    case GrantCredits(d, description) =>
      GrantThree(cap, rec, d, description);
      var r1 := GrantBucket(cap, rec, Bucket.Job, d.job, description);
      var r2 := GrantBucket(cap, r1, Unlock, d.unlock, description);
      GrantShows(cap, rec, Bucket.Job, d.job, description);
      GrantShows(cap, r1, Unlock, d.unlock, description);
      GrantShows(cap, r2, Boost, d.boost, description);
    case ActivateSubscription(plan, u, b) =>
      var r := rec.(subscription := Some(plan));
      forall x ensures Showing(r, x) { assert Showing(rec, x); }
      var description := plan + " subscription";
      SubscribeShows(cap, r, Unlock, u, description);
      SubscribeShows(cap, SubscribeBucket(cap, r, Unlock, u, description), Boost, b, description);
    case EnsureWallet(seed, welcome) =>
      var r1 := SeedField(rec, Bucket.Job, seed.job);
      var r2 := SeedField(r1, Unlock, seed.unlock);
      var r := SeedField(r2, Boost, seed.boost);
      SeedShows(rec, Bucket.Job, seed.job);
      SeedShows(r1, Unlock, seed.unlock);
      SeedShows(r2, Boost, seed.boost);
      ChangeWithRow(cap, r, Bucket.Job, seed.job, "Congratulations!");
      var o1 := OpeningRow(cap, r, Bucket.Job, seed.job);
      var o2 := OpeningRow(cap, o1, Unlock, seed.unlock);
      OpeningShows(cap, r, Bucket.Job, seed.job);
      OpeningShows(cap, o1, Unlock, seed.unlock);
      OpeningShows(cap, o2, Boost, seed.boost);
  }

  /** When every change carries a description, each bucket's newest retained row
      shows its current balance. */
  lemma {:induction false} NewestRowShowsBalance(cap: Option<nat>, rec: Record, evs: seq<Event>)
    requires UpToDate(rec) && forall i :: 0 <= i < |evs| ==> Described(evs[i])
    ensures UpToDate(Replay(cap, rec, evs))
  {
    if evs != [] {
      NewestRowShowsBalance(cap, rec, evs[..|evs| - 1]);
      ApplyShows(cap, Replay(cap, rec, evs[..|evs| - 1]), evs[|evs| - 1]);
    }
  }

  /** Without a description a change keeps the newest row true exactly when the
      bucket has no retained row or its balance did not move. */
  lemma SilentChange(cap: Option<nat>, rec: Record, b: Bucket, delta: int)
    requires UpToDate(rec) && delta != 0
    ensures UpToDate(GrantBucket(cap, rec, b, delta, ""))
      <==> (Newest(rec.ledger, b).None? || Floor(rec.Bal(b) + delta) == rec.Bal(b))
  {
    SetShows(rec, b, Floor(rec.Bal(b) + delta));
    assert Showing(rec, b);
  }
}
