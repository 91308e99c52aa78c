/** The write section of `onboarding_submit`, with any number of submits
    interleaved at every await: an NX lock with a TTL, an existence check, a
    write retried on a saturated cluster, and release of the lock on failure. */
module Registration {
  import opened Phones

  const TTL: int := 120
  const TRIES: nat := 3

  /** Where a submit is. `since` is when it took the lock. `hidden` is history: the
      board a failed lookup did not show; it is empty when the lookup answered. */
  datatype Pc =
    | Ready
    | Checking(since: int)
    | Writing(since: int, hidden: seq<string>, attempt: nat)
    | Releasing(since: int)
    | Finished

  datatype Submit = Submit(phone: string, conversation: string, pc: Pc)

  datatype State = State(now: int, locks: map<string, int>, rows: seq<string>, procs: seq<Submit>)

  datatype Outcome = Success | TooManyClients | OtherError

  datatype Action =
    | Acquire(p: nat)
    | Check(p: nat, fails: bool)
    | Write(p: nat, outcome: Outcome)
    | Release(p: nat)
    | Tick(ticks: nat)

  /** `onboard_db:{phone digits or conversation id}`. */
  function LockKey(x: Submit): string {
    "onboard_db:" + if Digits(x.phone) != "" then Digits(x.phone) else x.conversation
  }

  predicate Live(s: State, key: string) {
    key in s.locks && s.now < s.locks[key]
  }

  predicate InSection(pc: Pc) {
    pc.Checking? || pc.Writing? || pc.Releasing?
  }

  function Goto(s: State, p: nat, pc: Pc): State
    requires p < |s.procs|
  {
    s.(procs := s.procs[p := s.procs[p].(pc := pc)])
  }

  predicate SameNumber(row: string, phone: string) {
    Last10(row) == Last10(phone)
  }

  predicate Listed(rows: seq<string>, phone: string) {
    exists i :: 0 <= i < |rows| && SameNumber(rows[i], phone)
  }

  predicate Enabled(s: State, a: Action) {
    match a
    case Acquire(p) => p < |s.procs| && s.procs[p].pc.Ready?
    case Check(p, _) => p < |s.procs| && s.procs[p].pc.Checking?
    case Write(p, _) => p < |s.procs| && s.procs[p].pc.Writing?
    case Release(p) => p < |s.procs| && s.procs[p].pc.Releasing?
    case Tick(_) => true
  }

  function Step(s: State, a: Action): State
    requires Enabled(s, a)
  {
    match a
    case Acquire(p) =>
      var key := LockKey(s.procs[p]);
      if Live(s, key) then Goto(s, p, Finished)
      else Goto(s.(locks := s.locks[key := s.now + TTL]), p, Checking(s.now))
    case Check(p, fails) =>
      var x := s.procs[p];
      if fails then Goto(s, p, Writing(x.pc.since, s.rows, 0))
      else if Listed(s.rows, x.phone) then Goto(s, p, Finished)
      else Goto(s, p, Writing(x.pc.since, [], 0))
    case Write(p, outcome) =>
      var x := s.procs[p];
      if outcome == Success then Goto(s.(rows := s.rows + [x.phone]), p, Finished)
      else if outcome == TooManyClients && x.pc.attempt + 1 < TRIES then
        Goto(s, p, x.pc.(attempt := x.pc.attempt + 1))
      else Goto(s, p, Releasing(x.pc.since))
    case Release(p) =>
      Goto(s.(locks := s.locks - {LockKey(s.procs[p])}), p, Finished)
    case Tick(n) => s.(now := s.now + n)
  }

  ghost predicate EnabledRun(s: State, acts: seq<Action>)
    decreases |acts|
  {
    acts == [] || (Enabled(s, acts[0]) && EnabledRun(Step(s, acts[0]), acts[1..]))
  }

  ghost function Run(s: State, acts: seq<Action>): State
    requires EnabledRun(s, acts)
    decreases |acts|
  {
    if acts == [] then s else Run(Step(s, acts[0]), acts[1..])
  }

  /** A holder acts only within `limit` ticks of taking its lock. */
  predicate Timely(s: State, a: Action, limit: int)
    requires Enabled(s, a)
  {
    match a
    case Acquire(_) => true
    case Tick(_) => true
    case _ => s.now < s.procs[a.p].pc.since + limit
  }

  ghost predicate TimelyRun(s: State, acts: seq<Action>, limit: int)
    requires EnabledRun(s, acts)
    decreases |acts|
  {
    acts == [] || (Timely(s, acts[0], limit) && TimelyRun(Step(s, acts[0]), acts[1..], limit))
  }

  /** A lookup answers whenever the number is already on the board. */
  ghost predicate LookupsSee(s: State, acts: seq<Action>)
    requires EnabledRun(s, acts)
    decreases |acts|
  {
    acts == [] || (
      && (acts[0].Check? && acts[0].fails ==> !Listed(s.rows, s.procs[acts[0].p].phone))
      && LookupsSee(Step(s, acts[0]), acts[1..]))
  }

  /** Nothing has started yet. */
  predicate Initial(s: State) {
    s.rows == [] && forall p :: 0 <= p < |s.procs| ==> s.procs[p].pc.Ready?
  }

  // ----- numbers -----

  /** Which phones count as one number: as the lock compares them, by all digits,
      or as the board does, by the last ten. */
  datatype Number = AllDigits(digits: string) | LastTen(last10: string) {
    predicate Of(phone: string) {
      match this
      case AllDigits(d) => Digits(phone) == d
      case LastTen(n) => Last10(phone) == n
    }
  }

  /** How many rows carry this number. */
  function Count(rows: seq<string>, k: Number): nat {
    if rows == [] then 0
    else Count(rows[..|rows| - 1], k) + if k.Of(rows[|rows| - 1]) then 1 else 0
  }

  lemma {:induction false} CountedIsListed(rows: seq<string>, k: Number, phone: string)
    requires k.Of(phone) && Count(rows, k) > 0
    ensures Listed(rows, phone)
  {
    var n := |rows| - 1;
    if k.Of(rows[n]) {
      assert SameNumber(rows[n], phone);
    } else {
      CountedIsListed(rows[..n], k, phone);
      var i :| 0 <= i < n && SameNumber(rows[..n][i], phone);
      assert SameNumber(rows[i], phone);
    }
  }

  predicate Submits(s: State, p: int, k: Number) {
    0 <= p < |s.procs| && k.Of(s.procs[p].phone)
  }

  /** All submits for the number compete for one lock. */
  ghost predicate OneLock(s: State, k: Number) {
    forall p, q :: Submits(s, p, k) && Submits(s, q, k) ==> LockKey(s.procs[p]) == LockKey(s.procs[q])
  }

  /** Equal digits always do; equal last ten digits need not. */
  lemma SameDigitsShareALock(s: State, d: string)
    requires d != ""
    ensures OneLock(s, AllDigits(d))
  {
  }

  lemma StepKeepsSubmits(s: State, a: Action)
    requires Enabled(s, a)
    ensures var s' := Step(s, a); |s'.procs| == |s.procs| && forall p :: 0 <= p < |s.procs| ==>
      && s'.procs[p].phone == s.procs[p].phone && LockKey(s'.procs[p]) == LockKey(s.procs[p])
      && (s.procs[p].pc.Finished? ==> s'.procs[p].pc.Finished?)
  {
    hide Listed;
    hide Digits;
    hide Last10;
  }

  // ----- mutual exclusion -----

  /** In the section and still covered by its own lock. */
  predicate Holds(s: State, p: int) {
    0 <= p < |s.procs| && InSection(s.procs[p].pc) && s.now < s.procs[p].pc.since + TTL
  }

  predicate HasLock(s: State, p: int) {
    Holds(s, p) ==>
      var key := LockKey(s.procs[p]); key in s.locks && s.locks[key] == s.procs[p].pc.since + TTL
  }

  ghost predicate Exclusive(s: State) {
    && (forall p :: HasLock(s, p))
    && (forall p, q :: Holds(s, p) && Holds(s, q) && LockKey(s.procs[p]) == LockKey(s.procs[q]) ==> p == q)
  }

  /** Only Acquire makes a holder, and only the others' own steps move them. */
  lemma StepHolders(s: State, a: Action, p: int)
    requires Enabled(s, a) && Timely(s, a, TTL) && 0 <= p < |s.procs|
    ensures var s' := Step(s, a);
      && |s'.procs| == |s.procs| && s'.procs[p].phone == s.procs[p].phone
      && LockKey(s'.procs[p]) == LockKey(s.procs[p])
      && (!a.Tick? && !a.Acquire? ==> Holds(s, a.p))
      && (Holds(s', p) && !(a.Acquire? && a.p == p) ==>
          Holds(s, p) && s'.procs[p].pc.since == s.procs[p].pc.since && !(a.Release? && a.p == p))
      && (Holds(s', p) && a.Acquire? && a.p == p ==> !Live(s, LockKey(s.procs[p])) && s'.procs[p].pc.since == s.now)
  {
    StepKeepsSubmits(s, a);
    hide LockKey;
    hide Listed;
  }

  /** What a step does to the lock table. */
  lemma StepLocks(s: State, a: Action)
    requires Enabled(s, a)
    ensures var s' := Step(s, a);
      s'.locks ==
        if a.Acquire? && !Live(s, LockKey(s.procs[a.p])) then s.locks[LockKey(s.procs[a.p]) := s.now + TTL]
        else if a.Release? then s.locks - {LockKey(s.procs[a.p])}
        else s.locks
  {
    hide LockKey;
    hide Listed;
  }

  lemma StepExclusive(s: State, a: Action)
    requires Exclusive(s) && Enabled(s, a) && Timely(s, a, TTL)
    ensures Exclusive(Step(s, a))
  {
    StepLocks(s, a);
    hide Step;
    hide LockKey;
    var s' := Step(s, a);
    forall p ensures HasLock(s', p) {
      if Holds(s', p) {
        StepKeepsSubmits(s, a);
        StepHolders(s, a, p);
        assert HasLock(s, p) && (!a.Tick? ==> HasLock(s, a.p));
      }
    }
    forall p, q | Holds(s', p) && Holds(s', q) && LockKey(s'.procs[p]) == LockKey(s'.procs[q]) ensures p == q {
      StepKeepsSubmits(s, a);
      StepHolders(s, a, p);
      StepHolders(s, a, q);
      assert HasLock(s, p) && HasLock(s, q);
    }
  }

  // ----- one row per number -----

  /** The lookup of this submit failed to show a row of the number. */
  predicate Blind(x: Submit, k: Number) {
    x.pc.Writing? && Count(x.pc.hidden, k) > 0
  }

  /** A covered writer is blind exactly when its number is already on the board. */
  predicate SightedAt(s: State, k: Number, p: int) {
    Submits(s, p, k) && s.procs[p].pc.Writing? && Holds(s, p) ==>
      (Blind(s.procs[p], k) <==> Count(s.rows, k) > 0)
  }

  ghost predicate Sighted(s: State, k: Number) {
    forall p :: SightedAt(s, k, p)
  }

  /** This action adds a row for the number. */
  predicate Adds(s: State, a: Action, k: Number)
    requires Enabled(s, a)
  {
    a.Write? && a.outcome == Success && k.Of(s.procs[a.p].phone)
  }

  lemma StepRows(s: State, a: Action, k: Number)
    requires Enabled(s, a)
    ensures Count(Step(s, a).rows, k) == Count(s.rows, k) + if Adds(s, a, k) then 1 else 0
  {
    if a.Write? && a.outcome == Success {
      assert Step(s, a).rows[..|s.rows|] == s.rows;
    }
  }

  lemma OneLockStays(s: State, a: Action, k: Number)
    requires OneLock(s, k) && Enabled(s, a)
    ensures OneLock(Step(s, a), k)
  {
    StepKeepsSubmits(s, a);
    var s' := Step(s, a);
    hide LockKey;
    hide Last10;
    hide Step;
    forall p, q | Submits(s', p, k) && Submits(s', q, k) ensures LockKey(s'.procs[p]) == LockKey(s'.procs[q]) {
      assert Submits(s, p, k) && Submits(s, q, k);
    }
  }

  lemma CheckerSighted(s: State, a: Action, k: Number)
    requires Enabled(s, a) && a.Check?
    ensures SightedAt(Step(s, a), k, a.p)
  {
    hide LockKey;
    if k.Of(s.procs[a.p].phone) && Count(s.rows, k) > 0 {
      CountedIsListed(s.rows, k, s.procs[a.p].phone);
    }
    hide Last10;
    hide Listed;
  }

  lemma WriterBefore(s: State, a: Action, p: int)
    requires Enabled(s, a) && 0 <= p < |s.procs| && !(a.Check? && a.p == p)
    ensures var s' := Step(s, a);
      |s'.procs| == |s.procs| && (s'.procs[p].pc.Writing? ==>
        && s.procs[p].pc.Writing? && s'.procs[p].pc.hidden == s.procs[p].pc.hidden
        && !(a.Write? && a.outcome == Success && a.p == p))
  {
    hide LockKey;
    hide Listed;
  }

  lemma OthersSighted(s: State, a: Action, k: Number, p: int)
    requires OneLock(s, k) && Exclusive(s) && SightedAt(s, k, p)
    requires Enabled(s, a) && Timely(s, a, TTL) && !(a.Check? && a.p == p)
    ensures SightedAt(Step(s, a), k, p)
  {
    StepRows(s, a, k);
    StepKeepsSubmits(s, a);
    hide LockKey;
    hide Count;
    hide Step;
    var s' := Step(s, a);
    if Submits(s', p, k) && s'.procs[p].pc.Writing? && Holds(s', p) {
      WriterBefore(s, a, p);
      StepHolders(s, a, p);
      if Adds(s, a, k) {
        assert false;
      }
    }
  }

  lemma StepSighted(s: State, a: Action, k: Number)
    requires OneLock(s, k) && Exclusive(s) && Sighted(s, k)
    requires Enabled(s, a) && Timely(s, a, TTL)
    ensures OneLock(Step(s, a), k) && Sighted(Step(s, a), k)
  {
    OneLockStays(s, a, k);
    hide Step;
    hide LockKey;
    forall p ensures SightedAt(Step(s, a), k, p) {
      if a.Check? && a.p == p {
        CheckerSighted(s, a, k);
      } else {
        OthersSighted(s, a, k, p);
      }
    }
  }

  /** Rows written for the number by writers that did, and did not, miss an earlier one. */
  ghost function Writes(s: State, acts: seq<Action>, k: Number, blind: bool): nat
    requires EnabledRun(s, acts)
    decreases |acts|
  {
    if acts == [] then 0
    else
      (if Adds(s, acts[0], k) && Blind(s.procs[acts[0].p], k) == blind then 1 else 0)
      + Writes(Step(s, acts[0]), acts[1..], k, blind)
  }

  /** Counting theorem: in a timely run at most one row per number is ever
      written by a sighted writer, and only when there was none; every further
      row was written after a failed lookup that hid an existing one. */
  lemma {:induction false} RowsAccountedFor(s: State, acts: seq<Action>, k: Number)
    requires OneLock(s, k) && Exclusive(s) && Sighted(s, k)
    requires EnabledRun(s, acts) && TimelyRun(s, acts, TTL)
    ensures var n, n' := Count(s.rows, k), Count(Run(s, acts).rows, k);
      && n' == n + Writes(s, acts, k, true) + Writes(s, acts, k, false)
      && Writes(s, acts, k, false) <= 1
      && (n > 0 ==> Writes(s, acts, k, false) == 0)
      && (Writes(s, acts, k, true) > 0 ==> n' >= 2)
    ensures Exclusive(Run(s, acts))
    decreases |acts|
  {
    hide LockKey;
    hide Step;
    hide Count;
    if acts != [] {
      var a, s1 := acts[0], Step(s, acts[0]);
      StepExclusive(s, a);
      StepSighted(s, a, k);
      StepRows(s, a, k);
      if Adds(s, a, k) {
        assert SightedAt(s, k, a.p);
      }
      hide Exclusive;
      hide OneLock;
      hide Sighted;
      hide SightedAt;
      RowsAccountedFor(s1, acts[1..], k);
    }
  }

  /** What a failed lookup costs, exactly: from an empty board a timely run leaves
      at most one row for a number if and only if no row was written by a submit
      whose lookup had failed while the number was already there. */
  lemma OneRowIffNoBlindWrite(s: State, acts: seq<Action>, k: Number)
    requires Initial(s) && OneLock(s, k) && EnabledRun(s, acts) && TimelyRun(s, acts, TTL)
    ensures Count(Run(s, acts).rows, k) <= 1 <==> Writes(s, acts, k, true) == 0
  {
    RowsAccountedFor(s, acts, k);
  }

  ghost predicate NoneBlind(s: State) {
    forall p :: 0 <= p < |s.procs| && s.procs[p].pc.Writing? ==> !Listed(s.procs[p].pc.hidden, s.procs[p].phone)
  }

  lemma {:induction false} SeeingRunsAreNotBlind(s: State, acts: seq<Action>, k: Number)
    requires EnabledRun(s, acts) && LookupsSee(s, acts) && NoneBlind(s)
    ensures Writes(s, acts, k, true) == 0
    decreases |acts|
  {
    hide Last10;
    if acts != [] {
      var a := acts[0];
      if Adds(s, a, k) && Blind(s.procs[a.p], k) {
        CountedIsListed(s.procs[a.p].pc.hidden, k, s.procs[a.p].phone);
        assert false;
      }
      SeeingRunsAreNotBlind(Step(s, a), acts[1..], k);
    }
  }

  /** Registration happens once: at most one seeker row per number whose submits
      share a lock, and never two covered holders of one lock, at the end of every
      timely seeing run. */
  lemma RegisteredAtMostOnce(s: State, acts: seq<Action>, k: Number)
    requires Initial(s) && OneLock(s, k)
    requires EnabledRun(s, acts) && TimelyRun(s, acts, TTL) && LookupsSee(s, acts)
    ensures Count(Run(s, acts).rows, k) <= 1
    ensures var t := Run(s, acts); forall p, q ::
      Holds(t, p) && Holds(t, q) && LockKey(t.procs[p]) == LockKey(t.procs[q]) ==> p == q
  {
    SeeingRunsAreNotBlind(s, acts, k);
    RowsAccountedFor(s, acts, k);
  }

  /** For one phone number as it is typed this needs no further condition: at most one
      seeker row for its digits, however many submits and whatever the other numbers. */
  lemma DigitsRegisterOnce(s: State, acts: seq<Action>, d: string)
    requires Initial(s) && d != ""
    requires EnabledRun(s, acts) && TimelyRun(s, acts, TTL) && LookupsSee(s, acts)
    ensures Count(Run(s, acts).rows, AllDigits(d)) <= 1
  {
    SameDigitsShareALock(s, d);
    RegisteredAtMostOnce(s, acts, AllDigits(d));
  }

  // ----- the exact condition -----

  /** This run keeps the promise, if its holders are timely and its lookups see. */
  ghost predicate AtMostOnce(s: State, acts: seq<Action>, k: Number, limit: int) {
    EnabledRun(s, acts) && TimelyRun(s, acts, limit) && LookupsSee(s, acts) ==> Count(Run(s, acts).rows, k) <= 1
  }

  ghost predicate SingleSubmit(s: State, k: Number) {
    forall p, q :: Submits(s, p, k) && Submits(s, q, k) ==> p == q
  }

  /** Registration happens once, exactly: every run whose lookups see and whose
      holders finish within `limit` ticks leaves at most one row for the number if
      and only if there is one submit for it, or all its submits share a lock and
      the limit is within the lock's TTL. (With a limit of zero nobody ever acts.) */
  lemma RegistersOnceIff(s: State, k: Number, limit: int)
    requires Initial(s)
    ensures (forall acts :: AtMostOnce(s, acts, k, limit))
      <==> limit <= 0 || SingleSubmit(s, k) || (OneLock(s, k) && limit <= TTL)
  {
    hide Run;
    if limit <= 0 || SingleSubmit(s, k) || (OneLock(s, k) && limit <= TTL) {
      forall acts ensures AtMostOnce(s, acts, k, limit) {
        if EnabledRun(s, acts) && TimelyRun(s, acts, limit) && LookupsSee(s, acts) {
          if limit <= 0 {
            NobodyActs(s, acts, limit);
          } else if SingleSubmit(s, k) {
            LoneSubmitWritesOnce(s, acts, k);
          } else {
            TighterIsTimely(s, acts, limit);
            RegisteredAtMostOnce(s, acts, k);
          }
        }
      }
    } else {
      var acts;
      if !OneLock(s, k) {
        var p, q :| Submits(s, p, k) && Submits(s, q, k) && LockKey(s.procs[p]) != LockKey(s.procs[q]);
        acts := TwoLocksTwoRows(s, k, p, q, limit);
      } else {
        var p, q :| Submits(s, p, k) && Submits(s, q, k) && p != q;
        acts := LateHolderDuplicates(s, k, p, q, limit);
      }
      assert !AtMostOnce(s, acts, k, limit);
    }
  }

  lemma {:induction false} TighterIsTimely(s: State, acts: seq<Action>, limit: int)
    requires EnabledRun(s, acts) && TimelyRun(s, acts, limit) && limit <= TTL
    ensures TimelyRun(s, acts, TTL)
    decreases |acts|
  {
    if acts != [] {
      hide Step;
      TighterIsTimely(Step(s, acts[0]), acts[1..], limit);
    }
  }

  ghost predicate Waiting(s: State) {
    s.rows == [] && forall p :: 0 <= p < |s.procs| ==>
      s.procs[p].pc.Ready? || s.procs[p].pc.Finished? || (s.procs[p].pc.Checking? && s.procs[p].pc.since <= s.now)
  }

  lemma {:induction false} NobodyActs(s: State, acts: seq<Action>, limit: int)
    requires Waiting(s) && limit <= 0 && EnabledRun(s, acts) && TimelyRun(s, acts, limit)
    ensures Run(s, acts).rows == []
    decreases |acts|
  {
    if acts != [] {
      NobodyActs(Step(s, acts[0]), acts[1..], limit);
    }
  }

  ghost predicate Lone(s: State, k: Number) {
    && SingleSubmit(s, k) && Count(s.rows, k) <= 1
    && forall p :: Submits(s, p, k) && !s.procs[p].pc.Finished? ==> Count(s.rows, k) == 0
  }

  lemma StepLone(s: State, a: Action, k: Number)
    requires Lone(s, k) && Enabled(s, a)
    ensures Lone(Step(s, a), k)
  {
    StepRows(s, a, k);
    StepKeepsSubmits(s, a);
    var s' := Step(s, a);
    assert Adds(s, a, k) ==> Submits(s, a.p, k) && s'.procs[a.p].pc.Finished?;
    hide Step;
    hide LockKey;
    hide Count;
    assert forall p :: Submits(s', p, k) <==> Submits(s, p, k);
  }

  lemma {:induction false} LoneSubmitWritesOnce(s: State, acts: seq<Action>, k: Number)
    requires Lone(s, k) && EnabledRun(s, acts)
    ensures Count(Run(s, acts).rows, k) <= 1
    decreases |acts|
  {
    if acts != [] {
      StepLone(s, acts[0], k);
      hide Step;
      hide Lone;
      LoneSubmitWritesOnce(Step(s, acts[0]), acts[1..], k);
    }
  }

  /** How long until both locks have lapsed. */
  function Wait(s: State, key1: string, key2: string): nat {
    var w1 := if Live(s, key1) then s.locks[key1] - s.now else 0;
    var w2 := if Live(s, key2) then s.locks[key2] - s.now else 0;
    if w1 < w2 then w2 else w1
  }

  lemma Prepend(s: State, a: Action, rest: seq<Action>, limit: int) returns (acts: seq<Action>)
    requires Enabled(s, a) && Timely(s, a, limit)
    requires EnabledRun(Step(s, a), rest) && TimelyRun(Step(s, a), rest, limit)
    ensures EnabledRun(s, acts) && TimelyRun(s, acts, limit)
    ensures acts == [a] + rest && Run(s, acts) == Run(Step(s, a), rest)
    ensures !(a.Check? && a.fails) && LookupsSee(Step(s, a), rest) ==> LookupsSee(s, acts)
  {
    acts := [a] + rest;
    assert acts[1..] == rest;
  }

  /** Two submits past their lookups write two rows. */
  lemma BothWrite(s: State, k: Number, p: nat, q: nat, limit: int) returns (acts: seq<Action>)
    requires p < |s.procs| && q < |s.procs| && p != q && s.rows == []
    requires k.Of(s.procs[p].phone) && k.Of(s.procs[q].phone)
    requires s.procs[p].pc.Writing? && s.procs[q].pc.Writing?
    requires s.now < s.procs[p].pc.since + limit && s.now < s.procs[q].pc.since + limit
    ensures EnabledRun(s, acts) && TimelyRun(s, acts, limit) && LookupsSee(s, acts)
    ensures Count(Run(s, acts).rows, k) == 2
  {
    var s1 := Step(s, Write(p, Success));
    var s2 := Step(s1, Write(q, Success));
    StepRows(s, Write(p, Success), k);
    StepRows(s1, Write(q, Success), k);
    acts := Prepend(s1, Write(q, Success), [], limit);
    acts := Prepend(s, Write(p, Success), acts, limit);
  }

  /** The lock compares all digits but the board only the last ten: two submits of
      one number that take different locks both write, on time and seeing. */
  lemma TwoLocksTwoRows(s: State, k: Number, p: nat, q: nat, limit: int) returns (acts: seq<Action>)
    requires Initial(s) && Submits(s, p, k) && Submits(s, q, k) && limit > 0
    requires LockKey(s.procs[p]) != LockKey(s.procs[q])
    ensures EnabledRun(s, acts) && TimelyRun(s, acts, limit) && LookupsSee(s, acts)
    ensures Count(Run(s, acts).rows, k) == 2
  {
    hide LockKey;
    hide Last10;
    var w := Wait(s, LockKey(s.procs[p]), LockKey(s.procs[q]));
    var s1 := Step(s, Tick(w));
    assert !Live(s1, LockKey(s.procs[p])) && !Live(s1, LockKey(s.procs[q]));
    var s2 := Step(s1, Acquire(p));
    assert s2.procs[p].pc == Checking(s1.now) && s2.procs[q] == s.procs[q] && !Live(s2, LockKey(s.procs[q]));
    var s3 := Step(s2, Acquire(q));
    assert s3.procs[p].pc == Checking(s1.now) == s3.procs[q].pc;
    var s4 := Step(s3, Check(p, false));
    var s5 := Step(s4, Check(q, false));
    acts := BothWrite(s5, k, p, q, limit);
    acts := Prepend(s4, Check(q, false), acts, limit);
    acts := Prepend(s3, Check(p, false), acts, limit);
    acts := Prepend(s2, Acquire(q), acts, limit);
    acts := Prepend(s1, Acquire(p), acts, limit);
    acts := Prepend(s, Tick(w), acts, limit);
  }

  /** A holder allowed to outlive its lock writes beside the next holder. */
  lemma LateHolderDuplicates(s: State, k: Number, p: nat, q: nat, limit: int) returns (acts: seq<Action>)
    requires Initial(s) && Submits(s, p, k) && Submits(s, q, k) && p != q
    requires LockKey(s.procs[p]) == LockKey(s.procs[q]) && limit > TTL
    ensures EnabledRun(s, acts) && TimelyRun(s, acts, limit) && LookupsSee(s, acts)
    ensures Count(Run(s, acts).rows, k) == 2
  {
    hide LockKey;
    hide Last10;
    var key := LockKey(s.procs[p]);
    var w := Wait(s, key, key);
    var s1 := Step(s, Tick(w));
    var s2 := Step(s1, Acquire(p));
    var s3 := Step(s2, Check(p, false));
    assert s3.procs[p].pc == Writing(s1.now, [], 0) && s3.procs[q] == s.procs[q];
    var s4 := Step(s3, Tick(120));
    assert !Live(s4, key);
    var s5 := Step(s4, Acquire(q));
    assert s5.procs[q].pc == Checking(s4.now) && s5.procs[p] == s3.procs[p];
    var s6 := Step(s5, Check(q, false));
    acts := BothWrite(s6, k, p, q, limit);
    acts := Prepend(s5, Check(q, false), acts, limit);
    acts := Prepend(s4, Acquire(q), acts, limit);
    acts := Prepend(s3, Tick(120), acts, limit);
    acts := Prepend(s2, Check(p, false), acts, limit);
    acts := Prepend(s1, Acquire(p), acts, limit);
    acts := Prepend(s, Tick(w), acts, limit);
  }

  // ----- what one submit does -----

  /** What a submit that writes its row leaves behind. */
  function Written(s: State, p: nat): State
    requires p < |s.procs|
  {
    Goto(s.(locks := s.locks[LockKey(s.procs[p]) := s.now + TTL], rows := s.rows + [s.procs[p].phone]), p, Finished)
  }

  /** A free lock is taken for two minutes; while it is held every submit for it ends. */
  lemma LockIsTakenForTwoMinutes(s: State, p: nat)
    requires p < |s.procs| && s.procs[p].pc.Ready?
    ensures var key, s' := LockKey(s.procs[p]), Step(s, Acquire(p));
      if key in s.locks && s.now < s.locks[key] then s' == Goto(s, p, Finished)
      else s' == Goto(s.(locks := s.locks[key := s.now + 120]), p, Checking(s.now))
  {
  }

  /** Submits with digits compete for one lock exactly when their digits are the same. */
  lemma LocksAreByDigits(x: Submit, y: Submit)
    requires Digits(x.phone) != "" && Digits(y.phone) != ""
    ensures LockKey(x) == LockKey(y) <==> Digits(x.phone) == Digits(y.phone)
  {
    var prefix := "onboard_db:";
    assert (prefix + Digits(x.phone))[|prefix|..] == Digits(x.phone);
    assert (prefix + Digits(y.phone))[|prefix|..] == Digits(y.phone);
  }

  /** Without digits they compete by conversation. */
  lemma LocksWithoutDigits(x: Submit, y: Submit)
    requires Digits(x.phone) == "" == Digits(y.phone)
    ensures LockKey(x) == LockKey(y) <==> x.conversation == y.conversation
  {
    var prefix := "onboard_db:";
    assert (prefix + x.conversation)[|prefix|..] == x.conversation;
    assert (prefix + y.conversation)[|prefix|..] == y.conversation;
  }

  /** A submit that gets the lock and whose lookup answers goes on to write exactly when
      no row of the board has its last ten digits, and otherwise ends without a trace on
      the board; one whose lookup fails goes on whatever the board holds. */
  lemma LookupDecides(s: State, p: nat, fails: bool)
    requires p < |s.procs| && s.procs[p].pc.Checking?
    ensures var s', since := Step(s, Check(p, fails)), s.procs[p].pc.since;
      && s'.rows == s.rows && s'.locks == s.locks
      && (s'.procs[p].pc.Writing?
          <==> fails || forall i :: 0 <= i < |s.rows| ==> Last10(s.rows[i]) != Last10(s.procs[p].phone))
      && (s'.procs[p].pc.Writing? ==> s'.procs[p].pc.attempt == 0 && s'.procs[p].pc.since == since)
      && (!s'.procs[p].pc.Writing? ==> s'.procs[p].pc == Finished)
  {
    hide Last10;
    var phone := s.procs[p].phone;
    assert Listed(s.rows, phone) <==> !forall i :: 0 <= i < |s.rows| ==> Last10(s.rows[i]) != Last10(phone) by {
      assert forall i :: 0 <= i < |s.rows| ==> (SameNumber(s.rows[i], phone) <==> Last10(s.rows[i]) == Last10(phone));
    }
  }

  /** An undisturbed submit registers exactly when it should: on any board, with its lock
      free, a lookup that answers and a write that succeeds, it adds its row if and only
      if no row has its last ten digits, and otherwise leaves the board as it was. */
  lemma UndisturbedSubmitWritesIff(s: State, p: nat)
    requires p < |s.procs| && s.procs[p].pc.Ready?
    requires var key := LockKey(s.procs[p]); !(key in s.locks && s.now < s.locks[key])
    ensures var s2 := Step(Step(s, Acquire(p)), Check(p, false));
      && s2.rows == s.rows
      && (Enabled(s2, Write(p, Success))
          <==> forall i :: 0 <= i < |s.rows| ==> Last10(s.rows[i]) != Last10(s.procs[p].phone))
      && (if Enabled(s2, Write(p, Success)) then
            var s3 := Step(s2, Write(p, Success));
            s3.rows == s.rows + [s.procs[p].phone] && s3.procs[p].pc == Finished
          else s2.procs[p].pc == Finished)
  {
    LockIsTakenForTwoMinutes(s, p);
    hide LockKey;
    hide Last10;
    var s1 := Step(s, Acquire(p));
    LookupDecides(s1, p, false);
    assert s1.procs[p].phone == s.procs[p].phone;
    hide Listed;
  }

  // ----- after a write -----

  /** A failed write leaves the lock free: the next submit for it gets in. */
  lemma FailureFreesTheLock(s: State, p: nat, q: nat)
    requires Enabled(s, Release(p)) && q < |s.procs| && p != q
    requires s.procs[q].pc.Ready? && LockKey(s.procs[q]) == LockKey(s.procs[p])
    ensures var s' := Step(s, Release(p));
      && LockKey(s.procs[p]) !in s'.locks && s'.rows == s.rows
      && Enabled(s', Acquire(q)) && Step(s', Acquire(q)).procs[q].pc == Checking(s.now)
  {
  }

  /** Until then the lock stands and nobody is in the section under it. */
  ghost predicate Closed(s: State, key: string, until: int) {
    s.now < until ==>
      && key in s.locks && s.locks[key] == until
      && forall p :: Holds(s, p) ==> LockKey(s.procs[p]) != key
  }

  lemma StepClosed(s: State, a: Action, key: string, until: int)
    requires Closed(s, key, until) && Enabled(s, a) && Timely(s, a, TTL)
    ensures Closed(Step(s, a), key, until)
  {
    StepLocks(s, a);
    var s' := Step(s, a);
    assert s.now <= s'.now && (!a.Tick? ==> s'.now == s.now);
    hide Step;
    hide LockKey;
    if s'.now < until {
      if !a.Tick? {
        StepHolders(s, a, a.p);
      }
      forall p | Holds(s', p) ensures LockKey(s'.procs[p]) != key {
        StepKeepsSubmits(s, a);
        StepHolders(s, a, p);
      }
    }
  }

  lemma {:induction false} StaysClosed(s: State, acts: seq<Action>, key: string, until: int)
    requires Closed(s, key, until) && EnabledRun(s, acts) && TimelyRun(s, acts, TTL)
    ensures Closed(Run(s, acts), key, until)
    decreases |acts|
  {
    hide LockKey;
    if acts != [] {
      StepClosed(s, acts[0], key, until);
      StaysClosed(Step(s, acts[0]), acts[1..], key, until);
    }
  }

  /** A successful write keeps the lock: whatever runs next, until its TTL lapses no
      submit is in the section under it and every one that tries is turned away. */
  lemma SuccessKeepsTheLock(s: State, p: nat, acts: seq<Action>, q: nat)
    requires Exclusive(s) && Enabled(s, Write(p, Success)) && Timely(s, Write(p, Success), TTL)
    requires EnabledRun(Step(s, Write(p, Success)), acts) && TimelyRun(Step(s, Write(p, Success)), acts, TTL)
    ensures var key, t := LockKey(s.procs[p]), Run(Step(s, Write(p, Success)), acts);
      t.now < s.procs[p].pc.since + TTL && q < |t.procs| && LockKey(t.procs[q]) == key ==>
        && !Holds(t, q)
        && (t.procs[q].pc.Ready? ==> Step(t, Acquire(q)) == Goto(t, q, Finished))
  {
    var a, key := Write(p, Success), LockKey(s.procs[p]);
    var s1 := Step(s, a);
    assert s1.procs[p].pc.Finished? && s1.now == s.now && s1.locks == s.locks;
    assert Holds(s, p) && HasLock(s, p);
    hide LockKey;
    hide Step;
    forall r | Holds(s1, r) ensures LockKey(s1.procs[r]) != key {
      StepKeepsSubmits(s, a);
      StepHolders(s, a, r);
    }
    StaysClosed(s1, acts, key, s.procs[p].pc.since + TTL);
    var t := Run(s1, acts);
    if t.now < s.procs[p].pc.since + TTL {
      TurnedAway(t, q, key);
    }
  }

  lemma TurnedAway(t: State, q: nat, key: string)
    requires Live(t, key)
    ensures q < |t.procs| && LockKey(t.procs[q]) == key && t.procs[q].pc.Ready? ==>
      Step(t, Acquire(q)) == Goto(t, q, Finished)
  {
  }

  lemma WritesCons(s: State, a: Action, rest: seq<Action>, k: Number, blind: bool)
    requires Enabled(s, a) && EnabledRun(Step(s, a), rest)
    ensures EnabledRun(s, [a] + rest)
    ensures Writes(s, [a] + rest, k, blind)
      == (if Adds(s, a, k) && Blind(s.procs[a.p], k) == blind then 1 else 0) + Writes(Step(s, a), rest, k, blind)
  {
    assert ([a] + rest)[1..] == rest;
  }

  /** Acquire, look up and write. */
  function Attempt(p: nat, fails: bool): seq<Action> {
    [Acquire(p)] + ([Check(p, fails)] + ([Write(p, Success)] + []))
  }

  lemma WriteNew(s: State, p: nat, rest: seq<Action>, k: Number) returns (acts: seq<Action>)
    requires Submits(s, p, k) && s.procs[p].pc.Ready? && !Live(s, LockKey(s.procs[p]))
    requires !Listed(s.rows, s.procs[p].phone)
    requires EnabledRun(Written(s, p), rest) && TimelyRun(Written(s, p), rest, TTL)
    ensures acts == Attempt(p, false) + rest && EnabledRun(s, acts) && TimelyRun(s, acts, TTL)
    ensures Run(s, acts) == Run(Written(s, p), rest)
    ensures LookupsSee(Written(s, p), rest) ==> LookupsSee(s, acts)
    ensures Writes(s, acts, k, true) == Writes(Written(s, p), rest, k, true)
    ensures Writes(s, acts, k, false) == Writes(Written(s, p), rest, k, false) + 1
  {
    hide LockKey;
    hide Last10;
    var s1 := Step(s, Acquire(p));
    var s2 := Step(s1, Check(p, false));
    assert s2.procs[p] == s.procs[p].(pc := Writing(s.now, [], 0));
    assert Step(s2, Write(p, Success)) == Written(s, p);
    var acts2 := Prepend(s2, Write(p, Success), rest, TTL);
    var acts1 := Prepend(s1, Check(p, false), acts2, TTL);
    acts := Prepend(s, Acquire(p), acts1, TTL);
    hide Listed;
    forall blind ensures Writes(s, acts, k, blind)
      == Writes(Written(s, p), rest, k, blind) + if blind then 0 else 1
    {
      WritesCons(s2, Write(p, Success), rest, k, blind);
      WritesCons(s1, Check(p, false), acts2, k, blind);
      WritesCons(s, Acquire(p), acts1, k, blind);
    }
  }

  /** Numbers do not stand in each other's way: from the start, two submits whose last
      ten digits differ both register, one right after the other, on time and seeing. */
  lemma DifferentNumbersBothRegister(s: State, p: nat, q: nat) returns (acts: seq<Action>)
    requires Initial(s) && s.locks == map[] && p < |s.procs| && q < |s.procs|
    requires Digits(s.procs[p].phone) != "" && Digits(s.procs[q].phone) != ""
    requires Last10(s.procs[p].phone) != Last10(s.procs[q].phone)
    ensures EnabledRun(s, acts) && TimelyRun(s, acts, TTL) && LookupsSee(s, acts)
    ensures Run(s, acts).rows == [s.procs[p].phone, s.procs[q].phone]
  {
    var s1 := Written(s, p);
    LocksAreByDigits(s.procs[p], s.procs[q]);
    var k, m := AllDigits(Digits(s.procs[p].phone)), AllDigits(Digits(s.procs[q].phone));
    hide LockKey;
    assert s1.rows == [s.procs[p].phone] && s1.procs[q] == s.procs[q] && !Live(s1, LockKey(s.procs[q]));
    acts := WriteNew(s1, q, [], m);
    acts := WriteNew(s, p, acts, k);
  }

  /** A submit that gets in and whose lookup fails with its number on the board. */
  lemma WriteBlind(s: State, k: Number, q: nat) returns (acts: seq<Action>)
    requires Submits(s, q, k) && s.procs[q].pc.Ready? && !Live(s, LockKey(s.procs[q])) && Count(s.rows, k) > 0
    ensures acts == Attempt(q, true) && EnabledRun(s, acts) && TimelyRun(s, acts, TTL)
    ensures Count(Run(s, acts).rows, k) == Count(s.rows, k) + 1
    ensures Writes(s, acts, k, true) == 1 && Writes(s, acts, k, false) == 0
  {
    hide LockKey;
    hide Last10;
    var s1 := Step(s, Acquire(q));
    var s2 := Step(s1, Check(q, true));
    assert s2.procs[q] == s.procs[q].(pc := Writing(s.now, s.rows, 0));
    StepRows(s2, Write(q, Success), k);
    var acts2 := Prepend(s2, Write(q, Success), [], TTL);
    var acts1 := Prepend(s1, Check(q, true), acts2, TTL);
    acts := Prepend(s, Acquire(q), acts1, TTL);
    forall blind ensures Writes(s, acts, k, blind) == if blind then 1 else 0 {
      WritesCons(s2, Write(q, Success), [], k, blind);
      WritesCons(s1, Check(q, true), acts2, k, blind);
      WritesCons(s, Acquire(q), acts1, k, blind);
    }
  }

  /** Once a good write's lock has lapsed another submit can take it. */
  lemma LapsedAfterWrite(s: State, k: Number, p: nat, q: nat)
    requires Initial(s) && Submits(s, p, k) && Submits(s, q, k) && p != q
    ensures var s1 := Step(s, Tick(Wait(s, LockKey(s.procs[p]), LockKey(s.procs[q]))));
      var s3 := Step(Written(s1, p), Tick(120));
      && Submits(s1, p, k) && s1.procs[p].pc.Ready? && s1.rows == [] && !Live(s1, LockKey(s1.procs[p]))
      && Submits(s3, q, k) && s3.procs[q].pc.Ready? && !Live(s3, LockKey(s3.procs[q])) && Count(s3.rows, k) == 1
  {
    hide LockKey;
    hide Last10;
    var s1 := Step(s, Tick(Wait(s, LockKey(s.procs[p]), LockKey(s.procs[q]))));
    var s3 := Step(Written(s1, p), Tick(120));
    assert s3.rows == [s.procs[p].phone] && s3.rows[..0] == [] && s3.procs[q] == s.procs[q];
  }

  /** A failed lookup really costs a row: the lock lapses after a good write, the next
      submit gets in, its lookup fails and it writes again, all of it on time. The
      first write was sighted, the second blind. */
  lemma BlindWriteDuplicates(s: State, k: Number, p: nat, q: nat) returns (acts: seq<Action>)
    requires Initial(s) && Submits(s, p, k) && Submits(s, q, k) && p != q
    ensures exists w: nat :: acts == [Tick(w)] + (Attempt(p, false) + ([Tick(120)] + Attempt(q, true)))
    ensures EnabledRun(s, acts) && TimelyRun(s, acts, TTL)
    ensures Count(Run(s, acts).rows, k) == 2
    ensures Writes(s, acts, k, false) == 1 && Writes(s, acts, k, true) == 1
  {
    var w := Wait(s, LockKey(s.procs[p]), LockKey(s.procs[q]));
    var s1 := Step(s, Tick(w));
    var s2 := Written(s1, p);
    var s3 := Step(s2, Tick(120));
    LapsedAfterWrite(s, k, p, q);
    hide LockKey;
    hide Last10;
    hide Step;
    hide Written;
    hide Count;
    var acts3 := WriteBlind(s3, k, q);
    var acts2 := Prepend(s2, Tick(120), acts3, TTL);
    var acts1 := WriteNew(s1, p, acts2, k);
    acts := Prepend(s, Tick(w), acts1, TTL);
    forall blind ensures Writes(s, acts, k, blind) == 1 {
      WritesCons(s2, Tick(120), acts3, k, blind);
      WritesCons(s, Tick(w), acts1, k, blind);
    }
  }

  lemma {:induction false} RunThen(s: State, acts: seq<Action>, a: Action)
    requires EnabledRun(s, acts) && Enabled(Run(s, acts), a)
    ensures EnabledRun(s, acts + [a]) && Run(s, acts + [a]) == Step(Run(s, acts), a)
    decreases |acts|
  {
    if acts == [] {
      assert acts + [a] == [a] && [a][1..] == [];
    } else {
      RunThen(Step(s, acts[0]), acts[1..], a);
      assert (acts + [a])[1..] == acts[1..] + [a];
    }
  }

  // ----- the handler's own code, in place -----

  /** The attempts of one submit, as actions. */
  function Attempts(p: nat, answers: seq<Outcome>): (r: seq<Action>)
    ensures |r| == |answers| && forall i :: 0 <= i < |r| ==> r[i] == Write(p, answers[i])
  {
    seq(|answers|, i requires 0 <= i < |answers| => Write(p, answers[i]))
  }

  /** One of the first three attempts succeeds, after saturated ones only. */
  predicate Lands(answers: seq<Outcome>)
    requires |answers| >= 3
  {
    || answers[0] == Success
    || (answers[0] == TooManyClients
        && (answers[1] == Success || (answers[1] == TooManyClients && answers[2] == Success)))
  }

  /** Redis and the board. `procs` says where each request is; `p` is the one running. */
  class Server {
    var now: int
    var locks: map<string, int>
    var rows: seq<string>
    ghost var procs: seq<Submit>

    constructor (ghost procs: seq<Submit>)
      requires forall p :: 0 <= p < |procs| ==> procs[p].pc.Ready?
      ensures Initial(View()) && locks == map[] && this.procs == procs
    {
      now, locks, rows := 0, map[], [];
      this.procs := procs;
    }

    ghost function View(): State
      reads this
    {
      State(now, locks, rows, procs)
    }

    ghost predicate At(p: nat, phone: string, conversation: string)
      reads this
    {
      p < |procs| && procs[p].phone == phone && procs[p].conversation == conversation
    }

    /** `SET seen:key 1 NX EX ttl`: the Acquire step. */
    method MarkSeen(key: string, ttl: int, ghost p: nat) returns (first: bool)
      requires p < |procs| && procs[p].pc.Ready? && LockKey(procs[p]) == key && ttl == TTL
      modifies this
      ensures View() == Step(old(View()), Acquire(p))
      ensures procs == old(procs)[p := old(procs)[p].(pc := if first then Checking(now) else Finished)]
      ensures first <==> !(key in old(locks) && now < old(locks)[key])
      ensures rows == old(rows) && now == old(now)
      ensures locks == if first then old(locks)[key := now + 120] else old(locks)
    {
      first := !(key in locks && now < locks[key]);
      if first {
        locks := locks[key := now + ttl];
      }
      procs := procs[p := procs[p].(pc := if first then Checking(now) else Finished)];
    }

    /** `CandidateRepository.get` with its exception swallowed: the Check step. */
    method FindSeeker(phone: string, fails: bool, ghost p: nat) returns (found: bool)
      requires p < |procs| && procs[p].pc.Checking? && procs[p].phone == phone
      modifies this
      ensures View() == Step(old(View()), Check(p, fails))
      ensures if found then procs[p].pc.Finished? else procs[p].pc.Writing? && procs[p].pc.attempt == 0
      ensures |procs| == old(|procs|) && LockKey(procs[p]) == LockKey(old(procs)[p]) && procs[p].phone == phone
      ensures rows == old(rows) && now == old(now) && locks == old(locks)
      ensures found <==> !fails && exists i :: 0 <= i < |rows| && Last10(rows[i]) == Last10(phone)
    {
      found := !fails && Listed(rows, phone);
      assert forall i :: 0 <= i < |rows| ==> (SameNumber(rows[i], phone) <==> Last10(rows[i]) == Last10(phone));
      ghost var x := procs[p];
      procs := procs[p := x.(pc := if found then Finished else Writing(x.pc.since, if fails then rows else [], 0))];
    }

    /** `JobSeekerRepository.create`: one Write step. */
    method Create(phone: string, outcome: Outcome, ghost p: nat) returns (ok: bool)
      requires p < |procs| && procs[p].pc.Writing? && procs[p].phone == phone
      modifies this
      ensures View() == Step(old(View()), Write(p, outcome))
      ensures ok <==> outcome == Success
    {
      ok := outcome == Success;
      if ok {
        rows := rows + [phone];
      }
      ghost var x := procs[p];
      procs := procs[p := x.(pc :=
        if ok then Finished
        else if outcome == TooManyClients && x.pc.attempt + 1 < TRIES then x.pc.(attempt := x.pc.attempt + 1)
        else Releasing(x.pc.since))];
    }

    /** `_register_with_retry`: `answers[k]` is what the k-th attempt meets. It is a
        run of Write steps that ends with the row written or with the lock to be
        released, and stops at the first answer that is not a saturated cluster. */
    method RegisterWithRetry(phone: string, answers: seq<Outcome>, ghost p: nat) returns (ok: bool, used: nat)
      requires |answers| >= TRIES
      requires p < |procs| && procs[p].pc.Writing? && procs[p].pc.attempt == 0 && procs[p].phone == phone
      modifies this
      ensures 1 <= used <= 3
      ensures EnabledRun(old(View()), Attempts(p, answers[..used]))
      ensures View() == Run(old(View()), Attempts(p, answers[..used]))
      ensures |procs| == old(|procs|) && LockKey(procs[p]) == LockKey(old(procs)[p])
      ensures if ok then procs[p].pc.Finished? else procs[p].pc.Releasing?
      ensures rows == if ok then old(rows) + [phone] else old(rows)
      ensures now == old(now) && locks == old(locks) && (ok <==> Lands(answers))
      ensures forall k :: 0 <= k < used - 1 ==> answers[k] == TooManyClients
      ensures answers[used - 1] == TooManyClients ==> used == 3
      ensures ok <==> answers[used - 1] == Success
    {
      used := 0;
      while true
        invariant used < TRIES && rows == old(rows) && now == old(now) && locks == old(locks)
        invariant |procs| == old(|procs|) && procs[p].phone == phone && LockKey(procs[p]) == LockKey(old(procs)[p])
        invariant procs[p].pc.Writing? && procs[p].pc.attempt == used
        invariant EnabledRun(old(View()), Attempts(p, answers[..used]))
        invariant View() == Run(old(View()), Attempts(p, answers[..used]))
        invariant forall k :: 0 <= k < used ==> answers[k] == TooManyClients
        decreases TRIES - used
      {
        RunThen(old(View()), Attempts(p, answers[..used]), Write(p, answers[used]));
        assert Attempts(p, answers[..used + 1]) == Attempts(p, answers[..used]) + [Write(p, answers[used])];
        ok := Create(phone, answers[used], p);
        used := used + 1;
        if ok || answers[used - 1] == OtherError || used == TRIES {
          return;
        }
      }
    }

    /** `DEL seen:key`: the Release step. */
    method ClearSeen(key: string, ghost p: nat)
      requires p < |procs| && procs[p].pc.Releasing? && LockKey(procs[p]) == key
      modifies this
      ensures View() == Step(old(View()), Release(p))
      ensures rows == old(rows) && now == old(now) && locks == old(locks) - {key} && |procs| == old(|procs|)
      ensures procs[p].pc == Finished
    {
      locks := locks - {key};
      procs := procs[p := procs[p].(pc := Finished)];
    }

    /** What a holder does: look up, write unless the number is listed, release on failure. */
    method HolderSection(key: string, phone: string, fails: bool, answers: seq<Outcome>, ghost p: nat)
      returns (ghost acts: seq<Action>)
      requires |answers| >= TRIES
      requires p < |procs| && procs[p].pc.Checking? && procs[p].phone == phone && LockKey(procs[p]) == key
      modifies this
      ensures EnabledRun(old(View()), acts) && View() == Run(old(View()), acts)
      ensures p < |procs| && procs[p].pc == Finished && now == old(now)
      ensures var listed := exists i :: 0 <= i < |old(rows)| && Last10(old(rows)[i]) == Last10(phone);
        && rows == (if (fails || !listed) && Lands(answers) then old(rows) + [phone] else old(rows))
        && locks == if (fails || !listed) && !Lands(answers) then old(locks) - {key} else old(locks)
    {
      hide SameNumber;
      hide Last10;
      hide Step;
      hide LockKey;
      acts := [];
      assert EnabledRun(View(), acts) && Run(View(), acts) == View();
      hide Run;
      hide EnabledRun;
      RunThen(View(), acts, Check(p, fails));
      acts := acts + [Check(p, fails)];
      var found := FindSeeker(phone, fails, p);
      if found {
        return;
      }
      var ok, used := RegisterWithRetry(phone, answers, p);
      RunConcat(old(View()), acts, Attempts(p, answers[..used]));
      acts := acts + Attempts(p, answers[..used]);
      if !ok {
        RunThen(old(View()), acts, Release(p));
        acts := acts + [Release(p)];
        ClearSeen(key, p);
      }
    }

    /** The whole write section of one submit that nobody interrupts: a run of the
        protocol that brings it to its end, and what it leaves on the board and on its
        lock. */
    method WriteSection(phone: string, conversation: string, fails: bool, answers: seq<Outcome>, ghost p: nat)
      returns (ghost acts: seq<Action>)
      requires |answers| >= TRIES
      requires At(p, phone, conversation) && procs[p].pc.Ready?
      modifies this
      ensures EnabledRun(old(View()), acts) && View() == Run(old(View()), acts)
      ensures p < |procs| && procs[p].pc == Finished
      ensures var key := "onboard_db:" + if Digits(phone) != "" then Digits(phone) else conversation;
        var entered := !(key in old(locks) && now < old(locks)[key]);
        var listed := exists i :: 0 <= i < |old(rows)| && Last10(old(rows)[i]) == Last10(phone);
        && rows == (if entered && (fails || !listed) && Lands(answers) then old(rows) + [phone] else old(rows))
        && locks == if !entered then old(locks)
                    else if (fails || !listed) && !Lands(answers) then old(locks) - {key}
                    else old(locks)[key := now + 120]
    {
      hide Last10;
      hide Step;
      var digits := Digits(phone);
      var key := "onboard_db:" + if digits != "" then digits else conversation;
      acts := [];
      assert EnabledRun(View(), acts) && Run(View(), acts) == View();
      RunThen(View(), acts, Acquire(p));
      hide Run;
      hide EnabledRun;
      acts := acts + [Acquire(p)];
      var first := MarkSeen(key, TTL, p);
      if first {
        ghost var more := HolderSection(key, phone, fails, answers, p);
        RunConcat(old(View()), acts, more);
        acts := acts + more;
      }
    }
  }

  lemma {:induction false} RunConcat(s: State, acts: seq<Action>, more: seq<Action>)
    requires EnabledRun(s, acts) && EnabledRun(Run(s, acts), more)
    ensures EnabledRun(s, acts + more) && Run(s, acts + more) == Run(Run(s, acts), more)
    decreases |acts|
  {
    if acts == [] {
      assert acts + more == more;
    } else {
      RunConcat(Step(s, acts[0]), acts[1..], more);
      assert (acts + more)[1..] == acts[1..] + more;
    }
  }
}
