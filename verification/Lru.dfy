/** The translation cache: an ordered dictionary used as an LRU cache. */
module Lru {
  import opened Options
  import opened PyText

  /** A text and its target language. */
  type Key = (string, string)

  type Entries = seq<(Key, string)>

  function Find(es: Entries, k: Key): (i: int)
    ensures -1 <= i < |es|
    ensures i >= 0 ==> es[i].0 == k
    ensures i < 0 ==> forall j :: 0 <= j < |es| ==> es[j].0 != k
  {
    if es == [] then -1
    else if es[|es| - 1].0 == k then |es| - 1
    else Find(es[..|es| - 1], k)
  }

  predicate Distinct(es: Entries) {
    forall i, j :: 0 <= i < j < |es| ==> es[i].0 != es[j].0
  }

  function Without(es: Entries, k: Key): Entries {
    var i := Find(es, k);
    if i < 0 then es else es[..i] + es[i + 1..]
  }

  /** `_cache_get`: a hit becomes the newest entry. */
  function Get(es: Entries, k: Key): (Entries, Option<string>) {
    var i := Find(es, k);
    if i < 0 then (es, None) else (Without(es, k) + [es[i]], Some(es[i].1))
  }

  /** `_cache_put`: the entry becomes the newest, the oldest are evicted. */
  function Put(cap: nat, es: Entries, k: Key, v: string): Entries {
    LastN(cap, Without(es, k) + [(k, v)])
  }

  class Cache {
    const cap: nat
    var entries: Entries

    ghost predicate Valid()
      reads this
    {
      Distinct(entries) && |entries| <= cap
    }

    constructor (cap: nat)
      ensures Valid() && entries == [] && this.cap == cap
    {
      this.cap := cap;
      entries := [];
    }

    method CacheGet(k: Key) returns (v: Option<string>)
      requires Valid()
      modifies this
      ensures Valid() && (entries, v) == Get(old(entries), k)
    {
      v := None;
      var i := Find(entries, k);
      if i >= 0 {
        v := Some(entries[i].1);
        MoveKeepsDistinct(entries, k, entries[i].1);
        entries := entries[..i] + entries[i + 1..] + [entries[i]];
      }
    }

    method CachePut(k: Key, v: string)
      requires Valid()
      modifies this
      ensures Valid() && entries == Put(cap, old(entries), k, v)
    {
      MoveKeepsDistinct(entries, k, v);
      entries := Without(entries, k) + [(k, v)];
      ghost var full := entries;
      hide Without;
      hide Find;
      while |entries| > cap
        invariant |entries| <= |full|
        invariant entries == full[|full| - |entries|..]
        invariant |entries| >= cap || entries == full
        decreases |entries|
      {
        entries := entries[1..];
      }
    }
  }

  lemma MoveKeepsDistinct(es: Entries, k: Key, v: string)
    requires Distinct(es)
    ensures Distinct(Without(es, k) + [(k, v)])
    ensures |Without(es, k)| <= |es|
    ensures forall i :: 0 <= i < |Without(es, k)| ==> Without(es, k)[i].0 != k
  {
  }

  // ----- whole histories -----

  datatype Op = GetOp(key: Key) | PutOp(key: Key, val: string)

  function Step(cap: nat, es: Entries, op: Op): Entries {
    match op
    case GetOp(k) => Get(es, k).0
    case PutOp(k, v) => Put(cap, es, k, v)
  }

  function Run(cap: nat, ops: seq<Op>): Entries {
    if ops == [] then [] else Step(cap, Run(cap, ops[..|ops| - 1]), ops[|ops| - 1])
  }

  lemma {:induction false} RunValid(cap: nat, ops: seq<Op>)
    ensures Distinct(Run(cap, ops)) && |Run(cap, ops)| <= cap
  {
    if ops != [] {
      var es, op := Run(cap, ops[..|ops| - 1]), ops[|ops| - 1];
      RunValid(cap, ops[..|ops| - 1]);
      if op.PutOp? {
        MoveKeepsDistinct(es, op.key, op.val);
      } else if Find(es, op.key) >= 0 {
        MoveKeepsDistinct(es, op.key, es[Find(es, op.key)].1);
      }
    }
  }

  /** The keys touched by a history, in order: every put, and every get that hits. */
  function Touches(cap: nat, ops: seq<Op>): seq<Key> {
    if ops == [] then []
    else
      var init, op := ops[..|ops| - 1], ops[|ops| - 1];
      Touches(cap, init) + if op.PutOp? || Find(Run(cap, init), op.key) >= 0 then [op.key] else []
  }

  /** When a key was last touched: an index into the log, or -1. */
  function LastTouch(log: seq<Key>, k: Key): (i: int)
    ensures -1 <= i < |log|
    ensures i >= 0 ==> log[i] == k
    ensures forall j :: i < j < |log| ==> log[j] != k
  {
    if log == [] then -1
    else if log[|log| - 1] == k then |log| - 1
    else LastTouch(log[..|log| - 1], k)
  }

  /** The keys touched after `k` was last touched. */
  ghost function TouchedSince(log: seq<Key>, k: Key): set<Key> {
    set i | LastTouch(log, k) < i < |log| :: log[i]
  }

  /** The value of the last put of `k`. */
  function LastPut(ops: seq<Op>, k: Key): Option<string> {
    if ops == [] then None
    else
      var op := ops[|ops| - 1];
      if op.PutOp? && op.key == k then Some(op.val) else LastPut(ops[..|ops| - 1], k)
  }

  // Recency: the distinct keys of a log, oldest touch first.

  function DropKey(r: seq<Key>, k: Key): seq<Key> {
    if r == [] then []
    else if r[|r| - 1] == k then DropKey(r[..|r| - 1], k)
    else DropKey(r[..|r| - 1], k) + [r[|r| - 1]]
  }

  lemma {:induction false} DropKeyMember(r: seq<Key>, k: Key, x: Key)
    ensures x in DropKey(r, k) <==> x in r && x != k
  {
    if r != [] {
      var n := |r| - 1;
      DropKeyMember(r[..n], k, x);
      assert r == r[..n] + [r[n]];
    }
  }

  lemma {:induction false} DropKeyAbsent(r: seq<Key>, k: Key)
    requires k !in r
    ensures DropKey(r, k) == r
  {
    if r != [] {
      var n := |r| - 1;
      DropKeyAbsent(r[..n], k);
      assert r == r[..n] + [r[n]];
    }
  }

  function Recency(log: seq<Key>): seq<Key> {
    if log == [] then []
    else DropKey(Recency(log[..|log| - 1]), log[|log| - 1]) + [log[|log| - 1]]
  }

  predicate ByRecency(log: seq<Key>, r: seq<Key>) {
    && (forall i :: 0 <= i < |r| ==> LastTouch(log, r[i]) >= 0)
    && (forall i, j :: 0 <= i < j < |r| ==> LastTouch(log, r[i]) < LastTouch(log, r[j]))
  }

  lemma {:induction false} DropKeepsOrder(log: seq<Key>, r: seq<Key>, k: Key)
    requires ByRecency(log, r)
    ensures ByRecency(log, DropKey(r, k))
  {
    if r != [] {
      var n := |r| - 1;
      DropKeepsOrder(log, r[..n], k);
      var q := DropKey(r[..n], k);
      forall i | 0 <= i < |q| ensures LastTouch(log, q[i]) < LastTouch(log, r[n]) {
        assert q[i] in q;
        DropKeyMember(r[..n], k, q[i]);
        var j :| 0 <= j < n && r[..n][j] == q[i];
        assert r[j] == q[i];
      }
    }
  }

  lemma LastTouchAppend(log: seq<Key>, k: Key, x: Key)
    ensures LastTouch(log + [k], x) == if x == k then |log| else LastTouch(log, x)
  {
    assert (log + [k])[..|log|] == log;
  }

  lemma RecencyAppend(log: seq<Key>, k: Key)
    ensures Recency(log + [k]) == DropKey(Recency(log), k) + [k]
  {
    assert (log + [k])[..|log|] == log;
  }

  lemma {:induction false} RecencyMember(log: seq<Key>, x: Key)
    ensures x in Recency(log) <==> x in log
  {
    if log != [] {
      var n := |log| - 1;
      RecencyMember(log[..n], x);
      DropKeyMember(Recency(log[..n]), log[n], x);
      assert log == log[..n] + [log[n]];
    }
  }

  lemma AppendKeepsOrder(log: seq<Key>, q: seq<Key>, k: Key)
    requires ByRecency(log, q) && k !in q
    ensures ByRecency(log + [k], q + [k])
  {
    var all, r := log + [k], q + [k];
    forall i | 0 <= i < |q| ensures LastTouch(all, q[i]) == LastTouch(log, q[i]) {
      LastTouchAppend(log, k, q[i]);
    }
    LastTouchAppend(log, k, k);
    hide LastTouch;
    assert forall i :: 0 <= i < |q| ==> r[i] == q[i];
  }

  lemma {:induction false} RecencyIsOrdered(log: seq<Key>)
    ensures ByRecency(log, Recency(log))
  {
    if log != [] {
      var n := |log| - 1;
      var init, k := log[..n], log[n];
      RecencyIsOrdered(init);
      DropKeepsOrder(init, Recency(init), k);
      DropKeyMember(Recency(init), k, k);
      AppendKeepsOrder(init, DropKey(Recency(init), k), k);
      assert log == init + [k];
    }
  }

  lemma {:induction false} SetOfDistinct(r: seq<Key>)
    requires forall i, j :: 0 <= i < j < |r| ==> r[i] != r[j]
    ensures |set k | k in r| == |r|
  {
    if r == [] {
      assert (set k | k in r) == {};
    } else {
      var n := |r| - 1;
      SetOfDistinct(r[..n]);
      assert (set k | k in r) == (set k | k in r[..n]) + {r[n]};
      assert r[n] !in (set k | k in r[..n]);
    }
  }

  lemma LaterIsSince(log: seq<Key>, i: nat, k: Key)
    requires i < |Recency(log)|
    ensures k in TouchedSince(log, Recency(log)[i]) <==> k in Recency(log)[i + 1..]
  {
    var r := Recency(log);
    hide Recency;
    var later := r[i + 1..];
    assert ByRecency(log, r) by { RecencyIsOrdered(log); }
    if k in TouchedSince(log, r[i]) {
      var x :| LastTouch(log, r[i]) < x < |log| && log[x] == k;
      RecencyMember(log, k);
      var j :| 0 <= j < |r| && r[j] == k;
      assert LastTouch(log, k) >= x;
      assert j > i;
      assert later[j - i - 1] == k;
    }
    if k in later {
      var j :| 0 <= j < |later| && later[j] == k;
      assert r[i + 1 + j] == k;
      assert log[LastTouch(log, k)] == k;
    }
  }

  /** The keys touched since the i-th of the recency list are exactly those after it. */
  lemma SinceIsSuffix(log: seq<Key>, i: nat)
    requires i < |Recency(log)|
    ensures |TouchedSince(log, Recency(log)[i])| == |Recency(log)| - 1 - i
  {
    var r := Recency(log);
    var later := r[i + 1..];
    RecencyDistinct(log);
    SetOfDistinct(later);
    forall k ensures k in TouchedSince(log, r[i]) <==> k in later {
      LaterIsSince(log, i, k);
    }
    assert TouchedSince(log, r[i]) == (set k | k in later);
  }

  function Keys(es: Entries): (r: seq<Key>)
    ensures |r| == |es| && forall i :: 0 <= i < |es| ==> r[i] == es[i].0
  {
    seq(|es|, i requires 0 <= i < |es| => es[i].0)
  }

  predicate DistinctKeys(r: seq<Key>) {
    forall i, j :: 0 <= i < j < |r| ==> r[i] != r[j]
  }

  lemma {:induction false} DropKeyAt(r: seq<Key>, i: nat)
    requires i < |r| && DistinctKeys(r)
    ensures DropKey(r, r[i]) == r[..i] + r[i + 1..]
  {
    var n := |r| - 1;
    if i == n {
      assert r[..n] + r[n + 1..] == r[..n];
      DropKeyAbsent(r[..n], r[n]);
    } else {
      DropKeyAt(r[..n], i);
      assert r[..n][..i] == r[..i];
      assert r[..i] + r[i + 1..] == (r[..n][..i] + r[..n][i + 1..]) + [r[n]];
    }
  }

  lemma KeysWithout(es: Entries, k: Key)
    requires Distinct(es)
    ensures Keys(Without(es, k)) == DropKey(Keys(es), k)
  {
    var i := Find(es, k);
    if i >= 0 {
      DropKeyAt(Keys(es), i);
    } else {
      DropKeyAbsent(Keys(es), k);
    }
  }

  lemma TouchInside(n: nat, r: seq<Key>, i: nat)
    requires |r| - n <= i < |r| && n < |r|
    ensures var w, off := r[|r| - n..], |r| - n;
      LastN(n, w[..i - off] + w[i - off + 1..] + [r[i]]) == LastN(n, r[..i] + r[i + 1..] + [r[i]])
  {
    var w, off := r[|r| - n..], |r| - n;
    var short, long := w[..i - off] + w[i - off + 1..] + [r[i]], r[..i] + r[i + 1..] + [r[i]];
    assert |short| == n && |long| == |r|;
    assert w[..i - off] == r[off..i] && w[i - off + 1..] == r[i + 1..];
    assert r[..i] == r[..off] + r[off..i];
    assert long == r[..off] + short;
  }

  lemma TouchOutside(n: nat, r: seq<Key>, q: seq<Key>, k: Key)
    requires n <= |q| && n < |r| && q[|q| - n..] == r[|r| - n..]
    ensures LastN(n, r[|r| - n..] + [k]) == LastN(n, q + [k])
  {
  }

  lemma NewestHit(n: nat, r: seq<Key>, i: nat)
    requires DistinctKeys(r) && n < |r| && |r| - n <= i < |r|
    ensures LastN(n, DropKey(r[|r| - n..], r[i]) + [r[i]]) == LastN(n, DropKey(r, r[i]) + [r[i]])
  {
    DropKeyAt(r, i);
    DropKeyAt(r[|r| - n..], i - (|r| - n));
    TouchInside(n, r, i);
  }

  lemma AbsentFromTail(n: nat, r: seq<Key>, i: nat)
    requires DistinctKeys(r) && i < |r| - n
    ensures r[i] !in r[|r| - n..]
  {
  }

  lemma NewestMiss(n: nat, r: seq<Key>, i: nat)
    requires DistinctKeys(r) && i < |r| - n
    ensures LastN(n, DropKey(r[|r| - n..], r[i]) + [r[i]]) == LastN(n, DropKey(r, r[i]) + [r[i]])
  {
    var w, k, q := r[|r| - n..], r[i], r[..i] + r[i + 1..];
    assert DropKey(w, k) == w by {
      AbsentFromTail(n, r, i);
      DropKeyAbsent(w, k);
    }
    assert DropKey(r, k) == q by {
      DropKeyAt(r, i);
    }
    assert LastN(n, w + [k]) == LastN(n, q + [k]) by {
      DropBefore(n, r, i);
      TouchOutside(n, r, q, k);
    }
  }

  lemma NewestNew(n: nat, r: seq<Key>, k: Key)
    requires n < |r| && k !in r
    ensures LastN(n, DropKey(r[|r| - n..], k) + [k]) == LastN(n, DropKey(r, k) + [k])
  {
    DropKeyAbsent(r[|r| - n..], k);
    DropKeyAbsent(r, k);
    TouchOutside(n, r, r, k);
  }

  lemma DropBefore(n: nat, r: seq<Key>, i: nat)
    requires i < |r| - n
    ensures var q := r[..i] + r[i + 1..]; n <= |q| && q[|q| - n..] == r[|r| - n..]
  {
  }

  /** Touching a key in the newest part, or bringing one back, is the same as
      touching it in the full recency list and keeping the newest part. */
  lemma NewestAfterTouch(n: nat, r: seq<Key>, k: Key)
    requires DistinctKeys(r)
    ensures LastN(n, DropKey(LastN(n, r), k) + [k]) == LastN(n, DropKey(r, k) + [k])
  {
    if |r| > n {
      if k in r {
        var i :| 0 <= i < |r| && r[i] == k;
        if i < |r| - n {
          NewestMiss(n, r, i);
        } else {
          NewestHit(n, r, i);
        }
      } else {
        NewestNew(n, r, k);
      }
    }
  }

  lemma RecencyDistinct(log: seq<Key>)
    ensures DistinctKeys(Recency(log))
  {
    RecencyIsOrdered(log);
  }

  lemma KeysMoved(es: Entries, k: Key, v: string)
    requires Distinct(es)
    ensures Keys(Without(es, k) + [(k, v)]) == DropKey(Keys(es), k) + [k]
  {
    KeysWithout(es, k);
  }

  /** One touch keeps the cached keys the newest part of the recency list. */
  lemma TouchKeepsNewest(cap: nat, es: Entries, log: seq<Key>, k: Key, v: string)
    requires Distinct(es) && Keys(es) == LastN(cap, Recency(log))
    ensures Keys(LastN(cap, Without(es, k) + [(k, v)])) == LastN(cap, Recency(log + [k]))
    ensures Find(es, k) >= 0 ==> |Without(es, k) + [(k, v)]| == |es|
  {
    RecencyDistinct(log);
    RecencyAppend(log, k);
    NewestAfterTouch(cap, Recency(log), k);
    KeysMoved(es, k, v);
    KeysOfNewest(cap, Without(es, k) + [(k, v)]);
  }

  /** The cached keys are the newest part of the recency list of all touches. */
  lemma {:induction false} CacheIsNewest(cap: nat, ops: seq<Op>)
    ensures Keys(Run(cap, ops)) == LastN(cap, Recency(Touches(cap, ops)))
  {
    if ops != [] {
      var init, op := ops[..|ops| - 1], ops[|ops| - 1];
      var es, log := Run(cap, init), Touches(cap, init);
      CacheIsNewest(cap, init);
      RunValid(cap, init);
      var i := Find(es, op.key);
      if op.PutOp? {
        TouchKeepsNewest(cap, es, log, op.key, op.val);
      } else if i >= 0 {
        TouchKeepsNewest(cap, es, log, op.key, es[i].1);
        assert es[i] == (op.key, es[i].1);
      } else {
        assert Touches(cap, ops) == log;
      }
    }
  }

  lemma KeysOfNewest(n: nat, es: Entries)
    ensures Keys(LastN(n, es)) == LastN(n, Keys(es))
  {
  }

  /** Every entry after a step is the one just put, or was there before under a key not put. */
  lemma StepEntry(cap: nat, es: Entries, op: Op, i: nat)
    requires Distinct(es) && i < |Step(cap, es, op)|
    ensures var e := Step(cap, es, op)[i];
      (op.PutOp? && e == (op.key, op.val)) || (e in es && (op.PutOp? ==> e.0 != op.key))
  {
    MoveKeepsDistinct(es, op.key, "");
    assert forall j :: 0 <= j < |Without(es, op.key)| ==> Without(es, op.key)[j] in es;
  }

  lemma {:induction false} ValuesAreLastPuts(cap: nat, ops: seq<Op>)
    ensures forall i :: 0 <= i < |Run(cap, ops)| ==> LastPut(ops, Run(cap, ops)[i].0) == Some(Run(cap, ops)[i].1)
  {
    if ops != [] {
      var n := |ops| - 1;
      var es := Run(cap, ops[..n]);
      ValuesAreLastPuts(cap, ops[..n]);
      RunValid(cap, ops[..n]);
      forall i | 0 <= i < |Run(cap, ops)| ensures LastPut(ops, Run(cap, ops)[i].0) == Some(Run(cap, ops)[i].1) {
        var e := Step(cap, es, ops[n])[i];
        StepEntry(cap, es, ops[n], i);
        if e in es && (ops[n].PutOp? ==> e.0 != ops[n].key) {
          var j :| 0 <= j < |es| && es[j] == e;
          assert LastPut(ops[..n], es[j].0) == Some(es[j].1);
        }
      }
    }
  }

  lemma KeyAt(cap: nat, es: Entries, log: seq<Key>, i: nat)
    requires Keys(es) == LastN(cap, Recency(log)) && i < |es|
    ensures |es| <= |Recency(log)| && es[i].0 == Recency(log)[|Recency(log)| - |es| + i]
  {
    assert Keys(es)[i] == es[i].0;
  }

  lemma CachedIsRecent(cap: nat, es: Entries, log: seq<Key>, i: nat)
    requires Keys(es) == LastN(cap, Recency(log)) && i < |es|
    ensures es[i].0 in log && |TouchedSince(log, es[i].0)| < cap
  {
    var j := |Recency(log)| - |es| + i;
    assert |Keys(es)| == |es|;
    KeyAt(cap, es, log, i);
    RecencyMember(log, Recency(log)[j]);
    SinceIsSuffix(log, j);
  }

  lemma RecentIsCached(cap: nat, es: Entries, log: seq<Key>, j: nat)
    requires Keys(es) == LastN(cap, Recency(log))
    requires j < |Recency(log)| && |TouchedSince(log, Recency(log)[j])| < cap
    ensures Find(es, Recency(log)[j]) >= 0
  {
    assert |Keys(es)| == |es|;
    SinceIsSuffix(log, j);
    KeyAt(cap, es, log, j - (|Recency(log)| - |es|));
  }

  lemma CachedIff(cap: nat, es: Entries, log: seq<Key>, k: Key)
    requires Keys(es) == LastN(cap, Recency(log))
    ensures Find(es, k) >= 0 <==> k in log && |TouchedSince(log, k)| < cap
  {
    if Find(es, k) >= 0 {
      CachedIsRecent(cap, es, log, Find(es, k));
    } else if k in log && |TouchedSince(log, k)| < cap {
      RecencyMember(log, k);
      var j :| 0 <= j < |Recency(log)| && Recency(log)[j] == k;
      RecentIsCached(cap, es, log, j);
    }
  }

  lemma InTouchOrder(cap: nat, es: Entries, log: seq<Key>, i: nat, j: nat)
    requires Keys(es) == LastN(cap, Recency(log)) && i < j < |es|
    ensures LastTouch(log, es[i].0) < LastTouch(log, es[j].0)
  {
    RecencyIsOrdered(log);
    KeyAt(cap, es, log, i);
    KeyAt(cap, es, log, j);
  }

  /** LRU refinement: after any history a key is cached exactly when it was ever
      touched and fewer than `cap` distinct keys were touched since; the entries
      stand in order of last touch; each holds the value of its key's last put. */
  lemma CacheIsMostRecentlyTouched(cap: nat, ops: seq<Op>)
    ensures var es, log := Run(cap, ops), Touches(cap, ops);
      && (forall k :: Find(es, k) >= 0 <==> k in log && |TouchedSince(log, k)| < cap)
      && (forall i, j :: 0 <= i < j < |es| ==> LastTouch(log, es[i].0) < LastTouch(log, es[j].0))
      && (forall i :: 0 <= i < |es| ==> LastPut(ops, es[i].0) == Some(es[i].1))
  {
    var es, log := Run(cap, ops), Touches(cap, ops);
    CacheIsNewest(cap, ops);
    ValuesAreLastPuts(cap, ops);
    forall i, j | 0 <= i < j < |es| ensures LastTouch(log, es[i].0) < LastTouch(log, es[j].0) {
      InTouchOrder(cap, es, log, i, j);
    }
    forall k ensures Find(es, k) >= 0 <==> k in log && |TouchedSince(log, k)| < cap {
      CachedIff(cap, es, log, k);
    }
  }

  // ----- a larger cache contains a smaller one -----

  /** `s` is a subsequence of `l`. */
  predicate Sub<T(==)>(s: seq<T>, l: seq<T>) {
    if s == [] then true
    else if l == [] then false
    else if s[|s| - 1] == l[|l| - 1] then Sub(s[..|s| - 1], l[..|l| - 1])
    else Sub(s, l[..|l| - 1])
  }

  lemma SubAppend<T>(s: seq<T>, l: seq<T>, e: T)
    requires Sub(s, l)
    ensures Sub(s + [e], l + [e])
  {
    assert (s + [e])[..|s|] == s && (l + [e])[..|l|] == l;
  }

  lemma {:induction false} SubShorter<T>(s: seq<T>, l: seq<T>)
    requires Sub(s, l) && s != []
    ensures Sub(s[..|s| - 1], l) && |s| <= |l|
    decreases |l|, 0
  {
    var n, m := |s| - 1, |l| - 1;
    if s[n] == l[m] {
      SubWider(s[..n], l[..m], l[m]);
      assert l == l[..m] + [l[m]];
      if n > 0 {
        SubShorter(s[..n], l[..m]);
      }
    } else {
      SubShorter(s, l[..m]);
      SubWider(s[..n], l[..m], l[m]);
      assert l == l[..m] + [l[m]];
    }
  }

  lemma {:induction false} SubWider<T>(s: seq<T>, l: seq<T>, e: T)
    requires Sub(s, l)
    ensures Sub(s, l + [e])
    decreases |l|, 1
  {
    assert (l + [e])[..|l|] == l;
    if s != [] && s[|s| - 1] == e {
      SubShorter(s, l);
    }
  }

  lemma AppendTail<T>(s: seq<T>)
    requires |s| > 1
    ensures s[1..] == s[..|s| - 1][1..] + [s[|s| - 1]]
  {
  }

  /** Dropping the oldest of both keeps the subsequence, and so does dropping the
      oldest of the smaller one. */
  lemma {:induction false} SubTails<T>(s: seq<T>, l: seq<T>)
    requires Sub(s, l) && s != []
    ensures l != [] && Sub(s[1..], l[1..]) && Sub(s[1..], l)
  {
    var n, m := |s| - 1, |l| - 1;
    assert l == l[..m] + [l[m]];
    if s[n] != l[m] {
      SubTails(s, l[..m]);
      AppendTail(l);
      SubWider(s[1..], l[..m][1..], l[m]);
      SubWider(s[1..], l[..m], l[m]);
    } else if n > 0 {
      SubTails(s[..n], l[..m]);
      AppendTail(s);
      AppendTail(l);
      SubAppend(s[..n][1..], l[..m][1..], s[n]);
      SubAppend(s[..n][1..], l[..m], s[n]);
    }
  }

  lemma {:induction false} SubMember<T>(s: seq<T>, l: seq<T>, i: nat)
    requires Sub(s, l) && i < |s|
    ensures s[i] in l
  {
    var n, m := |s| - 1, |l| - 1;
    if s[n] == l[m] {
      if i < n {
        SubMember(s[..n], l[..m], i);
      }
    } else {
      SubMember(s, l[..m], i);
    }
  }

  function Skip(es: Entries, k: Key): Entries {
    if es == [] then []
    else if es[|es| - 1].0 == k then Skip(es[..|es| - 1], k)
    else Skip(es[..|es| - 1], k) + [es[|es| - 1]]
  }

  lemma {:induction false} SkipIsWithout(es: Entries, k: Key)
    requires Distinct(es)
    ensures Skip(es, k) == Without(es, k)
  {
    if es != [] {
      var n, i := |es| - 1, Find(es, k);
      SkipIsWithout(es[..n], k);
      if i == n {
        assert Find(es[..n], k) < 0;
      } else if i >= 0 {
        assert es[..n][..i] == es[..i];
        assert es[..i] + es[i + 1..] == (es[..n][..i] + es[..n][i + 1..]) + [es[n]];
      }
    }
  }

  lemma {:induction false} SubSkip(s: Entries, l: Entries, k: Key)
    requires Sub(s, l)
    ensures Sub(Skip(s, k), Skip(l, k))
    decreases |l|
  {
    if s != [] {
      var n, m := |s| - 1, |l| - 1;
      if s[n] == l[m] {
        SubSkip(s[..n], l[..m], k);
        if s[n].0 != k {
          SubAppend(Skip(s[..n], k), Skip(l[..m], k), s[n]);
        }
      } else {
        SubSkip(s, l[..m], k);
        if l[m].0 != k {
          SubWider(Skip(s, k), Skip(l[..m], k), l[m]);
        }
      }
    }
  }

  /** What holds between a cache of capacity `k` and one of capacity `K > k`. */
  predicate Within(small: nat, s: Entries, l: Entries) {
    Sub(s, l) && (|s| < small ==> s == l)
  }

  lemma SubWithout(s: Entries, l: Entries, k: Key)
    requires Sub(s, l) && Distinct(s) && Distinct(l)
    ensures Sub(Without(s, k), Without(l, k))
    ensures Find(s, k) >= 0 ==> Find(l, k) >= 0 && l[Find(l, k)] == s[Find(s, k)]
  {
    SubSkip(s, l, k);
    SkipIsWithout(s, k);
    SkipIsWithout(l, k);
    var i := Find(s, k);
    if i >= 0 {
      SubMember(s, l, i);
      var j :| 0 <= j < |l| && l[j] == s[i];
      assert j == Find(l, k);
    }
  }

  lemma GetWithin(small: nat, s: Entries, l: Entries, k: Key)
    requires Within(small, s, l) && Distinct(s) && Distinct(l)
    ensures Within(small, Get(s, k).0, Get(l, k).0)
  {
    SubWithout(s, l, k);
    var i, j := Find(s, k), Find(l, k);
    if i >= 0 {
      SubAppend(Without(s, k), Without(l, k), s[i]);
    } else if j >= 0 {
      SubWider(s, Without(l, k), l[j]);
    }
  }

  lemma WithoutSize(es: Entries, k: Key)
    ensures |Without(es, k)| == |es| - if Find(es, k) >= 0 then 1 else 0
  {
  }

  lemma PutWithin(small: nat, large: nat, s: Entries, l: Entries, k: Key, v: string)
    requires small < large && |s| <= small && |l| <= large
    requires Within(small, s, l) && Distinct(s) && Distinct(l)
    ensures Within(small, Put(small, s, k, v), Put(large, l, k, v))
  {
    var s1, l1 := Without(s, k) + [(k, v)], Without(l, k) + [(k, v)];
    SubWithout(s, l, k);
    SubAppend(Without(s, k), Without(l, k), (k, v));
    WithoutSize(s, k);
    WithoutSize(l, k);
    hide Without;
    hide Find;
    hide Sub;
    EvictWithin(small, large, s1, l1, |s| < small);
  }

  /** Evicting at most one entry from each. */
  lemma EvictWithin(small: nat, large: nat, s1: Entries, l1: Entries, equal: bool)
    requires small < large && Sub(s1, l1) && 0 < |s1| <= small + 1 && |l1| <= large + 1
    requires if equal then s1 == l1 && |s1| <= small else |s1| >= small
    requires !equal && |l1| > large ==> |s1| > small
    ensures Within(small, LastN(small, s1), LastN(large, l1))
  {
    if |s1| > small {
      SubTails(s1, l1);
    }
  }

  /** LRU inclusion: on one history of gets and puts run against capacities
      `small < large`, the small cache is a subsequence of the large one, although
      a get may hit in the large cache and miss in the small one. */
  lemma {:induction false} LargerCacheContainsSmaller(small: nat, large: nat, ops: seq<Op>)
    requires small < large
    ensures Within(small, Run(small, ops), Run(large, ops))
    ensures forall k :: Find(Run(small, ops), k) >= 0 ==> Find(Run(large, ops), k) >= 0
  {
    if ops != [] {
      var init, op := ops[..|ops| - 1], ops[|ops| - 1];
      LargerCacheContainsSmaller(small, large, init);
      RunValid(small, init);
      RunValid(large, init);
      match op
      case GetOp(k) => GetWithin(small, Run(small, init), Run(large, init), k);
      case PutOp(k, v) => PutWithin(small, large, Run(small, init), Run(large, init), k, v);
    }
    RunValid(small, ops);
    RunValid(large, ops);
    forall k | Find(Run(small, ops), k) >= 0 ensures Find(Run(large, ops), k) >= 0 {
      SubWithout(Run(small, ops), Run(large, ops), k);
    }
  }
}
