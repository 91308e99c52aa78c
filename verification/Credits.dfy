/** Credit arithmetic shared by the live wallet (`credit_wallets`) and its Redis
    mirror: three buckets, every change floored at zero. */
module Credits {

  datatype Bucket = Job | Unlock | Boost

  /** One number per bucket: a balance, a grant or a delta. */
  datatype Amounts = Amounts(job: int, unlock: int, boost: int) {
    function Get(b: Bucket): int {
      match b
      case Job => job
      case Unlock => unlock
      case Boost => boost
    }
  }

  const ZERO := Amounts(0, 0, 0)
  const BUCKETS: seq<Bucket> := [Job, Unlock, Boost]

  /** SQL's `GREATEST(0, n)`. */
  function Floor(n: int): int {
    if n < 0 then 0 else n
  }

  /** `col = GREATEST(0, col + delta)` in all three columns. */
  function Shift(bal: Amounts, d: Amounts): Amounts {
    Amounts(Floor(bal.job + d.job), Floor(bal.unlock + d.unlock), Floor(bal.boost + d.boost))
  }

  // ----- one floored counter over a whole history of deltas -----

  /** The balance after applying `ds` in order to `b0`. */
  function Balance(b0: int, ds: seq<int>): int {
    if ds == [] then b0
    else Floor(Balance(b0, ds[..|ds| - 1]) + ds[|ds| - 1])
  }

  /** The plain sum of the first `k` deltas. */
  function Prefix(ds: seq<int>, k: nat): int
    requires k <= |ds|
  {
    if k == 0 then 0 else Prefix(ds, k - 1) + ds[k - 1]
  }

  lemma {:induction false} PrefixOfPrefix(ds: seq<int>, m: nat, k: nat)
    requires k <= m <= |ds|
    ensures Prefix(ds[..m], k) == Prefix(ds, k)
  {
    if k > 0 {
      PrefixOfPrefix(ds, m, k - 1);
    }
  }

  /** The closed form: the final balance is the largest of `b0 + S(n)` and the
      `S(n) - S(k)` for `1 <= k <= n`, where `S` are the prefix sums. */
  lemma {:induction false} ClosedForm(b0: int, ds: seq<int>)
    requires b0 >= 0
    ensures var n, r := |ds|, Balance(b0, ds);
      && r >= b0 + Prefix(ds, n)
      && (forall k :: 1 <= k <= n ==> r >= Prefix(ds, n) - Prefix(ds, k))
      && (r == b0 + Prefix(ds, n) || exists k :: 1 <= k <= n && r == Prefix(ds, n) - Prefix(ds, k))
  {
    var n := |ds|;
    if n > 0 {
      var init := ds[..n - 1];
      ClosedForm(b0, init);
      forall k: nat | k < n ensures Prefix(init, k) == Prefix(ds, k) {
        PrefixOfPrefix(ds, n - 1, k);
      }
      var r, r' := Balance(b0, ds), Balance(b0, init);
      if r == 0 {
        assert r == Prefix(ds, n) - Prefix(ds, n);
      } else if r' != b0 + Prefix(init, n - 1) {
        var k :| 1 <= k <= n - 1 && r' == Prefix(init, n - 1) - Prefix(init, k);
        assert r == Prefix(ds, n) - Prefix(ds, k);
      }
    }
  }

  /** The floor only ever adds credit, and adds none exactly when the plain
      running balance never went below zero. */
  lemma {:induction false} FloorIsSlack(b0: int, ds: seq<int>)
    requires b0 >= 0
    ensures Balance(b0, ds) >= b0 + Prefix(ds, |ds|)
    ensures Balance(b0, ds) == b0 + Prefix(ds, |ds|)
      <==> forall k :: 0 <= k <= |ds| ==> b0 + Prefix(ds, k) >= 0
  {
    ClosedForm(b0, ds);
    var n, r := |ds|, Balance(b0, ds);
    if r == b0 + Prefix(ds, n) {
      forall k | 0 <= k <= n ensures b0 + Prefix(ds, k) >= 0 {
        if k > 0 {
          assert r >= Prefix(ds, n) - Prefix(ds, k);
        }
      }
    }
  }
}
