/** Greedy packing of pieces into bubbles, and why no grouping uses fewer. */
module Packing {
  import opened PyText

  /** Pack left to right: join a piece to the last bubble when it still fits. */
  function Greedy(pieces: seq<string>, sep: char, max: int): seq<string> {
    if pieces == [] then []
    else
      var m, p := Greedy(pieces[..|pieces| - 1], sep, max), pieces[|pieces| - 1];
      if m != [] && |m[|m| - 1]| + 1 + |p| <= max then m[..|m| - 1] + [m[|m| - 1] + [sep] + p]
      else m + [p]
  }

  /** The length of the pieces of one group joined with one separator between them. */
  function Width(group: seq<string>): int {
    if group == [] then -1 else Width(group[..|group| - 1]) + 1 + |group[|group| - 1]|
  }

  function Flatten(groups: seq<seq<string>>): seq<string> {
    if groups == [] then [] else Flatten(groups[..|groups| - 1]) + groups[|groups| - 1]
  }

  /** A contiguous grouping: every group fits, or is a piece standing alone. */
  predicate Allowed(groups: seq<seq<string>>, max: int) {
    forall i :: 0 <= i < |groups| ==> groups[i] != [] && (|groups[i]| == 1 || Width(groups[i]) <= max)
  }

  /** One greedy step on the groups. */
  function Next(g: seq<seq<string>>, p: string, max: int): seq<seq<string>> {
    if g != [] && Width(g[|g| - 1]) + 1 + |p| <= max then g[..|g| - 1] + [g[|g| - 1] + [p]]
    else g + [[p]]
  }

  /** The grouping behind `Greedy`. */
  function Groups(pieces: seq<string>, max: int): seq<seq<string>> {
    if pieces == [] then [] else Next(Groups(pieces[..|pieces| - 1], max), pieces[|pieces| - 1], max)
  }

  lemma {:induction false} WidthIsLength(group: seq<string>, sep: char)
    requires group != []
    ensures Width(group) == |Join(group, sep)|
  {
    if |group| > 1 {
      WidthIsLength(group[..|group| - 1], sep);
    } else {
      assert group[..0] == [];
    }
  }

  lemma FlattenAppend(gs: seq<seq<string>>, group: seq<string>)
    ensures Flatten(gs + [group]) == Flatten(gs) + group
  {
    assert (gs + [group])[..|gs|] == gs;
  }

  lemma JoinAppend(group: seq<string>, p: string, sep: char)
    requires group != []
    ensures Join(group + [p], sep) == Join(group, sep) + [sep] + p
    ensures Width(group + [p]) == Width(group) + 1 + |p|
  {
    assert (group + [p])[..|group|] == group;
  }

  lemma Single(p: string, sep: char)
    ensures Join([p], sep) == p && Width([p]) == |p|
  {
    assert [p][..0] == [];
  }

  /** The groups, joined, are the bubbles. */
  predicate Spells(m: seq<string>, gs: seq<seq<string>>, sep: char) {
    |m| == |gs| && forall i :: 0 <= i < |gs| ==> m[i] == Join(gs[i], sep)
  }

  lemma AllowedAppend(gs: seq<seq<string>>, group: seq<string>, max: int)
    requires Allowed(gs, max) && group != [] && (|group| == 1 || Width(group) <= max)
    ensures Allowed(gs + [group], max)
  {
  }

  /** Extending the last group by a piece that still fits. */
  lemma Extend(g: seq<seq<string>>, p: string, max: int)
    requires g != [] && Allowed(g, max) && Width(g[|g| - 1]) + 1 + |p| <= max
    ensures var e := g[..|g| - 1] + [g[|g| - 1] + [p]]; Allowed(e, max) && Flatten(e) == Flatten(g) + [p]
  {
    var k := |g| - 1;
    JoinAppend(g[k], p, ' ');
    AllowedAppend(g[..k], g[k] + [p], max);
    FlattenAppend(g[..k], g[k] + [p]);
    FlattenAppend(g[..k], g[k]);
    assert g == g[..k] + [g[k]];
  }

  lemma {:induction false} GroupsAllowed(pieces: seq<string>, max: int)
    ensures Flatten(Groups(pieces, max)) == pieces && Allowed(Groups(pieces, max), max)
  {
    if pieces != [] {
      var init, p := pieces[..|pieces| - 1], pieces[|pieces| - 1];
      GroupsAllowed(init, max);
      var g := Groups(init, max);
      assert pieces == init + [p] && Groups(pieces, max) == Next(g, p, max);
      hide Groups;
      hide Flatten;
      hide Width;
      hide Allowed;
      if g != [] && Width(g[|g| - 1]) + 1 + |p| <= max {
        Extend(g, p, max);
      } else {
        FlattenAppend(g, [p]);
        AllowedAppend(g, [p], max);
      }
    }
  }

  /** Adding one piece to the bubbles and to their groups. */
  lemma SpellsNext(m: seq<string>, g: seq<seq<string>>, p: string, sep: char, max: int)
    requires Spells(m, g, sep) && Allowed(g, max)
    ensures var k := |g| - 1;
      if g != [] && Width(g[k]) + 1 + |p| <= max then
        |m[k]| + 1 + |p| <= max && Spells(m[..k] + [m[k] + [sep] + p], g[..k] + [g[k] + [p]], sep)
      else !(g != [] && |m[k]| + 1 + |p| <= max) && Spells(m + [p], g + [[p]], sep)
  {
    hide Join;
    hide Width;
    Single(p, sep);
    if g != [] {
      WidthIsLength(g[|g| - 1], sep);
      JoinAppend(g[|g| - 1], p, sep);
    }
  }

  lemma {:induction false} GreedySpells(pieces: seq<string>, sep: char, max: int)
    ensures Spells(Greedy(pieces, sep, max), Groups(pieces, max), sep)
  {
    if pieces != [] {
      var init, p := pieces[..|pieces| - 1], pieces[|pieces| - 1];
      GreedySpells(init, sep, max);
      GroupsAllowed(init, max);
      SpellsNext(Greedy(init, sep, max), Groups(init, max), p, sep, max);
    }
  }

  /** `Greedy` really is the joined groups of an allowed grouping of the pieces. */
  lemma GreedyIsGrouping(pieces: seq<string>, sep: char, max: int)
    ensures Flatten(Groups(pieces, max)) == pieces && Allowed(Groups(pieces, max), max)
    ensures Spells(Greedy(pieces, sep, max), Groups(pieces, max), sep)
  {
    GroupsAllowed(pieces, max);
    GreedySpells(pieces, sep, max);
  }

  /** Fewer groups, or as many with a last one no wider. */
  predicate Ahead(g: seq<seq<string>>, gs: seq<seq<string>>) {
    && g != [] && gs != []
    && (|g| < |gs| || (|g| == |gs| && Width(g[|g| - 1]) <= Width(gs[|gs| - 1])))
  }

  /** The other grouping lets the next piece stand alone. */
  lemma AheadAlone(g: seq<seq<string>>, p: string, max: int, gs: seq<seq<string>>)
    requires (g == [] && gs == []) || Ahead(g, gs)
    ensures Ahead(Next(g, p, max), gs + [[p]])
  {
    hide Width;
    Single(p, ' ');
  }

  /** The other grouping joins the next piece to its last group. */
  lemma AheadJoined(g: seq<seq<string>>, p: string, max: int, gs: seq<seq<string>>, rest: seq<string>)
    requires Ahead(g, gs + [rest]) && rest != [] && Width(rest) + 1 + |p| <= max
    requires forall i :: 0 <= i < |g| ==> g[i] != []
    ensures Ahead(Next(g, p, max), gs + [rest + [p]])
  {
    hide Width;
    JoinAppend(rest, p, ' ');
    JoinAppend(g[|g| - 1], p, ' ');
    Single(p, ' ');
    WidthIsLength(rest, ' ');
  }

  /** Greedy stays ahead of any allowed grouping of the same pieces. */
  lemma {:induction false} StaysAhead(pieces: seq<string>, max: int, gs: seq<seq<string>>)
    requires Allowed(gs, max) && Flatten(gs) == pieces && pieces != []
    ensures Ahead(Groups(pieces, max), gs)
    decreases |pieces|
  {
    hide Width;
    hide Next;
    hide Ahead;
    var n, k := |pieces|, |gs| - 1;
    var init, p, group := pieces[..n - 1], pieces[n - 1], gs[k];
    var rest := group[..|group| - 1];
    assert group == rest + [p] && gs == gs[..k] + [group];
    assert init == Flatten(gs[..k]) + rest;
    if rest == [] {
      assert init == Flatten(gs[..k]);
      if init != [] {
        StaysAhead(init, max, gs[..k]);
      } else {
        NothingToGroup(gs[..k], max);
      }
      AheadAlone(Groups(init, max), p, max, gs[..k]);
    } else {
      JoinAppend(rest, p, ' ');
      FlattenAppend(gs[..k], rest);
      AllowedAppend(gs[..k], rest, max);
      StaysAhead(init, max, gs[..k] + [rest]);
      GroupsAllowed(init, max);
      AheadJoined(Groups(init, max), p, max, gs[..k], rest);
    }
  }

  lemma NothingToGroup(gs: seq<seq<string>>, max: int)
    requires Allowed(gs, max) && Flatten(gs) == []
    ensures gs == []
  {
  }

  /** Greedy is optimal: no contiguous grouping in which every bubble fits, or is
      one piece alone, uses fewer bubbles. */
  lemma {:induction false} GreedyIsOptimal(pieces: seq<string>, sep: char, max: int, gs: seq<seq<string>>)
    requires Allowed(gs, max) && Flatten(gs) == pieces
    ensures |Greedy(pieces, sep, max)| <= |gs|
  {
    GreedySpells(pieces, sep, max);
    if pieces != [] {
      StaysAhead(pieces, max, gs);
    }
  }

  lemma InkAllAppend(m: seq<string>, p: string)
    ensures InkAll(m + [p]) == InkAll(m) + Ink(p)
  {
    assert (m + [p])[..|m|] == m;
  }

  lemma InkGlued(last: string, sep: char, p: string)
    requires IsSpace(sep)
    ensures Ink(last + [sep] + p) == Ink(last) + Ink(p)
  {
    hide Ink;
    InkConcat(last + [sep], p);
    InkThenSpace(last, sep);
  }

  lemma InkThenSpace(s: string, sep: char)
    requires IsSpace(sep)
    ensures Ink(s + [sep]) == Ink(s)
  {
    assert (s + [sep])[..|s|] == s;
  }

  /** Packing joins pieces that fit and drops nothing. */
  lemma {:induction false} GreedyKeepsInk(pieces: seq<string>, sep: char, max: int)
    requires IsSpace(sep)
    ensures InkAll(Greedy(pieces, sep, max)) == InkAll(pieces)
  {
    if pieces != [] {
      var p := pieces[|pieces| - 1];
      var m := Greedy(pieces[..|pieces| - 1], sep, max);
      GreedyKeepsInk(pieces[..|pieces| - 1], sep, max);
      InkAllAppend(m, p);
      if m != [] {
        var k := |m| - 1;
        InkGlued(m[k], sep, p);
        InkAllAppend(m[..k], m[k] + [sep] + p);
      }
    }
  }

  predicate AllFit(parts: seq<string>, max: int) {
    forall i :: 0 <= i < |parts| ==> |parts[i]| <= max
  }

  predicate NoneEmpty(parts: seq<string>) {
    forall i :: 0 <= i < |parts| ==> 0 < |parts[i]|
  }

  /** One turn of the merge. */
  lemma PackedFits(m: seq<string>, p: string, sep: char, max: int)
    requires NoneEmpty(m) && 0 < |p|
    ensures NoneEmpty(m + [p]) && (AllFit(m, max) && |p| <= max ==> AllFit(m + [p], max))
    ensures m != [] && |m[|m| - 1]| + 1 + |p| <= max ==>
      var r := m[..|m| - 1] + [m[|m| - 1] + [sep] + p];
      NoneEmpty(r) && (AllFit(m, max) ==> AllFit(r, max))
  {
  }

  /** Bubbles are never empty, and wider than the limit only as a single piece. */
  lemma {:induction false} GreedyFits(pieces: seq<string>, sep: char, max: int)
    requires NoneEmpty(pieces)
    ensures NoneEmpty(Greedy(pieces, sep, max))
    ensures AllFit(pieces, max) ==> AllFit(Greedy(pieces, sep, max), max)
    ensures pieces != [] ==> Greedy(pieces, sep, max) != []
  {
    if pieces != [] {
      var init, p := pieces[..|pieces| - 1], pieces[|pieces| - 1];
      assert NoneEmpty(init) && (AllFit(pieces, max) ==> AllFit(init, max) && |p| <= max);
      GreedyFits(init, sep, max);
      PackedFits(Greedy(init, sep, max), p, sep, max);
      hide NoneEmpty;
      hide AllFit;
    }
  }

  /** No bubble stops early: the first piece of each next one would not have fitted. */
  ghost predicate Eager(groups: seq<seq<string>>, max: int) {
    forall i, j :: 0 <= i < j < |groups| && j == i + 1 ==>
      groups[j] != [] && Width(groups[i]) + 1 + |groups[j][0]| > max
  }

  /** Greedy packing, exactly: the grouping that the bubbles spell is the one that keeps
      the pieces in order, fits where it can, and starts a new bubble only when it must. */
  lemma {:induction false} GroupsAreEager(pieces: seq<string>, max: int)
    ensures Eager(Groups(pieces, max), max)
  {
    if pieces != [] {
      var init, p := pieces[..|pieces| - 1], pieces[|pieces| - 1];
      GroupsAreEager(init, max);
      GroupsAllowed(init, max);
      var g := Groups(init, max);
      assert Groups(pieces, max) == Next(g, p, max);
      hide Groups;
      hide Width;
      EagerNext(g, p, max);
    }
  }

  lemma EagerNext(g: seq<seq<string>>, p: string, max: int)
    requires Eager(g, max) && Allowed(g, max)
    ensures Eager(Next(g, p, max), max)
  {
    var e := Next(g, p, max);
    hide Width;
    forall i, j | 0 <= i < j < |e| && j == i + 1 ensures e[j] != [] && Width(e[i]) + 1 + |e[j][0]| > max {
      assert e[i] == g[i];
      if j < |g| {
        assert g[j] != [] && e[j][0] == g[j][0];
      }
    }
  }
}
