/** The Python string operations the modelled code leans on. */
module PyText {
  /** `str.isspace`, which is also the regex class `\s`. */
  predicate IsSpace(c: char) {
    || '\t' <= c <= '\r' || '\U{1C}' <= c <= '\U{20}' || c == '\U{85}' || c == '\U{A0}' || c == '\U{1680}'
    || '\U{2000}' <= c <= '\U{200A}' || c == '\U{2028}' || c == '\U{2029}' || c == '\U{202F}' || c == '\U{205F}'
    || c == '\U{3000}'
  }

  predicate AllSpace(s: string) {
    forall i :: 0 <= i < |s| ==> IsSpace(s[i])
  }

  /** The white space of Python's `str`, by code point. */
  lemma WhiteSpaceCodes(c: char)
    ensures IsSpace(c) <==> var n := c as int;
      || n in {9, 10, 11, 12, 13, 28, 29, 30, 31, 32, 133, 160, 5760, 8232, 8233, 8239, 8287, 12288}
      || 8192 <= n <= 8202
  {
  }

  function LStrip(s: string): string {
    if s != "" && IsSpace(s[0]) then LStrip(s[1..]) else s
  }

  function RStrip(s: string): string {
    if s != "" && IsSpace(s[|s| - 1]) then RStrip(s[..|s| - 1]) else s
  }

  /** `s.strip()`. */
  function Strip(s: string): string {
    RStrip(LStrip(s))
  }

  /** `s[:n]`, with Python's negative indices. */
  function Take<T>(s: seq<T>, n: int): seq<T> {
    if n >= 0 then (if n <= |s| then s[..n] else s)
    else if |s| + n > 0 then s[..|s| + n] else []
  }

  /** `s[n:]`. */
  function Drop<T>(s: seq<T>, n: int): seq<T> {
    if n >= 0 then (if n <= |s| then s[n..] else [])
    else if |s| + n > 0 then s[|s| + n..] else s
  }

  /** `s[-n:]`: the last `n` elements. */
  function LastN<T>(n: nat, s: seq<T>): seq<T> {
    if |s| <= n then s else s[|s| - n..]
  }

  /** `sep.join(parts)` for a one-character separator. */
  function Join(parts: seq<string>, sep: char): string {
    if parts == [] then ""
    else if |parts| == 1 then parts[0]
    else Join(parts[..|parts| - 1], sep) + [sep] + parts[|parts| - 1]
  }

  /** `"".join(parts)`. */
  function Concat(parts: seq<string>): string {
    if parts == [] then "" else parts[0] + Concat(parts[1..])
  }

  /** Joining a joined tail is joining it all. */
  lemma {:induction false} JoinJoined(head: seq<string>, tail: seq<string>, sep: char)
    requires tail != []
    ensures Join(head + [Join(tail, sep)], sep) == Join(head + tail, sep)
  {
    var n := |tail| - 1;
    assert (head + [Join(tail, sep)])[..|head|] == head;
    if n == 0 {
      assert tail == [tail[0]];
    } else {
      var init, all := tail[..n], head + tail;
      JoinJoined(head, init, sep);
      assert all[..|all| - 1] == head + init;
      assert (head + [Join(init, sep)])[..|head|] == head;
    }
  }

  /** The text with all white space removed: what a reader sees of it. */
  function Ink(s: string): string {
    if s == "" then "" else Ink(s[..|s| - 1]) + if IsSpace(s[|s| - 1]) then "" else [s[|s| - 1]]
  }

  function InkAll(parts: seq<string>): string {
    if parts == [] then "" else InkAll(parts[..|parts| - 1]) + Ink(parts[|parts| - 1])
  }

  lemma {:induction false} InkConcat(a: string, b: string)
    ensures Ink(a + b) == Ink(a) + Ink(b)
  {
    hide IsSpace;
    if b == "" {
      assert a + b == a;
    } else {
      InkConcat(a, b[..|b| - 1]);
      assert (a + b)[..|a + b| - 1] == a + b[..|b| - 1];
    }
  }

  lemma {:induction false} InkAllConcat(a: seq<string>, b: seq<string>)
    ensures InkAll(a + b) == InkAll(a) + InkAll(b)
  {
    hide Ink;
    if b == [] {
      assert a + b == a;
    } else {
      InkAllConcat(a, b[..|b| - 1]);
      assert (a + b)[..|a + b| - 1] == a + b[..|b| - 1];
    }
  }

  lemma InkAllOne(s: string)
    ensures InkAll([s]) == Ink(s)
  {
    assert [s][..0] == [];
  }

  lemma {:induction false} InkLStrip(s: string)
    ensures Ink(LStrip(s)) == Ink(s)
  {
    if s != "" && IsSpace(s[0]) {
      InkLStrip(s[1..]);
      assert s == s[..1] + s[1..] && s[..1][..0] == "";
      InkConcat(s[..1], s[1..]);
    }
  }

  lemma {:induction false} InkRStrip(s: string)
    ensures Ink(RStrip(s)) == Ink(s)
  {
    if s != "" && IsSpace(s[|s| - 1]) {
      InkRStrip(s[..|s| - 1]);
    }
  }

  lemma InkStrip(s: string)
    ensures Ink(Strip(s)) == Ink(s)
  {
    InkLStrip(s);
    InkRStrip(LStrip(s));
  }

  /** Joining on white space adds no ink. */
  lemma {:induction false} InkJoin(parts: seq<string>, sep: char)
    requires IsSpace(sep)
    ensures Ink(Join(parts, sep)) == InkAll(parts)
  {
    if |parts| == 1 {
      assert parts == [parts[0]];
      InkAllOne(parts[0]);
    } else if |parts| > 1 {
      var init, last := parts[..|parts| - 1], parts[|parts| - 1];
      InkJoin(init, sep);
      InkConcat(Join(init, sep) + [sep], last);
      assert (Join(init, sep) + [sep])[..|Join(init, sep)|] == Join(init, sep);
    }
  }

  lemma {:induction false} AllSpaceHasNoInk(s: string)
    requires forall i :: 0 <= i < |s| ==> IsSpace(s[i])
    ensures Ink(s) == ""
  {
    if s != "" {
      AllSpaceHasNoInk(s[..|s| - 1]);
    }
  }

  lemma {:induction false} RStripEnds(s: string)
    ensures RStrip(s) <= s
    ensures RStrip(s) != "" ==> !IsSpace(RStrip(s)[|RStrip(s)| - 1])
  {
    if s != "" && IsSpace(s[|s| - 1]) {
      RStripEnds(s[..|s| - 1]);
    }
  }

  /** A stripped text is empty exactly when it has no ink. */
  lemma StripBlankIff(s: string)
    ensures Strip(s) == "" <==> Ink(s) == ""
  {
    InkStrip(s);
    RStripEnds(LStrip(s));
  }

  lemma {:induction false} LStripStarts(s: string)
    ensures LStrip(s) != "" ==> !IsSpace(LStrip(s)[0])
  {
    if s != "" && IsSpace(s[0]) {
      LStripStarts(s[1..]);
    }
  }

  lemma {:induction false} LStripSpells(s: string) returns (a: string)
    ensures s == a + LStrip(s) && AllSpace(a)
  {
    a := "";
    if s != "" && IsSpace(s[0]) {
      a := LStripSpells(s[1..]);
      a := [s[0]] + a;
    }
  }

  lemma {:induction false} RStripSpells(s: string) returns (b: string)
    ensures s == RStrip(s) + b && AllSpace(b)
  {
    b := "";
    if s != "" && IsSpace(s[|s| - 1]) {
      b := RStripSpells(s[..|s| - 1]);
      b := b + [s[|s| - 1]];
    }
  }

  /** Stripping takes white space off both ends, all of it, and nothing else. */
  lemma StripSpells(s: string) returns (a: string, b: string)
    ensures s == a + Strip(s) + b && AllSpace(a) && AllSpace(b)
    ensures Strip(s) != "" ==> !IsSpace(Strip(s)[0]) && !IsSpace(Strip(s)[|Strip(s)| - 1])
  {
    a := LStripSpells(s);
    b := RStripSpells(LStrip(s));
    LStripStarts(s);
    RStripEnds(LStrip(s));
  }

  lemma StripTwice(s: string)
    ensures Strip(Strip(s)) == Strip(s)
  {
    LStripStarts(s);
    RStripEnds(LStrip(s));
  }

  /** The index of the last colon, or -1. */
  function LastColon(s: string): (i: int)
    ensures -1 <= i < |s| && (i >= 0 ==> s[i] == ':')
    ensures forall j :: i < j < |s| ==> s[j] != ':'
  {
    if s == "" then -1
    else if s[|s| - 1] == ':' then |s| - 1
    else LastColon(s[..|s| - 1])
  }

  lemma {:induction false} LastColonAfter(a: string, b: string)
    requires forall i :: 0 <= i < |b| ==> b[i] != ':'
    ensures LastColon(a + ":" + b) == |a|
  {
    var s := a + ":" + b;
    assert s[|a|] == ':';
    assert forall j :: |a| < j < |s| ==> s[j] == b[j - |a| - 1];
  }
}
