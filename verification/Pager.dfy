/** The paged role list: its windows, the cursor printed into the "More roles" row,
    the parsing of a tapped row, and what the runtime does with it, which is not to
    turn the page. */
module Pager {
  import opened Options
  import opened PyText
  import opened Phones

  const PAGE: int := 10
  const ID_CAP: int := 200

  // ----- integers as text -----

  function DecDigit(d: int): char
    requires 0 <= d < 10
  {
    ('0' as int + d) as char
  }

  function DecValue(c: char): nat
    requires IsDigit(c)
  {
    c as int - '0' as int
  }

  /** `str(n)` of a non-negative integer. */
  function Dec(n: nat): string {
    if n < 10 then [DecDigit(n)] else Dec(n / 10) + [DecDigit(n % 10)]
  }

  function Str(n: int): string {
    if n < 0 then "-" + Dec(-n) else Dec(n)
  }

  /** Decimal digits, single underscores allowed between them. */
  function ParseNat(s: string): Option<nat>
    decreases |s|
  {
    if s == "" || !IsDigit(s[|s| - 1]) then None
    else
      var d := DecValue(s[|s| - 1]);
      if |s| == 1 then Some(d)
      else
        match ParseNat(if s[|s| - 2] == '_' then s[..|s| - 2] else s[..|s| - 1])
        case None => None
        case Some(n) => Some(10 * n + d)
  }

  /** `int(s)`; `None` is a ValueError. */
  function ParseInt(s: string): Option<int> {
    var t := Strip(s);
    if t != "" && (t[0] == '-' || t[0] == '+') then
      match ParseNat(t[1..])
      case None => None
      case Some(n) => var v: int := n; Some(if t[0] == '-' then -v else v)
    else
      match ParseNat(t)
      case None => None
      case Some(n) => Some(n)
  }

  // ----- one page -----

  /** A Python index brought into range. */
  function Clamp(i: int, n: nat): nat {
    if i < 0 then (if n + i < 0 then 0 else n + i) else if i > n then n else i
  }

  /** `s[a:b]`. */
  function Slice<T>(s: seq<T>, a: int, b: int): seq<T> {
    var lo, hi := Clamp(a, |s|), Clamp(b, |s|);
    if lo < hi then s[lo..hi] else []
  }

  /** `wa_format._trunc`. */
  function Trunc(s: string, n: int): string {
    if |s| <= n then s else RStrip(Slice(s, 0, if n - 1 < 0 then 0 else n - 1)) + "\U{2026}"
  }

  predicate HasMore(total: nat, offset: int) {
    total > offset + PAGE
  }

  function Window(jobs: seq<string>, offset: int): seq<string> {
    Slice(jobs, offset, offset + if HasMore(|jobs|, offset) then PAGE - 1 else PAGE)
  }

  function MoreId(category: string, offset: int): string {
    "more:" + category + ":" + Str(offset)
  }

  function JobIds(window: seq<string>): (r: seq<string>)
    ensures |r| == |window|
  {
    seq(|window|, i requires 0 <= i < |window| => "job:" + window[i])
  }

  function Truncated(ids: seq<string>): (r: seq<string>)
    ensures |r| == |ids| && forall i :: 0 <= i < |ids| ==> r[i] == Trunc(ids[i], ID_CAP)
  {
    seq(|ids|, i requires 0 <= i < |ids| => Trunc(ids[i], ID_CAP))
  }

  /** The row ids of the list message: at most ten, each capped. */
  function RowIds(jobs: seq<string>, category: string, offset: int): seq<string> {
    var window := Window(jobs, offset);
    var rows := JobIds(window)
      + if HasMore(|jobs|, offset) then [MoreId(category, offset + |window|)] else [];
    Truncated(Slice(rows, 0, PAGE))
  }

  // ----- a tapped row -----

  /** The index of the first colon, or -1. */
  function FirstColon(s: string): (i: int)
    ensures -1 <= i < |s| && (i >= 0 ==> s[i] == ':')
  {
    if s == "" then -1
    else
      var i := FirstColon(s[..|s| - 1]);
      if i >= 0 then i else if s[|s| - 1] == ':' then |s| - 1 else -1
  }

  /** `split_id`. */
  function SplitId(id: string): (string, string) {
    var i := FirstColon(id);
    if i < 0 then ("", id) else (id[..i], id[i + 1..])
  }

  /** The `more` branch of `_browse`: category and offset of the rest of the id. */
  function ParseMore(rest: string): (string, int) {
    var i := LastColon(rest);
    var category, off := if i < 0 then "" else rest[..i], rest[i + 1..];
    var offset := match ParseInt(off) case None => 0 case Some(n) => n;
    (if category != "" then category else rest, offset)
  }

  /** What a tapped row id opens, when it is a pager. */
  function Tap(id: string): Option<(string, int)> {
    if SplitId(id).0 == "more" then Some(ParseMore(SplitId(id).1)) else None
  }

  /** A printed id is kept when it is within the cap; a longer one keeps its beginning
      and ends in an ellipsis. */
  lemma TruncKeepsIff(s: string, n: nat)
    requires n >= 1
    ensures |Trunc(s, n)| <= n
    ensures |s| <= n ==> Trunc(s, n) == s
    ensures |s| > n ==> Trunc(s, n) == RStrip(s[..n - 1]) + "\U{2026}"
  {
    RStripEnds(Slice(s, 0, n - 1));
  }

  /** A tapped role row opens its own job. */
  lemma JobRowOpens(job: string)
    requires |job| <= 196
    ensures SplitId(Trunc("job:" + job, ID_CAP)) == ("job", job)
  {
    assert "job" + ":" + job == "job:" + job;
    PrefixSplits("job", job);
    TruncKeepsIff("job:" + job, 200);
    hide SplitId;
    hide Trunc;
  }

  /** The rows of a page are its window's jobs, in order, and then the pager. */
  lemma RowsOfAPage(jobs: seq<string>, category: string, offset: nat)
    requires offset < |jobs|
    ensures var ids, more := RowIds(jobs, category, offset), |jobs| > offset + 10;
      && |ids| == (if more then 10 else |jobs| - offset)
      && (forall i :: 0 <= i < (if more then 9 else |ids|) ==> ids[i] == Trunc("job:" + jobs[offset + i], 200))
      && (more ==> ids[9] == Trunc("more:" + category + ":" + Str(offset + 9), 200))
  {
    hide Trunc;
    hide Str;
    var window := Window(jobs, offset);
    assert window == jobs[offset..offset + |window|];
    var rows := JobIds(window) + if HasMore(|jobs|, offset) then [MoreId(category, offset + |window|)] else [];
    assert Slice(rows, 0, PAGE) == rows;
    assert RowIds(jobs, category, offset) == Truncated(rows);
  }

  // ----- the cursor round-trips -----

  predicate AllDec(s: string) {
    forall i :: 0 <= i < |s| ==> IsDigit(s[i])
  }

  lemma ParseAppend(s: string, d: int)
    requires s != "" && AllDec(s) && 0 <= d < 10 && ParseNat(s).Some?
    ensures ParseNat(s + [DecDigit(d)]) == Some(10 * ParseNat(s).value + d)
  {
    var t := s + [DecDigit(d)];
    assert t[..|t| - 1] == s;
    assert IsDigit(s[|s| - 1]) && t[|t| - 2] == s[|s| - 1];
    assert DecValue(DecDigit(d)) == d;
  }

  lemma {:induction false} DecParses(n: nat)
    ensures Dec(n) != "" && AllDec(Dec(n)) && ParseNat(Dec(n)) == Some(n)
  {
    if n >= 10 {
      DecParses(n / 10);
      ParseAppend(Dec(n / 10), n % 10);
    }
  }

  lemma NoSpaceEnds(s: string)
    requires s != "" && !IsSpace(s[0]) && !IsSpace(s[|s| - 1])
    ensures Strip(s) == s
  {
  }

  /** A printed integer parses back, also a negative one. */
  lemma IntRoundTrip(n: int)
    ensures ParseInt(Str(n)) == Some(n)
  {
    if n >= 0 {
      DecParses(n);
      NoSpaceEnds(Dec(n));
    } else {
      DecParses(-n);
      NoSpaceEnds(Str(n));
      assert Str(n)[1..] == Dec(-n);
    }
  }

  /** Digits, and single underscores between digits. */
  ghost predicate NatText(s: string) {
    && s != "" && IsDigit(s[0]) && IsDigit(s[|s| - 1])
    && (forall i :: 0 <= i < |s| ==> IsDigit(s[i]) || s[i] == '_')
    && (forall i, j :: 0 <= i < j < |s| && j == i + 1 ==> IsDigit(s[i]) || IsDigit(s[j]))
  }

  /** What is read before the last digit. */
  function BeforeLast(s: string): string
    requires |s| >= 2
  {
    if s[|s| - 2] == '_' then s[..|s| - 2] else s[..|s| - 1]
  }

  lemma DigitsShorter(s: string)
    requires |s| >= 2 && IsDigit(s[|s| - 1])
    ensures Digits(s) == Digits(BeforeLast(s)) + [s[|s| - 1]]
  {
    hide Digits;
    hide IsDigit;
    LastDropped(s);
    if s[|s| - 2] == '_' {
      UnderscoreDropped(s[..|s| - 1]);
      assert s[..|s| - 1][..|s| - 2] == BeforeLast(s);
    }
  }

  lemma UnderscoreDropped(s: string)
    requires s != "" && s[|s| - 1] == '_'
    ensures Digits(s) == Digits(s[..|s| - 1])
  {
    hide *;
    LastDropped(s);
    Underscore();
  }

  lemma LastDropped(s: string)
    requires s != ""
    ensures var n := |s| - 1; Digits(s) == Digits(s[..n]) + if IsDigit(s[n]) then [s[n]] else ""
  {
    hide *;
    var init, c := s[..|s| - 1], s[|s| - 1];
    OneMore(init, c);
    assert init + [c] == s;
  }

  lemma OneMore(init: string, c: char)
    ensures Digits(init + [c]) == Digits(init) + if IsDigit(c) then [c] else ""
  {
    DigitsAppend(init, c);
    hide Digits;
  }

  lemma NatTextPrefix(s: string)
    requires |s| >= 2 && NatText(s)
    ensures NatText(BeforeLast(s))
  {
    var n, b := |s| - 1, BeforeLast(s);
    hide IsDigit;
    assert forall i :: 0 <= i < |b| ==> b[i] == s[i];
    if s[n - 1] == '_' {
      assert !IsDigit('_') by {
        Underscore();
      }
      assert n >= 2;
      assert IsDigit(s[n - 2]);
    }
  }

  lemma Underscore()
    ensures !IsDigit('_')
  {
  }

  lemma NatTextExtended(s: string)
    requires |s| >= 2 && IsDigit(s[|s| - 1]) && NatText(BeforeLast(s))
    ensures NatText(s)
  {
    var b := BeforeLast(s);
    hide IsDigit;
    assert forall i :: 0 <= i < |b| ==> b[i] == s[i];
    forall i, j | 0 <= i < j < |s| && j == i + 1 ensures IsDigit(s[i]) || IsDigit(s[j]) {
      if j < |b| {
        assert IsDigit(b[i]) || IsDigit(b[j]);
      }
    }
  }

  /** An unsigned number is read exactly from digits with single underscores between
      them, and the underscores do not count. */
  lemma {:induction false} NatParsesIff(s: string)
    ensures ParseNat(s).Some? <==> NatText(s)
    ensures NatText(s) ==> ParseNat(s) == ParseNat(Digits(s))
    decreases |s|
  {
    if |s| >= 2 && IsDigit(s[|s| - 1]) {
      var b, d := BeforeLast(s), Digits(s);
      DigitsShorter(s);
      NatParsesIff(b);
      if NatText(s) {
        NatTextPrefix(s);
      }
      if NatText(b) {
        NatTextExtended(s);
        DigitsOnly(b);
        var last := Digits(b)[|Digits(b)| - 1];
        assert d[..|d| - 1] == Digits(b) && d[|d| - 2] == last;
      }
    } else if |s| == 1 && IsDigit(s[0]) {
      DigitsOfDigits(s);
    }
  }

  lemma DigitsOnly(b: string)
    requires NatText(b)
    ensures Digits(b) != ""
  {
  }

  /** `int` reads exactly such a number, white space around it aside, with at most one
      sign in front, and a minus negates it. */
  lemma IntParsesIff(s: string)
    ensures var t := Strip(s);
      var n := if t != "" && (t[0] == '-' || t[0] == '+') then t[1..] else t;
      && (ParseInt(s).Some? <==> NatText(n))
      && (NatText(n) ==> ParseNat(Digits(n)).Some? && var k: int := ParseNat(Digits(n)).value;
                         ParseInt(s) == Some(if t[0] == '-' then -k else k))
  {
    hide Strip;
    hide ParseNat;
    hide Digits;
    var t := Strip(s);
    var n := if t != "" && (t[0] == '-' || t[0] == '+') then t[1..] else t;
    NatParsesIff(n);
    assert NatText(n) ==> n != "";
    hide NatText;
  }

  lemma {:induction false} NoColon(s: string)
    requires forall j :: 0 <= j < |s| ==> s[j] != ':'
    ensures FirstColon(s) < 0
  {
    if s != "" {
      NoColon(s[..|s| - 1]);
    }
  }

  lemma {:induction false} FirstColonIs(s: string, i: nat)
    requires i < |s| && s[i] == ':' && forall j :: 0 <= j < i ==> s[j] != ':'
    ensures FirstColon(s) == i
    decreases |s|
  {
    if i < |s| - 1 {
      FirstColonIs(s[..|s| - 1], i);
    } else {
      NoColon(s[..i]);
    }
  }

  lemma PrefixSplits(prefix: string, rest: string)
    requires forall j :: 0 <= j < |prefix| ==> prefix[j] != ':'
    ensures SplitId(prefix + ":" + rest) == (prefix, rest)
  {
    var s := prefix + ":" + rest;
    assert s[|prefix|] == ':' && forall j :: 0 <= j < |prefix| ==> s[j] == prefix[j];
    FirstColonIs(s, |prefix|);
    assert s[..|prefix|] == prefix && s[|prefix| + 1..] == rest;
  }

  lemma MoreIsPager(rest: string)
    ensures SplitId("more:" + rest) == ("more", rest)
  {
    assert "more" + ":" + rest == "more:" + rest;
    PrefixSplits("more", rest);
  }

  lemma CursorParses(category: string, offset: nat)
    ensures ParseMore(category + ":" + Str(offset)) == (if category != "" then category else ":" + Str(offset), offset)
  {
    var rest := category + ":" + Str(offset);
    DecParses(offset);
    IntRoundTrip(offset);
    LastColonAfter(category, Str(offset));
    hide LastColon;
    hide ParseInt;
    hide Dec;
    assert rest[..|category|] == category && rest[|category| + 1..] == Str(offset);
    assert category == "" ==> rest == ":" + Str(offset);
  }

  /** An untruncated pager id opens the page it was printed for, even when the
      category holds colons; an empty category comes back as something else. */
  lemma UncappedTap(category: string, offset: nat)
    ensures Tap(MoreId(category, offset))
      == Some((if category != "" then category else ":" + Str(offset), offset))
  {
    hide ParseMore;
    hide SplitId;
    hide Str;
    var rest := category + ":" + Str(offset);
    assert MoreId(category, offset) == "more:" + rest;
    MoreIsPager(rest);
    CursorParses(category, offset);
  }

  /** An offset text that ends in an ellipsis does not parse: the pager opens at 0. */
  lemma EllipsisOpensFirst(rest: string)
    requires rest != "" && rest[|rest| - 1] == '\U{2026}'
    ensures ParseMore(rest).1 == 0
  {
    hide ParseInt;
    hide LastColon;
    hide IsSpace;
    var off := rest[LastColon(rest) + 1..];
    assert off != "" && off[|off| - 1] == rest[|rest| - 1];
    EllipsisIsNoInt(off);
  }

  /** A truncated id ends in an ellipsis, so its offset does not parse. */
  lemma CappedTap(category: string, offset: nat)
    requires |MoreId(category, offset)| > ID_CAP
    ensures var t := Tap(Trunc(MoreId(category, offset), ID_CAP)); t.Some? && t.value.1 == 0
  {
    hide ParseMore;
    hide SplitId;
    hide Str;
    hide RStrip;
    var s := MoreId(category, offset);
    var head := Slice(s, 0, ID_CAP - 1);
    assert head[..5] == "more:";
    KeepsMore(head);
    var id := RStrip(head) + "\U{2026}";
    var rest := id[5..];
    assert id == "more:" + rest;
    MoreIsPager(rest);
    EllipsisOpensFirst(rest);
  }

  lemma {:induction false} KeepsMore(s: string)
    requires |s| >= 5 && s[..5] == "more:"
    ensures |RStrip(s)| >= 5 && RStrip(s)[..5] == "more:"
  {
    assert s[4] == s[..5][4] == ':';
    if IsSpace(s[|s| - 1]) {
      assert s[..|s| - 1][..5] == s[..5];
      KeepsMore(s[..|s| - 1]);
    }
  }

  lemma {:induction false} LStripSuffix(s: string)
    requires s != "" && !IsSpace(s[|s| - 1])
    ensures LStrip(s) != "" && LStrip(s)[|LStrip(s)| - 1] == s[|s| - 1]
  {
    if IsSpace(s[0]) {
      LStripSuffix(s[1..]);
    }
  }

  lemma EllipsisIsNoInt(s: string)
    requires s != "" && s[|s| - 1] == '\U{2026}'
    ensures ParseInt(s) == None
  {
    LStripSuffix(s);
    var t := Strip(s);
    assert t == LStrip(s) && t[|t| - 1] == '\U{2026}';
    if t[0] == '-' || t[0] == '+' {
      assert t[1..][|t| - 2] == '\U{2026}';
    }
  }

  /** The cursor of a later page round-trips exactly when the category is not
      empty and the printed id is within the cap. */
  lemma CursorRoundTripsIff(category: string, offset: nat)
    requires offset > 0
    ensures Tap(Trunc(MoreId(category, offset), ID_CAP)) == Some((category, offset))
      <==> category != "" && |MoreId(category, offset)| <= ID_CAP
  {
    UncappedTap(category, offset);
    if |MoreId(category, offset)| > ID_CAP {
      CappedTap(category, offset);
    }
  }

  // ----- the windows of the role list -----

  /** Every cursor of the listing fits its row. */
  predicate CursorsFit(category: string, total: nat) {
    category != "" && forall o: nat :: o < total ==> |MoreId(category, o)| <= ID_CAP
  }

  lemma TapOpensNext(jobs: seq<string>, category: string, offset: nat)
    requires CursorsFit(category, |jobs|) && HasMore(|jobs|, offset)
    ensures var ids := RowIds(jobs, category, offset);
      && |ids| == PAGE && Window(jobs, offset) == jobs[offset..offset + PAGE - 1]
      && Tap(ids[PAGE - 1]) == Some((category, offset + PAGE - 1))
  {
    hide MoreId;
    hide Trunc;
    hide Tap;
    var next := offset + PAGE - 1;
    assert |MoreId(category, next)| <= ID_CAP;
    CursorRoundTripsIff(category, next);
    var window := Window(jobs, offset);
    assert window == jobs[offset..next];
    var rows := JobIds(window) + [MoreId(category, next)];
    assert Slice(rows, 0, PAGE) == rows;
    assert RowIds(jobs, category, offset) == Truncated(rows);
  }

  /** The windows of `role_list_message` from this offset on, each next one built for
      the offset that the id printed into the last row parses to. */
  function Follow(jobs: seq<string>, category: string, offset: nat): seq<seq<string>>
    requires CursorsFit(category, |jobs|)
    decreases |jobs| - offset
  {
    if !HasMore(|jobs|, offset) then [Window(jobs, offset)]
    else
      TapOpensNext(jobs, category, offset);
      var ids := RowIds(jobs, category, offset);
      var next := Tap(ids[|ids| - 1]).value;
      [Window(jobs, offset)] + Follow(jobs, next.0, next.1)
  }

  function Concat(pages: seq<seq<string>>): seq<string> {
    if pages == [] then [] else pages[0] + Concat(pages[1..])
  }

  /** The number of pages for `n` jobs still to show. */
  function PageCount(n: nat): nat {
    if n <= 10 then 1 else 1 + (n - 10 + 8) / 9
  }

  /** The same windows by arithmetic alone: nine jobs a page while more than ten are left. */
  function Windows(jobs: seq<string>): seq<seq<string>> {
    if |jobs| <= 10 then [jobs] else [jobs[..9]] + Windows(jobs[9..])
  }

  lemma OneWindow(jobs: seq<string>, offset: nat)
    requires offset <= |jobs|
    ensures Window(jobs, offset) == if HasMore(|jobs|, offset) then jobs[offset..][..9] else jobs[offset..]
  {
  }

  lemma {:induction false} FollowIsWindows(jobs: seq<string>, category: string, offset: nat)
    requires CursorsFit(category, |jobs|) && offset <= |jobs|
    ensures Follow(jobs, category, offset) == Windows(jobs[offset..])
    decreases |jobs| - offset
  {
    OneWindow(jobs, offset);
    if HasMore(|jobs|, offset) {
      TapOpensNext(jobs, category, offset);
      FollowIsWindows(jobs, category, offset + 9);
      assert jobs[offset..][9..] == jobs[offset + 9..];
    }
  }

  lemma ConcatCons(page: seq<string>, pages: seq<seq<string>>)
    ensures Concat([page] + pages) == page + Concat(pages)
  {
    assert ([page] + pages)[1..] == pages;
  }

  lemma {:induction false} WindowsPartition(jobs: seq<string>)
    ensures Concat(Windows(jobs)) == jobs
    ensures |Windows(jobs)| == PageCount(|jobs|)
    ensures forall p :: 0 <= p < |Windows(jobs)| ==> |Windows(jobs)[p]| <= 10
    decreases |jobs|
  {
    if |jobs| <= 10 {
      ConcatCons(jobs, []);
      assert [jobs] + [] == [jobs];
    } else {
      WindowsPartition(jobs[9..]);
      ConcatCons(jobs[..9], Windows(jobs[9..]));
      assert jobs[..9] + jobs[9..] == jobs;
    }
  }

  /** The role list is built to page as a partition: its windows, strung together by
      the ids they print, hold every job exactly once and in order, in one page for
      up to ten jobs and in 1 + ceil((total - 10) / 9) otherwise. This is a property of
      the builder and the parser; `Browse` below is what a tap really opens. */
  lemma RoleListIsPartition(jobs: seq<string>, category: string)
    requires CursorsFit(category, |jobs|)
    ensures Concat(Follow(jobs, category, 0)) == jobs
    ensures |Follow(jobs, category, 0)| == PageCount(|jobs|)
    ensures forall p :: 0 <= p < |Follow(jobs, category, 0)| ==> |Follow(jobs, category, 0)[p]| <= 10
  {
    FollowIsWindows(jobs, category, 0);
    assert jobs[0..] == jobs;
    WindowsPartition(jobs);
  }

  /** A page never has more than ten rows, nor a row id above the cap, whatever
      offset a tapped id carries: also a negative one or one past the end. */
  lemma RowsWithinLimits(jobs: seq<string>, category: string, offset: int)
    ensures |RowIds(jobs, category, offset)| <= 10
    ensures forall i :: 0 <= i < |RowIds(jobs, category, offset)| ==> |RowIds(jobs, category, offset)[i]| <= ID_CAP
  {
    forall s: string ensures |Trunc(s, ID_CAP)| <= ID_CAP {
      RStripEnds(Slice(s, 0, ID_CAP - 1));
    }
  }

  // ----- what a tap really opens -----

  const CARD_LIMIT: nat := 8

  /** The cards `_browse_category` sends: the first eight, whatever the offset. An
      unknown category sends none. */
  function BrowseCategory(catalog: map<string, seq<string>>, category: string, offset: int): seq<string> {
    if category in catalog then Slice(catalog[category], 0, CARD_LIMIT) else []
  }

  /** The category and offset a tapped id asks for, if it is a category or a pager. */
  function Target(id: string): Option<(string, int)> {
    if SplitId(id).0 == "category" then Some((SplitId(id).1, 0)) else Tap(id)
  }

  /** The category branches of `_browse`. */
  function Browse(catalog: map<string, seq<string>>, id: string): seq<string> {
    match Target(id)
    case None => []
    case Some(t) => BrowseCategory(catalog, t.0, t.1)
  }

  /** Everything shown by a series of taps. */
  function Shown(catalog: map<string, seq<string>>, taps: seq<string>): seq<string> {
    if taps == [] then [] else Browse(catalog, taps[0]) + Shown(catalog, taps[1..])
  }

  /** A tap opens a category exactly with the prefix `category` or `more`. */
  lemma TargetIff(id: string)
    ensures Target(id).Some? <==>
      (|id| >= 9 && id[..9] == "category:") || (|id| >= 5 && id[..5] == "more:")
    ensures |id| >= 9 && id[..9] == "category:" ==> Target(id) == Some((id[9..], 0))
  {
    hide FirstColon;
    hide ParseMore;
    var i := FirstColon(id);
    if |id| >= 9 && id[..9] == "category:" {
      assert id == "category:" + id[9..];
      CategoryOpens(id[9..]);
    } else if |id| >= 5 && id[..5] == "more:" {
      assert id == "more:" + id[5..];
      MoreIsPager(id[5..]);
    } else if i >= 0 {
      assert id[..i + 1] == id[..i] + ":";
    }
  }

  /** It shows exactly the first eight jobs of that category, and of an unknown one none. */
  lemma TapShowsIff(catalog: map<string, seq<string>>, id: string, job: string)
    ensures job in Browse(catalog, id) <==>
      Target(id).Some? && var category := Target(id).value.0;
        category in catalog && exists i :: 0 <= i < 8 && i < |catalog[category]| && catalog[category][i] == job
  {
    hide Target;
    if Target(id).Some? && Target(id).value.0 in catalog {
      var jobs, shown := catalog[Target(id).value.0], Browse(catalog, id);
      assert |shown| == (if |jobs| < 8 then |jobs| else 8) && forall i :: 0 <= i < |shown| ==> shown[i] == jobs[i];
    }
  }

  predicate Opens(id: string, category: string) {
    Target(id).Some? && Target(id).value.0 == category
  }

  /** Every id that opens the category shows the same cards, the first eight. */
  lemma EveryTapShowsTheFirst(catalog: map<string, seq<string>>, category: string, id: string)
    requires category in catalog && Opens(id, category)
    ensures var jobs := catalog[category];
      Browse(catalog, id) == jobs[..if |jobs| < CARD_LIMIT then |jobs| else CARD_LIMIT]
  {
  }

  lemma {:induction false} ShownIsTheFirst(catalog: map<string, seq<string>>, category: string, taps: seq<string>,
                                           job: string)
    requires category in catalog && forall k :: 0 <= k < |taps| ==> Opens(taps[k], category)
    ensures job in Shown(catalog, taps) <==> taps != [] && job in BrowseCategory(catalog, category, 0)
  {
    if taps != [] {
      EveryTapShowsTheFirst(catalog, category, taps[0]);
      ShownIsTheFirst(catalog, category, taps[1..], job);
    }
  }

  predicate Distinct(jobs: seq<string>) {
    forall i, j :: 0 <= i < j < |jobs| ==> jobs[i] != jobs[j]
  }

  lemma ShownIff(catalog: map<string, seq<string>>, category: string, taps: seq<string>, i: nat)
    requires category in catalog && Distinct(catalog[category]) && i < |catalog[category]|
    requires taps != [] && forall k :: 0 <= k < |taps| ==> Opens(taps[k], category)
    ensures catalog[category][i] in Shown(catalog, taps) <==> i < CARD_LIMIT
  {
    var jobs, first := catalog[category], BrowseCategory(catalog, category, 0);
    hide Target;
    ShownIsTheFirst(catalog, category, taps, jobs[i]);
    if i < CARD_LIMIT {
      assert first[i] == jobs[i];
    }
  }

  /** Turning the page does nothing, exactly: opening a category and tapping any of
      its pager ids, whatever their offsets and however often, shows all its jobs if
      and only if there are at most eight; the others are never shown. */
  lemma TapsShowAllIff(catalog: map<string, seq<string>>, category: string, taps: seq<string>)
    requires category in catalog && Distinct(catalog[category])
    requires taps != [] && forall k :: 0 <= k < |taps| ==> Opens(taps[k], category)
    ensures var jobs := catalog[category];
      && (forall i :: 0 <= i < |jobs| ==> (jobs[i] in Shown(catalog, taps) <==> i < CARD_LIMIT))
      && ((forall i :: 0 <= i < |jobs| ==> jobs[i] in Shown(catalog, taps)) <==> |jobs| <= CARD_LIMIT)
  {
    var jobs := catalog[category];
    forall i | 0 <= i < |jobs| ensures jobs[i] in Shown(catalog, taps) <==> i < CARD_LIMIT {
      ShownIff(catalog, category, taps, i);
    }
    hide Shown;
    assert |jobs| > CARD_LIMIT ==> jobs[CARD_LIMIT] !in Shown(catalog, taps);
  }

  lemma CategoryOpens(category: string)
    ensures Target("category:" + category) == Some((category, 0))
  {
    assert "category" + ":" + category == "category:" + category;
    PrefixSplits("category", category);
  }

  lemma PagerOpens(category: string, offset: nat)
    requires category != ""
    ensures Target(MoreId(category, offset)) == Some((category, offset))
  {
    UncappedTap(category, offset);
    var rest := category + ":" + Str(offset);
    MoreIsPager(rest);
    hide Tap;
    hide Str;
    hide SplitId;
    assert MoreId(category, offset) == "more:" + rest;
  }

  lemma TwoTaps(catalog: map<string, seq<string>>, category: string, first: string, second: string)
    requires category in catalog && Distinct(catalog[category]) && |catalog[category]| == 9
    requires Opens(first, category) && Opens(second, category)
    ensures var jobs := catalog[category];
      && Browse(catalog, first) == jobs[..8] == Browse(catalog, second)
      && jobs[8] !in Shown(catalog, [first, second])
  {
    hide Opens;
    hide Browse;
    hide Shown;
    EveryTapShowsTheFirst(catalog, category, first);
    EveryTapShowsTheFirst(catalog, category, second);
    ShownIff(catalog, category, [first, second], 8);
  }

  /** The witness: of any nine jobs, the category tap and the pager tap for the rest
      both show the first eight, and the ninth is not seen. */
  lemma NinthIsNeverShown(category: string, jobs: seq<string>)
    requires category != "" && |jobs| == 9 && Distinct(jobs)
    ensures var catalog, open, more := map[category := jobs], "category:" + category, MoreId(category, 8);
      && Target(more) == Some((category, 8))
      && Browse(catalog, open) == jobs[..8] == Browse(catalog, more)
      && jobs[8] !in Shown(catalog, [open, more])
  {
    CategoryOpens(category);
    PagerOpens(category, 8);
    hide Target;
    hide MoreId;
    hide Browse;
    hide Shown;
    TwoTaps(map[category := jobs], category, "category:" + category, MoreId(category, 8));
  }
}
