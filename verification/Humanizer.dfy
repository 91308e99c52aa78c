/** The humanizer: one reply cut into a few paced bubbles. */
module Humanizer {
  import opened PyText
  import opened Packing

  // ----- cutting at paragraphs and sentences -----

  /** The first index from `i` where `"\n\n"` starts, or the end. */
  function ParaBreak(s: string, i: nat): (j: nat)
    requires i <= |s|
    ensures i <= j <= |s|
    ensures j < |s| ==> j + 1 < |s| && s[j] == '\n' && s[j + 1] == '\n'
    ensures forall k :: i <= k < j && k + 1 < |s| ==> !(s[k] == '\n' && s[k + 1] == '\n')
    decreases |s| - i
  {
    if i + 1 >= |s| then |s|
    else if s[i] == '\n' && s[i + 1] == '\n' then i
    else ParaBreak(s, i + 1)
  }

  /** `s.split("\n\n")`. */
  function Paragraphs(s: string): seq<string>
    decreases |s|
  {
    var j := ParaBreak(s, 0);
    if j == |s| then [s] else [s[..j]] + Paragraphs(s[j + 2..])
  }

  predicate EndsSentence(c: char) {
    c == '.' || c == '!' || c == '?'
  }

  /** The first index from `i` of white space right after a sentence end, or the end. */
  function SentenceBreak(s: string, i: nat): (j: nat)
    requires i <= |s|
    ensures i <= j <= |s|
    ensures j < |s| ==> j > 0 && EndsSentence(s[j - 1]) && IsSpace(s[j])
    ensures forall k :: i <= k < j && k > 0 ==> !(EndsSentence(s[k - 1]) && IsSpace(s[k]))
    decreases |s| - i
  {
    if i == |s| then |s|
    else if i > 0 && EndsSentence(s[i - 1]) && IsSpace(s[i]) then i
    else SentenceBreak(s, i + 1)
  }

  function SpaceRun(s: string, i: nat): (j: nat)
    requires i <= |s|
    ensures i <= j <= |s| && (i < |s| && IsSpace(s[i]) ==> i < j) && (j < |s| ==> !IsSpace(s[j]))
    ensures forall k :: i <= k < j ==> IsSpace(s[k])
    decreases |s| - i
  {
    if i < |s| && IsSpace(s[i]) then SpaceRun(s, i + 1) else i
  }

  /** `_SENTENCE_RX.split(s)`: the white space after `.`, `!` or `?` is dropped. */
  function Sentences(s: string): seq<string>
    decreases |s|
  {
    var j := SentenceBreak(s, 0);
    if j == |s| then [s] else [s[..j]] + Sentences(s[SpaceRun(s, j)..])
  }

  /** Every part stripped, blank ones dropped. */
  function Trimmed(parts: seq<string>): seq<string> {
    if parts == [] then []
    else
      var p := Strip(parts[|parts| - 1]);
      Trimmed(parts[..|parts| - 1]) + if p == "" then [] else [p]
  }

  // ----- packing, wrapping, folding -----

  /** The hard wrap of one chunk. */
  function Wrap(chunk: string, max: int): seq<string>
    requires max >= 1
    decreases |chunk|
  {
    if |chunk| <= max then [chunk] else [chunk[..max]] + Wrap(chunk[max..], max)
  }

  function WrapAll(chunks: seq<string>, max: int): seq<string>
    requires max >= 1
  {
    if chunks == [] then [] else WrapAll(chunks[..|chunks| - 1], max) + Wrap(chunks[|chunks| - 1], max)
  }

  function Packed(para: string, max: int): seq<string>
    requires max >= 1
  {
    WrapAll(Greedy(Trimmed(Sentences(para)), ' ', max), max)
  }

  function Pieces(paras: seq<string>, max: int): seq<string>
    requires max >= 1
  {
    if paras == [] then []
    else
      var p := paras[|paras| - 1];
      Pieces(paras[..|paras| - 1], max) + if |p| <= max then [p] else Packed(p, max)
  }

  /** The bubbles before the cap. */
  function Merged(text: string, max: int): seq<string>
    requires max >= 1
  {
    Greedy(Pieces(Trimmed(Paragraphs(Strip(text))), max), '\n', max)
  }

  /** The overflow folded into the last bubble, with Python's slices. */
  function Fold(merged: seq<string>, cap: int): seq<string> {
    if |merged| > cap then Take(merged, cap - 1) + [Join(Drop(merged, cap - 1), '\n')] else merged
  }

  function Bubbles(text: string, maxChars: int, maxChunks: int): seq<string>
    requires maxChars >= 1
  {
    if Strip(text) == "" then [] else Fold(Merged(text, maxChars), maxChunks)
  }

  // ----- the loops -----

  /** The chunks so far, the open one last. */
  function WithCurrent(out: seq<string>, current: string): seq<string> {
    if current == "" then out else out + [current]
  }

  predicate PackedSoFar(parts: seq<string>, max: int, out: seq<string>, current: string) {
    Greedy(parts, ' ', max) == WithCurrent(out, current) && (current == "" ==> out == [])
  }

  lemma PackOne(before: seq<string>, p: string, max: int, out: seq<string>, current: string)
    requires PackedSoFar(before, max, out, current) && p != ""
    ensures if current == "" then PackedSoFar(before + [p], max, out, p)
      else if |current| + 1 + |p| <= max then PackedSoFar(before + [p], max, out, current + [' '] + p)
      else PackedSoFar(before + [p], max, out + [current], p)
  {
    assert (before + [p])[..|before|] == before;
    if current != "" {
      assert (out + [current])[..|out|] == out;
    }
  }

  lemma TrimOne(raw: seq<string>, i: nat)
    requires i < |raw|
    ensures Trimmed(raw[..i + 1]) == Trimmed(raw[..i]) + if Strip(raw[i]) == "" then [] else [Strip(raw[i])]
  {
    assert raw[..i + 1][..i] == raw[..i];
  }

  method PackSentences(para: string, maxChars: int) returns (wrapped: seq<string>)
    requires maxChars >= 1
    ensures wrapped == Packed(para, maxChars)
  {
    var raw, out, current := Sentences(para), [], "";
    ghost var parts := [];
    for i := 0 to |raw|
      invariant parts == Trimmed(raw[..i]) && PackedSoFar(parts, maxChars, out, current)
    {
      TrimOne(raw, i);
      var sentence := Strip(raw[i]);
      if sentence != "" {
        PackOne(parts, sentence, maxChars, out, current);
        parts := parts + [sentence];
        if current == "" {
          current := sentence;
        } else if |current| + 1 + |sentence| <= maxChars {
          current := current + [' '] + sentence;
        } else {
          out, current := out + [current], sentence;
        }
      }
    }
    assert raw[..|raw|] == raw;
    if current != "" {
      out := out + [current];
    }
    wrapped := HardWrap(out, maxChars);
  }

  /** The last loop of `_pack_sentences`. */
  method HardWrap(out: seq<string>, maxChars: int) returns (wrapped: seq<string>)
    requires maxChars >= 1
    ensures wrapped == WrapAll(out, maxChars)
  {
    wrapped := [];
    for i := 0 to |out|
      invariant wrapped == WrapAll(out[..i], maxChars)
    {
      assert out[..i + 1][..i] == out[..i];
      var chunk := out[i];
      ghost var before := wrapped;
      while |chunk| > maxChars
        invariant before + Wrap(out[i], maxChars) == wrapped + Wrap(chunk, maxChars)
        decreases |chunk|
      {
        wrapped := wrapped + [chunk[..maxChars]];
        chunk := chunk[maxChars..];
      }
      wrapped := wrapped + [chunk];
    }
    assert out[..|out|] == out;
  }

  lemma PiecesOne(paras: seq<string>, i: nat, max: int)
    requires i < |paras| && max >= 1
    ensures Pieces(paras[..i + 1], max)
      == Pieces(paras[..i], max) + if |paras[i]| <= max then [paras[i]] else Packed(paras[i], max)
  {
    assert paras[..i + 1][..i] == paras[..i];
  }

  lemma GreedyOne(pieces: seq<string>, i: nat, sep: char, max: int)
    requires i < |pieces|
    ensures var m, p := Greedy(pieces[..i], sep, max), pieces[i];
      Greedy(pieces[..i + 1], sep, max)
      == if m != [] && |m[|m| - 1]| + 1 + |p| <= max then m[..|m| - 1] + [m[|m| - 1] + [sep] + p] else m + [p]
  {
    assert pieces[..i + 1][..i] == pieces[..i];
  }

  method Split(text: string, maxChars: int, maxChunks: int) returns (bubbles: seq<string>)
    requires maxChars >= 1
    ensures bubbles == Bubbles(text, maxChars, maxChunks)
  {
    var body := Strip(text);
    if body == "" {
      return [];
    }
    var paras, pieces := Trimmed(Paragraphs(body)), [];
    for i := 0 to |paras|
      invariant pieces == Pieces(paras[..i], maxChars)
    {
      PiecesOne(paras, i, maxChars);
      if |paras[i]| <= maxChars {
        pieces := pieces + [paras[i]];
      } else {
        var packed := PackSentences(paras[i], maxChars);
        pieces := pieces + packed;
      }
    }
    assert paras[..|paras|] == paras;
    var merged := [];
    for i := 0 to |pieces|
      invariant merged == Greedy(pieces[..i], '\n', maxChars)
    {
      GreedyOne(pieces, i, '\n', maxChars);
      var n, piece := |merged|, pieces[i];
      if n > 0 && |merged[n - 1]| + 1 + |piece| <= maxChars {
        merged := merged[..n - 1] + [merged[n - 1] + ['\n'] + piece];
      } else {
        merged := merged + [piece];
      }
    }
    assert pieces[..|pieces|] == pieces;
    if |merged| > maxChunks {
      merged := Take(merged, maxChunks - 1) + [Join(Drop(merged, maxChunks - 1), '\n')];
    }
    return merged;
  }

  // ----- splitting loses nothing -----

  lemma InkCut(s: string, i: nat)
    requires i <= |s|
    ensures Ink(s) == Ink(s[..i]) + Ink(s[i..])
  {
    hide Ink;
    var a, b := s[..i], s[i..];
    assert s == a + b;
    InkConcat(a, b);
  }

  lemma InkGap(a: string, gap: string, b: string)
    requires AllSpace(gap)
    ensures Ink(a + gap + b) == Ink(a) + Ink(b)
  {
    hide Ink;
    InkConcat(a + gap, b);
    InkConcat(a, gap);
    AllSpaceHasNoInk(gap);
  }

  /** Cutting out a run of white space cuts no ink. */
  lemma InkAround(s: string, i: nat, e: nat)
    requires i <= e <= |s| && AllSpace(s[i..e])
    ensures Ink(s) == Ink(s[..i]) + Ink(s[e..])
  {
    hide Ink;
    hide IsSpace;
    hide AllSpace;
    InkGap(s[..i], s[i..e], s[e..]);
    assert s == s[..i] + s[i..e] + s[e..];
  }

  lemma InkFirst(p: string, rest: seq<string>)
    ensures InkAll([p] + rest) == Ink(p) + InkAll(rest)
  {
    InkAllConcat([p], rest);
    InkAllOne(p);
  }

  lemma {:induction false} ParagraphsKeepInk(s: string)
    ensures InkAll(Paragraphs(s)) == Ink(s)
    decreases |s|
  {
    var j := ParaBreak(s, 0);
    if j == |s| {
      InkAllOne(s);
    } else {
      ParagraphsKeepInk(s[j + 2..]);
      InkFirst(s[..j], Paragraphs(s[j + 2..]));
      InkAround(s, j, j + 2);
    }
  }

  lemma {:induction false} SentencesKeepInk(s: string)
    ensures InkAll(Sentences(s)) == Ink(s)
    decreases |s|
  {
    var j := SentenceBreak(s, 0);
    if j == |s| {
      InkAllOne(s);
    } else {
      var e := SpaceRun(s, j);
      SentencesKeepInk(s[e..]);
      InkFirst(s[..j], Sentences(s[e..]));
      InkAround(s, j, e);
    }
  }

  lemma {:induction false} TrimmedKeepsInk(parts: seq<string>)
    ensures InkAll(Trimmed(parts)) == InkAll(parts)
    ensures forall i :: 0 <= i < |Trimmed(parts)| ==> 0 < |Trimmed(parts)[i]|
  {
    if parts != [] {
      var init, last := parts[..|parts| - 1], parts[|parts| - 1];
      TrimmedKeepsInk(init);
      InkStrip(last);
      StripBlankIff(last);
      if Strip(last) != "" {
        InkAllAppend(Trimmed(init), Strip(last));
      } else {
        assert Trimmed(parts) == Trimmed(init);
      }
    }
  }

  lemma {:induction false} WrapKeepsInk(chunk: string, max: int)
    requires max >= 1
    ensures InkAll(Wrap(chunk, max)) == Ink(chunk)
    ensures chunk != "" ==> forall i :: 0 <= i < |Wrap(chunk, max)| ==> 0 < |Wrap(chunk, max)[i]| <= max
    decreases |chunk|
  {
    if |chunk| <= max {
      InkAllOne(chunk);
    } else {
      WrapKeepsInk(chunk[max..], max);
      InkCut(chunk, max);
      InkFirst(chunk[..max], Wrap(chunk[max..], max));
    }
  }

  lemma {:induction false} WrapAllKeepsInk(chunks: seq<string>, max: int)
    requires max >= 1 && forall i :: 0 <= i < |chunks| ==> 0 < |chunks[i]|
    ensures InkAll(WrapAll(chunks, max)) == InkAll(chunks)
    ensures forall i :: 0 <= i < |WrapAll(chunks, max)| ==> 0 < |WrapAll(chunks, max)[i]| <= max
  {
    if chunks != [] {
      WrapAllKeepsInk(chunks[..|chunks| - 1], max);
      WrapKeepsInk(chunks[|chunks| - 1], max);
      InkAllConcat(WrapAll(chunks[..|chunks| - 1], max), Wrap(chunks[|chunks| - 1], max));
    }
  }

  lemma PackedKeepsInk(para: string, max: int)
    requires max >= 1
    ensures InkAll(Packed(para, max)) == Ink(para)
    ensures forall i :: 0 <= i < |Packed(para, max)| ==> 0 < |Packed(para, max)[i]| <= max
  {
    var parts := Trimmed(Sentences(para));
    SentencesKeepInk(para);
    TrimmedKeepsInk(Sentences(para));
    GreedyKeepsInk(parts, ' ', max);
    GreedyFits(parts, ' ', max);
    WrapAllKeepsInk(Greedy(parts, ' ', max), max);
  }

  lemma {:induction false} PiecesKeepInk(paras: seq<string>, max: int)
    requires max >= 1 && forall i :: 0 <= i < |paras| ==> 0 < |paras[i]|
    ensures InkAll(Pieces(paras, max)) == InkAll(paras)
    ensures forall i :: 0 <= i < |Pieces(paras, max)| ==> 0 < |Pieces(paras, max)[i]| <= max
  {
    if paras != [] {
      var init, p := paras[..|paras| - 1], paras[|paras| - 1];
      PiecesKeepInk(init, max);
      PackedKeepsInk(p, max);
      InkAllOne(p);
      InkAllConcat(Pieces(init, max), if |p| <= max then [p] else Packed(p, max));
    }
  }

  /** Before the cap: the text's ink, in bubbles that are never empty and all fit. */
  lemma MergedKeepsInk(text: string, max: int)
    requires max >= 1
    ensures InkAll(Merged(text, max)) == Ink(text)
    ensures forall i :: 0 <= i < |Merged(text, max)| ==> 0 < |Merged(text, max)[i]| <= max
  {
    var body := Strip(text);
    var paras := Trimmed(Paragraphs(body));
    InkStrip(text);
    ParagraphsKeepInk(body);
    TrimmedKeepsInk(Paragraphs(body));
    PiecesKeepInk(paras, max);
    GreedyKeepsInk(Pieces(paras, max), '\n', max);
    GreedyFits(Pieces(paras, max), '\n', max);
  }

  lemma TakeDrop(merged: seq<string>, n: int)
    ensures Take(merged, n) + Drop(merged, n) == merged
  {
  }

  lemma FoldKeepsInk(merged: seq<string>, cap: int)
    ensures InkAll(Fold(merged, cap)) == InkAll(merged)
  {
    if |merged| > cap {
      var head, tail := Take(merged, cap - 1), Drop(merged, cap - 1);
      TakeDrop(merged, cap - 1);
      InkAllConcat(head, tail);
      InkJoin(tail, '\n');
      InkAllAppend(head, Join(tail, '\n'));
    }
  }

  /** Splitting loses nothing: for any limits with `max_chars >= 1`, the bubbles
      carry exactly the ink of the text, in order. */
  lemma SplittingLosesNothing(text: string, maxChars: int, maxChunks: int)
    requires maxChars >= 1
    ensures InkAll(Bubbles(text, maxChars, maxChunks)) == Ink(text)
  {
    MergedKeepsInk(text, maxChars);
    StripBlankIff(text);
    FoldKeepsInk(Merged(text, maxChars), maxChunks);
  }

  lemma {:induction false} JoinNonEmpty(parts: seq<string>, sep: char)
    requires parts != [] && forall i :: 0 <= i < |parts| ==> 0 < |parts[i]|
    ensures 0 < |Join(parts, sep)|
  {
  }

  lemma HeadFits(head: seq<string>, tail: seq<string>, last: string, max: int)
    requires NoneEmpty(head + tail) && AllFit(head + tail, max) && 0 < |last|
    ensures NoneEmpty(tail) && NoneEmpty(head + [last]) && AllFit((head + [last])[..|head|], max)
  {
    var all := head + tail;
    assert forall i :: 0 <= i < |head| ==> head[i] == all[i];
    assert forall i :: 0 <= i < |tail| ==> tail[i] == all[|head| + i];
  }

  lemma FoldFits(merged: seq<string>, max: int, cap: int)
    requires merged != [] && NoneEmpty(merged) && AllFit(merged, max)
    ensures var r := Fold(merged, cap); r != [] && NoneEmpty(r) && AllFit(r[..|r| - 1], max)
  {
    if |merged| > cap {
      var head, tail := Take(merged, cap - 1), Drop(merged, cap - 1);
      TakeDrop(merged, cap - 1);
      assert tail != [] && Fold(merged, cap) == head + [Join(tail, '\n')];
      hide Take;
      hide Drop;
      hide Join;
      HeadFits(head, tail, "x", max);
      JoinNonEmpty(tail, '\n');
      HeadFits(head, tail, Join(tail, '\n'), max);
    }
  }

  /** Bubbles are never empty; all but the last fit, and the last one too unless
      it is the folded overflow. */
  lemma BubblesFit(text: string, maxChars: int, maxChunks: int)
    requires maxChars >= 1
    ensures var r := Bubbles(text, maxChars, maxChunks);
      && (forall i :: 0 <= i < |r| ==> 0 < |r[i]|)
      && (forall i :: 0 <= i < |r| - 1 ==> |r[i]| <= maxChars)
      && (|Merged(text, maxChars)| <= maxChunks ==> forall i :: 0 <= i < |r| ==> |r[i]| <= maxChars)
  {
    MergedKeepsInk(text, maxChars);
    StripBlankIff(text);
    if Strip(text) != "" {
      FoldFits(Merged(text, maxChars), maxChars, maxChunks);
    }
  }

  /** The cap works exactly for `max_chunks >= 1`: with a smaller one every
      text with ink still makes more bubbles than that. */
  lemma CapHoldsIff(text: string, maxChars: int, maxChunks: int)
    requires maxChars >= 1 && Ink(text) != ""
    ensures |Bubbles(text, maxChars, maxChunks)| <= maxChunks <==> maxChunks >= 1
  {
    MergedKeepsInk(text, maxChars);
    StripBlankIff(text);
  }

  // ----- greedy merging is optimal -----

  /** No contiguous grouping of the pieces into bubbles that fit uses fewer bubbles. */
  lemma FewestBubbles(text: string, max: int, groups: seq<seq<string>>)
    requires max >= 1
    requires Flatten(groups) == Pieces(Trimmed(Paragraphs(Strip(text))), max)
    requires forall i :: 0 <= i < |groups| ==> groups[i] != [] && |Join(groups[i], '\n')| <= max
    ensures |Merged(text, max)| <= |groups|
  {
    forall i | 0 <= i < |groups| ensures Width(groups[i]) <= max {
      WidthIsLength(groups[i], '\n');
    }
    GreedyIsOptimal(Pieces(Trimmed(Paragraphs(Strip(text))), max), '\n', max, groups);
  }

  /** And the merge is itself such a grouping. */
  lemma MergedIsAGrouping(text: string, max: int) returns (groups: seq<seq<string>>)
    requires max >= 1
    ensures Flatten(groups) == Pieces(Trimmed(Paragraphs(Strip(text))), max)
    ensures Spells(Merged(text, max), groups, '\n')
    ensures forall i :: 0 <= i < |groups| ==> groups[i] != [] && |Join(groups[i], '\n')| <= max
  {
    var pieces := Pieces(Trimmed(Paragraphs(Strip(text))), max);
    groups := Groups(pieces, max);
    GreedyIsGrouping(pieces, '\n', max);
    MergedKeepsInk(text, max);
    forall i | 0 <= i < |groups| ensures groups[i] != [] && |Join(groups[i], '\n')| <= max {
      assert Merged(text, max)[i] == Join(groups[i], '\n');
    }
  }

  /** The sentence packer is minimal too, when an oversize sentence may stand alone. */
  lemma FewestSentenceChunks(para: string, max: int, groups: seq<seq<string>>)
    requires Flatten(groups) == Trimmed(Sentences(para))
    requires forall i :: 0 <= i < |groups| ==>
      groups[i] != [] && (|groups[i]| == 1 || |Join(groups[i], ' ')| <= max)
    ensures |Greedy(Trimmed(Sentences(para)), ' ', max)| <= |groups|
  {
    forall i | 0 <= i < |groups| ensures |groups[i]| == 1 || Width(groups[i]) <= max {
      WidthIsLength(groups[i], ' ');
    }
    GreedyIsOptimal(Trimmed(Sentences(para)), ' ', max, groups);
  }

  // ----- where a text is cut -----

  /** `"\n\n".join(paras)`. */
  function Rejoined(paras: seq<string>): string {
    if paras == [] then ""
    else if |paras| == 1 then paras[0]
    else paras[0] + "\n\n" + Rejoined(paras[1..])
  }

  /** A paragraph holds no blank line. */
  predicate NoBlankLine(p: string) {
    forall k :: 0 <= k < |p| - 1 ==> !(p[k] == '\n' && p[k + 1] == '\n')
  }

  /** Paragraphs are cut exactly at the blank lines: none holds one, none but the last
      ends in a newline (each cut is at the first chance), and joined by blank lines
      they are the text. */
  lemma {:induction false} ParagraphsCutAtBlankLines(s: string)
    ensures var paras := Paragraphs(s);
      && paras != [] && Rejoined(paras) == s
      && (forall i :: 0 <= i < |paras| ==> NoBlankLine(paras[i]))
      && (forall i :: 0 <= i < |paras| - 1 ==> paras[i] == "" || paras[i][|paras[i]| - 1] != '\n')
    decreases |s|
  {
    var j := ParaBreak(s, 0);
    if j < |s| {
      ParagraphsCutAtBlankLines(s[j + 2..]);
      var rest := Paragraphs(s[j + 2..]);
      assert ([s[..j]] + rest)[1..] == rest;
      assert s == s[..j] + "\n\n" + s[j + 2..];
    }
  }

  /** `.`, `!` or `?` with white space right after it. */
  predicate NoSentenceEndInside(p: string) {
    forall k :: 0 <= k < |p| - 1 ==> !((p[k] == '.' || p[k] == '!' || p[k] == '?') && IsSpace(p[k + 1]))
  }

  predicate EndsInMark(p: string) {
    p != "" && var c := p[|p| - 1]; c == '.' || c == '!' || c == '?'
  }

  /** The parts with the white space that was cut out between them put back. */
  function Woven(parts: seq<string>, gaps: seq<string>): string
    requires |parts| == |gaps| + 1
  {
    if gaps == [] then parts[0] else parts[0] + gaps[0] + Woven(parts[1..], gaps[1..])
  }

  /** Each part but the last ends in a mark, each but the first starts with no space, and
      none holds a place to cut. */
  predicate CutParts(parts: seq<string>) {
    && (forall i :: 0 <= i < |parts| ==> NoSentenceEndInside(parts[i]))
    && (forall i :: 0 <= i < |parts| - 1 ==> EndsInMark(parts[i]))
    && (forall i :: 0 < i < |parts| ==> parts[i] == "" || !IsSpace(parts[i][0]))
  }

  predicate Gaps(gaps: seq<string>) {
    forall i :: 0 <= i < |gaps| ==> gaps[i] != "" && AllSpace(gaps[i])
  }

  /** Where the first sentence of a text is cut off, if anywhere. */
  lemma FirstCut(s: string)
    ensures var j := SentenceBreak(s, 0);
      && NoSentenceEndInside(s[..j])
      && (j < |s| ==> EndsInMark(s[..j]) && AllSpace(s[j..SpaceRun(s, j)]) && j < SpaceRun(s, j))
      && (j < |s| && SpaceRun(s, j) < |s| ==> !IsSpace(s[SpaceRun(s, j)]))
  {
    hide IsSpace;
  }

  lemma CutPartsCons(p: string, rest: seq<string>)
    requires NoSentenceEndInside(p) && EndsInMark(p) && CutParts(rest)
    requires rest != [] && (rest[0] == "" || !IsSpace(rest[0][0]))
    ensures CutParts([p] + rest)
  {
    hide NoSentenceEndInside;
    hide EndsInMark;
    hide IsSpace;
    var parts := [p] + rest;
    assert forall i :: 0 < i < |parts| ==> parts[i] == rest[i - 1];
  }

  lemma RestStarts(s: string)
    ensures var j := SentenceBreak(s, 0);
      j < |s| ==> var rest := Sentences(s[SpaceRun(s, j)..]);
        rest != [] && (rest[0] == "" || !IsSpace(rest[0][0])) && Sentences(s) == [s[..j]] + rest
  {
    var j := SentenceBreak(s, 0);
    if j < |s| {
      FirstCut(s);
      FirstPart(s[SpaceRun(s, j)..]);
      hide IsSpace;
    }
  }

  lemma GapsCons(gap: string, gaps: seq<string>)
    requires gap != "" && AllSpace(gap) && Gaps(gaps)
    ensures Gaps([gap] + gaps)
  {
    hide AllSpace;
  }

  /** Sentences are cut exactly where white space follows `.`, `!` or `?`: no part holds
      such a place, every part before the last ends in one of the three, what was cut out
      is runs of white space, whole ones, and with them put back the parts are the text. */
  lemma {:induction false} SentencesCutAtEnds(s: string) returns (gaps: seq<string>)
    ensures |Sentences(s)| == |gaps| + 1 && Woven(Sentences(s), gaps) == s
    ensures CutParts(Sentences(s)) && Gaps(gaps)
    decreases |s|
  {
    hide *;
    var j := SentenceBreak(s, 0);
    FirstCut(s);
    if j < |s| {
      var e := SpaceRun(s, j);
      RestStarts(s);
      var more := SentencesCutAtEnds(s[e..]);
      var rest, gap := Sentences(s[e..]), s[j..e];
      CutPartsCons(s[..j], rest);
      WovenCons(s[..j], gap, rest, more);
      GapsCons(gap, more);
      gaps := [gap] + more;
      assert s == s[..j] + gap + s[e..];
    } else {
      UncutText(s);
      gaps := [];
    }
  }

  lemma UncutText(s: string)
    requires SentenceBreak(s, 0) == |s|
    ensures Sentences(s) == [s] && Woven([s], []) == s && CutParts([s]) && Gaps([])
  {
    FirstCut(s);
    assert s[..|s|] == s;
    hide NoSentenceEndInside;
    hide IsSpace;
  }

  lemma WovenCons(p: string, gap: string, rest: seq<string>, gaps: seq<string>)
    requires |rest| == |gaps| + 1
    ensures Woven([p] + rest, [gap] + gaps) == p + gap + Woven(rest, gaps)
  {
    assert ([p] + rest)[1..] == rest && ([gap] + gaps)[1..] == gaps;
  }

  lemma FirstPart(s: string)
    ensures Sentences(s)[0] <= s && (s != "" && Sentences(s)[0] != "" ==> Sentences(s)[0][0] == s[0])
  {
  }

  /** Parts are stripped one by one, and dropped exactly when they are blank. */
  lemma TrimmedAppend(parts: seq<string>, p: string)
    ensures Trimmed([]) == []
    ensures Trimmed(parts + [p]) == Trimmed(parts) + if Ink(p) == "" then [] else [Strip(p)]
  {
    assert (parts + [p])[..|parts|] == parts;
    StripBlankIff(p);
  }

  /** A paragraph that fits is one piece, whole; a longer one is packed by sentences. */
  lemma PiecesAppend(paras: seq<string>, p: string, max: int)
    requires max >= 1
    ensures Pieces([], max) == []
    ensures |p| <= max ==> Pieces(paras + [p], max) == Pieces(paras, max) + [p]
    ensures |p| > max ==> Pieces(paras + [p], max) == Pieces(paras, max) + Packed(p, max)
  {
    assert (paras + [p])[..|paras|] == paras;
  }

  /** The hard wrap cuts a chunk into lines of exactly `max_chars`, but for the last. */
  lemma {:induction false} WrapLines(chunk: string, max: int)
    requires max >= 1
    ensures var w := Wrap(chunk, max);
      && w != [] && Concat(w) == chunk && |w[|w| - 1]| <= max
      && (chunk != "" ==> w[|w| - 1] != "")
      && forall i :: 0 <= i < |w| - 1 ==> |w[i]| == max
    decreases |chunk|
  {
    if |chunk| > max {
      WrapLines(chunk[max..], max);
      var rest := Wrap(chunk[max..], max);
      assert ([chunk[..max]] + rest)[1..] == rest;
      assert chunk == chunk[..max] + chunk[max..];
    } else {
      assert [chunk][1..] == [] && chunk + "" == chunk;
    }
  }

  lemma {:induction false} WrapAllIdle(chunks: seq<string>, max: int)
    requires max >= 1 && AllFit(chunks, max)
    ensures WrapAll(chunks, max) == chunks
  {
    if chunks != [] {
      var n := |chunks| - 1;
      WrapAllIdle(chunks[..n], max);
      assert Wrap(chunks[n], max) == [chunks[n]];
      assert chunks == chunks[..n] + [chunks[n]];
    }
  }

  lemma {:induction false} WrapAllAppend(chunks: seq<string>, chunk: string, max: int)
    requires max >= 1
    ensures WrapAll([], max) == [] && WrapAll(chunks + [chunk], max) == WrapAll(chunks, max) + Wrap(chunk, max)
  {
    assert (chunks + [chunk])[..|chunks|] == chunks;
  }

  /** While every sentence of a paragraph fits, none is broken: each packed chunk is
      whole sentences joined by single blanks, all of them, in order. */
  lemma WholeSentences(para: string, max: int) returns (groups: seq<seq<string>>)
    requires max >= 1 && AllFit(Trimmed(Sentences(para)), max)
    ensures Flatten(groups) == Trimmed(Sentences(para))
    ensures Spells(Packed(para, max), groups, ' ')
    ensures Allowed(groups, max) && Eager(groups, max)
  {
    var parts := Trimmed(Sentences(para));
    TrimmedKeepsInk(Sentences(para));
    GreedyFits(parts, ' ', max);
    WrapAllIdle(Greedy(parts, ' ', max), max);
    groups := Groups(parts, max);
    GreedyIsGrouping(parts, ' ', max);
    GroupsAreEager(parts, max);
  }

  /** Folding keeps the first bubbles as they are and joins the overflow by newlines. */
  lemma FoldKeepsLayout(merged: seq<string>, cap: int)
    requires cap >= 1
    ensures var r := Fold(merged, cap);
      && |r| == (if |merged| <= cap then |merged| else cap)
      && (forall i :: 0 <= i < cap - 1 && i < |merged| ==> r[i] == merged[i])
      && Join(r, '\n') == Join(merged, '\n')
  {
    if |merged| > cap {
      var head, tail := merged[..cap - 1], merged[cap - 1..];
      JoinJoined(head, tail, '\n');
      assert head + tail == merged;
      assert Fold(merged, cap) == head + [Join(tail, '\n')];
    }
  }

  /** A text that fits one bubble and holds no blank line is one bubble, as it stands. */
  lemma ShortTextIsOneBubble(text: string, max: int, cap: int)
    requires max >= 1 && cap >= 1 && Strip(text) != "" && |Strip(text)| <= max && NoBlankLine(Strip(text))
    ensures Bubbles(text, max, cap) == [Strip(text)]
  {
    var body := Strip(text);
    assert Paragraphs(body) == [body];
    StripTwice(text);
    assert Trimmed([body]) == [body] by {
      assert [body][..0] == [];
    }
    assert Pieces([body], max) == [body] by {
      assert [body][..0] == [];
    }
    assert Greedy([body], '\n', max) == [body] by {
      assert [body][..0] == [];
    }
    hide Greedy;
    hide Pieces;
    hide Trimmed;
    hide Paragraphs;
    hide Strip;
  }

  // ----- why max_chars >= 1 -----

  /** What is left of a chunk after `k` turns of the hard-wrap loop body. */
  function Left(chunk: string, max: int, k: nat): string {
    if k == 0 then chunk else Drop(Left(chunk, max, k - 1), max)
  }

  ghost predicate WrapEnds(chunk: string, max: int) {
    exists k: nat :: |Left(chunk, max, k)| <= max
  }

  /** The hard-wrap loop ends on every chunk exactly when `max_chars >= 1`:
      below that its guard stays true for ever. */
  lemma {:induction false} WrapEndsIff(chunk: string, max: int)
    requires chunk != ""
    ensures max >= 1 <==> WrapEnds(chunk, max)
  {
    if max >= 1 {
      Shrinks(chunk, max, |chunk|);
      assert |Left(chunk, max, |chunk|)| <= max;
    } else if WrapEnds(chunk, max) {
      var k: nat :| |Left(chunk, max, k)| <= max;
      NeverShrinks(chunk, max, k);
      assert false;
    }
  }

  /** A chunk that the sentence packer hands to the hard-wrap loop. */
  predicate ReachesWrap(text: string, max: int, para: string, chunk: string) {
    && para in Trimmed(Paragraphs(Strip(text))) && |para| > max
    && chunk in Greedy(Trimmed(Sentences(para)), ' ', max)
  }

  /** The split returns, exactly: every chunk that reaches the hard-wrap loop leaves
      it again if and only if `max_chars >= 1` or the text is blank. */
  lemma SplitReturnsIff(text: string, max: int)
    ensures (forall para, chunk :: ReachesWrap(text, max, para, chunk) ==> WrapEnds(chunk, max))
      <==> max >= 1 || Ink(text) == ""
  {
    if max >= 1 {
      forall para, chunk | ReachesWrap(text, max, para, chunk) ensures WrapEnds(chunk, max) {
        if chunk != "" {
          WrapEndsIff(chunk, max);
        } else {
          assert |Left(chunk, max, 0)| <= max;
        }
      }
    } else if Ink(text) == "" {
      StripBlankIff(text);
      assert [""][..0] == [] && Strip("") == "";
      assert Trimmed([""]) == [];
    } else {
      var para, chunk := SomeChunkReachesWrap(text, max);
      WrapEndsIff(chunk, max);
      assert ReachesWrap(text, max, para, chunk) && !WrapEnds(chunk, max);
    }
  }

  lemma {:induction false} SomeInk(parts: seq<string>) returns (i: nat)
    requires InkAll(parts) != ""
    ensures i < |parts| && Ink(parts[i]) != ""
  {
    var n := |parts| - 1;
    if Ink(parts[n]) != "" {
      i := n;
    } else {
      i := SomeInk(parts[..n]);
    }
  }

  /** Below `max_chars == 1` every text with ink sends a chunk with text into the loop. */
  lemma SomeChunkReachesWrap(text: string, max: int) returns (para: string, chunk: string)
    requires max < 1 && Ink(text) != ""
    ensures ReachesWrap(text, max, para, chunk) && chunk != ""
  {
    var paras := Trimmed(Paragraphs(Strip(text)));
    InkStrip(text);
    ParagraphsKeepInk(Strip(text));
    TrimmedKeepsInk(Paragraphs(Strip(text)));
    var i := SomeInk(paras);
    para := paras[i];
    var parts := Trimmed(Sentences(para));
    SentencesKeepInk(para);
    TrimmedKeepsInk(Sentences(para));
    GreedyFits(parts, ' ', max);
    chunk := Greedy(parts, ' ', max)[0];
  }

  lemma {:induction false} Shrinks(chunk: string, max: int, k: nat)
    requires max >= 1
    ensures |Left(chunk, max, k)| <= if |chunk| > k then |chunk| - k else 0
  {
    if k > 0 {
      Shrinks(chunk, max, k - 1);
    }
  }

  lemma {:induction false} NeverShrinks(chunk: string, max: int, k: nat)
    requires max <= 0 && chunk != ""
    ensures Left(chunk, max, k) != ""
  {
    if k > 0 {
      NeverShrinks(chunk, max, k - 1);
    }
  }
}
