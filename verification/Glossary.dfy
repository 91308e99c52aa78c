/** The reverse glossary: a typed translated label found back as its English key. */
module Glossary {
  import opened Options
  import opened PyText

  /** `dict.items()`: insertion order, distinct keys. */
  type Items = seq<(string, string)>

  predicate DistinctKeys(items: Items) {
    forall i, j :: 0 <= i < j < |items| ==> items[i].0 != items[j].0
  }

  /** `re.sub(r"\s+", " ", s)`. */
  function Collapse(s: string): string {
    if s == "" then ""
    else
      var init, c := Collapse(s[..|s| - 1]), s[|s| - 1];
      if !IsSpace(c) then init + [c]
      else if |s| > 1 && IsSpace(s[|s| - 2]) then init
      else init + [' ']
  }

  const PUNCTUATION: string := " .,:;!?-\U{2014}\U{B7}()[]"

  function DropLeading(s: string): string {
    if s != "" && s[0] in PUNCTUATION then DropLeading(s[1..]) else s
  }

  function DropTrailing(s: string): string {
    if s != "" && s[|s| - 1] in PUNCTUATION then DropTrailing(s[..|s| - 1]) else s
  }

  /** `_norm`, over whatever lower-casing the platform has. */
  function Norm(lower: string -> string, s: string): string {
    DropTrailing(DropLeading(Collapse(lower(Strip(s)))))
  }

  /** `_norm` as a value: what follows holds of any normaliser. */
  function Normaliser(lower: string -> string): string -> string {
    s => Norm(lower, s)
  }

  /** The dict comprehension `{_norm(v): k for k, v in items}`: a later key wins. */
  function Reverse(norm: string -> string, items: Items): map<string, string> {
    if items == [] then map[]
    else
      var n := |items| - 1;
      Reverse(norm, items[..n])[norm(items[n].1) := items[n].0]
  }

  /** `_glossary`: the text, stripped and lower-cased, looked up among the keys. */
  function Forward(lower: string -> string, items: Items, text: string): Option<string> {
    Lookup(items, lower(Strip(text)))
  }

  function Lookup(items: Items, key: string): Option<string> {
    if items == [] then None
    else if items[|items| - 1].0 == key then Some(items[|items| - 1].1)
    else Lookup(items[..|items| - 1], key)
  }

  /** `from_glossary`, without its memo. */
  function Backward(norm: string -> string, items: Items, text: string): Option<string> {
    var rev := Reverse(norm, items);
    if text != "" && norm(text) in rev then Some(rev[norm(text)]) else None
  }

  // ----- what `_norm` keeps -----

  /** Characters that are not white space are kept one by one. */
  lemma CollapseInk(s: string, c: char)
    requires !IsSpace(c)
    ensures Collapse("") == "" && Collapse(s + [c]) == Collapse(s) + [c]
  {
    assert (s + [c])[..|s|] == s;
  }

  /** A run of white space, at the start or after anything else, becomes one blank. */
  lemma {:induction false} CollapseGap(s: string, gap: string)
    requires gap != "" && AllSpace(gap) && (s == "" || !IsSpace(s[|s| - 1]))
    ensures Collapse(s + gap) == Collapse(s) + " "
  {
    var n := |gap| - 1;
    assert (s + gap)[..|s| + n] == s + gap[..n];
    if n > 0 {
      CollapseGap(s, gap[..n]);
      assert (s + gap)[|s| + n - 1] == gap[n - 1];
    } else {
      assert s + gap[..0] == s;
    }
  }

  /** What `_norm` drops from both ends. */
  predicate Dropped(c: char) {
    || c == ' ' || c == '.' || c == ',' || c == ':' || c == ';' || c == '!' || c == '?' || c == '-'
    || c == '\U{2014}' || c == '\U{B7}' || c == '(' || c == ')' || c == '[' || c == ']'
  }

  lemma DroppedIff(c: char)
    ensures c in PUNCTUATION <==> Dropped(c)
  {
    var p := PUNCTUATION;
    assert p[0] == ' ' && p[1] == '.' && p[2] == ',' && p[3] == ':' && p[4] == ';' && p[5] == '!' && p[6] == '?';
    assert p[7] == '-' && p[8] == '\U{2014}' && p[9] == '\U{B7}' && p[10] == '(' && p[11] == ')' && p[12] == '[';
    assert p[13] == ']' && |p| == 14;
  }

  predicate AllDropped(s: string) {
    forall i :: 0 <= i < |s| ==> Dropped(s[i])
  }

  lemma {:induction false} LeadingDropped(s: string) returns (a: string)
    ensures s == a + DropLeading(s) && AllDropped(a)
    ensures DropLeading(s) != "" ==> !Dropped(DropLeading(s)[0])
  {
    hide PUNCTUATION;
    hide Dropped;
    a := "";
    if s != "" {
      DroppedIff(s[0]);
      if Dropped(s[0]) {
        a := LeadingDropped(s[1..]);
        a := [s[0]] + a;
      }
    }
  }

  lemma {:induction false} TrailingDropped(s: string) returns (b: string)
    ensures s == DropTrailing(s) + b && AllDropped(b)
    ensures DropTrailing(s) != "" ==> !Dropped(DropTrailing(s)[|DropTrailing(s)| - 1]) && DropTrailing(s)[0] == s[0]
  {
    hide PUNCTUATION;
    hide Dropped;
    b := "";
    if s != "" {
      DroppedIff(s[|s| - 1]);
      if Dropped(s[|s| - 1]) {
        b := TrailingDropped(s[..|s| - 1]);
        b := b + [s[|s| - 1]];
      }
    }
  }

  /** `_norm` takes blanks and the listed punctuation off both ends of the stripped,
      lower-cased, collapsed text, all of it, and nothing else. */
  lemma NormSpells(lower: string -> string, s: string) returns (a: string, b: string)
    ensures Collapse(lower(Strip(s))) == a + Norm(lower, s) + b && AllDropped(a) && AllDropped(b)
    ensures var n := Norm(lower, s); n != "" ==> !Dropped(n[0]) && !Dropped(n[|n| - 1])
  {
    hide PUNCTUATION;
    hide Dropped;
    hide Collapse;
    var t := Collapse(lower(Strip(s)));
    a := LeadingDropped(t);
    b := TrailingDropped(DropLeading(t));
    hide DropLeading;
    hide DropTrailing;
  }

  predicate NormalisedKeys(lower: string -> string, items: Items) {
    forall i :: 0 <= i < |items| ==> lower(Strip(items[i].0)) == items[i].0
  }

  lemma {:induction false} LookupAt(items: Items, i: nat)
    requires DistinctKeys(items) && i < |items|
    ensures Lookup(items, items[i].0) == Some(items[i].1)
  {
    var n := |items| - 1;
    if i < n {
      LookupAt(items[..n], i);
    }
  }

  /** The last label whose translation normalises to `v`, or -1. */
  function LastWith(norm: string -> string, items: Items, v: string): (i: int)
    ensures -1 <= i < |items|
    ensures i >= 0 ==> norm(items[i].1) == v
    ensures forall j :: i < j < |items| ==> norm(items[j].1) != v
  {
    if items == [] then -1
    else if norm(items[|items| - 1].1) == v then |items| - 1
    else LastWith(norm, items[..|items| - 1], v)
  }

  /** The reverse map holds, for each normalised value, the last key with it. */
  lemma {:induction false} ReverseHoldsLast(norm: string -> string, items: Items, v: string)
    ensures v in Reverse(norm, items) <==> LastWith(norm, items, v) >= 0
    ensures v in Reverse(norm, items) ==> Reverse(norm, items)[v] == items[LastWith(norm, items, v)].0
  {
    if items != [] {
      ReverseHoldsLast(norm, items[..|items| - 1], v);
    }
  }

  /** Reverse is a section of forward: any text that normalises to a label's
      translation is answered with a key whose own translation normalises to that
      text; and with that very label exactly when no later label shares it. */
  lemma TypedLabelComesBack(norm: string -> string, lower: string -> string, items: Items, i: nat, text: string)
    requires DistinctKeys(items) && NormalisedKeys(lower, items) && i < |items|
    requires text != "" && norm(text) == norm(items[i].1)
    ensures var back := Backward(norm, items, text);
      && back.Some?
      && Forward(lower, items, back.value).Some?
      && norm(Forward(lower, items, back.value).value) == norm(text)
      && (back.value == items[i].0 <==> forall j :: i < j < |items| ==> norm(items[j].1) != norm(text))
  {
    var v := norm(text);
    ReverseHoldsLast(norm, items, v);
    var k := LastWith(norm, items, v);
    LookupAt(items, k);
    assert items[k].0 == items[i].0 <==> k == i;
  }

  /** The forward map answers with the value of the key that the stripped, lower-cased
      text is, and with nothing exactly when it is no key. */
  lemma {:induction false} ForwardIff(lower: string -> string, items: Items, text: string)
    requires DistinctKeys(items)
    ensures forall i :: 0 <= i < |items| && items[i].0 == lower(Strip(text)) ==>
      Forward(lower, items, text) == Some(items[i].1)
    ensures Forward(lower, items, text).None? <==> forall i :: 0 <= i < |items| ==> items[i].0 != lower(Strip(text))
  {
    var key := lower(Strip(text));
    forall i | 0 <= i < |items| && items[i].0 == key ensures Lookup(items, key) == Some(items[i].1) {
      LookupAt(items, i);
    }
    if forall i :: 0 <= i < |items| ==> items[i].0 != key {
      LookupMiss(items, key);
    }
  }

  lemma {:induction false} LookupMiss(items: Items, key: string)
    requires forall i :: 0 <= i < |items| ==> items[i].0 != key
    ensures Lookup(items, key).None?
  {
    if items != [] {
      LookupMiss(items[..|items| - 1], key);
    }
  }

  /** Text that normalises to no translation is not recognised. */
  lemma UnknownTextIsNone(norm: string -> string, items: Items, text: string)
    ensures Backward(norm, items, text).None?
      <==> text == "" || forall i :: 0 <= i < |items| ==> norm(items[i].1) != norm(text)
  {
    ReverseHoldsLast(norm, items, norm(text));
  }

  /** `from_glossary` with its memo per language. */
  class ReverseGlossary {
    const lower: string -> string
    const tables: map<string, Items>
    var memo: map<string, map<string, string>>

    constructor (lower: string -> string, tables: map<string, Items>)
      ensures this.lower == lower && this.tables == tables && Valid()
    {
      this.lower, this.tables, memo := lower, tables, map[];
    }

    predicate Valid()
      reads this
    {
      forall lang :: lang in memo ==> lang in tables && memo[lang] == Reverse(Normaliser(lower), tables[lang])
    }

    method FromGlossary(text: string, lang: string) returns (key: Option<string>)
      requires Valid()
      modifies this
      ensures Valid()
      ensures key == if lang == "en" || lang !in tables then None else Backward(Normaliser(lower), tables[lang], text)
    {
      if lang == "en" || text == "" || lang !in tables {
        return None;
      }
      if lang !in memo {
        var rev, items := map[], tables[lang];
        for i := 0 to |items|
          invariant rev == Reverse(Normaliser(lower), items[..i])
        {
          assert items[..i + 1][..i] == items[..i];
          rev := rev[Norm(lower, items[i].1) := items[i].0];
        }
        assert items[..|items|] == items;
        memo := memo[lang := rev];
      }
      var n := Norm(lower, text);
      key := if n in memo[lang] then Some(memo[lang][n]) else None;
    }
  }
}
