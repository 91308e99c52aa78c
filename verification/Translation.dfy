/** `translate_many`: glossary, cache, one batched call, a call per string for
    what the batch missed, and the originals where everything failed. */
module Translation {
  import opened Options
  import opened PyText
  import Lru

  const SUPPORTED_LANGS: set<string> := {"en", "ta", "hi"}

  /** A letter in any supported script: Latin, Devanagari or Tamil. */
  predicate IsLetter(c: char) {
    'A' <= c <= 'Z' || 'a' <= c <= 'z' || '\U{0900}' <= c <= '\U{097F}' || '\U{0B80}' <= c <= '\U{0BFF}'
  }

  /** `_translatable`. */
  predicate Translatable(s: string) {
    s != "" && Strip(s) != "" && exists i :: 0 <= i < |s| && IsLetter(s[i])
  }

  /** What does not change during a run: lower-casing, the glossary, and the
      model's answer to each text, taken as fixed. */
  datatype Setting = Setting(
    lower: string -> string,
    glossary: map<string, map<string, string>>,
    answer: Lru.Key -> string)

  /** How the batched call ends: it raises, fails to emit JSON, or answers for the
      listed positions (none when the JSON is malformed). */
  datatype Batch = ApiError | JsonError | Answers(positions: set<int>)

  /** `_glossary`. */
  function Gloss(w: Setting, s: string, lang: string): Option<string> {
    if lang in w.glossary && w.lower(Strip(s)) in w.glossary[lang] then Some(w.glossary[lang][w.lower(Strip(s))])
    else None
  }

  /** The text is neither passed through nor in the glossary. */
  predicate NeedsModel(w: Setting, s: string, lang: string) {
    Translatable(s) && Gloss(w, s, lang).None?
  }

  predicate Served(lang: string) {
    lang != "en" && lang in SUPPORTED_LANGS
  }

  /** The plain map: what a call without cache, batch or failure would give. */
  function Plain(w: Setting, s: string, lang: string): string {
    if !Served(lang) || !Translatable(s) then s
    else
      match Gloss(w, s, lang)
      case Some(g) => g
      case None => w.answer((s, lang))
  }

  /** What `_batch_translate` keeps of an answer: it is returned as it came. */
  function FromBatch(answer: string): Option<string> {
    if Strip(answer) != "" then Some(answer) else None
  }

  /** What `_one_translate` returns: the answer stripped. */
  function FromSingle(answer: string): Option<string> {
    if Strip(answer) != "" then Some(Strip(answer)) else None
  }

  /** A true translation of the key, by either path. */
  predicate TrueFor(w: Setting, key: Lru.Key, v: string) {
    FromBatch(w.answer(key)) == Some(v) || FromSingle(w.answer(key)) == Some(v)
  }

  /** What may stand at one index of the result. */
  predicate Permitted(w: Setting, s: string, lang: string, r: string) {
    if !Translatable(s) then r == s
    else if Gloss(w, s, lang).Some? then r == Gloss(w, s, lang).value
    else TrueFor(w, (s, lang), r) || r == s
  }

  /** As `Permitted`, with the fallback to the original ruled out. */
  predicate Translated(w: Setting, s: string, lang: string, r: string) {
    Permitted(w, s, lang, r) && (NeedsModel(w, s, lang) ==> TrueFor(w, (s, lang), r))
  }

  lemma TrueUpToSpace(w: Setting, key: Lru.Key, v: string)
    requires TrueFor(w, key, v)
    ensures Strip(v) == Strip(w.answer(key))
    ensures Strip(w.answer(key)) == w.answer(key) ==> v == w.answer(key)
  {
    StripTwice(w.answer(key));
  }

  /** A translated index equals the plain map up to surrounding white space, and
      exactly when the model's answers are stripped. */
  lemma TranslatedIsPlain(w: Setting, s: string, lang: string, r: string)
    requires Served(lang) && Translated(w, s, lang, r)
    ensures Strip(r) == Strip(Plain(w, s, lang))
    ensures (NeedsModel(w, s, lang) ==> Strip(w.answer((s, lang))) == w.answer((s, lang))) ==> r == Plain(w, s, lang)
  {
    if NeedsModel(w, s, lang) {
      TrueUpToSpace(w, (s, lang), r);
    }
  }

  predicate Trimmed(w: Setting, s: string, lang: string) {
    NeedsModel(w, s, lang) ==> Strip(w.answer((s, lang))) == w.answer((s, lang))
  }

  predicate AllTrimmed(w: Setting, texts: seq<string>, lang: string) {
    forall i :: 0 <= i < |texts| ==> Trimmed(w, texts[i], lang)
  }

  /** Nothing fails: the batch does not raise an API error, every single call
      answers, and no answer is blank. */
  predicate NothingFails(w: Setting, texts: seq<string>, lang: string, batch: Batch, singles: set<int>) {
    && !batch.ApiError?
    && forall i :: 0 <= i < |texts| ==>
         i in singles && (NeedsModel(w, texts[i], lang) ==> Strip(w.answer((texts[i], lang))) != "")
  }

  // ----- which path answers which index -----

  function Cached(es: Lru.Entries, s: string, lang: string): Option<string> {
    var i := Lru.Find(es, (s, lang));
    if i < 0 then None else Some(es[i].1)
  }

  /** What stands before any call: the passthrough, the glossary or the cache. */
  function Settled(w: Setting, s: string, lang: string, es: Lru.Entries): Option<string> {
    if !Translatable(s) then Some(s)
    else
      match Gloss(w, s, lang)
      case Some(g) => Some(g)
      case None => Cached(es, s, lang)
  }

  /** The positions the model is asked for, in order. */
  function Todo(w: Setting, texts: seq<string>, lang: string, es: Lru.Entries): seq<int> {
    if texts == [] then []
    else
      var n := |texts| - 1;
      Todo(w, texts[..n], lang, es) + if Settled(w, texts[n], lang, es).None? then [n] else []
  }

  /** The cache after the look-ups of one call: each text looked up in turn, a hit
      becoming the newest entry. */
  function Recalled(w: Setting, texts: seq<string>, lang: string, es: Lru.Entries): Lru.Entries {
    if texts == [] then es
    else
      var n := |texts| - 1;
      var before := Recalled(w, texts[..n], lang, es);
      if NeedsModel(w, texts[n], lang) then Lru.Get(before, (texts[n], lang)).0 else before
  }

  /** What the batched call gives for the `k`-th of them. */
  function BatchAnswer(w: Setting, s: string, lang: string, batch: Batch, k: nat): Option<string> {
    if batch.Answers? && k in batch.positions then FromBatch(w.answer((s, lang))) else None
  }

  /** What the single call gives, or the original. */
  function SingleAnswer(w: Setting, s: string, lang: string, answers: bool): string {
    if answers && FromSingle(w.answer((s, lang))).Some? then FromSingle(w.answer((s, lang))).value else s
  }

  /** What stands at index `i` once the batch is in. */
  function AfterBatch(w: Setting, texts: seq<string>, lang: string, es: Lru.Entries, batch: Batch, i: nat)
    : Option<string>
    requires i < |texts|
  {
    var settled := Settled(w, texts[i], lang, es);
    if settled.Some? then settled else BatchAnswer(w, texts[i], lang, batch, |Todo(w, texts[..i], lang, es)|)
  }

  /** The text at index `i` of the reply to a served call that found `es` in the
      cache: settled beforehand; else the batch's answer as it came; else the
      single call's answer stripped; else, and after an API error, the original. */
  function Result(w: Setting, texts: seq<string>, lang: string, es: Lru.Entries, batch: Batch, singles: set<int>,
                  i: nat): string
    requires i < |texts|
  {
    match AfterBatch(w, texts, lang, es, batch, i)
    case Some(r) => r
    case None => if batch.ApiError? then texts[i] else SingleAnswer(w, texts[i], lang, i in singles)
  }

  predicate TrueEntries(w: Setting, es: Lru.Entries) {
    Lru.Distinct(es) && forall i :: 0 <= i < |es| ==> TrueFor(w, es[i].0, es[i].1)
  }

  lemma ResultIsPermitted(w: Setting, texts: seq<string>, lang: string, es: Lru.Entries, batch: Batch,
                          singles: set<int>, i: nat)
    requires i < |texts| && TrueEntries(w, es)
    ensures Permitted(w, texts[i], lang, Result(w, texts, lang, es, batch, singles, i))
    ensures NothingFails(w, texts, lang, batch, singles) ==>
      Translated(w, texts[i], lang, Result(w, texts, lang, es, batch, singles, i))
  {
    hide Todo;
    hide Strip;
  }

  /** `todo` lists exactly the unsettled positions, each at the place `Todo` gives it. */
  ghost predicate Lists(w: Setting, texts: seq<string>, lang: string, es: Lru.Entries, todo: seq<int>) {
    && (forall k :: 0 <= k < |todo| ==>
          && 0 <= todo[k] < |texts| && Settled(w, texts[todo[k]], lang, es).None?
          && |Todo(w, texts[..todo[k]], lang, es)| == k)
    && (forall i :: 0 <= i < |texts| && Settled(w, texts[i], lang, es).None? ==> i in todo)
  }

  lemma {:induction false} TodoFits(w: Setting, texts: seq<string>, lang: string, es: Lru.Entries)
    ensures |Todo(w, texts, lang, es)| <= |texts|
  {
    if texts != [] {
      TodoFits(w, texts[..|texts| - 1], lang, es);
    }
  }

  lemma ListsOneMore(w: Setting, texts: seq<string>, lang: string, es: Lru.Entries, before: seq<int>, todo: seq<int>)
    requires texts != [] && Lists(w, texts[..|texts| - 1], lang, es, before)
    requires before == Todo(w, texts[..|texts| - 1], lang, es)
    requires todo == before + if Settled(w, texts[|texts| - 1], lang, es).None? then [|texts| - 1] else []
    ensures Lists(w, texts, lang, es, todo)
  {
    hide Settled;
    hide Todo;
    var n := |texts| - 1;
    var init := texts[..n];
    forall k | 0 <= k < |todo|
      ensures 0 <= todo[k] < |texts| && Settled(w, texts[todo[k]], lang, es).None?
      ensures |Todo(w, texts[..todo[k]], lang, es)| == k
    {
      if k < |before| {
        assert todo[k] == before[k] && texts[..todo[k]] == init[..todo[k]] && texts[todo[k]] == init[todo[k]];
      }
    }
    forall i | 0 <= i < |texts| && Settled(w, texts[i], lang, es).None? ensures i in todo {
      if i < n {
        assert init[i] == texts[i] && i in before;
      } else {
        assert todo[|todo| - 1] == n;
      }
    }
  }

  lemma {:induction false} TodoLists(w: Setting, texts: seq<string>, lang: string, es: Lru.Entries)
    ensures Lists(w, texts, lang, es, Todo(w, texts, lang, es))
  {
    hide Settled;
    if texts != [] {
      var init := texts[..|texts| - 1];
      TodoLists(w, init, lang, es);
      ListsOneMore(w, texts, lang, es, Todo(w, init, lang, es), Todo(w, texts, lang, es));
    }
  }

  lemma WithoutKeeps(es: Lru.Entries, k: Lru.Key, j: nat) returns (at: nat)
    requires Lru.Distinct(es) && j < |es| && es[j].0 != k
    ensures at < |Lru.Without(es, k)| && Lru.Without(es, k)[at] == es[j]
    ensures |Lru.Without(es, k)| - at <= |es| - j
  {
    var i := Lru.Find(es, k);
    at := if 0 <= i < j then j - 1 else j;
    hide Lru.Find;
  }

  lemma CachedIs(es: Lru.Entries, j: nat, s: string, lang: string)
    requires Lru.Distinct(es) && j < |es| && es[j].0 == (s, lang)
    ensures Cached(es, s, lang) == Some(es[j].1)
  {
    assert Lru.Find(es, (s, lang)) == j;
  }

  lemma GetKeepsCached(es: Lru.Entries, k: Lru.Key, s: string, lang: string)
    requires Lru.Distinct(es)
    ensures Cached(Lru.Get(es, k).0, s, lang) == Cached(es, s, lang)
  {
    var i, j, after := Lru.Find(es, k), Lru.Find(es, (s, lang)), Lru.Get(es, k).0;
    if i >= 0 {
      Lru.MoveKeepsDistinct(es, k, es[i].1);
      assert after == Lru.Without(es, k) + [es[i]];
      if j >= 0 {
        var at := |after| - 1;
        if j != i {
          at := WithoutKeeps(es, k, j);
        }
        assert after[at] == es[j];
        hide Lru.Without;
        CachedIs(after, at, s, lang);
        CachedIs(es, j, s, lang);
      } else {
        var m := Lru.Find(after, (s, lang));
        if m >= 0 {
          Lru.StepEntry(0, es, Lru.GetOp(k), m);
          assert false;
        }
      }
    }
  }

  // ----- the reply, case by case -----

  /** English and unknown languages are not translated; Tamil and Hindi are. */
  lemma ServedLanguages(lang: string)
    ensures Served(lang) <==> lang == "ta" || lang == "hi"
  {
  }

  /** Positions are asked for one by one: those that are neither passed through, nor in
      the glossary, nor in the cache. */
  lemma TodoAppend(w: Setting, texts: seq<string>, s: string, lang: string, es: Lru.Entries)
    ensures Todo(w, [], lang, es) == []
    ensures Todo(w, texts + [s], lang, es)
      == Todo(w, texts, lang, es) + if NeedsModel(w, s, lang) && Cached(es, s, lang).None? then [|texts|] else []
  {
    assert (texts + [s])[..|texts|] == texts;
  }

  /** Text without a letter of a supported script, or blank, is passed through; a text
      whose stripped, lower-cased form is a glossary key gets that entry's value,
      whatever the cache holds and whatever the calls answer. */
  lemma FixedReplies(w: Setting, texts: seq<string>, lang: string, es: Lru.Entries, batch: Batch, singles: set<int>,
                     i: nat)
    requires i < |texts|
    ensures var s, r := texts[i], Result(w, texts, lang, es, batch, singles, i);
      var worded := Strip(s) != "" && !forall k :: 0 <= k < |s| ==>
        !('A' <= s[k] <= 'Z' || 'a' <= s[k] <= 'z' || 0x900 <= s[k] as int <= 0x97F || 0xB80 <= s[k] as int <= 0xBFF);
      && (!worded ==> r == s)
      && (worded && lang in w.glossary && w.lower(Strip(s)) in w.glossary[lang] ==>
          r == w.glossary[lang][w.lower(Strip(s))])
  {
    var s := texts[i];
    assert Translatable(s) <==> Strip(s) != "" && exists k :: 0 <= k < |s| && IsLetter(s[k]);
    assert forall k :: 0 <= k < |s| ==> (IsLetter(s[k]) <==>
      'A' <= s[k] <= 'Z' || 'a' <= s[k] <= 'z' || 0x900 <= s[k] as int <= 0x97F || 0xB80 <= s[k] as int <= 0xBFF);
    hide Strip;
    hide IsLetter;
    hide Todo;
  }

  /** A cached text gets its cached translation; one that is not is answered, in this
      order, by the batch as the answer came, by its single call stripped, or by itself,
      which is also what an API error, a failed call or a blank answer leaves. */
  lemma ModelReplies(w: Setting, texts: seq<string>, lang: string, es: Lru.Entries, batch: Batch, singles: set<int>,
                     i: nat)
    requires i < |texts| && NeedsModel(w, texts[i], lang) && Lru.Distinct(es)
    ensures var s, a, r := texts[i], w.answer((texts[i], lang)), Result(w, texts, lang, es, batch, singles, i);
      && (forall j :: 0 <= j < |es| && es[j].0 == (s, lang) ==> r == es[j].1)
      && ((forall j :: 0 <= j < |es| ==> es[j].0 != (s, lang)) ==>
          var k := |Todo(w, texts[..i], lang, es)|;
          && (batch.ApiError? || Strip(a) == "" ==> r == s)
          && (batch.Answers? && k in batch.positions && Strip(a) != "" ==> r == a)
          && (!batch.ApiError? && !(batch.Answers? && k in batch.positions) && Strip(a) != "" ==>
              r == if i in singles then Strip(a) else s))
  {
    hide Strip;
    hide Todo;
    hide Translatable;
    hide Gloss;
  }

  // ----- the price of two paths -----

  /** One call: its texts, the cache it found, and how its calls end. */
  datatype Turn = Turn(texts: seq<string>, es: Lru.Entries, batch: Batch, singles: set<int>)

  /** A call in which nothing fails replies `r` to the text `s` at index `i`. */
  predicate Replies(w: Setting, lang: string, t: Turn, i: nat, s: string, r: string) {
    && TrueEntries(w, t.es) && NothingFails(w, t.texts, lang, t.batch, t.singles)
    && i < |t.texts| && t.texts[i] == s
    && r == if Served(lang) then Result(w, t.texts, lang, t.es, t.batch, t.singles, i) else s
  }

  ghost predicate Outcome(w: Setting, s: string, lang: string, r: string) {
    exists t: Turn, i: nat :: Replies(w, lang, t, i, s, r)
  }

  /** The memo and the batch show, exactly: calls in which nothing fails give one
      text two different translations if and only if the model is asked for it and
      answers with ink and with white space around it. */
  lemma MemoDependsOnPathIff(w: Setting, s: string, lang: string)
    ensures (exists r1, r2 :: Outcome(w, s, lang, r1) && Outcome(w, s, lang, r2) && r1 != r2)
      <==> Served(lang) && !Trimmed(w, s, lang) && Strip(w.answer((s, lang))) != ""
  {
    var a := w.answer((s, lang));
    if Served(lang) && !Trimmed(w, s, lang) && Strip(a) != "" {
      OneText(w, s, lang, Answers({0}));
      OneText(w, s, lang, JsonError);
      assert Replies(w, lang, Turn([s], [], Answers({0}), {0}), 0, s, a);
      assert Replies(w, lang, Turn([s], [], JsonError, {0}), 0, s, Strip(a));
      assert Outcome(w, s, lang, a) && Outcome(w, s, lang, Strip(a));
    } else {
      forall r | Outcome(w, s, lang, r) ensures r == Plain(w, s, lang) {
        var t: Turn, i: nat :| Replies(w, lang, t, i, s, r);
        if Served(lang) {
          ResultIsPermitted(w, t.texts, lang, t.es, t.batch, t.singles, i);
          TranslatedIsPlain(w, s, lang, r);
        }
      }
    }
  }

  /** One text on an empty cache. */
  lemma OneText(w: Setting, s: string, lang: string, batch: Batch)
    requires NeedsModel(w, s, lang) && !batch.ApiError? && Strip(w.answer((s, lang))) != ""
    ensures Result(w, [s], lang, [], batch, {0}, 0)
      == if batch.Answers? && 0 in batch.positions then w.answer((s, lang)) else Strip(w.answer((s, lang)))
  {
    assert [s][..0] == [];
  }

  /** The two replies side by side: the same text asked of two fresh caches, once
      answered in the batch and once by a single call. */
  method TwoPaths(w: Setting, s: string, lang: string) returns (viaBatch: string, viaSingle: string)
    ensures viaBatch != viaSingle <==> Served(lang) && !Trimmed(w, s, lang) && Strip(w.answer((s, lang))) != ""
    ensures viaBatch != viaSingle ==> viaBatch == w.answer((s, lang)) && viaSingle == Strip(w.answer((s, lang)))
  {
    var one := new Translator(w, 1);
    var two := new Translator(w, 1);
    var first := one.TranslateMany([s], lang, Answers({0}), {});
    var second := two.TranslateMany([s], lang, JsonError, {0});
    viaBatch, viaSingle := first[0], second[0];
    assert [s][..0] == [];
  }

  // ----- what the cache remembers -----

  /** The entry is among the `n` newest. */
  predicate Near(es: Lru.Entries, n: nat, key: Lru.Key, v: string) {
    exists j :: 0 <= j < |es| && |es| - n <= j && es[j] == (key, v)
  }

  lemma NearIsCached(es: Lru.Entries, n: nat, s: string, lang: string, v: string)
    requires Lru.Distinct(es) && Near(es, n, (s, lang), v)
    ensures Cached(es, s, lang) == Some(v)
  {
    var j :| 0 <= j < |es| && |es| - n <= j && es[j] == ((s, lang), v);
    assert Lru.Find(es, (s, lang)) == j;
  }

  /** A put moves every other recent entry back by at most one place. */
  lemma PutNear(cap: nat, es: Lru.Entries, n: nat, key: Lru.Key, v: string, k2: Lru.Key, v2: string)
    requires Lru.Distinct(es) && n < cap && Near(es, n, key, v) && (key == k2 ==> v == v2)
    ensures Near(Lru.Put(cap, es, k2, v2), n + 1, key, v)
  {
    if key == k2 {
      PutNewest(cap, es, key, v);
    } else {
      var j :| 0 <= j < |es| && |es| - n <= j && es[j] == (key, v);
      var at := WithoutKeeps(es, k2, j);
      var all, put := Lru.Without(es, k2) + [(k2, v2)], Lru.Put(cap, es, k2, v2);
      assert put == LastN(cap, all) && all[at] == (key, v);
      hide Lru.Without;
      assert put[at - (|all| - |put|)] == all[at];
    }
  }

  lemma PutNewest(cap: nat, es: Lru.Entries, key: Lru.Key, v: string)
    requires cap >= 1
    ensures Near(Lru.Put(cap, es, key, v), 1, key, v)
  {
    var put := Lru.Put(cap, es, key, v);
    assert put[|put| - 1] == (key, v);
  }

  /** The single call for this index answers with more than white space. */
  predicate AnsweredSingly(w: Setting, texts: seq<string>, lang: string, singles: set<int>, i: int) {
    0 <= i < |texts| && i in singles && FromSingle(w.answer((texts[i], lang))).Some?
  }

  lemma AgesNear(es: Lru.Entries, n: nat, m: nat, key: Lru.Key, v: string)
    requires Near(es, n, key, v) && n <= m
    ensures Near(es, m, key, v)
  {
  }

  /** What the single calls before have put stays near when the next answer is put. */
  lemma SinglesStayNear(w: Setting, texts: seq<string>, lang: string, singles: set<int>, done: seq<int>, cap: nat,
                        es: Lru.Entries, n: nat, i: int)
    requires Lru.Distinct(es) && n < cap && AnsweredSingly(w, texts, lang, singles, i)
    requires forall j :: j in done && AnsweredSingly(w, texts, lang, singles, j) ==>
      Near(es, n, (texts[j], lang), FromSingle(w.answer((texts[j], lang))).value)
    ensures var put := Lru.Put(cap, es, (texts[i], lang), FromSingle(w.answer((texts[i], lang))).value);
      forall j :: j in done && AnsweredSingly(w, texts, lang, singles, j) ==>
        Near(put, n + 1, (texts[j], lang), FromSingle(w.answer((texts[j], lang))).value)
  {
    hide FromSingle;
    hide Lru.Put;
    hide Near;
    forall j | j in done && AnsweredSingly(w, texts, lang, singles, j)
      ensures Near(Lru.Put(cap, es, (texts[i], lang), FromSingle(w.answer((texts[i], lang))).value), n + 1,
                   (texts[j], lang), FromSingle(w.answer((texts[j], lang))).value)
    {
      PutNear(cap, es, n, (texts[j], lang), FromSingle(w.answer((texts[j], lang))).value,
              (texts[i], lang), FromSingle(w.answer((texts[i], lang))).value);
    }
  }

  /** Answered in the last round of calls: by the batch when nothing was left over for
      single calls, else by a single call. */
  predicate LastAnswered(w: Setting, texts: seq<string>, lang: string, es: Lru.Entries, batch: Batch, singles: set<int>,
                         i: nat)
    requires i < |texts|
  {
    && !batch.ApiError? && Settled(w, texts[i], lang, es).None?
    && if AfterBatch(w, texts, lang, es, batch, i).Some? then
         forall j: nat :: j < |texts| ==> AfterBatch(w, texts, lang, es, batch, j).Some?
       else AnsweredSingly(w, texts, lang, singles, i)
  }

  class Translator {
    const w: Setting
    const cache: Lru.Cache

    constructor (w: Setting, cacheMax: nat)
      ensures this.w == w && fresh(cache) && cache.cap == cacheMax && cache.entries == [] && CacheIsTrue()
    {
      this.w := w;
      cache := new Lru.Cache(cacheMax);
    }

    /** Every cache entry is a true translation. */
    ghost predicate CacheIsTrue()
      reads cache
    {
      cache.Valid() && TrueEntries(w, cache.entries)
    }

    /** Other turns run at an await: the cache may become anything they leave behind. */
    method Await()
      requires CacheIsTrue()
      modifies cache
      ensures CacheIsTrue()
    {
      var es: Lru.Entries :| Lru.Distinct(es) && |es| <= cache.cap
        && forall i :: 0 <= i < |es| ==> TrueFor(w, es[i].0, es[i].1);
      cache.entries := es;
    }

    method Remember(s: string, lang: string, v: string)
      requires CacheIsTrue() && TrueFor(w, (s, lang), v)
      modifies cache
      ensures CacheIsTrue() && cache.entries == Lru.Put(cache.cap, old(cache.entries), (s, lang), v)
    {
      ghost var op := Lru.PutOp((s, lang), v);
      ghost var before := cache.entries;
      cache.CachePut((s, lang), v);
      forall i | 0 <= i < |cache.entries| ensures TrueFor(w, cache.entries[i].0, cache.entries[i].1) {
        Lru.StepEntry(cache.cap, before, op, i);
      }
    }

    method Recall(s: string, lang: string) returns (v: Option<string>)
      requires CacheIsTrue()
      modifies cache
      ensures CacheIsTrue()
      ensures v == Cached(old(cache.entries), s, lang) && cache.entries == Lru.Get(old(cache.entries), (s, lang)).0
      ensures forall x :: Cached(cache.entries, x, lang) == Cached(old(cache.entries), x, lang)
    {
      ghost var before := cache.entries;
      v := cache.CacheGet((s, lang));
      forall x ensures Cached(cache.entries, x, lang) == Cached(before, x, lang) {
        GetKeepsCached(before, (s, lang), x, lang);
      }
      forall i | 0 <= i < |cache.entries| ensures TrueFor(w, cache.entries[i].0, cache.entries[i].1) {
        Lru.StepEntry(cache.cap, before, Lru.GetOp((s, lang)), i);
      }
    }

    /** Memo transparency: the result has the same length, and holds at each index
        what that index's own text was settled to, was answered by its path, or
        itself. So it is permitted whatever fails, and when nothing fails it is the
        plain map, up to the white space around the model's answers, and exactly so
        when they have none. What the last round of calls answered is in the cache
        afterwards, if the cache has room for the list; a call that needs no answer only
        makes its hits the newest entries. */
    method TranslateMany(texts: seq<string>, lang: string, batch: Batch, singles: set<int>) returns (r: seq<string>)
      requires CacheIsTrue()
      modifies cache
      ensures CacheIsTrue()
      ensures |r| == |texts|
      ensures !Served(lang) ==> r == texts
      ensures Served(lang) ==> forall i :: 0 <= i < |texts| ==>
        r[i] == Result(w, texts, lang, old(cache.entries), batch, singles, i)
      ensures Served(lang) ==> forall i :: 0 <= i < |texts| ==> Permitted(w, texts[i], lang, r[i])
      ensures NothingFails(w, texts, lang, batch, singles) ==>
        && (forall i :: 0 <= i < |texts| ==> Strip(r[i]) == Strip(Plain(w, texts[i], lang)))
        && (AllTrimmed(w, texts, lang) ==> forall i :: 0 <= i < |texts| ==> r[i] == Plain(w, texts[i], lang))
      ensures Served(lang) && |texts| <= cache.cap ==>
        forall i :: 0 <= i < |texts| && LastAnswered(w, texts, lang, old(cache.entries), batch, singles, i) ==>
          Cached(cache.entries, texts[i], lang) == Some(r[i])
      ensures Served(lang) && Todo(w, texts, lang, old(cache.entries)) == [] ==>
        cache.entries == Recalled(w, texts, lang, old(cache.entries))
    {
      if lang == "en" || lang !in SUPPORTED_LANGS || texts == [] {
        return texts;
      }
      ghost var es := cache.entries;
      var out, todo := Sort(texts, lang);
      TodoLists(w, texts, lang, es);
      TodoFits(w, texts, lang, es);
      if todo != [] {
        out := AskModel(texts, lang, out, todo, batch, singles, es);
      }
      hide Settled;
      hide Todo;
      hide Strip;
      hide LastAnswered;
      r := seq(|texts|, i requires 0 <= i < |texts| =>
        if 0 <= i < |out| && out[i].Some? then out[i].value else texts[i]);
      forall i | 0 <= i < |texts|
        ensures r[i] == Result(w, texts, lang, es, batch, singles, i) && Permitted(w, texts[i], lang, r[i])
        ensures NothingFails(w, texts, lang, batch, singles) ==>
          && Strip(r[i]) == Strip(Plain(w, texts[i], lang))
          && (AllTrimmed(w, texts, lang) ==> r[i] == Plain(w, texts[i], lang))
      {
        ResultIsPermitted(w, texts, lang, es, batch, singles, i);
        if NothingFails(w, texts, lang, batch, singles) {
          TranslatedIsPlain(w, texts[i], lang, r[i]);
        }
      }
    }

    /** The batched call, and then a single call for each text it missed. */
    method AskModel(texts: seq<string>, lang: string, out0: seq<Option<string>>, todo: seq<int>, batch: Batch,
                    singles: set<int>, ghost es: Lru.Entries)
      returns (out: seq<Option<string>>)
      requires CacheIsTrue() && todo != [] && |todo| <= |texts|
      requires |out0| == |texts| && forall i :: 0 <= i < |texts| ==> out0[i] == Settled(w, texts[i], lang, es)
      requires Lists(w, texts, lang, es, todo)
      modifies cache
      ensures CacheIsTrue() && |out| == |texts|
      ensures forall i :: 0 <= i < |texts| ==> out[i] == Some(Result(w, texts, lang, es, batch, singles, i))
      ensures |texts| <= cache.cap ==>
        forall i :: 0 <= i < |texts| && LastAnswered(w, texts, lang, es, batch, singles, i) ==>
          Cached(cache.entries, texts[i], lang) == out[i]
    {
      hide Settled;
      hide Todo;
      hide Strip;
      Await();
      if batch.ApiError? {
        out := KeepOriginals(texts, lang, out0, todo, es);
      } else {
        var missing;
        out, missing := TakeBatch(texts, lang, out0, todo, batch, es);
        if missing != [] {
          assert missing[0] in missing && AfterBatch(w, texts, lang, es, batch, missing[0]).None?;
          Await();
          out := TakeSingles(texts, lang, out, missing, batch, singles, es);
        }
      }
    }

    /** The first loop: fill what needs no call and list the rest. */
    method Sort(texts: seq<string>, lang: string) returns (out: seq<Option<string>>, todo: seq<int>)
      requires CacheIsTrue()
      modifies cache
      ensures CacheIsTrue()
      ensures |out| == |texts|
      ensures forall j :: 0 <= j < |texts| ==> out[j] == Settled(w, texts[j], lang, old(cache.entries))
      ensures todo == Todo(w, texts, lang, old(cache.entries))
      ensures cache.entries == Recalled(w, texts, lang, old(cache.entries))
    {
      ghost var es := cache.entries;
      out := seq(|texts|, _ => None);
      todo := [];
      for i := 0 to |texts|
        invariant CacheIsTrue() && |out| == |texts|
        invariant forall x :: Cached(cache.entries, x, lang) == Cached(es, x, lang)
        invariant forall j :: 0 <= j < i ==> out[j] == Settled(w, texts[j], lang, es)
        invariant forall j :: i <= j < |texts| ==> out[j].None?
        invariant todo == Todo(w, texts[..i], lang, es)
        invariant cache.entries == Recalled(w, texts[..i], lang, es)
      {
        var s := texts[i];
        assert texts[..i + 1][..i] == texts[..i];
        if !Translatable(s) {
          out := out[i := Some(s)];
          continue;
        }
        var glossed := Gloss(w, s, lang);
        if glossed.Some? {
          out := out[i := glossed];
          continue;
        }
        var cached := Recall(s, lang);
        if cached.Some? {
          out := out[i := cached];
        } else {
          todo := todo + [i];
        }
      }
      assert texts[..|texts|] == texts;
    }

    /** An API error keeps the originals and fires no further call. */
    method KeepOriginals(texts: seq<string>, lang: string, out0: seq<Option<string>>, todo: seq<int>,
                         ghost es: Lru.Entries)
      returns (out: seq<Option<string>>)
      requires |out0| == |texts| && forall i :: 0 <= i < |texts| ==> out0[i] == Settled(w, texts[i], lang, es)
      requires Lists(w, texts, lang, es, todo)
      ensures |out| == |texts|
      ensures forall i :: 0 <= i < |texts| ==> out[i] == if out0[i].Some? then out0[i] else Some(texts[i])
    {
      hide Settled;
      hide Todo;
      out := out0;
      for k := 0 to |todo|
        invariant |out| == |texts|
        invariant forall i :: 0 <= i < |texts| ==> out[i] == if i in todo[..k] then Some(texts[i]) else out0[i]
      {
        assert todo[..k + 1] == todo[..k] + [todo[k]];
        out := out[todo[k] := Some(texts[todo[k]])];
      }
      assert todo[..|todo|] == todo;
    }

    /** Take what the batch returned; the rest goes to single calls. */
    method TakeBatch(texts: seq<string>, lang: string, out0: seq<Option<string>>, todo: seq<int>, batch: Batch,
                     ghost es: Lru.Entries)
      returns (out: seq<Option<string>>, missing: seq<int>)
      requires CacheIsTrue()
      requires |out0| == |texts| && forall i :: 0 <= i < |texts| ==> out0[i] == Settled(w, texts[i], lang, es)
      requires Lists(w, texts, lang, es, todo)
      modifies cache
      ensures CacheIsTrue()
      ensures |out| == |texts| && |missing| <= |todo|
      ensures forall i :: 0 <= i < |texts| ==> out[i] == AfterBatch(w, texts, lang, es, batch, i)
      ensures forall i :: i in missing <==> 0 <= i < |texts| && out[i].None?
      ensures |todo| <= cache.cap ==> forall i :: 0 <= i < |texts| && out0[i].None? && out[i].Some? ==>
        Cached(cache.entries, texts[i], lang) == out[i]
    {
      hide Settled;
      hide Todo;
      hide Strip;
      out, missing := out0, [];
      for k := 0 to |todo|
        invariant CacheIsTrue() && |out| == |texts|
        invariant forall i :: 0 <= i < |texts| ==>
          out[i] == if i in todo[..k] then AfterBatch(w, texts, lang, es, batch, i) else out0[i]
        invariant forall i :: i in missing <==> i in todo[..k] && out[i].None?
        invariant |missing| <= k
        invariant |todo| <= cache.cap ==> forall i :: i in todo[..k] && out[i].Some? ==>
          Near(cache.entries, k, (texts[i], lang), out[i].value)
      {
        assert todo[..k + 1] == todo[..k] + [todo[k]];
        var i := todo[k];
        assert forall j :: 0 <= j < k ==> todo[j] != i;
        var tr := if batch.Answers? && k in batch.positions then FromBatch(w.answer((texts[i], lang))) else None;
        assert tr == AfterBatch(w, texts, lang, es, batch, i);
        ghost var before := cache.entries;
        if tr.Some? {
          Remember(texts[i], lang, tr.value);
          if |todo| <= cache.cap {
            PutNewest(cache.cap, before, (texts[i], lang), tr.value);
            forall j | j in todo[..k] && out[j].Some?
              ensures Near(cache.entries, k + 1, (texts[j], lang), out[j].value)
            {
              BatchAgrees(texts, lang, es, batch, out0, out, j, i, tr.value);
              PutNear(cache.cap, before, k, (texts[j], lang), out[j].value, (texts[i], lang), tr.value);
            }
          }
          out := out[i := tr];
        } else {
          missing := missing + [i];
        }
        hide Lru.Put;
      }
      assert todo[..|todo|] == todo;
      if |todo| <= cache.cap {
        forall i | 0 <= i < |texts| && out0[i].None? && out[i].Some?
          ensures Cached(cache.entries, texts[i], lang) == out[i]
        {
          NearIsCached(cache.entries, |todo|, texts[i], lang, out[i].value);
        }
      }
    }

    /** The batch gives one text one answer, wherever it stands in the list. */
    lemma BatchAgrees(texts: seq<string>, lang: string, es: Lru.Entries, batch: Batch, out0: seq<Option<string>>,
                      out: seq<Option<string>>, j: int, i: int, v: string)
      requires |out| == |texts| == |out0| && 0 <= i < |texts| && 0 <= j < |texts|
      requires out0[j].None? && out0[j] == Settled(w, texts[j], lang, es)
      requires out[j].Some? && out[j] == AfterBatch(w, texts, lang, es, batch, j)
      requires FromBatch(w.answer((texts[i], lang))) == Some(v)
      ensures texts[j] == texts[i] ==> out[j].value == v
    {
      hide Settled;
      hide Todo;
      hide Strip;
    }

    /** One call per missing string; a failed one keeps the original. */
    method TakeSingles(texts: seq<string>, lang: string, out0: seq<Option<string>>, missing: seq<int>, batch: Batch,
                       singles: set<int>, ghost es: Lru.Entries)
      returns (out: seq<Option<string>>)
      requires CacheIsTrue() && !batch.ApiError?
      requires |out0| == |texts|
      requires forall i :: 0 <= i < |texts| ==> out0[i] == AfterBatch(w, texts, lang, es, batch, i)
      requires forall i :: i in missing <==> 0 <= i < |texts| && out0[i].None?
      modifies cache
      ensures CacheIsTrue()
      ensures |out| == |texts|
      ensures forall i :: 0 <= i < |texts| ==> out[i] == Some(Result(w, texts, lang, es, batch, singles, i))
      ensures |missing| <= cache.cap ==>
        forall i :: i in missing && AnsweredSingly(w, texts, lang, singles, i) ==>
          Cached(cache.entries, texts[i], lang) == out[i]
    {
      hide Strip;
      hide Settled;
      hide Todo;
      hide Near;
      hide Lru.Put;
      out := out0;
      for k := 0 to |missing|
        invariant CacheIsTrue() && |out| == |texts|
        invariant forall i :: 0 <= i < |texts| ==>
          out[i] == if i in missing[..k] then Some(Result(w, texts, lang, es, batch, singles, i)) else out0[i]
        invariant |missing| <= cache.cap ==>
          forall i :: i in missing[..k] && AnsweredSingly(w, texts, lang, singles, i) ==>
            Near(cache.entries, k, (texts[i], lang), FromSingle(w.answer((texts[i], lang))).value)
      {
        assert missing[..k + 1] == missing[..k] + [missing[k]];
        var i := missing[k];
        assert i in missing;
        var tr := if i in singles then FromSingle(w.answer((texts[i], lang))) else None;
        ghost var before := cache.entries;
        if tr.Some? {
          Remember(texts[i], lang, tr.value);
          if |missing| <= cache.cap {
            PutNewest(cache.cap, before, (texts[i], lang), tr.value);
            AgesNear(cache.entries, 1, k + 1, (texts[i], lang), tr.value);
            SinglesStayNear(w, texts, lang, singles, missing[..k], cache.cap, before, k, i);
          }
          out := out[i := tr];
        } else {
          forall j | j in missing[..k] && AnsweredSingly(w, texts, lang, singles, j) && |missing| <= cache.cap
            ensures Near(cache.entries, k + 1, (texts[j], lang), FromSingle(w.answer((texts[j], lang))).value)
          {
            AgesNear(cache.entries, k, k + 1, (texts[j], lang), FromSingle(w.answer((texts[j], lang))).value);
          }
          out := out[i := Some(texts[i])];
        }
      }
      assert missing[..|missing|] == missing;
      if |missing| <= cache.cap {
        forall i | i in missing && AnsweredSingly(w, texts, lang, singles, i)
          ensures Cached(cache.entries, texts[i], lang) == out[i]
        {
          NearIsCached(cache.entries, |missing|, texts[i], lang, FromSingle(w.answer((texts[i], lang))).value);
        }
      }
    }
  }
}
