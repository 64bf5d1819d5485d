/**
 * The integer statistics of `analyzeText` and `estimateSyllables`
 * (src/commands/TextAnalyzeCommand.js): regular-expression runs (words,
 * whitespace, sentence punctuation), line and paragraph counts, reading time,
 * the word-frequency table, the top-20 ordering and the readability level.
 */
module TextStats {
  import opened Base
  import opened Slug
  import opened PropertyOrder

  // ---------------------------------------------------------------------
  // Character classes and maximal runs

  /** The character classes the regular expressions use. */
  datatype Class = WordClass | SpaceClass | PunctClass

  /** `\w`: ASCII letters, digits and '_'. */
  predicate IsWordChar(c: char) {
    'a' <= c <= 'z' || 'A' <= c <= 'Z' || '0' <= c <= '9' || c == '_'
  }

  /** `[.!?]` */
  predicate IsPunct(c: char) {
    c == '.' || c == '!' || c == '?'
  }

  predicate In(c: char, cls: Class) {
    match cls
    case WordClass => IsWordChar(c)
    case SpaceClass => IsSpace(c)
    case PunctClass => IsPunct(c)
  }

  /** The length of the run of `cls` characters at the start of `s`. */
  function RunLength(s: string, cls: Class): (n: nat)
    ensures n <= |s|
    ensures forall i :: 0 <= i < n ==> In(s[i], cls)
    ensures n < |s| ==> !In(s[n], cls)
    decreases |s|
  {
    if s == [] || !In(s[0], cls) then 0 else 1 + RunLength(s[1..], cls)
  }

  /** The maximal runs of `cls` characters, in order: what `s.match(/c+/g)` returns. */
  function Runs(s: string, cls: Class): seq<string>
    decreases |s|
  {
    if s == [] then []
    else if !In(s[0], cls) then Runs(s[1..], cls)
    else
      var n := RunLength(s, cls);
      [s[..n]] + Runs(s[n..], cls)
  }

  /** Every element of `Runs` is a non-empty stretch of `cls` characters. */
  lemma {:induction false} RunsAreRuns(s: string, cls: Class)
    ensures forall i :: 0 <= i < |Runs(s, cls)| ==>
      (&& Runs(s, cls)[i] != []
       && forall j :: 0 <= j < |Runs(s, cls)[i]| ==> In(Runs(s, cls)[i][j], cls))
    decreases |s|
  {
    if s != [] {
      if !In(s[0], cls) {
        RunsAreRuns(s[1..], cls);
      } else {
        RunsAreRuns(s[RunLength(s, cls)..], cls);
      }
    }
  }

  lemma {:induction false} RunLengthConcat(a: string, t: string, cls: Class)
    requires t == [] || !In(t[0], cls)
    ensures RunLength(a + t, cls) == RunLength(a, cls)
    decreases |a|
  {
    if a == [] {
      assert a + t == t;
    } else {
      assert (a + t)[0] == a[0] && (a + t)[1..] == a[1..] + t;
      if In(a[0], cls) {
        RunLengthConcat(a[1..], t, cls);
      }
    }
  }

  /** A character outside the class separates the runs on its two sides. */
  lemma {:induction false} RunsSplitAt(a: string, c: char, b: string, cls: Class)
    requires !In(c, cls)
    ensures Runs(a + [c] + b, cls) == Runs(a, cls) + Runs(b, cls)
    decreases |a|, 1
  {
    var s := a + [c] + b;
    if a == [] {
      assert s[0] == c && s[1..] == b;
    } else if !In(a[0], cls) {
      assert s[0] == a[0] && s[1..] == a[1..] + [c] + b;
      RunsSplitAt(a[1..], c, b, cls);
    } else {
      RunsSplitAtRun(a, c, b, cls);
    }
  }

  /** The case of `RunsSplitAt` where `a` starts with a run. */
  lemma {:induction false} RunsSplitAtRun(a: string, c: char, b: string, cls: Class)
    requires !In(c, cls) && a != [] && In(a[0], cls)
    ensures Runs(a + [c] + b, cls) == Runs(a, cls) + Runs(b, cls)
    decreases |a|, 0
  {
    var t := [c] + b;
    var n := RunLength(a, cls);
    calc {
      Runs(a + [c] + b, cls);
      { assert a + [c] + b == a + t; }
      Runs(a + t, cls);
      { RunLengthConcat(a, t, cls); RunsAtRun(a + t, cls); SliceFacts(a, t, n); }
      [a[..n]] + Runs(a[n..] + t, cls);
      { assert a[n..] + t == a[n..] + [c] + b; RunsSplitAt(a[n..], c, b, cls); }
      [a[..n]] + (Runs(a[n..], cls) + Runs(b, cls));
      { SeqAssoc([a[..n]], Runs(a[n..], cls), Runs(b, cls)); RunsAtRun(a, cls); }
      Runs(a, cls) + Runs(b, cls);
    }
  }

  /** One step of `Runs` at the start of a run. */
  lemma RunsAtRun(s: string, cls: Class)
    requires s != [] && In(s[0], cls)
    ensures Runs(s, cls) == [s[..RunLength(s, cls)]] + Runs(s[RunLength(s, cls)..], cls)
  {
  }

  lemma SliceFacts(a: string, t: string, n: nat)
    requires n <= |a|
    ensures (a + t)[..n] == a[..n] && (a + t)[n..] == a[n..] + t
  {
  }

  lemma SeqAssoc<T>(x: seq<T>, y: seq<T>, z: seq<T>)
    ensures x + (y + z) == (x + y) + z
  {
  }

  /** A text made only of characters of the class is one run. */
  lemma OneRun(w: string, cls: Class)
    requires w != [] && forall i :: 0 <= i < |w| ==> In(w[i], cls)
    ensures Runs(w, cls) == [w]
  {
    assert RunLength(w, cls) == |w| by {
      AllInRun(w, cls);
    }
    assert w[..|w|] == w && w[|w|..] == [];
  }

  lemma {:induction false} AllInRun(w: string, cls: Class)
    requires forall i :: 0 <= i < |w| ==> In(w[i], cls)
    ensures RunLength(w, cls) == |w|
    decreases |w|
  {
    if w != [] {
      AllInRun(w[1..], cls);
    }
  }

  // ---------------------------------------------------------------------
  // Counts

  /** `text.match(/\b\w+\b/g) || []`: the maximal runs of word characters. */
  function Words(text: string): seq<string> {
    Runs(text, WordClass)
  }

  /** `text.split('\n').length`. */
  function LineCount(text: string): (n: nat)
    ensures n == CountChar(text, '\n') + 1
  {
    |Split(text, '\n')|
  }

  /** The number of `/\n\s*\n/` matches: whitespace runs holding at least two line feeds. */
  function ParagraphBreaks(spaceRuns: seq<string>): (n: nat)
    ensures n <= |spaceRuns|
    decreases |spaceRuns|
  {
    if spaceRuns == [] then 0
    else (if CountChar(spaceRuns[0], '\n') >= 2 then 1 else 0) + ParagraphBreaks(spaceRuns[1..])
  }

  /**
   * `text.split(/\n\s*\n/).length`. Every match lies inside one whitespace
   * run: it starts at the run's first line feed and, \s* being greedy, ends
   * at its last one; so each run with two or more line feeds is one match.
   */
  function ParagraphCount(text: string): (n: nat)
    ensures n >= 1
  {
    ParagraphBreaks(Runs(text, SpaceClass)) + 1
  }

  /** `(text.match(/[.!?]+/g) || []).length || 1`. */
  function SentenceCount(text: string): (n: nat)
    ensures n >= 1
    ensures |Runs(text, PunctClass)| > 0 ==> n == |Runs(text, PunctClass)|
  {
    var k := |Runs(text, PunctClass)|;
    if k == 0 then 1 else k
  }

  /** `Math.max(1, Math.ceil(words / 200))`. */
  function ReadingTime(words: nat): (m: nat)
    ensures m >= 1
    ensures words > 0 ==> (m - 1) * 200 < words <= m * 200
  {
    if words == 0 then 1 else (words + 199) / 200
  }

  /** `Buffer.byteLength(text, 'utf8')`: 1 to 4 bytes per code point. */
  function Utf8Length(text: string): (n: nat)
    decreases |text|
  {
    if text == [] then 0
    else
      var c := text[0] as int;
      (if c < 0x80 then 1 else if c < 0x800 then 2 else if c < 0x10000 then 3 else 4) + Utf8Length(text[1..])
  }

  /** `text.length`: UTF-16 code units, two for a code point above U+FFFF. */
  function Utf16Length(text: string): (n: nat)
    decreases |text|
  {
    if text == [] then 0 else (if text[0] as int < 0x10000 then 1 else 2) + Utf16Length(text[1..])
  }

  /** `[aeiouy]` with the `i` flag. */
  predicate IsVowel(c: char) {
    LowerChar(c) in "aeiouy"
  }

  function VowelCount(text: string): (n: nat)
    ensures n <= |text|
    decreases |text|
  {
    if text == [] then 0 else (if IsVowel(text[0]) then 1 else 0) + VowelCount(text[1..])
  }

  /** `(text.match(/e$/gi) || []).length`: without the `m` flag `$` is the end of the text only. */
  function SilentE(text: string): (n: nat)
    ensures n <= 1
  {
    if text != [] && LowerChar(text[|text| - 1]) == 'e' then 1 else 0
  }

  /** `estimateSyllables`: `Math.max(1, vowels - silentE)`. */
  function Syllables(text: string): (n: nat)
    ensures n >= 1
  {
    var d := VowelCount(text) - SilentE(text);
    if d < 1 then 1 else d
  }

  // ---------------------------------------------------------------------
  // Word frequency

  /** The frequency key of a word: lower-cased, kept only when longer than 2. */
  function Key(w: string): string {
    Lower(w)
  }

  /** `wordFreq` after the words so far. */
  function FreqOf(words: seq<string>): map<string, nat>
    decreases |words|
  {
    if words == [] then map[]
    else
      var m := FreqOf(words[..|words| - 1]);
      var k := Key(words[|words| - 1]);
      if |k| > 2 then m[k := (if k in m then m[k] else 0) + 1] else m
  }

  /** The keys of `wordFreq` in insertion order. */
  function KeysOf(words: seq<string>): seq<string>
    decreases |words|
  {
    if words == [] then []
    else
      var ks := KeysOf(words[..|words| - 1]);
      var k := Key(words[|words| - 1]);
      if |k| > 2 && k !in FreqOf(words[..|words| - 1]) then ks + [k] else ks
  }

  /** How many of the words have key `k`. */
  function Occurrences(words: seq<string>, k: string): (n: nat)
    ensures n <= |words|
    decreases |words|
  {
    if words == [] then 0
    else Occurrences(words[..|words| - 1], k) + (if Key(words[|words| - 1]) == k then 1 else 0)
  }

  /**
   * The `forEach` over the words: each key longer than two characters is
   * counted, and a key seen for the first time is appended to the key order.
   */
  method CountWords(words: seq<string>) returns (freq: map<string, nat>, keys: seq<string>)
    ensures freq == FreqOf(words) && keys == KeysOf(words)
  {
    freq := map[];
    keys := [];
    var i := 0;
    while i < |words|
      invariant 0 <= i <= |words|
      invariant freq == FreqOf(words[..i]) && keys == KeysOf(words[..i])
    {
      assert words[..i + 1][..i] == words[..i];
      var lower := Lower(words[i]);
      if |lower| > 2 {
        if lower !in freq {
          keys := keys + [lower];
        }
        freq := freq[lower := (if lower in freq then freq[lower] else 0) + 1];
      }
      i := i + 1;
    }
    assert words[..|words|] == words;
  }

  /** The table counts each key longer than two characters exactly as often as it occurs. */
  lemma {:induction false} FreqCounts(words: seq<string>, k: string)
    ensures k in FreqOf(words) <==> |k| > 2 && Occurrences(words, k) > 0
    ensures k in FreqOf(words) ==> FreqOf(words)[k] == Occurrences(words, k)
    decreases |words|
  {
    if words != [] {
      FreqCounts(words[..|words| - 1], k);
    }
  }

  /** The key order lists every key of the table exactly once. */
  lemma {:induction false} KeysOfTable(words: seq<string>)
    ensures forall k :: k in KeysOf(words) <==> k in FreqOf(words)
    ensures forall i, j :: 0 <= i < j < |KeysOf(words)| ==> KeysOf(words)[i] != KeysOf(words)[j]
    decreases |words|
  {
    if words != [] {
      KeysOfTable(words[..|words| - 1]);
    }
  }

  // ---------------------------------------------------------------------
  // Ordering

  datatype Entry = Entry(word: string, count: nat)

  /** `Object.entries(wordFreq)` for the given key order (`OwnKeys` of the assignment order). */
  function Entries(freq: map<string, nat>, keys: seq<string>): (r: seq<Entry>)
    requires forall i :: 0 <= i < |keys| ==> keys[i] in freq
    ensures |r| == |keys|
    ensures forall i :: 0 <= i < |keys| ==> r[i] == Entry(keys[i], freq[keys[i]])
    decreases |keys|
  {
    if keys == [] then [] else [Entry(keys[0], freq[keys[0]])] + Entries(freq, keys[1..])
  }

  /** Non-increasing by count. */
  predicate Descending(s: seq<Entry>) {
    forall i, j :: 0 <= i < j < |s| ==> s[i].count >= s[j].count
  }

  /** The entries with count `c`, in order. */
  function WithCount(s: seq<Entry>, c: nat): seq<Entry>
    decreases |s|
  {
    if s == [] then [] else (if s[0].count == c then [s[0]] else []) + WithCount(s[1..], c)
  }

  /** Places `e` before the first entry whose count is not larger, so it stays ahead of its equals. */
  function Insert(e: Entry, s: seq<Entry>): (r: seq<Entry>)
    ensures multiset(r) == multiset(s) + multiset{e}
    ensures |r| == |s| + 1
    decreases |s|
  {
    if s == [] || s[0].count <= e.count then [e] + s
    else
      assert s == [s[0]] + s[1..];
      [s[0]] + Insert(e, s[1..])
  }

  /** `.sort((a, b) => b[1] - a[1])`, a stable sort by descending count. */
  function SortDescending(s: seq<Entry>): (r: seq<Entry>)
    ensures multiset(r) == multiset(s)
    ensures |r| == |s|
    decreases |s|
  {
    if s == [] then []
    else
      assert s == [s[0]] + s[1..];
      Insert(s[0], SortDescending(s[1..]))
  }

  lemma {:induction false} InsertDescending(e: Entry, s: seq<Entry>)
    requires Descending(s)
    ensures Descending(Insert(e, s))
    decreases |s|
  {
    if s != [] && s[0].count > e.count {
      InsertDescending(e, s[1..]);
      var r := Insert(e, s[1..]);
      assert multiset(r) == multiset(s[1..]) + multiset{e};
      forall j | 0 <= j < |r| ensures s[0].count >= r[j].count {
        assert r[j] in multiset(r);
        if r[j] != e {
          assert r[j] in multiset(s[1..]);
          var k :| 0 <= k < |s[1..]| && s[1..][k] == r[j];
          assert s[k + 1] == r[j];
        }
      }
    }
  }

  lemma {:induction false} InsertWithCount(e: Entry, s: seq<Entry>, c: nat)
    ensures WithCount(Insert(e, s), c) == (if e.count == c then [e] else []) + WithCount(s, c)
    decreases |s|
  {
    if s == [] || s[0].count <= e.count {
      assert ([e] + s)[1..] == s;
    } else {
      var r := Insert(e, s[1..]);
      assert ([s[0]] + r)[1..] == r;
      InsertWithCount(e, s[1..], c);
    }
  }

  /**
   * The sort is the stable descending sort: its result is in non-increasing
   * order, and the entries of each count appear in their original order.
   */
  lemma {:induction false} SortIsStable(s: seq<Entry>, c: nat)
    ensures Descending(SortDescending(s))
    ensures WithCount(SortDescending(s), c) == WithCount(s, c)
    decreases |s|
  {
    if s != [] {
      SortIsStable(s[1..], c);
      InsertDescending(s[0], SortDescending(s[1..]));
      InsertWithCount(s[0], SortDescending(s[1..]), c);
    }
  }

  /** `.slice(0, 20).map(([word]) => word)`. */
  function FirstWords(s: seq<Entry>, n: nat): (r: seq<string>)
    ensures |r| == if |s| < n then |s| else n
    ensures forall i :: 0 <= i < |r| ==> r[i] == s[i].word
    decreases n
  {
    if s == [] || n == 0 then [] else [s[0].word] + FirstWords(s[1..], n - 1)
  }

  const TopCount := 20

  /** `Object.entries(freq).sort(...).slice(0, 20).map(([word]) => word)` for the key order `keys`. */
  function TopOf(freq: map<string, nat>, keys: seq<string>): (r: seq<string>)
    requires forall i :: 0 <= i < |keys| ==> keys[i] in freq
    ensures |r| <= TopCount
  {
    FirstWords(SortDescending(Entries(freq, keys)), TopCount)
  }

  /** `topWords`: the entries are listed in `Object.entries` order, then sorted. */
  function TopWords(words: seq<string>): (r: seq<string>)
    ensures |r| <= TopCount
  {
    KeysOfTable(words);
    OwnKeysOrder(KeysOf(words));
    TopOf(FreqOf(words), OwnKeys(KeysOf(words)))
  }

  /** The first `n` words of a descending permutation of a table's entries. */
  lemma {:induction false} FirstOfSorted(f: map<string, nat>, es: seq<Entry>, sorted: seq<Entry>, n: nat)
    requires forall i :: 0 <= i < |es| ==> es[i].word in f && es[i].count == f[es[i].word]
    requires multiset(sorted) == multiset(es) && Descending(sorted)
    ensures var top := FirstWords(sorted, n);
      && (forall i :: 0 <= i < |top| ==> top[i] in f && f[top[i]] == sorted[i].count)
      && (forall i, j :: 0 <= i < j < |top| ==> f[top[i]] >= f[top[j]])
      && (forall p :: 0 <= p < |es| && es[p].word !in top ==>
            |top| == n && forall i :: 0 <= i < n ==> f[top[i]] >= es[p].count)
  {
    var top := FirstWords(sorted, n);
    forall i | 0 <= i < |sorted| ensures sorted[i].word in f && f[sorted[i].word] == sorted[i].count {
      assert sorted[i] in multiset(es);
      var k :| 0 <= k < |es| && es[k] == sorted[i];
    }
    forall p | 0 <= p < |es| && es[p].word !in top
      ensures |top| == n && forall i :: 0 <= i < n ==> f[top[i]] >= es[p].count
    {
      assert es[p] in multiset(sorted);
      var q :| 0 <= q < |sorted| && sorted[q] == es[p];
      assert q >= |top|;
      forall i | 0 <= i < n ensures f[top[i]] >= es[p].count {
        assert sorted[i].count >= sorted[q].count;
      }
    }
  }

  /** The selection over any table and any key order listing its keys. */
  lemma TopOfIsTop(f: map<string, nat>, keys: seq<string>)
    requires forall i :: 0 <= i < |keys| ==> keys[i] in f
    requires forall k :: k in f ==> k in keys
    ensures var top := TopOf(f, keys);
      && (forall i :: 0 <= i < |top| ==> top[i] in f)
      && (forall i, j :: 0 <= i < j < |top| ==> f[top[i]] >= f[top[j]])
      && (forall k :: k in f && k !in top ==> |top| == TopCount && forall i :: 0 <= i < TopCount ==> f[top[i]] >= f[k])
  {
    TopOfByPosition(f, keys);
    var top := TopOf(f, keys);
    forall k | k in f && k !in top
      ensures |top| == TopCount && forall i :: 0 <= i < TopCount ==> f[top[i]] >= f[k]
    {
      var p :| 0 <= p < |keys| && keys[p] == k;
    }
  }

  /** `TopOfIsTop`, with the left-out keys named by their position in `keys`. */
  lemma TopOfByPosition(f: map<string, nat>, keys: seq<string>)
    requires forall i :: 0 <= i < |keys| ==> keys[i] in f
    ensures var top := TopOf(f, keys);
      && (forall i :: 0 <= i < |top| ==> top[i] in f)
      && (forall i, j :: 0 <= i < j < |top| ==> f[top[i]] >= f[top[j]])
      && (forall p :: 0 <= p < |keys| && keys[p] !in top ==>
            |top| == TopCount && forall i :: 0 <= i < TopCount ==> f[top[i]] >= f[keys[p]])
  {
    var es := Entries(f, keys);
    var sorted := SortDescending(es);
    SortIsStable(es, 0);
    FirstOfSorted(f, es, sorted, TopCount);
    var top := TopOf(f, keys);
    assert top == FirstWords(sorted, TopCount);
    forall p | 0 <= p < |keys| && keys[p] !in top
      ensures |top| == TopCount && forall i :: 0 <= i < TopCount ==> f[top[i]] >= f[keys[p]]
    {
      assert es[p].word == keys[p] && es[p].count == f[keys[p]];
    }
  }

  /**
   * The top words are table keys in non-increasing order of count, and a key
   * left out has a count no larger than every one of the twenty kept.
   */
  lemma TopWordsAreTop(words: seq<string>)
    ensures forall i :: 0 <= i < |TopWords(words)| ==> TopWords(words)[i] in FreqOf(words)
    ensures forall i, j :: 0 <= i < j < |TopWords(words)| ==>
      FreqOf(words)[TopWords(words)[i]] >= FreqOf(words)[TopWords(words)[j]]
    ensures forall k :: k in FreqOf(words) && k !in TopWords(words) ==>
      |TopWords(words)| == TopCount && forall i :: 0 <= i < TopCount ==> FreqOf(words)[TopWords(words)[i]] >= FreqOf(words)[k]
  {
    KeysOfTable(words);
    OwnKeysOrder(KeysOf(words));
    TopOfIsTop(FreqOf(words), OwnKeys(KeysOf(words)));
  }

  lemma TwoWordsTable(w: string, d: string)
    requires Key(w) == w && Key(d) == d && |w| > 2 && |d| > 2 && w != d
    ensures FreqOf([w, d]) == map[w := 1, d := 1] && KeysOf([w, d]) == [w, d]
  {
    assert [w, d][..1] == [w] && [w][..0] == [];
    assert FreqOf([w]) == map[w := 1];
    assert KeysOf([w]) == [w];
  }

  lemma TopOfTied(f: map<string, nat>, d: string, w: string)
    requires d in f && w in f && f[d] == f[w]
    ensures TopOf(f, [d, w]) == [d, w]
  {
    var es := Entries(f, [d, w]);
    assert es == [Entry(d, f[d]), Entry(w, f[w])];
    assert es[1..] == [Entry(w, f[w])];
    assert SortDescending([Entry(w, f[w])]) == [Entry(w, f[w])];
    assert SortDescending(es) == es;
  }

  /**
   * Two words seen once each: an array-index word is listed first although it
   * was counted second, and the stable sort keeps it there.
   */
  lemma IndexWordFirst(w: string, d: string)
    requires Key(w) == w && Key(d) == d && |w| > 2 && |d| > 2
    requires !IsArrayIndex(w) && IsArrayIndex(d)
    ensures TopWords([w, d]) == [d, w]
  {
    TwoWordsTable(w, d);
    OwnKeysOfTwo(w, d);
    TopOfTied(map[w := 1, d := 1], d, w);
  }

  /** The words of "hello 2024": "2024" is the first top word. */
  lemma NumberWordFirst()
    ensures TopWords(["hello", "2024"]) == ["2024", "hello"]
  {
    assert DigitsValue("2024") == 2024 by {
      assert "2024"[..3] == "202" && "202"[..2] == "20" && "20"[..1] == "2" && "2"[..0] == "";
    }
    assert !IsArrayIndex("hello") by { assert !IsDigit("hello"[0]); }
    IndexWordFirst("hello", "2024");
  }

  // ---------------------------------------------------------------------
  // Readability

  /** `Math.max(0, Math.min(100, x))`. */
  function Clamp(x: real): (r: real)
    ensures 0.0 <= r <= 100.0
    ensures 0.0 <= x <= 100.0 ==> r == x
  {
    if x < 0.0 then 0.0 else if x > 100.0 then 100.0 else x
  }

  /**
   * The simplified Flesch reading-ease score, clamped to [0, 100]. With no
   * words `syllables / words` is +Infinity, so the score is clamped to 0.
   */
  function ReadabilityScore(words: nat, sentences: nat, syllables: nat): (r: real)
    requires sentences >= 1
    ensures 0.0 <= r <= 100.0
    ensures words == 0 ==> r == 0.0
  {
    if words == 0 then 0.0
    else Clamp(206.835 - 1.015 * (words as real / sentences as real) - 84.6 * (syllables as real / words as real))
  }

  /** `Math.round` of a non-negative value: halves round up. */
  function Round(x: real): (n: int)
    requires x >= 0.0
    ensures n >= 0 && n as real - 0.5 <= x < n as real + 0.5
  {
    (x + 0.5).Floor
  }

  const Levels: seq<string> := [
    "Very Easy (5th grade)", "Easy (6th grade)", "Fairly Easy (7th grade)",
    "Standard (8th - 9th grade)", "Fairly Difficult (10th - 12th grade)",
    "Difficult (College)", "Very Difficult (College graduate)"]

  /** The thresholds 90, 80, 70, 60, 50 and 30, checked from the top. */
  function LevelIndex(score: real): (i: nat)
    ensures i < |Levels|
  {
    if score >= 90.0 then 0 else if score >= 80.0 then 1 else if score >= 70.0 then 2
    else if score >= 60.0 then 3 else if score >= 50.0 then 4 else if score >= 30.0 then 5 else 6
  }

  function Level(score: real): (l: string)
    ensures l in Levels && l != ""
  {
    Levels[LevelIndex(score)]
  }

  /** A higher score never gives a harder level, and the level's band contains the score. */
  lemma LevelMonotone(a: real, b: real)
    requires a <= b
    ensures LevelIndex(b) <= LevelIndex(a)
  {
  }

  /** Each label belongs to exactly one band of scores. */
  lemma LevelBands(score: real)
    ensures var i := LevelIndex(score);
      var lower := [90.0, 80.0, 70.0, 60.0, 50.0, 30.0];
      (i < 6 ==> score >= lower[i]) && (i > 0 ==> score < lower[i - 1])
  {
  }

  // ---------------------------------------------------------------------
  // The analysis

  /** The fields of `analyzeText`'s result. */
  datatype Analysis = Analysis(
    bytes: nat, chars: nat, words: nat, lines: nat, paragraphs: nat, sentences: nat,
    avgWordLength: real, readingTime: nat, topWords: seq<string>, readabilityScore: int,
    readabilityLevel: string)

  function TotalLength(words: seq<string>): (n: nat)
    decreases |words|
  {
    if words == [] then 0 else |words[0]| + TotalLength(words[1..])
  }

  /** The mean word length, 0 for a text without words. */
  function AverageLength(ws: seq<string>): (r: real)
    ensures r >= 0.0
  {
    if |ws| > 0 then TotalLength(ws) as real / |ws| as real else 0.0
  }

  /** `analyzeText(text)`, with exact arithmetic for the average and the score. */
  function Analyze(text: string): (a: Analysis)
    ensures a.words == |Words(text)| && a.lines == CountChar(text, '\n') + 1
    ensures a.sentences >= 1 && a.paragraphs >= 1 && a.readingTime >= 1
    ensures |a.topWords| <= TopCount && a.readabilityLevel in Levels
    ensures 0 <= a.readabilityScore <= 100 && a.avgWordLength >= 0.0
  {
    var ws := Words(text);
    var sentences := SentenceCount(text);
    var score := ReadabilityScore(|ws|, sentences, Syllables(text));
    Analysis(Utf8Length(text), Utf16Length(text), |ws|, LineCount(text), ParagraphCount(text), sentences,
             AverageLength(ws),
             ReadingTime(|ws|), TopWords(ws), Round(score), Level(score))
  }

  // ---------------------------------------------------------------------
  // Properties

  /** Two texts joined by a separator that is not a word character: the words of each, in order. */
  lemma WordsOfJoin(a: string, c: char, b: string)
    requires !IsWordChar(c)
    ensures Words(a + [c] + b) == Words(a) + Words(b)
  {
    RunsSplitAt(a, c, b, WordClass);
  }

  /** Joining texts with a line feed adds their line counts. */
  lemma LinesOfJoin(a: string, b: string)
    ensures LineCount(a + "\n" + b) == LineCount(a) + LineCount(b)
  {
    SplitGlue(a, '\n', b);
  }

  /** Every paragraph break takes two line feeds, so there are never more paragraphs than lines. */
  lemma ParagraphsAtMostLines(text: string)
    ensures ParagraphCount(text) <= LineCount(text)
  {
    BreaksNeedLineFeeds(text);
  }

  lemma {:induction false} CountCharConcat(a: string, b: string, c: char)
    ensures CountChar(a + b, c) == CountChar(a, c) + CountChar(b, c)
    decreases |b|
  {
    if b == [] {
      assert a + b == a;
    } else {
      var b' := b[..|b| - 1];
      assert (a + b)[..|a + b| - 1] == a + b';
      CountCharConcat(a, b', c);
    }
  }

  lemma {:induction false} BreaksNeedLineFeeds(s: string)
    ensures 2 * ParagraphBreaks(Runs(s, SpaceClass)) <= CountChar(s, '\n')
    decreases |s|
  {
    if s != [] {
      if !IsSpace(s[0]) {
        BreaksNeedLineFeeds(s[1..]);
        CountCharConcat([s[0]], s[1..], '\n');
        assert [s[0]] + s[1..] == s;
      } else {
        var n := RunLength(s, SpaceClass);
        var rs := Runs(s, SpaceClass);
        assert rs[0] == s[..n] && rs[1..] == Runs(s[n..], SpaceClass);
        BreaksNeedLineFeeds(s[n..]);
        CountCharConcat(s[..n], s[n..], '\n');
        assert s[..n] + s[n..] == s;
      }
    }
  }

  /** A text with no line feed holds one line and one paragraph. */
  lemma SingleLine(text: string)
    requires '\n' !in text
    ensures LineCount(text) == 1 && ParagraphCount(text) == 1
  {
    CountCharZero(text, '\n');
    BreaksNeedLineFeeds(text);
  }

  /** A code point never takes more UTF-16 units than UTF-8 bytes, and ASCII text takes one of each. */
  lemma {:induction false} CharsAtMostBytes(text: string)
    ensures Utf16Length(text) <= Utf8Length(text)
    ensures (forall i :: 0 <= i < |text| ==> text[i] as int < 0x80) ==> Utf16Length(text) == Utf8Length(text) == |text|
    decreases |text|
  {
    if text != [] {
      CharsAtMostBytes(text[1..]);
    }
  }

  /** The silent-e correction removes at most one syllable, and only for a text ending in 'e' or 'E'. */
  lemma SyllablesBounds(text: string)
    ensures Syllables(text) == (if VowelCount(text) - SilentE(text) < 1 then 1 else VowelCount(text) - SilentE(text))
    ensures SilentE(text) == 1 ==> VowelCount(text) >= 1
  {
    if SilentE(text) == 1 {
      LastVowel(text);
    }
  }

  lemma {:induction false} LastVowel(text: string)
    requires text != [] && IsVowel(text[|text| - 1])
    ensures VowelCount(text) >= 1
    decreases |text|
  {
    if !IsVowel(text[0]) {
      LastVowel(text[1..]);
    }
  }

  /** Text without words is read in one minute and scores 0, the hardest level. */
  lemma NoWords(text: string)
    requires Words(text) == []
    ensures Analyze(text).readingTime == 1 && Analyze(text).readabilityScore == 0
    ensures Analyze(text).readabilityLevel == "Very Difficult (College graduate)"
    ensures Analyze(text).topWords == []
  {
  }

  /** Words joined by single spaces come back out as the same words. */
  lemma {:induction false} WordsOfSpacedWords(ws: seq<string>)
    requires forall i :: 0 <= i < |ws| ==> ws[i] != [] && forall j :: 0 <= j < |ws[i]| ==> IsWordChar(ws[i][j])
    ensures Words(Join(ws, " ")) == ws
    decreases |ws|
  {
    if ws == [] {
    } else if |ws| == 1 {
      OneRun(ws[0], WordClass);
    } else {
      WordsOfSpacedWords(ws[1..]);
      OneRun(ws[0], WordClass);
      WordsOfJoin(ws[0], ' ', Join(ws[1..], " "));
      assert Join(ws, " ") == ws[0] + [' '] + Join(ws[1..], " ");
    }
  }

  /** A separator at the end, or at the start, adds no word. */
  lemma WordsAroundSeparator(a: string, c: char)
    requires !IsWordChar(c)
    ensures Words(a + [c]) == Words(a) && Words([c] + a) == Words(a)
  {
    WordsOfJoin(a, c, []);
    assert a + [c] + [] == a + [c];
    assert Words([]) == [];
    WordsOfJoin([], c, a);
    assert [] + [c] + a == [c] + a;
  }

  /** Two sentences of spaced words: the full stops and the space between them only separate. */
  lemma WordsOfTwoSentences(first: seq<string>, second: seq<string>)
    requires forall i :: 0 <= i < |first| ==> first[i] != [] && forall j :: 0 <= j < |first[i]| ==> IsWordChar(first[i][j])
    requires forall i :: 0 <= i < |second| ==> second[i] != [] && forall j :: 0 <= j < |second[i]| ==> IsWordChar(second[i][j])
    ensures Words(Join(first, " ") + ". " + Join(second, " ") + ".") == first + second
  {
    var a := Join(first, " ");
    var b := Join(second, " ");
    WordsOfSpacedWords(first);
    WordsOfSpacedWords(second);
    var tail := b + ".";
    assert Words(tail) == second by {
      WordsAroundSeparator(b, '.');
    }
    assert Words(" " + tail) == second by {
      WordsAroundSeparator(tail, ' ');
    }
    WordsOfJoin(a, '.', " " + tail);
    TwoSentencesConcat(a, b);
  }

  lemma TwoSentencesConcat(a: string, b: string)
    ensures a + ". " + b + "." == a + ['.'] + (" " + (b + "."))
  {
  }

  /** "The quick brown fox. It jumps." holds six words: the full stops separate, they are not words. */
  lemma QuickBrownFoxHasSixWords(text: string)
    requires text == "The quick brown fox. It jumps."
    ensures |Words(text)| == 6
  {
    var first := ["The", "quick", "brown", "fox"];
    var second := ["It", "jumps"];
    JoinOfFox(first, second);
    assert text == Join(first, " ") + ". " + Join(second, " ") + ".";
    SixFromFourAndTwo(text, first, second);
  }

  lemma JoinOfFox(first: seq<string>, second: seq<string>)
    requires first == ["The", "quick", "brown", "fox"] && second == ["It", "jumps"]
    ensures Join(first, " ") == "The quick brown fox"
    ensures Join(second, " ") == "It jumps"
  {
    assert Join(first[3..], " ") == "fox";
    assert Join(first[2..], " ") == "brown fox";
    assert Join(first[1..], " ") == "quick brown fox";
    assert Join(second[1..], " ") == "jumps";
  }

  lemma SixFromFourAndTwo(text: string, first: seq<string>, second: seq<string>)
    requires |first| == 4 && |second| == 2
    requires forall i :: 0 <= i < |first| ==> first[i] != [] && forall j :: 0 <= j < |first[i]| ==> IsWordChar(first[i][j])
    requires forall i :: 0 <= i < |second| ==> second[i] != [] && forall j :: 0 <= j < |second[i]| ==> IsWordChar(second[i][j])
    requires text == Join(first, " ") + ". " + Join(second, " ") + "."
    ensures |Words(text)| == 6
  {
    WordsOfTwoSentences(first, second);
  }
}
