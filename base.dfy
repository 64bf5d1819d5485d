/**
 * JavaScript values, truthiness and the string helpers the commands share.
 *
 * An argument bag (`options` in every command) is a map from field name to a
 * JavaScript value; `undefined` is the absence of the key.
 */
module Base {

  datatype Option<T> = None | Some(value: T) {
    function GetOr(default: T): T {
      match this
      case Some(v) => v
      case None => default
    }
  }

  /** A completed computation: its value, or the message of the Error it threw. */
  datatype Result<T> = Ok(value: T) | Err(message: string)

  /** The JavaScript values an argument bag can hold. */
  datatype Value =
    | Str(s: string)
    | Num(n: int)
    | NaN
    | Bool(b: bool)
    | List(items: seq<Value>)

  type Options = map<string, Value>

  /** JavaScript truthiness: "", 0, NaN and false are falsy; arrays are truthy. */
  predicate Truthy(v: Value) {
    match v
    case Str(s) => s != ""
    case Num(n) => n != 0
    case NaN => false
    case Bool(b) => b
    case List(_) => true
  }

  /** `options[key]`, with None for undefined. */
  function Field(o: Options, key: string): Option<Value> {
    if key in o then Some(o[key]) else None
  }

  /** `a || b` where either side may be undefined. */
  function Or(a: Option<Value>, b: Option<Value>): (r: Option<Value>)
    ensures a.Some? && Truthy(a.value) ==> r == a
    ensures !(a.Some? && Truthy(a.value)) ==> r == b
  {
    if a.Some? && Truthy(a.value) then a else b
  }

  /**
   * `options._?.[0]`: the first positional argument, or the first character
   * when `_` is a string; undefined for an empty one and for other values.
   */
  function FirstPositional(o: Options): Option<Value> {
    if "_" !in o then None
    else match o["_"]
      case List(items) => if |items| > 0 then Some(items[0]) else None
      case Str(s) => if s != "" then Some(Str(s[..1])) else None
      case _ => None
  }

  /** `_[0]` of an array, of a string, and of anything else. */
  lemma FirstPositionalCases(o: Options)
    ensures "_" in o && o["_"].List? && |o["_"].items| > 0 ==> FirstPositional(o) == Some(o["_"].items[0])
    ensures "_" in o && o["_"].Str? && o["_"].s != "" ==> FirstPositional(o) == Some(Str(o["_"].s[..1]))
    ensures FirstPositional(o).Some? ==> "_" in o && (o["_"].List? || o["_"].Str?)
  {
  }

  /** `options[key] || fallback`. */
  function FieldOr(o: Options, key: string, fallback: Value): Value {
    Or(Field(o, key), Some(fallback)).value
  }

  /**
   * The string selected by `options[key] || options._?.[0]` when that value is
   * a non-empty string; None when the command's `if (!x) throw` check fires.
   */
  function TextArg(o: Options, key: string): (r: Option<string>)
    ensures r.Some? ==> r.value != ""
    ensures key in o && o[key].Str? && o[key].s != "" ==> r == Some(o[key].s)
    ensures (key !in o || !Truthy(o[key])) && FirstPositional(o).None? ==> r.None?
  {
    var v := Or(Field(o, key), FirstPositional(o));
    if v.Some? && v.value.Str? && v.value.s != "" then Some(v.value.s) else None
  }

  /** A string as the positional argument stands for its first character alone. */
  lemma PositionalString(o: Options, key: string, s: string)
    requires key !in o && "_" in o && o["_"] == Str(s) && s != ""
    ensures TextArg(o, key) == Some([s[0]])
  {
    FirstPositionalCases(o);
    assert s[..1] == [s[0]];
  }

  /** `{"_": "cats"}` searches for "c". */
  lemma PositionalCats()
    ensures TextArg(map["_" := Str("cats")], "query") == Some("c")
  {
    PositionalString(map["_" := Str("cats")], "query", "cats");
  }

  // ---------------------------------------------------------------------
  // Decimal numerals

  predicate IsDigit(c: char) {
    '0' <= c <= '9'
  }

  predicate AllDigits(s: string) {
    forall i :: 0 <= i < |s| ==> IsDigit(s[i])
  }

  function DigitChar(d: nat): (c: char)
    requires d < 10
    ensures IsDigit(c)
  {
    (48 + d) as char
  }

  function DigitValue(c: char): (d: nat)
    requires IsDigit(c)
    ensures d < 10
  {
    (c as int) - 48
  }

  /** `${n}` for a natural number. */
  function NatToString(n: nat): (s: string)
    ensures |s| >= 1 && AllDigits(s)
    ensures (|s| == 1) == (n < 10)
    ensures s[0] == '0' ==> n == 0
    decreases n
  {
    if n < 10 then [DigitChar(n)] else NatToString(n / 10) + [DigitChar(n % 10)]
  }

  /** The value of a string of decimal digits (the inverse of NatToString). */
  function DigitsValue(s: string): nat
    requires AllDigits(s)
    decreases |s|
  {
    if s == [] then 0 else DigitsValue(s[..|s| - 1]) * 10 + DigitValue(s[|s| - 1])
  }

  lemma {:induction false} DigitsValueOfNatToString(n: nat)
    ensures DigitsValue(NatToString(n)) == n
    decreases n
  {
    if n >= 10 {
      DigitsValueOfNatToString(n / 10);
      var s := NatToString(n);
      assert s[..|s| - 1] == NatToString(n / 10);
    }
  }

  /** Decimal numerals of distinct numbers are distinct. */
  lemma NatToStringInjective(a: nat, b: nat)
    requires NatToString(a) == NatToString(b)
    ensures a == b
  {
    DigitsValueOfNatToString(a);
    DigitsValueOfNatToString(b);
  }

  /** `${n}` for an integer. */
  function IntToString(n: int): string {
    if n < 0 then "-" + NatToString(-n) else NatToString(n)
  }

  /** JavaScript's `String(v)`, as a template literal renders a value. */
  function ValueText(v: Value): string
    decreases v
  {
    match v
    case Str(s) => s
    case Num(n) => IntToString(n)
    case NaN => "NaN"
    case Bool(b) => if b then "true" else "false"
    case List(items) =>
      Join(seq(|items|, i requires 0 <= i < |items| => ValueText(items[i])), ",")
  }

  // ---------------------------------------------------------------------
  // Strings

  /** `parts.join(sep)`. */
  function Join(parts: seq<string>, sep: string): string
    decreases |parts|
  {
    if parts == [] then ""
    else if |parts| == 1 then parts[0]
    else parts[0] + sep + Join(parts[1..], sep)
  }

  /** Joining a concatenation puts one separator between the two joins. */
  lemma {:induction false} JoinAppend(a: seq<string>, b: seq<string>, sep: string)
    requires a != [] && b != []
    ensures Join(a + b, sep) == Join(a, sep) + sep + Join(b, sep)
    decreases |a|
  {
    if |a| == 1 {
      assert (a + b)[1..] == b;
    } else {
      JoinAppend(a[1..], b, sep);
      assert (a + b)[1..] == a[1..] + b;
    }
  }

  /** `lines.join('\n')`. */
  function Lines(lines: seq<string>): string {
    Join(lines, "\n")
  }

  /** `lines.filter(line => line !== '')`. */
  function DropEmpty(lines: seq<string>): seq<string>
    decreases |lines|
  {
    if lines == [] then []
    else if lines[0] == "" then DropEmpty(lines[1..])
    else [lines[0]] + DropEmpty(lines[1..])
  }

  /** DropEmpty keeps exactly the non-empty lines. */
  lemma {:induction false} DropEmptyFacts(lines: seq<string>)
    ensures forall i :: 0 <= i < |DropEmpty(lines)| ==> DropEmpty(lines)[i] != ""
    ensures forall x :: x in DropEmpty(lines) <==> x in lines && x != ""
    decreases |lines|
  {
    if lines != [] {
      DropEmptyFacts(lines[1..]);
      assert lines == [lines[0]] + lines[1..];
    }
  }

  /** DropEmpty, one line at the front. */
  lemma DropEmptyCons(x: string, rest: seq<string>)
    ensures DropEmpty([x] + rest) == (if x == "" then [] else [x]) + DropEmpty(rest)
  {
    assert ([x] + rest)[1..] == rest;
  }

  /** `c.repeat(n)`. */
  function Repeat(c: char, n: nat): (r: string)
    ensures |r| == n && forall i :: 0 <= i < n ==> r[i] == c
  {
    seq(n, _ => c)
  }

  predicate StartsWith(s: string, prefix: string) {
    |prefix| <= |s| && s[..|prefix|] == prefix
  }

  predicate EndsWith(s: string, suffix: string) {
    |suffix| <= |s| && s[|s| - |suffix|..] == suffix
  }

  /** `sub` occurs in `s` starting at position `j`. */
  predicate OccursAt(s: string, sub: string, j: nat) {
    j + |sub| <= |s| && s[j..j + |sub|] == sub
  }

  /** The index of the first occurrence of `sub` in `s` at or after position `k`. */
  function IndexFrom(s: string, sub: string, k: nat): (r: Option<nat>)
    ensures r.Some? ==> k <= r.value && OccursAt(s, sub, r.value)
    ensures r.Some? ==> forall j :: k <= j < r.value ==> !OccursAt(s, sub, j)
    ensures r.None? ==> forall j :: k <= j ==> !OccursAt(s, sub, j)
    decreases |s| + 1 - k
  {
    if k + |sub| > |s| then None
    else if OccursAt(s, sub, k) then Some(k)
    else IndexFrom(s, sub, k + 1)
  }

  /** `s.indexOf(sub)`, None for -1. */
  function IndexOf(s: string, sub: string): Option<nat> {
    IndexFrom(s, sub, 0)
  }

  /** `s.includes(sub)`. */
  predicate Contains(s: string, sub: string) {
    IndexOf(s, sub).Some?
  }

  /** `s.replace(sub, replacement)` with a string pattern: only the first occurrence. */
  function ReplaceFirst(s: string, sub: string, replacement: string): string {
    match IndexOf(s, sub)
    case None => s
    case Some(i) => s[..i] + replacement + s[i + |sub|..]
  }

  /** Number of occurrences of character `c` in `s`. */
  function CountChar(s: string, c: char): (r: nat)
    ensures r <= |s|
    decreases |s|
  {
    if s == [] then 0 else CountChar(s[..|s| - 1], c) + (if s[|s| - 1] == c then 1 else 0)
  }

  /** A character is counted zero times exactly when it does not occur. */
  lemma {:induction false} CountCharZero(s: string, c: char)
    ensures CountChar(s, c) == 0 <==> c !in s
    decreases |s|
  {
    if s != [] {
      var init := s[..|s| - 1];
      CountCharZero(init, c);
      assert s == init + [s[|s| - 1]];
    }
  }

  /** The ECMAScript white space and line terminators: what `\s` matches and what `trim` and `Number` strip. */
  predicate IsSpace(c: char) {
    var n := c as int;
    (0x09 <= n <= 0x0D) || n == 0x20 || n == 0xA0 || n == 0x1680 || (0x2000 <= n <= 0x200A)
    || n == 0x2028 || n == 0x2029 || n == 0x202F || n == 0x205F || n == 0x3000 || n == 0xFEFF
  }

  predicate AllSpace(s: string) {
    forall i :: 0 <= i < |s| ==> IsSpace(s[i])
  }

  /** `s.trimStart()`: the suffix after the leading white space. */
  function TrimStart(s: string): (r: string)
    ensures |r| <= |s| && r == s[|s| - |r|..]
    decreases |s|
  {
    if s != [] && IsSpace(s[0]) then TrimStart(s[1..]) else s
  }

  /** `s.trimEnd()`: the prefix before the trailing white space. */
  function TrimEnd(s: string): (r: string)
    ensures |r| <= |s| && r == s[..|r|]
    decreases |s|
  {
    if s != [] && IsSpace(s[|s| - 1]) then TrimEnd(s[..|s| - 1]) else s
  }

  /** `s.trim()`. */
  function Trim(s: string): string {
    TrimEnd(TrimStart(s))
  }

  /** `trimStart` removes white space only, and all of it at the front. */
  lemma {:induction false} TrimStartShape(s: string)
    ensures AllSpace(s[..|s| - |TrimStart(s)|])
    ensures TrimStart(s) != [] ==> !IsSpace(TrimStart(s)[0])
    decreases |s|
  {
    if s != [] && IsSpace(s[0]) {
      TrimStartShape(s[1..]);
      var r := TrimStart(s[1..]);
      assert s[..|s| - |r|] == [s[0]] + s[1..][..|s[1..]| - |r|];
    }
  }

  /** `trimEnd` removes white space only, and all of it at the back. */
  lemma {:induction false} TrimEndShape(s: string)
    ensures AllSpace(s[|TrimEnd(s)|..])
    ensures TrimEnd(s) != [] ==> !IsSpace(TrimEnd(s)[|TrimEnd(s)| - 1])
    decreases |s|
  {
    if s != [] && IsSpace(s[|s| - 1]) {
      TrimEndShape(s[..|s| - 1]);
      var r := TrimEnd(s[..|s| - 1]);
      assert s[|r|..] == s[..|s| - 1][|r|..] + [s[|s| - 1]];
    }
  }

  /** Trimming removes exactly the white space around a text that starts and ends with another character. */
  lemma TrimPadded(pre: string, x: string, post: string)
    requires AllSpace(pre) && AllSpace(post)
    requires x != [] && !IsSpace(x[0]) && !IsSpace(x[|x| - 1])
    ensures Trim(pre + x + post) == x
  {
    assert pre + x + post == pre + (x + post);
    TrimStartPadded(pre, x + post);
    TrimEndPadded(x, post);
  }

  lemma {:induction false} TrimStartPadded(pre: string, y: string)
    requires AllSpace(pre) && y != [] && !IsSpace(y[0])
    ensures TrimStart(pre + y) == y
    decreases |pre|
  {
    if pre == [] {
      assert pre + y == y;
    } else {
      assert (pre + y)[0] == pre[0] && (pre + y)[1..] == pre[1..] + y;
      TrimStartPadded(pre[1..], y);
    }
  }

  lemma {:induction false} TrimEndPadded(x: string, post: string)
    requires AllSpace(post) && x != [] && !IsSpace(x[|x| - 1])
    ensures TrimEnd(x + post) == x
    decreases |post|
  {
    if post == [] {
      assert x + post == x;
    } else {
      var p := post[..|post| - 1];
      assert (x + post)[|x + post| - 1] == post[|post| - 1] && (x + post)[..|x + post| - 1] == x + p;
      TrimEndPadded(x, p);
    }
  }

  /** `s.split(c)` for a one-character separator. */
  function Split(s: string, c: char): (r: seq<string>)
    ensures |r| == CountChar(s, c) + 1
    ensures forall i :: 0 <= i < |r| ==> c !in r[i]
    decreases |s|
  {
    if s == [] then [""]
    else
      var init := Split(s[..|s| - 1], c);
      if s[|s| - 1] == c then init + [""]
      else init[..|init| - 1] + [init[|init| - 1] + [s[|s| - 1]]]
  }

  /** No part holds the character `c`. */
  predicate Free(parts: seq<string>, c: char) {
    forall i :: 0 <= i < |parts| ==> c !in parts[i]
  }

  // ---------------------------------------------------------------------
  // Splitting undoes joining

  /** Split, one character at the end. */
  function SplitSnoc(pieces: seq<string>, x: char, c: char): seq<string>
    requires |pieces| >= 1
  {
    if x == c then pieces + [""]
    else pieces[..|pieces| - 1] + [pieces[|pieces| - 1] + [x]]
  }

  lemma SplitOfSnoc(s: string, x: char, c: char)
    ensures Split(s + [x], c) == SplitSnoc(Split(s, c), x, c)
  {
    assert (s + [x])[..|s + [x]| - 1] == s;
  }

  lemma SplitSnocAfter(p: seq<string>, q: seq<string>, x: char, c: char)
    requires |q| >= 1
    ensures SplitSnoc(p + q, x, c) == p + SplitSnoc(q, x, c)
  {
    if x != c {
      assert (p + q)[..|p + q| - 1] == p + q[..|q| - 1];
    }
  }

  /** Splitting at a separator distributes over text glued by that separator. */
  lemma {:induction false} SplitGlue(a: string, c: char, b: string)
    ensures Split(a + [c] + b, c) == Split(a, c) + Split(b, c)
    decreases |b|
  {
    if b == [] {
      SplitOfSnoc(a, c, c);
      assert a + [c] + b == a + [c];
    } else {
      var b' := b[..|b| - 1];
      var x := b[|b| - 1];
      SplitGlue(a, c, b');
      var u := a + [c] + b';
      assert a + [c] + b == u + [x];
      assert b == b' + [x];
      calc {
        Split(u + [x], c);
        { SplitOfSnoc(u, x, c); }
        SplitSnoc(Split(a, c) + Split(b', c), x, c);
        { SplitSnocAfter(Split(a, c), Split(b', c), x, c); }
        Split(a, c) + SplitSnoc(Split(b', c), x, c);
        { SplitOfSnoc(b', x, c); }
        Split(a, c) + Split(b' + [x], c);
      }
    }
  }

  lemma {:induction false} SplitWithout(s: string, c: char)
    requires c !in s
    ensures Split(s, c) == [s]
    decreases |s|
  {
    if s != [] {
      var s' := s[..|s| - 1];
      assert c !in s' by {
        forall i | 0 <= i < |s'| ensures s'[i] != c {
          assert s'[i] == s[i];
        }
      }
      SplitWithout(s', c);
      assert s == s' + [s[|s| - 1]];
      SplitOfSnoc(s', s[|s| - 1], c);
    }
  }

  /** Splitting undoes joining, for parts that do not hold the separator. */
  lemma {:induction false} SplitJoin(parts: seq<string>, c: char)
    requires |parts| >= 1 && Free(parts, c)
    ensures Split(Join(parts, [c]), c) == parts
    decreases |parts|
  {
    if |parts| == 1 {
      SplitWithout(parts[0], c);
    } else {
      SplitJoin(parts[1..], c);
      SplitWithout(parts[0], c);
      assert Join(parts, [c]) == parts[0] + [c] + Join(parts[1..], [c]);
      SplitGlue(parts[0], c, Join(parts[1..], [c]));
      assert parts == [parts[0]] + parts[1..];
    }
  }
}
