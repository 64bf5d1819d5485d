/**
 * The filename slug the commands derive from their free-text input:
 *
 *   s.toLowerCase().replace(/[^a-z0-9]+/g, '-').replace(/^-|-$/g, '').slice(0, 50)
 *
 * (image-generate, web-research, web-search, gemini) and the text-analyze
 * variant that skips the hyphen trim.
 */
module Slug {
  import opened Base

  const MaxSlugLength := 50

  /** `[a-z0-9]` */
  predicate IsSlugChar(c: char) {
    'a' <= c <= 'z' || '0' <= c <= '9'
  }

  /** ASCII `toLowerCase` of one character. */
  function LowerChar(c: char): char {
    if 'A' <= c <= 'Z' then (c as int + 32) as char else c
  }

  function Lower(s: string): (r: string)
    ensures |r| == |s| && forall i :: 0 <= i < |s| ==> r[i] == LowerChar(s[i])
  {
    seq(|s|, i requires 0 <= i < |s| => LowerChar(s[i]))
  }

  /** Drops the leading run of characters outside `[a-z0-9]`. */
  function DropRun(s: string): (r: string)
    ensures |r| <= |s| && r == s[|s| - |r|..]
    ensures r == [] || IsSlugChar(r[0])
    decreases |s|
  {
    if s == [] || IsSlugChar(s[0]) then s else DropRun(s[1..])
  }

  /** `replace(/[^a-z0-9]+/g, '-')`: each maximal run outside `[a-z0-9]` becomes one '-'. */
  function Collapse(s: string): (r: string)
    ensures |r| <= |s|
    ensures forall i :: 0 <= i < |r| ==> IsSlugChar(r[i]) || r[i] == '-'
    ensures forall i :: 0 <= i < |r| - 1 ==> !(r[i] == '-' && r[i + 1] == '-')
    ensures |r| > 0 <==> |s| > 0
    ensures |r| > 0 ==> (r[0] == '-' <==> !IsSlugChar(s[0]))
    decreases |s|
  {
    if s == [] then []
    else if IsSlugChar(s[0]) then [s[0]] + Collapse(s[1..])
    else "-" + Collapse(DropRun(s[1..]))
  }

  /** `replace(/^-|-$/g, '')`: one leading and one trailing '-' removed. */
  function TrimHyphens(s: string): string {
    var t := if |s| > 0 && s[0] == '-' then s[1..] else s;
    if |t| > 0 && t[|t| - 1] == '-' then t[..|t| - 1] else t
  }

  /** `slice(0, n)`. */
  function Cut(s: string, n: nat): (r: string)
    ensures |r| <= n && |r| <= |s| && r == s[..|r|]
    ensures |s| <= n ==> r == s
    ensures |s| > n ==> |r| == n
  {
    if |s| <= n then s else s[..n]
  }

  /** The slug used in the names of image, research, search and Gemini artifacts. */
  function Sanitize(s: string): string {
    Cut(TrimHyphens(Collapse(Lower(s))), MaxSlugLength)
  }

  /**
   * The text-analyze variant: the same, without the hyphen trim. It is
   * slug-shaped too, but may start or end with '-'.
   */
  function SanitizeKeepingHyphens(s: string): (r: string)
    ensures SlugShaped(r)
    ensures |r| <= |Collapse(Lower(s))| && r == Collapse(Lower(s))[..|r|]
  {
    Cut(Collapse(Lower(s)), MaxSlugLength)
  }

  /** At most 50 characters, all in `[a-z0-9-]`, never two '-' in a row. */
  predicate SlugShaped(r: string) {
    |r| <= MaxSlugLength && SlugText(r)
  }

  /** The characters of `s` inside `[a-z0-9]`, in order. */
  function SlugChars(s: string): (r: string)
    ensures |r| <= |s|
    decreases |s|
  {
    if s == [] then [] else (if IsSlugChar(s[0]) then [s[0]] else []) + SlugChars(s[1..])
  }

  lemma {:induction false} SlugCharsOfDropRun(s: string)
    ensures SlugChars(DropRun(s)) == SlugChars(s)
    decreases |s|
  {
    if s != [] && !IsSlugChar(s[0]) {
      SlugCharsOfDropRun(s[1..]);
    }
  }

  /** Collapsing keeps every `[a-z0-9]` character, in order, and adds only '-'. */
  lemma {:induction false} CollapseKeepsSlugChars(s: string)
    ensures SlugChars(Collapse(s)) == SlugChars(s)
    decreases |s|
  {
    if s == [] {
    } else if IsSlugChar(s[0]) {
      CollapseKeepsSlugChars(s[1..]);
      assert ([s[0]] + Collapse(s[1..]))[1..] == Collapse(s[1..]);
    } else {
      var t := DropRun(s[1..]);
      CollapseKeepsSlugChars(t);
      SlugCharsOfDropRun(s[1..]);
      assert ("-" + Collapse(t))[1..] == Collapse(t);
    }
  }

  /** Every slug is slug-shaped and never starts with '-'. */
  lemma SanitizeShape(s: string)
    ensures SlugShaped(Sanitize(s))
    ensures Sanitize(s) == [] || Sanitize(s)[0] != '-'
    ensures Sanitize(s) == TrimHyphens(Collapse(Lower(s)))[..|Sanitize(s)|]
  {
    var c := Collapse(Lower(s));
    var t := TrimHyphens(c);
    var u := if |c| > 0 && c[0] == '-' then c[1..] else c;
    assert u == c[|c| - |u|..];
    assert t == u[..|t|];
    assert |c| >= 2 && c[0] == '-' ==> c[1] != '-';
  }

  /** Only `[a-z0-9-]`, never two '-' in a row: what Collapse produces. */
  predicate SlugText(r: string) {
    && (forall i :: 0 <= i < |r| ==> IsSlugChar(r[i]) || r[i] == '-')
    && (forall i :: 0 <= i < |r| - 1 ==> !(r[i] == '-' && r[i + 1] == '-'))
  }

  lemma {:induction false} CollapseOfSlugText(r: string)
    requires SlugText(r)
    ensures Collapse(r) == r
    decreases |r|
  {
    if r != [] {
      var t := r[1..];
      assert SlugText(t) by {
        forall i | 0 <= i < |t| ensures IsSlugChar(t[i]) || t[i] == '-' {
          assert t[i] == r[i + 1];
        }
        forall i | 0 <= i < |t| - 1 ensures !(t[i] == '-' && t[i + 1] == '-') {
          assert t[i] == r[i + 1] && t[i + 1] == r[i + 2];
        }
      }
      CollapseOfSlugText(t);
      if IsSlugChar(r[0]) {
        assert r == [r[0]] + t;
      } else {
        assert t == [] || IsSlugChar(t[0]);
        assert DropRun(t) == t;
        assert r == "-" + t;
      }
    }
  }

  /**
   * The slug is idempotent exactly when it does not end in '-'. The trim runs
   * before the cut to 50 characters, so a cut that lands just after a '-'
   * leaves a trailing '-', which a second pass removes.
   */
  lemma SanitizeIdempotentIff(s: string)
    ensures var r := Sanitize(s);
      Sanitize(r) == r <==> (r == [] || r[|r| - 1] != '-')
  {
    var r := Sanitize(s);
    SanitizeShape(s);
    assert Lower(r) == r;
    CollapseOfSlugText(r);
    TrimOfUnhyphenatedStart(r);
  }

  /** A text not starting with '-' loses at most its trailing '-' to the trim. */
  lemma TrimOfUnhyphenatedStart(r: string)
    requires r == [] || r[0] != '-'
    ensures r != [] && r[|r| - 1] == '-' ==> TrimHyphens(r) == r[..|r| - 1]
    ensures r == [] || r[|r| - 1] != '-' ==> TrimHyphens(r) == r
  {
  }

  lemma {:induction false} CollapseAfterSlugWord(w: string, t: string)
    requires forall i :: 0 <= i < |w| ==> IsSlugChar(w[i])
    ensures Collapse(w + t) == w + Collapse(t)
    decreases |w|
  {
    if w != [] {
      var u := w + t;
      assert u[0] == w[0] && IsSlugChar(u[0]);
      assert u[1..] == w[1..] + t;
      CollapseAfterSlugWord(w[1..], t);
      CollapseCons(w[0], w[1..] + t);
      assert u == [w[0]] + (w[1..] + t);
      assert [w[0]] + (w[1..] + Collapse(t)) == w + Collapse(t);
    } else {
      assert w + t == t;
    }
  }

  /** A leading slug character is kept as it is. */
  lemma CollapseCons(x: char, v: string)
    requires IsSlugChar(x)
    ensures Collapse([x] + v) == [x] + Collapse(v)
  {
    assert ([x] + v)[1..] == v;
  }

  /** Any slug word, a space and a letter collapse to the word, '-' and the letter. */
  lemma CollapseOfWordSpaceLetter(w: string)
    requires forall i :: 0 <= i < |w| ==> IsSlugChar(w[i])
    ensures Collapse(Lower(w + " b")) == w + "-b"
  {
    var s := w + " b";
    LowerOfWordSpaceLetter(w);
    assert Lower(s) == s;
    CollapseOfSpaceLetter(" b");
    CollapseAfterSlugWord(w, " b");
    assert Collapse(s) == w + Collapse(" b");
  }

  /** A space and one slug character collapse to '-' and that character. */
  lemma CollapseOfSpaceLetter(b: string)
    requires |b| == 2 && b[0] == ' ' && IsSlugChar(b[1])
    ensures Collapse(b) == ['-', b[1]]
  {
    var t := b[1..];
    assert DropRun(t) == t;
    assert Collapse(t[1..]) == [];
    assert Collapse(t) == [t[0]] + Collapse(t[1..]);
  }

  lemma LowerOfWordSpaceLetter(w: string)
    requires forall i :: 0 <= i < |w| ==> IsSlugChar(w[i])
    ensures Lower(w + " b") == w + " b"
  {
    var s := w + " b";
    forall i | 0 <= i < |s| ensures Lower(s)[i] == s[i] {
      if i < |w| { assert s[i] == w[i]; }
    }
  }

  /** Any 49 slug characters, a space and a letter: the cut keeps a trailing '-'. */
  lemma SanitizeKeepsTrailingHyphen(w: string)
    requires |w| == 49 && forall i :: 0 <= i < |w| ==> IsSlugChar(w[i])
    ensures Sanitize(w + " b") == w + "-"
    ensures Sanitize(w + "-") == w
  {
    var c := Collapse(Lower(w + " b"));
    CollapseOfWordSpaceLetter(w);
    CutOfHyphenLetter(w, c);
    assert Sanitize(w + " b") == Cut(TrimHyphens(c), MaxSlugLength);
    SanitizeOfWordHyphen(w);
  }

  /** 49 slug characters, '-' and a letter: the trim keeps them all and the cut stops after the '-'. */
  lemma CutOfHyphenLetter(w: string, c: string)
    requires |w| == 49 && IsSlugChar(w[0]) && c == w + "-b"
    ensures Cut(TrimHyphens(c), MaxSlugLength) == w + "-"
  {
    assert c[0] == w[0] && c[|c| - 1] == 'b';
    TrimOfUnhyphenatedStart(c);
    assert c[..50] == w + "-";
  }

  /** A slug word and a trailing '-': lowering and collapsing keep it, the trim drops the '-'. */
  lemma SanitizeOfWordHyphen(w: string)
    requires 1 <= |w| <= 50 && forall i :: 0 <= i < |w| ==> IsSlugChar(w[i])
    ensures Sanitize(w + "-") == w
  {
    var r := w + "-";
    assert SlugText(r) by {
      forall i | 0 <= i < |r| - 1 ensures !(r[i] == '-' && r[i + 1] == '-') {
        assert r[i] == w[i];
      }
    }
    assert Lower(r) == r by {
      forall i | 0 <= i < |r| ensures Lower(r)[i] == r[i] {
        if i < |w| { assert r[i] == w[i]; }
      }
    }
    CollapseOfSlugText(r);
    assert r[0] == w[0] && r[..|r| - 1] == w;
  }

  /** A witness that the slug is not idempotent: 49 letters, a space, a letter. */
  lemma SanitizeNotIdempotent()
    ensures var s := Repeat('a', 49) + " b";
      Sanitize(s) == Repeat('a', 49) + "-" && Sanitize(Sanitize(s)) == Repeat('a', 49)
  {
    SanitizeKeepsTrailingHyphen(Repeat('a', 49));
  }
}
