/**
 * POSIX path handling as the commands and the HTTP front end use it:
 * `path.join` onto an absolute directory, `path.resolve`, `path.basename` and
 * `path.extname`. A normalised absolute path is kept as its list of segments
 * below the root; `Render` prints it.
 */
module Paths {
  import opened Base

  /** An absolute, normalised path as its segments: "/srv/app" is ["srv", "app"]. */
  type Segments = seq<string>

  /** A segment that normalisation keeps as it is. */
  predicate Plain(seg: string) {
    seg != "" && seg != "." && seg != ".." && '/' !in seg
  }

  predicate AllPlain(segs: Segments) {
    forall i :: 0 <= i < |segs| ==> Plain(segs[i])
  }

  predicate NoSlash(parts: seq<string>) {
    Free(parts, '/')
  }

  /** The path string: "/" for the root, "/a/b" otherwise. */
  function Render(segs: Segments): string {
    "/" + Join(segs, "/")
  }

  /** One step of normalisation: "" and "." stay, ".." goes up (never above the root). */
  function Step(dir: Segments, s: string): Segments {
    if s == "" || s == "." then dir
    else if s == ".." then (if dir == [] then [] else dir[..|dir| - 1])
    else dir + [s]
  }

  /** Applies the segments of a relative path, left to right, to a directory. */
  function Walk(dir: Segments, steps: seq<string>): (r: Segments)
    ensures AllPlain(dir) && NoSlash(steps) ==> AllPlain(r)
    decreases |steps|
  {
    if steps == [] then dir else Walk(Step(dir, steps[0]), steps[1..])
  }

  /** `path.join(Render(dir), rel)`. */
  function JoinPath(dir: Segments, rel: string): Segments {
    Walk(dir, Split(rel, '/'))
  }

  /** `path.resolve(p)` in working directory `cwd`. */
  function Resolve(cwd: Segments, p: string): Segments {
    if |p| > 0 && p[0] == '/' then Walk([], Split(p, '/')) else Walk(cwd, Split(p, '/'))
  }

  /** `path.basename` of a normalised path: its last segment, "" for the root. */
  function Basename(segs: Segments): string {
    if segs == [] then "" else segs[|segs| - 1]
  }

  /** Index of the last '.' in `s`. */
  function LastDot(s: string): (r: Option<nat>)
    ensures r.Some? ==> r.value < |s| && s[r.value] == '.'
    ensures r.Some? ==> forall j :: r.value < j < |s| ==> s[j] != '.'
    ensures r.None? ==> '.' !in s
    decreases |s|
  {
    if s == [] then None
    else if s[|s| - 1] == '.' then Some(|s| - 1)
    else LastDot(s[..|s| - 1])
  }

  /**
   * `path.extname` of a file name: from its last '.' on, or "" when there is
   * no '.', when the only candidate is the leading '.', or for "..".
   */
  function Extname(name: string): (r: string)
    ensures r == [] || (r[0] == '.' && EndsWith(name, r) && |r| < |name|)
  {
    match LastDot(name)
    case None => ""
    case Some(i) => if i == 0 || name == ".." then "" else name[i..]
  }

  /** `path.basename(p, path.extname(p))`. */
  function Stem(name: string): (r: string)
    ensures r + Extname(name) == name
  {
    name[..|name| - |Extname(name)|]
  }

  // ---------------------------------------------------------------------
  // Joining plain names is appending segments

  lemma {:induction false} WalkPlain(dir: Segments, steps: seq<string>)
    requires AllPlain(steps)
    ensures Walk(dir, steps) == dir + steps
    decreases |steps|
  {
    if steps != [] {
      WalkPlain(dir + [steps[0]], steps[1..]);
      assert dir + [steps[0]] + steps[1..] == dir + steps;
    }
  }

  /**
   * `path.join(Render(dir), "a/b/…")` for plain names appends them: the
   * commands' artifact paths are the working directory followed by their
   * plain sub-directories and file name.
   */
  lemma JoinPlain(dir: Segments, names: seq<string>)
    requires |names| >= 1 && AllPlain(names)
    ensures JoinPath(dir, Join(names, "/")) == dir + names
  {
    SplitJoin(names, '/');
    WalkPlain(dir, names);
  }

  /** A rendered path splits back into the empty root piece and its segments. */
  lemma RenderSplit(segs: Segments)
    requires segs != [] && NoSlash(segs)
    ensures Split(Render(segs), '/') == [""] + segs
  {
    SplitJoin(segs, '/');
    SplitGlue("", '/', Join(segs, "/"));
    assert Render(segs) == "" + ['/'] + Join(segs, "/");
  }
}
