/**
 * The file system the commands write into: a mutable map from path to
 * content plus the set of existing directories, and the execution of an
 * effect trace against it.
 */
module FileSystems {
  import opened Base
  import opened Paths
  import opened Effects

  /** All ancestors of a directory, itself and the root included. */
  function Prefixes(d: Segments): set<Segments> {
    set i | 0 <= i <= |d| :: d[..i]
  }

  /** The directories after performing `effects` (`mkdirp` creates every ancestor). */
  function DirsAfter(dirs: set<Segments>, effects: seq<Effect>): set<Segments>
    decreases |effects|
  {
    if effects == [] then dirs
    else
      var e := effects[0];
      DirsAfter(if e.MkDirP? then dirs + Prefixes(e.dir) else dirs, effects[1..])
  }

  /** The files after performing `effects`: each write replaces the file's content. */
  function FilesAfter(files: map<Segments, Content>, effects: seq<Effect>): map<Segments, Content>
    decreases |effects|
  {
    if effects == [] then files
    else
      var e := effects[0];
      FilesAfter(if e.Write? then files[e.dir + [e.name] := e.content] else files, effects[1..])
  }

  /** Every write in `effects` goes to a directory that exists by then. */
  predicate Prepared(dirs: set<Segments>, effects: seq<Effect>)
    decreases |effects|
  {
    effects == [] ||
    var e := effects[0];
    (e.Write? ==> e.dir in dirs) &&
    Prepared(if e.MkDirP? then dirs + Prefixes(e.dir) else dirs, effects[1..])
  }

  /** A trace whose every write comes after a `mkdirp` of its directory is prepared anywhere. */
  ghost predicate SelfPrepared(effects: seq<Effect>) {
    forall dirs :: Prepared(dirs, effects)
  }

  lemma {:induction false} FilesAfterConcat(files: map<Segments, Content>, a: seq<Effect>, b: seq<Effect>)
    ensures FilesAfter(files, a + b) == FilesAfter(FilesAfter(files, a), b)
    decreases |a|
  {
    if a != [] {
      assert (a + b)[0] == a[0] && (a + b)[1..] == a[1..] + b;
      var e := a[0];
      FilesAfterConcat(if e.Write? then files[e.dir + [e.name] := e.content] else files, a[1..], b);
    } else {
      assert a + b == b;
    }
  }

  lemma {:induction false} DirsAfterConcat(dirs: set<Segments>, a: seq<Effect>, b: seq<Effect>)
    ensures DirsAfter(dirs, a + b) == DirsAfter(DirsAfter(dirs, a), b)
    decreases |a|
  {
    if a != [] {
      assert (a + b)[0] == a[0] && (a + b)[1..] == a[1..] + b;
      var e := a[0];
      DirsAfterConcat(if e.MkDirP? then dirs + Prefixes(e.dir) else dirs, a[1..], b);
    } else {
      assert a + b == b;
    }
  }

  lemma {:induction false} PreparedConcat(dirs: set<Segments>, a: seq<Effect>, b: seq<Effect>)
    requires Prepared(dirs, a) && Prepared(DirsAfter(dirs, a), b)
    ensures Prepared(dirs, a + b)
    decreases |a|
  {
    if a != [] {
      assert (a + b)[0] == a[0] && (a + b)[1..] == a[1..] + b;
      var e := a[0];
      PreparedConcat(if e.MkDirP? then dirs + Prefixes(e.dir) else dirs, a[1..], b);
    } else {
      assert a + b == b;
    }
  }

  /** A trace of remote calls only touches nothing on disk. */
  lemma {:induction false} CallsOnly(files: map<Segments, Content>, dirs: set<Segments>, effects: seq<Effect>)
    requires forall i :: 0 <= i < |effects| ==> effects[i].Call?
    ensures FilesAfter(files, effects) == files && DirsAfter(dirs, effects) == dirs
    ensures Prepared(dirs, effects)
    decreases |effects|
  {
    if effects != [] {
      CallsOnly(files, dirs, effects[1..]);
    }
  }

  /** `mkdirp(d)` followed by a write into `d`: prepared whatever exists before, and its outcome. */
  lemma MkDirThenWrite(files: map<Segments, Content>, dirs: set<Segments>, d: Segments, name: string, c: Content)
    ensures Prepared(dirs, [MkDirP(d), Write(d, name, c)])
    ensures DirsAfter(dirs, [MkDirP(d), Write(d, name, c)]) == dirs + Prefixes(d)
    ensures FilesAfter(files, [MkDirP(d), Write(d, name, c)]) == files[d + [name] := c]
  {
    assert d == d[..|d|];
    var t := [MkDirP(d), Write(d, name, c)];
    assert t[1..] == [Write(d, name, c)];
    assert [Write(d, name, c)][1..] == [];
    assert DirsAfter(dirs + Prefixes(d), [Write(d, name, c)]) == dirs + Prefixes(d);
    assert FilesAfter(files, t) == FilesAfter(files, [Write(d, name, c)]);
    assert FilesAfter(files, [Write(d, name, c)]) == FilesAfter(files[d + [name] := c], []);
  }

  /** A trace extended by `mkdirp(d)` and a write into `d`. */
  lemma AfterMkDirThenWrite(files: map<Segments, Content>, dirs: set<Segments>, done: seq<Effect>,
                            d: Segments, name: string, c: Content)
    ensures FilesAfter(files, done + [MkDirP(d), Write(d, name, c)]) == FilesAfter(files, done)[d + [name] := c]
    ensures DirsAfter(dirs, done + [MkDirP(d), Write(d, name, c)]) == DirsAfter(dirs, done) + Prefixes(d)
    ensures Prepared(dirs, done) ==> Prepared(dirs, done + [MkDirP(d), Write(d, name, c)])
  {
    var step := [MkDirP(d), Write(d, name, c)];
    FilesAfterConcat(files, done, step);
    DirsAfterConcat(dirs, done, step);
    MkDirThenWrite(FilesAfter(files, done), DirsAfter(dirs, done), d, name, c);
    if Prepared(dirs, done) {
      PreparedConcat(dirs, done, step);
    }
  }

  /**
   * Remote requests, then `mkdirp(d)` and one write into `d`: the shape of
   * every command that saves a single record. Only that file changes.
   */
  lemma CallsThenSave(files: map<Segments, Content>, dirs: set<Segments>, calls: seq<Effect>,
                      d: Segments, name: string, c: Content)
    requires forall i :: 0 <= i < |calls| ==> calls[i].Call?
    ensures FilesAfter(files, calls + [MkDirP(d), Write(d, name, c)]) == files[d + [name] := c]
    ensures Prepared(dirs, calls + [MkDirP(d), Write(d, name, c)])
  {
    CallsOnly(files, dirs, calls);
    AfterMkDirThenWrite(files, dirs, calls, d, name, c);
  }

  class FileSystem {
    var files: map<Segments, Content>
    var dirs: set<Segments>

    /** The root exists, directories are closed under ancestors, every file sits in a directory. */
    ghost predicate Valid()
      reads this
    {
      && [] in dirs
      && (forall d | d in dirs :: Prefixes(d) <= dirs)
      && (forall f | f in files :: |f| >= 1 && f[..|f| - 1] in dirs)
    }

    constructor()
      ensures Valid() && files == map[] && dirs == {[]}
    {
      files := map[];
      dirs := {[]};
    }

    /** The content of a file, if it exists. */
    function Read(p: Segments): (r: Option<Content>)
      reads this
      ensures r.Some? <==> p in files
    {
      if p in files then Some(files[p]) else None
    }

    /** `mkdirp(dir)` / `fs.mkdirSync(dir, { recursive: true })`. */
    method MkDirP(d: Segments)
      requires Valid()
      modifies this
      ensures Valid()
      ensures dirs == old(dirs) + Prefixes(d) && files == old(files)
      ensures d in dirs
    {
      assert d == d[..|d|];
      dirs := dirs + Prefixes(d);
      forall x | x in Prefixes(d) ensures Prefixes(x) <= dirs {
        var i :| 0 <= i <= |d| && x == d[..i];
        forall y | y in Prefixes(x) ensures y in Prefixes(d) {
          var j :| 0 <= j <= |x| && y == x[..j];
          assert y == d[..j];
        }
      }
    }

    /** `fs.writeFileSync(path.join(dir, name), content)`: creates or replaces the file. */
    method WriteFile(d: Segments, name: string, c: Content)
      requires Valid() && d in dirs
      modifies this
      ensures Valid()
      ensures files == old(files)[d + [name] := c] && dirs == old(dirs)
    {
      files := files[d + [name] := c];
      assert (d + [name])[..|d + [name]| - 1] == d;
    }

    /** Performs the file-system effects of a trace in order; remote calls leave it unchanged. */
    method Perform(effects: seq<Effect>)
      requires Valid() && Prepared(dirs, effects)
      modifies this
      ensures Valid()
      ensures files == FilesAfter(old(files), effects)
      ensures dirs == DirsAfter(old(dirs), effects)
    {
      var i := 0;
      while i < |effects|
        invariant 0 <= i <= |effects|
        invariant Valid() && Prepared(dirs, effects[i..])
        invariant FilesAfter(files, effects[i..]) == FilesAfter(old(files), effects)
        invariant DirsAfter(dirs, effects[i..]) == DirsAfter(old(dirs), effects)
      {
        var e := effects[i];
        assert effects[i..][0] == e && effects[i..][1..] == effects[i + 1..];
        match e {
          case MkDirP(d) => MkDirP(d);
          case Write(d, name, c) => WriteFile(d, name, c);
          case Call(_) =>
        }
        i := i + 1;
      }
    }
  }
}
