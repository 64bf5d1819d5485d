/**
 * ImageGenerateCommand (src/commands/ImageGenerateCommand.js): generates
 * images, saves one artifact per result under images/ and a metadata record
 * listing them under references/AI feedback/.
 */
module ImageGenerateCommand {
  import opened Base
  import opened Slug
  import opened Paths
  import opened Effects
  import opened FileSystems
  import opened OpenAiImage

  const MissingPrompt := "image-generate requires a prompt argument"

  /** `path.join(process.cwd(), 'images')`. */
  function ImagesDir(cwd: Segments): Segments {
    cwd + ["images"]
  }

  /** `path.join(process.cwd(), 'references', 'AI feedback')`. */
  function FeedbackDir(cwd: Segments): Segments {
    cwd + ["references", "AI feedback"]
  }

  /** `.png` for an inline image, `.url.txt` for a link, `.json` for a raw item. */
  function Extension(r: ImageResult): (e: string)
    ensures |e| > 0 && e[0] == '.'
  {
    match r
    case Inline(_) => ".png"
    case Link(_) => ".url.txt"
    case RawItem(_) => ".json"
  }

  /** The decoded image, the URL, or the item's JSON. */
  function ArtifactContent(r: ImageResult): Content {
    match r
    case Inline(b64) => Base64Image(b64)
    case Link(url) => Text(url)
    case RawItem(item) => Text(item.json)
  }

  /** `${ts}-${base}-${i + 1}` and the result's extension. */
  function ArtifactName(ts: nat, base: string, i: nat, r: ImageResult): string {
    NatToString(ts) + "-" + base + "-" + NatToString(i + 1) + Extension(r)
  }

  /** Saving result `i`: `mkdirp` of images/, then the write. */
  function ArtifactStep(cwd: Segments, ts: nat, base: string, i: nat, r: ImageResult): seq<Effect> {
    [MkDirP(ImagesDir(cwd)), Write(ImagesDir(cwd), ArtifactName(ts, base, i, r), ArtifactContent(r))]
  }

  /** What saving the first `k` results does. */
  function ArtifactEffects(cwd: Segments, ts: nat, base: string, results: seq<ImageResult>, k: nat): (e: seq<Effect>)
    requires k <= |results|
    ensures |e| == 2 * k
    decreases k
  {
    if k == 0 then []
    else ArtifactEffects(cwd, ts, base, results, k - 1) + ArtifactStep(cwd, ts, base, k - 1, results[k - 1])
  }

  /** `outPath` of result `i`: `path.join(process.cwd(), 'images', filename)`. */
  function SavedPath(cwd: Segments, ts: nat, base: string, i: nat, r: ImageResult): string {
    Render(ImagesDir(cwd) + [ArtifactName(ts, base, i, r)])
  }

  /** The `saved` array after the first `k` results: each artifact's path, in result order. */
  function SavedPaths(cwd: Segments, ts: nat, base: string, results: seq<ImageResult>, k: nat): (s: seq<string>)
    requires k <= |results|
    ensures |s| == k
    ensures forall i :: 0 <= i < k ==> s[i] == SavedPath(cwd, ts, base, i, results[i])
    decreases k
  {
    if k == 0 then [] else SavedPaths(cwd, ts, base, results, k - 1) + [SavedPath(cwd, ts, base, k - 1, results[k - 1])]
  }

  function MetadataName(ts: nat, base: string): string {
    NatToString(ts) + "-" + base + "-images.txt"
  }

  /** The metadata lines; "Images Generated" shows the requested `n`, not the number saved. */
  function MetadataLines(prompt: string, model: Value, size: Value, n: Value, iso: string, saved: seq<string>): (lines: seq<string>)
    ensures |lines| == 7 + |saved| && lines[7..] == saved
  {
    ["Prompt: " + prompt, "Model: " + ValueText(model), "Size: " + ValueText(size),
     "Images Generated: " + ValueText(n), "Timestamp: " + iso, "", "Files:"] + saved
  }

  /** `options.size || '1024x1024'`: a falsy size asks for the default. */
  function Size(o: Options): (v: Value)
    ensures Truthy(v)
    ensures "size" in o && Truthy(o["size"]) ==> v == o["size"]
    ensures !("size" in o && Truthy(o["size"])) ==> v == Str("1024x1024")
  {
    FieldOr(o, "size", Str("1024x1024"))
  }

  /** `options.n || 1`: a falsy count, 0 included, asks for one image. */
  function Count(o: Options): (v: Value)
    ensures Truthy(v)
    ensures "n" in o && Truthy(o["n"]) ==> v == o["n"]
    ensures !("n" in o && Truthy(o["n"])) ==> v == Num(1)
  {
    FieldOr(o, "n", Num(1))
  }

  /** `options.model || 'dall-e-3'`. */
  function Model(o: Options): (v: Value)
    ensures Truthy(v)
    ensures "model" in o && Truthy(o["model"]) ==> v == o["model"]
    ensures !("model" in o && Truthy(o["model"])) ==> v == Str("dall-e-3")
  {
    FieldOr(o, "model", Str("dall-e-3"))
  }

  /** The request `execute` makes. */
  function Request(o: Options, prompt: string): Effect {
    Call(ImageGeneration(Model(o), prompt, Size(o), Count(o)))
  }

  /**
   * `execute(options)`: the prompt check, `generateImage`, one artifact per
   * result and the metadata record; errors from `generateImage` are rethrown
   * unchanged.
   */
  function ImageGenerate(o: Options, env: Env, cwd: Segments, clock: Clock, reply: Reply<ImagesBody>): (r: Run<()>)
    ensures TextArg(o, "prompt").None? ==> r == Throw(MissingPrompt)
    ensures TextArg(o, "prompt").Some? && env.openAiKey == "" ==> r == Throw(OpenAiImage.MissingKey)
    ensures TextArg(o, "prompt").Some? && env.openAiKey != "" ==>
      |r.effects| >= 1 && r.effects[0] == Request(o, TextArg(o, "prompt").value)
    ensures r.result.Err? ==> NoWrites(r.effects)
    ensures r.result.Ok? ==> reply.Answered? && reply.body.data.Some? && TextArg(o, "prompt").Some?
    ensures r.result.Ok? ==>
      var prompt := TextArg(o, "prompt").value;
      var results := ToResults(reply.body.data.value);
      var base := Sanitize(prompt);
      r.effects == [Request(o, prompt)] + ArtifactEffects(cwd, clock.now, base, results, |results|)
        + [MkDirP(FeedbackDir(cwd)), Write(FeedbackDir(cwd), MetadataName(clock.now, base),
             Text(Lines(MetadataLines(prompt, Model(o), Size(o), Count(o), clock.iso, SavedPaths(cwd, clock.now, base, results, |results|)))))]
  {
    match TextArg(o, "prompt")
    case None => Throw(MissingPrompt)
    case Some(prompt) =>
      var gen := GenerateImage(prompt, Some(Model(o)), Some(Size(o)), Some(Count(o)), env.openAiKey, reply);
      match gen.result
      case Err(m) => Run(gen.effects, Err(m))
      case Ok(results) =>
        var base := Sanitize(prompt);
        var ts := clock.now;
        var saved := SavedPaths(cwd, ts, base, results, |results|);
        var meta := Lines(MetadataLines(prompt, Model(o), Size(o), Count(o), clock.iso, saved));
        Run(gen.effects + ArtifactEffects(cwd, ts, base, results, |results|)
              + [MkDirP(FeedbackDir(cwd)), Write(FeedbackDir(cwd), MetadataName(ts, base), Text(meta))],
            Ok(()))
  }

  /**
   * The artifact loop over a file system: for each result in order, `mkdirp`
   * images/, write the artifact and push its path onto `saved`.
   */
  method SaveImages(fs: FileSystem, cwd: Segments, ts: nat, base: string, results: seq<ImageResult>)
    returns (saved: seq<string>)
    requires fs.Valid()
    modifies fs
    ensures fs.Valid()
    ensures saved == SavedPaths(cwd, ts, base, results, |results|)
    ensures fs.files == FilesAfter(old(fs.files), ArtifactEffects(cwd, ts, base, results, |results|))
    ensures fs.dirs == DirsAfter(old(fs.dirs), ArtifactEffects(cwd, ts, base, results, |results|))
  {
    saved := [];
    var prefix := NatToString(ts) + "-" + base + "-";
    var dir := ImagesDir(cwd);
    for i := 0 to |results|
      invariant fs.Valid()
      invariant saved == SavedPaths(cwd, ts, base, results, i)
      invariant fs.files == FilesAfter(old(fs.files), ArtifactEffects(cwd, ts, base, results, i))
      invariant fs.dirs == DirsAfter(old(fs.dirs), ArtifactEffects(cwd, ts, base, results, i))
    {
      var r := results[i];
      var ext: string;
      var content: Content;
      if r.Inline? {
        ext, content := ".png", Base64Image(r.b64);
      } else if r.Link? {
        ext, content := ".url.txt", Text(r.url);
      } else {
        ext, content := ".json", Text(r.item.json);
      }
      var filename := prefix + NatToString(i + 1) + ext;
      assert filename == ArtifactName(ts, base, i, r) && content == ArtifactContent(r);
      assert ArtifactEffects(cwd, ts, base, results, i + 1)
        == ArtifactEffects(cwd, ts, base, results, i) + [MkDirP(dir), Write(dir, filename, content)];
      AfterMkDirThenWrite(old(fs.files), old(fs.dirs), ArtifactEffects(cwd, ts, base, results, i), dir, filename, content);
      fs.MkDirP(dir);
      fs.WriteFile(dir, filename, content);
      saved := saved + [Render(dir + [filename])];
    }
  }

  // ---------------------------------------------------------------------
  // Properties

  lemma DigitsBeforeDot(x: string, y: string, e1: string, e2: string)
    requires AllDigits(x) && AllDigits(y)
    requires |e1| > 0 && e1[0] == '.' && |e2| > 0 && e2[0] == '.'
    requires x + e1 == y + e2
    ensures x == y
  {
    var k := if |x| < |y| then |x| else |y|;
    assert (x + e1)[k] == (y + e2)[k];
    assert |x| == |y|;
    assert x == (x + e1)[..|x|] && y == (y + e2)[..|y|];
  }

  lemma CancelPrefix(p: string, a: string, b: string)
    requires p + a == p + b
    ensures a == b
  {
    assert a == (p + a)[|p|..] && b == (p + b)[|p|..];
  }

  /** Two names that share a prefix and put digits before a dot-extension share the digits. */
  lemma NumberedNamesDistinct(p: string, x: string, y: string, e1: string, e2: string)
    requires AllDigits(x) && AllDigits(y)
    requires |e1| > 0 && e1[0] == '.' && |e2| > 0 && e2[0] == '.'
    requires p + x + e1 == p + y + e2
    ensures x == y
  {
    assert p + x + e1 == p + (x + e1);
    assert p + y + e2 == p + (y + e2);
    CancelPrefix(p, x + e1, y + e2);
    DigitsBeforeDot(x, y, e1, e2);
  }

  /** Results at different positions get different artifact names, whatever their kinds. */
  lemma ArtifactNamesDistinct(ts: nat, base: string, i: nat, j: nat, ri: ImageResult, rj: ImageResult)
    requires ArtifactName(ts, base, i, ri) == ArtifactName(ts, base, j, rj)
    ensures i == j
  {
    var prefix := NatToString(ts) + "-" + base + "-";
    NumberedNamesDistinct(prefix, NatToString(i + 1), NatToString(j + 1), Extension(ri), Extension(rj));
    NatToStringInjective(i + 1, j + 1);
  }

  /** Where the first `k` artifacts go: images/ and each result's own name, in result order. */
  function Targets(cwd: Segments, ts: nat, base: string, results: seq<ImageResult>, k: nat): (t: seq<(Segments, string)>)
    requires k <= |results|
    ensures |t| == k
    ensures forall i :: 0 <= i < k ==> t[i] == (ImagesDir(cwd), ArtifactName(ts, base, i, results[i]))
    decreases k
  {
    if k == 0 then []
    else Targets(cwd, ts, base, results, k - 1) + [(ImagesDir(cwd), ArtifactName(ts, base, k - 1, results[k - 1]))]
  }

  /** The writes of the artifact loop: one per result, in result order. */
  lemma {:induction false} ArtifactWrites(cwd: Segments, ts: nat, base: string, results: seq<ImageResult>, k: nat)
    requires k <= |results|
    ensures Written(ArtifactEffects(cwd, ts, base, results, k)) == Targets(cwd, ts, base, results, k)
    decreases k
  {
    if k > 0 {
      ArtifactWrites(cwd, ts, base, results, k - 1);
      ArtifactWritesStep(cwd, ts, base, results, k);
    }
  }

  lemma ArtifactWritesStep(cwd: Segments, ts: nat, base: string, results: seq<ImageResult>, k: nat)
    requires 0 < k <= |results|
    ensures Written(ArtifactEffects(cwd, ts, base, results, k))
      == Written(ArtifactEffects(cwd, ts, base, results, k - 1)) + [(ImagesDir(cwd), ArtifactName(ts, base, k - 1, results[k - 1]))]
  {
    var i := k - 1;
    WrittenConcat(ArtifactEffects(cwd, ts, base, results, i), ArtifactStep(cwd, ts, base, i, results[i]));
    WrittenOfStep(ImagesDir(cwd), ArtifactName(ts, base, i, results[i]), ArtifactContent(results[i]));
  }

  lemma WrittenOfStep(d: Segments, name: string, c: Content)
    ensures Written([MkDirP(d), Write(d, name, c)]) == [(d, name)]
  {
    var step := [MkDirP(d), Write(d, name, c)];
    assert step[1..] == [step[1]] && step[1..][1..] == [];
  }

  lemma {:induction false} WrittenConcat(a: seq<Effect>, b: seq<Effect>)
    ensures Written(a + b) == Written(a) + Written(b)
    decreases |a|
  {
    if a == [] {
      assert a + b == b;
    } else {
      assert (a + b)[0] == a[0] && (a + b)[1..] == a[1..] + b;
      WrittenConcat(a[1..], b);
    }
  }

  /**
   * After the loop every result's artifact is on disk with its content: the
   * names are distinct, so no artifact overwrites another.
   */
  lemma {:induction false} ArtifactsOnDisk(files: map<Segments, Content>, cwd: Segments, ts: nat, base: string,
                                           results: seq<ImageResult>, k: nat, i: nat)
    requires i < k <= |results|
    ensures var after := FilesAfter(files, ArtifactEffects(cwd, ts, base, results, k));
      var p := ImagesDir(cwd) + [ArtifactName(ts, base, i, results[i])];
      p in after && after[p] == ArtifactContent(results[i])
    decreases k
  {
    var j := k - 1;
    var dir := ImagesDir(cwd);
    var name := ArtifactName(ts, base, j, results[j]);
    var step := [MkDirP(dir), Write(dir, name, ArtifactContent(results[j]))];
    var before := FilesAfter(files, ArtifactEffects(cwd, ts, base, results, j));
    AfterMkDirThenWrite(files, {}, ArtifactEffects(cwd, ts, base, results, j), dir, name, ArtifactContent(results[j]));
    if i < j {
      ArtifactsOnDisk(files, cwd, ts, base, results, j, i);
      var p := dir + [ArtifactName(ts, base, i, results[i])];
      if p == dir + [name] {
        assert p[|dir|] == (dir + [name])[|dir|];
        ArtifactNamesDistinct(ts, base, i, j, results[i], results[j]);
      }
    }
  }

  /** A call, then some effects, then a directory and one write into it. */
  lemma WrittenAround(call: Effect, middle: seq<Effect>, d: Segments, name: string, c: Content)
    requires call.Call?
    ensures Written([call] + middle + [MkDirP(d), Write(d, name, c)]) == Written(middle) + [(d, name)]
  {
    var tail := [MkDirP(d), Write(d, name, c)];
    WrittenConcat([call] + middle, tail);
    WrittenConcat([call], middle);
    assert [call][1..] == [];
    assert tail[1..] == [tail[1]] && tail[1..][1..] == [];
  }

  /**
   * A successful run writes exactly one artifact per result, in result order,
   * and then the metadata record, last.
   */
  lemma SuccessfulWrites(o: Options, env: Env, cwd: Segments, clock: Clock, reply: Reply<ImagesBody>)
    requires ImageGenerate(o, env, cwd, clock, reply).result.Ok?
    ensures var results := ToResults(reply.body.data.value);
      var base := Sanitize(TextArg(o, "prompt").value);
      var w := Written(ImageGenerate(o, env, cwd, clock, reply).effects);
      && |w| == |results| + 1
      && (forall i :: 0 <= i < |results| ==> w[i] == (ImagesDir(cwd), ArtifactName(clock.now, base, i, results[i])))
      && w[|results|] == (FeedbackDir(cwd), MetadataName(clock.now, base))
  {
    var r := ImageGenerate(o, env, cwd, clock, reply);
    var prompt := TextArg(o, "prompt").value;
    var results := ToResults(reply.body.data.value);
    var base := Sanitize(prompt);
    var arts := ArtifactEffects(cwd, clock.now, base, results, |results|);
    var meta := Text(Lines(MetadataLines(prompt, Model(o), Size(o), Count(o), clock.iso, SavedPaths(cwd, clock.now, base, results, |results|))));
    assert r.effects == [Request(o, prompt)] + arts + [MkDirP(FeedbackDir(cwd)), Write(FeedbackDir(cwd), MetadataName(clock.now, base), meta)];
    WrittenAround(Request(o, prompt), arts, FeedbackDir(cwd), MetadataName(clock.now, base), meta);
    ArtifactWrites(cwd, clock.now, base, results, |results|);
  }

  /** The run's writes never need a directory that was not created before them. */
  lemma {:induction false} ArtifactsPrepared(dirs: set<Segments>, cwd: Segments, ts: nat, base: string,
                                             results: seq<ImageResult>, k: nat)
    requires k <= |results|
    ensures Prepared(dirs, ArtifactEffects(cwd, ts, base, results, k))
    decreases k
  {
    if k > 0 {
      var j := k - 1;
      var done := ArtifactEffects(cwd, ts, base, results, j);
      ArtifactsPrepared(dirs, cwd, ts, base, results, j);
      AfterMkDirThenWrite(map[], dirs, done, ImagesDir(cwd), ArtifactName(ts, base, j, results[j]), ArtifactContent(results[j]));
    }
  }
}
