/**
 * GeminiCommand (src/commands/GeminiCommand.js): checks the prompt, decides
 * how an attached file travels (uploaded to cloud storage when a bucket is
 * configured and the file is larger than 1 MiB, "inline" otherwise), calls
 * Gemini and saves the exchange under references/AI feedback.
 */
module GeminiCommand {
  import opened Base
  import opened Paths
  import opened Effects
  import opened FileSystems
  import opened Slug
  import opened GeminiClient

  const MissingPrompt := "gemini requires a prompt argument"
  const MaxInline := 1048576
  const StorageModel := "gemini-1.5-flash"

  /** The outcome of `uploadToGCS`: the object's URI and a signed URL, or the error it threw. */
  datatype UploadReply = Uploaded(gcsUri: string, signedUrl: string) | UploadFailed(message: string)

  /** How the prompt reaches Gemini. */
  datatype Transfer =
    | TextOnly                         // no file option
    | NotFound(resolved: Segments)     // the file does not exist
    | Inline(resolved: Segments)       // the file exists and is not uploaded
    | ViaStorage(resolved: Segments)   // the file is uploaded first

  /** `options.file`, when it is a non-empty string. */
  function FileArg(o: Options): (r: Option<string>)
    ensures r.Some? <==> "file" in o && o["file"].Str? && o["file"].s != ""
    ensures r.Some? ==> r.value == o["file"].s
  {
    if "file" in o && o["file"].Str? && o["file"].s != "" then Some(o["file"].s) else None
  }

  /** `process.env.GEMINI_MODEL || fallback`. */
  function ModelOr(env: Env, fallback: string): (m: string)
    ensures env.geminiModel != "" ==> m == env.geminiModel
    ensures env.geminiModel == "" ==> m == fallback
  {
    if env.geminiModel != "" then env.geminiModel else fallback
  }

  /**
   * The transfer decision for a file of the given size on disk (`disk` maps
   * each existing file to its size): upload exactly when a bucket is set and
   * the size is strictly above 1 MiB.
   */
  function Decide(o: Options, env: Env, cwd: Segments, disk: map<Segments, nat>): (t: Transfer)
    ensures FileArg(o).None? <==> t.TextOnly?
    ensures FileArg(o).Some? ==> !t.TextOnly? && t.resolved == Resolve(cwd, FileArg(o).value)
    ensures t.NotFound? <==> FileArg(o).Some? && Resolve(cwd, FileArg(o).value) !in disk
    ensures t.ViaStorage? <==> FileArg(o).Some? && Resolve(cwd, FileArg(o).value) in disk
                               && env.geminiBucket != "" && disk[Resolve(cwd, FileArg(o).value)] > MaxInline
  {
    match FileArg(o)
    case None => TextOnly
    case Some(f) =>
      var resolved := Resolve(cwd, f);
      if resolved !in disk then NotFound(resolved)
      else if env.geminiBucket != "" && disk[resolved] > MaxInline then ViaStorage(resolved)
      else Inline(resolved)
  }

  function NotFoundMessage(resolved: Segments): string {
    "File not found: " + Render(resolved)
  }

  /** `gemini-${Date.now()}-${path.basename(resolvedPath)}`. */
  function DestName(uploadNow: nat, resolved: Segments): string {
    "gemini-" + NatToString(uploadNow) + "-" + Basename(resolved)
  }

  /** The prompt sent on the upload path. */
  function WithFileUrl(prompt: string, signedUrl: string): (p: string)
    ensures StartsWith(p, prompt) && EndsWith(p, signedUrl)
  {
    var p := prompt + "\n\nFile URL: " + signedUrl;
    assert p[..|prompt|] == prompt;
    assert p[|p| - |signedUrl|..] == signedUrl;
    p
  }

  /**
   * The part of `execute` inside the try block up to the answer: the file
   * check, the optional upload and the `callGemini` call. `uploadNow` is the
   * clock reading taken for the upload's object name.
   */
  function Ask(prompt: string, t: Transfer, env: Env, uploadNow: nat,
               upload: UploadReply, token: TokenReply, reply: Reply<GeminiBody>): (r: Run<Answer>)
    ensures forall i :: 0 <= i < |r.effects| ==> r.effects[i].Call?
    ensures t.NotFound? ==> r == Throw(NotFoundMessage(t.resolved))
    ensures t.TextOnly? || t.Inline? ==> r == CallGemini(prompt, ModelOr(env, DefaultModel), env, token, reply)
    ensures t.ViaStorage? ==>
      |r.effects| >= 1 && r.effects[0] == Call(StorageUpload(Render(t.resolved), env.geminiBucket, DestName(uploadNow, t.resolved)))
    ensures t.ViaStorage? && upload.UploadFailed? ==> |r.effects| == 1 && r.result == Err(upload.message)
    ensures t.ViaStorage? && upload.Uploaded? ==>
      var g := CallGemini(WithFileUrl(prompt, upload.signedUrl), ModelOr(env, StorageModel), env, token, reply);
      r.effects[1..] == g.effects && r.result == g.result
  {
    match t
    case NotFound(resolved) => Throw(NotFoundMessage(resolved))
    case ViaStorage(resolved) =>
      var call := Call(StorageUpload(Render(resolved), env.geminiBucket, DestName(uploadNow, resolved)));
      (match upload
       case UploadFailed(m) => Run([call], Err(m))
       case Uploaded(_, url) =>
         var g := CallGemini(WithFileUrl(prompt, url), ModelOr(env, StorageModel), env, token, reply);
         Run([call] + g.effects, g.result))
    case _ => CallGemini(prompt, ModelOr(env, DefaultModel), env, token, reply)
  }

  /** `path.join(process.cwd(), 'references', 'AI feedback')`. */
  function FeedbackDir(cwd: Segments): Segments {
    cwd + ["references", "AI feedback"]
  }

  /** `${timestamp}-gemini-${sanitized}.txt`. */
  function RecordName(ts: nat, slug: string): string {
    NatToString(ts) + "-gemini-" + slug + ".txt"
  }

  /**
   * The saved record's lines, empty lines dropped. The Model line names
   * GEMINI_MODEL or 'gemini-2.5-pro', whichever model was called.
   */
  function RecordLines(prompt: string, file: Option<string>, env: Env, iso: string, answer: string): seq<string> {
    DropEmpty(["Prompt: " + prompt, if file.Some? then "File: " + file.value else "",
               "Model: " + ModelOr(env, DefaultModel), "Timestamp: " + iso, "---", answer])
  }

  /**
   * `execute(options)`. `disk` holds the size of every existing file, `clock`
   * the reading taken for the record's name and Timestamp line, `uploadNow`
   * the one taken for the upload; every error is rethrown unchanged.
   */
  function Gemini(o: Options, env: Env, cwd: Segments, clock: Clock, uploadNow: nat, disk: map<Segments, nat>,
                  upload: UploadReply, token: TokenReply, reply: Reply<GeminiBody>): (r: Run<()>)
    ensures TextArg(o, "prompt").None? ==> r == Throw(MissingPrompt)
    ensures TextArg(o, "prompt").Some? && Decide(o, env, cwd, disk).NotFound? ==>
      r == Throw(NotFoundMessage(Resolve(cwd, FileArg(o).value)))
    ensures r.result.Err? ==> NoWrites(r.effects)
    ensures TextArg(o, "prompt").Some? ==>
      var a := Ask(TextArg(o, "prompt").value, Decide(o, env, cwd, disk), env, uploadNow, upload, token, reply);
      && (a.result.Err? ==> r == Run(a.effects, Err(a.result.message)))
      && (a.result.Ok? ==>
            var prompt := TextArg(o, "prompt").value;
            var dir := FeedbackDir(cwd);
            r.result == Ok(())
            && r.effects == a.effects + [MkDirP(dir), Write(dir, RecordName(clock.now, Sanitize(prompt)),
                 Text(Lines(RecordLines(prompt, FileArg(o), env, clock.iso, AnswerString(a.result.value)))))])
  {
    match TextArg(o, "prompt")
    case None => Throw(MissingPrompt)
    case Some(prompt) =>
      var a := Ask(prompt, Decide(o, env, cwd, disk), env, uploadNow, upload, token, reply);
      match a.result
      case Err(m) => Run(a.effects, Err(m))
      case Ok(answer) =>
        var dir := FeedbackDir(cwd);
        var text := Lines(RecordLines(prompt, FileArg(o), env, clock.iso, AnswerString(answer)));
        Run(a.effects + [MkDirP(dir), Write(dir, RecordName(clock.now, Sanitize(prompt)), Text(text))], Ok(()))
  }

  // ---------------------------------------------------------------------
  // Properties

  /** A file of exactly 1 MiB is not uploaded, even with a bucket configured. */
  lemma OneMiBStaysInline(o: Options, env: Env, cwd: Segments, disk: map<Segments, nat>)
    requires FileArg(o).Some? && Resolve(cwd, FileArg(o).value) in disk
    requires disk[Resolve(cwd, FileArg(o).value)] == MaxInline
    ensures Decide(o, env, cwd, disk) == Inline(Resolve(cwd, FileArg(o).value))
  {
  }

  /**
   * Whatever the transfer mode, the only prompts Gemini is sent are the
   * user's prompt and, on the upload path, that prompt followed by the signed
   * URL: the file's contents are never sent.
   */
  lemma SentPrompts(prompt: string, t: Transfer, env: Env, uploadNow: nat,
                    upload: UploadReply, token: TokenReply, reply: Reply<GeminiBody>, i: nat)
    requires var r := Ask(prompt, t, env, uploadNow, upload, token, reply);
      i < |r.effects| && r.effects[i].request.GenerateContent?
    ensures var r := Ask(prompt, t, env, uploadNow, upload, token, reply);
      && (t.ViaStorage? ==> upload.Uploaded? && r.effects[i].request.prompt == WithFileUrl(prompt, upload.signedUrl))
      && (!t.ViaStorage? ==> r.effects[i].request.prompt == prompt)
  {
    var r := Ask(prompt, t, env, uploadNow, upload, token, reply);
    if t.ViaStorage? {
      assert i > 0;
      var g := CallGemini(WithFileUrl(prompt, upload.signedUrl), ModelOr(env, StorageModel), env, token, reply);
      assert r.effects[i] == g.effects[i - 1];
      GeminiPromptIs(WithFileUrl(prompt, upload.signedUrl), ModelOr(env, StorageModel), env, token, reply, i - 1);
    } else {
      GeminiPromptIs(prompt, ModelOr(env, DefaultModel), env, token, reply, i);
    }
  }

  /** Every generateContent request `callGemini` makes carries the prompt it was given. */
  lemma GeminiPromptIs(prompt: string, model: string, env: Env, token: TokenReply, reply: Reply<GeminiBody>, i: nat)
    requires var g := CallGemini(prompt, model, env, token, reply);
      i < |g.effects| && g.effects[i].request.GenerateContent?
    ensures CallGemini(prompt, model, env, token, reply).effects[i].request.prompt == prompt
  {
  }

  /**
   * On the upload path with GEMINI_MODEL unset, Gemini is called with
   * 'gemini-1.5-flash' but the record's Model line names 'gemini-2.5-pro'.
   */
  lemma RecordedModelOnUpload(prompt: string, file: Option<string>, env: Env, iso: string, answer: string)
    requires env.geminiModel == ""
    ensures ModelOr(env, StorageModel) == "gemini-1.5-flash"
    ensures "Model: gemini-2.5-pro" in RecordLines(prompt, file, env, iso, answer)
  {
    var lines := ["Prompt: " + prompt, if file.Some? then "File: " + file.value else "",
                  "Model: " + ModelOr(env, DefaultModel), "Timestamp: " + iso, "---", answer];
    assert "Model: gemini-2.5-pro" in lines by { assert lines[2] == "Model: gemini-2.5-pro"; }
    DropEmptyFacts(lines);
  }

  /**
   * The record is the Prompt line, a File line exactly when a file was given,
   * the Model, Timestamp and '---' lines, and the answer unless it is empty.
   */
  lemma {:induction false} RecordShape(prompt: string, file: Option<string>, env: Env, iso: string, answer: string)
    ensures RecordLines(prompt, file, env, iso, answer)
      == ["Prompt: " + prompt]
         + (if file.Some? then ["File: " + file.value] else [])
         + ["Model: " + ModelOr(env, DefaultModel), "Timestamp: " + iso, "---"]
         + (if answer != "" then [answer] else [])
  {
    var fileLine := if file.Some? then "File: " + file.value else "";
    var m := "Model: " + ModelOr(env, DefaultModel);
    var ts := "Timestamp: " + iso;
    var p := "Prompt: " + prompt;
    assert p[0] == 'P' && m[0] == 'M' && ts[0] == 'T';
    if file.Some? {
      assert fileLine[0] == 'F';
    }
    DropSixLines(p, fileLine, m, ts, "---", answer);
  }

  /** Dropping the empty lines of a six-line record whose lines 1, 3, 4 and 5 are never empty. */
  lemma DropSixLines(p: string, f: string, m: string, ts: string, d: string, a: string)
    requires p != "" && m != "" && ts != "" && d != ""
    ensures DropEmpty([p, f, m, ts, d, a])
      == [p] + (if f != "" then [f] else []) + [m, ts, d] + (if a != "" then [a] else [])
  {
    var l5 := [a];
    var l4 := [d] + l5;
    var l3 := [ts] + l4;
    var l2 := [m] + l3;
    var l1 := [f] + l2;
    assert [p] + l1 == [p, f, m, ts, d, a];
    DropEmptyCons(a, []);
    DropEmptyCons(d, l5);
    DropEmptyCons(ts, l4);
    DropEmptyCons(m, l3);
    DropEmptyCons(f, l2);
    DropEmptyCons(p, l1);
    var tail := [m, ts, d] + (if a != "" then [a] else []);
    assert DropEmpty(l2) == tail;
    assert DropEmpty(l1) == (if f != "" then [f] else []) + tail;
  }

  /**
   * A successful run leaves exactly one new or replaced file, the record under
   * references/AI feedback, and needs no directory to exist beforehand.
   */
  lemma RecordSaved(o: Options, env: Env, cwd: Segments, clock: Clock, uploadNow: nat, disk: map<Segments, nat>,
                    upload: UploadReply, token: TokenReply, reply: Reply<GeminiBody>,
                    files: map<Segments, Content>, dirs: set<Segments>)
    requires Gemini(o, env, cwd, clock, uploadNow, disk, upload, token, reply).result.Ok?
    ensures var r := Gemini(o, env, cwd, clock, uploadNow, disk, upload, token, reply);
      var prompt := TextArg(o, "prompt").value;
      var a := Ask(prompt, Decide(o, env, cwd, disk), env, uploadNow, upload, token, reply);
      && Prepared(dirs, r.effects)
      && FilesAfter(files, r.effects)
         == files[FeedbackDir(cwd) + [RecordName(clock.now, Sanitize(prompt))]
                  := Text(Lines(RecordLines(prompt, FileArg(o), env, clock.iso, AnswerString(a.result.value))))]
  {
    var prompt := TextArg(o, "prompt").value;
    var a := Ask(prompt, Decide(o, env, cwd, disk), env, uploadNow, upload, token, reply);
    var c := Text(Lines(RecordLines(prompt, FileArg(o), env, clock.iso, AnswerString(a.result.value))));
    CallsThenSave(files, dirs, a.effects, FeedbackDir(cwd), RecordName(clock.now, Sanitize(prompt)), c);
  }
}
