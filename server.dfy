/**
 * The HTTP front end (server.js): the registrations made at startup, the
 * status decisions of POST /api/execute, the totals of GET /api/files and the
 * directory-traversal guard of the two file routes.
 */
module Server {
  import opened Base
  import opened Paths
  import opened Effects
  import opened Commands
  import opened Registry

  // ---------------------------------------------------------------------
  // Startup

  /** `path.join(ROOT, 'references')` and the directories created at startup. */
  function RefsDir(root: Segments): Segments { root + ["references"] }
  function FeedbackDir(root: Segments): Segments { RefsDir(root) + ["AI feedback"] }
  function ImagesDir(root: Segments): Segments { root + ["images"] }

  function StartupDirs(root: Segments): seq<Effect> {
    [MkDirP(RefsDir(root) + ["uploads"]), MkDirP(FeedbackDir(root)), MkDirP(ImagesDir(root))]
  }

  /** The seven registrations, in the order the server makes them. */
  const Registrations: seq<Entry> :=
    [ Entry("hello", Config(Some("Run a test message"),
              Some([Flag("message", "Message to print", StringArg, Some(Str("Hello from CLI")))])), Hello),
      Entry("web-search", Config(Some("Search the web using Google Custom Search"),
              Some([Positional("query", "Search query", StringArg)])), WebSearch),
      Entry("gemini", Config(Some("Chat with Gemini AI with optional file upload support"),
              Some([Positional("prompt", "Prompt to send to Gemini", StringArg),
                    Flag("file", "Image file to analyze", StringArg, None)])), Gemini),
      Entry("image-generate", Config(Some("Generate images using OpenAI DALL-E"),
              Some([Positional("prompt", "Image description", StringArg),
                    Flag("size", "Image size", StringArg, Some(Str("1024x1024"))),
                    Flag("n", "Number of images", NumberArg, Some(Num(1))),
                    Flag("model", "Model to use (dall-e-2 or dall-e-3)", StringArg, Some(Str("dall-e-3")))])),
            ImageGenerate),
      Entry("text-analyze", Config(Some("Analyze text and return statistics"),
              Some([Positional("text", "Text to analyze", StringArg)])), TextAnalyze),
      Entry("web-research", Config(Some("Conduct online research using ChatGPT"),
              Some([Positional("query", "Research topic", StringArg)])), WebResearch),
      Entry("website-screenshot", Config(Some("Screenshot a website and get design feedback"),
              Some([Positional("url", "Website URL to screenshot", StringArg),
                    Flag("fullpage", "Capture full page", BooleanArg, Some(Bool(false))),
                    Flag("viewport", "Viewport size (e.g., 1920x1080)", StringArg, Some(Str("1920x1080"))),
                    Flag("delay", "Delay before screenshot in ms", NumberArg, Some(Num(1000)))])),
            WebsiteScreenshot) ]

  /** The names of `Registrations`, in order. */
  const RegisteredNames: seq<string> :=
    ["hello", "web-search", "gemini", "image-generate", "text-analyze", "web-research", "website-screenshot"]

  /** The names of a list of entries, in order. */
  function NamesOf(regs: seq<Entry>): (names: seq<string>)
    ensures |names| == |regs| && forall i :: 0 <= i < |regs| ==> names[i] == regs[i].name
  {
    seq(|regs|, i requires 0 <= i < |regs| => regs[i].name)
  }

  /** No name is registered twice. */
  predicate DistinctNames(regs: seq<Entry>) {
    forall i, j :: 0 <= i < j < |regs| ==> regs[i].name != regs[j].name
  }

  /** The registrations carry the registered names, each once. */
  lemma RegistrationNames()
    ensures |Registrations| == 7
    ensures NamesOf(Registrations) == RegisteredNames
    ensures DistinctNames(Registrations)
  {
    var names := RegisteredNames;
    assert NamesOf(Registrations) == names;
    assert |names[0]| == 5 && |names[1]| == 10 && |names[2]| == 6 && |names[3]| == 14;
    assert |names[4]| == 12 && |names[5]| == 12 && |names[6]| == 18;
    assert names[4][0] != names[5][0];
  }

  /** A table holding the first `k` of the registrations `regs`, in order, and nothing else. */
  ghost predicate RegisteredUpTo(commands: map<string, Entry>, order: seq<string>, regs: seq<Entry>, k: nat)
    requires k <= |regs|
  {
    && Ordered(commands, order)
    && (forall n :: n in commands ==> commands[n].name == n)
    && order == NamesOf(regs)[..k]
    && (forall i :: 0 <= i < k ==> regs[i].name in commands && commands[regs[i].name] == regs[i])
  }

  /** Registration `k` on the table of the first `k` gives the table of the first `k + 1`. */
  lemma NextRegistration(regs: seq<Entry>, k: nat, c0: map<string, Entry>, o0: seq<string>,
                         c1: map<string, Entry>, o1: seq<string>)
    requires DistinctNames(regs) && k < |regs| && RegisteredUpTo(c0, o0, regs, k)
    requires c1 == c0[regs[k].name := regs[k]]
    requires o1 == if regs[k].name in c0 then o0 else o0 + [regs[k].name]
    ensures RegisteredUpTo(c1, o1, regs, k + 1)
  {
    var names := NamesOf(regs);
    forall i | 0 <= i < |o0|
      ensures o0[i] != regs[k].name
    {
      assert o0[i] == regs[i].name;
    }
    assert regs[k].name !in c0;
    assert names[..k + 1] == names[..k] + [names[k]];
  }

  /** `registry.register(name, config, command)` for the k-th registration. */
  method RegisterNext(reg: CommandRegistry, regs: seq<Entry>, k: nat)
    requires DistinctNames(regs) && k < |regs|
    requires RegisteredUpTo(reg.commands, reg.order, regs, k) && reg.Valid()
    modifies reg
    ensures RegisteredUpTo(reg.commands, reg.order, regs, k + 1) && reg.Valid()
  {
    var e := regs[k];
    ghost var c, o := reg.commands, reg.order;
    reg.Register(e.name, e.config, e.command);
    NextRegistration(regs, k, c, o, reg.commands, reg.order);
  }

  /**
   * Startup: the three directories are created, then a new registry receives
   * the seven registrations. Each name is registered once, so every entry
   * stays and the key order is the registration order.
   */
  method Startup(root: Segments) returns (reg: CommandRegistry, dirs: seq<Effect>)
    ensures fresh(reg) && reg.Valid()
    ensures dirs == StartupDirs(root)
    ensures reg.order == RegisteredNames
    ensures forall i :: 0 <= i < |Registrations| ==> reg.commands[Registrations[i].name] == Registrations[i]
  {
    dirs := StartupDirs(root);
    RegistrationNames();
    reg := RegisterSeven(Registrations);
  }

  /** The seven `registry.register` calls on a new registry, one per entry of `regs`, in order (hello first, website-screenshot last). */
  method RegisterSeven(regs: seq<Entry>) returns (reg: CommandRegistry)
    requires |regs| == 7 && DistinctNames(regs)
    ensures fresh(reg) && reg.Valid()
    ensures reg.order == NamesOf(regs)
    ensures forall i :: 0 <= i < |regs| ==> reg.commands[regs[i].name] == regs[i]
  {
    reg := new CommandRegistry();
    RegisterNext(reg, regs, 0);
    RegisterNext(reg, regs, 1);
    RegisterNext(reg, regs, 2);
    RegisterNext(reg, regs, 3);
    RegisterNext(reg, regs, 4);
    RegisterNext(reg, regs, 5);
    RegisterNext(reg, regs, 6);
    assert NamesOf(regs)[..7] == NamesOf(regs);
  }

  // ---------------------------------------------------------------------
  // GET /api/commands

  /** One item of the fixed command list the UI builds its buttons from. */
  datatype Listing = Listing(name: string, description: string, example: string, options: seq<string>)

  const CommandList: seq<Listing> :=
    [ Listing("hello", "Run a test message", "hello", []),
      Listing("web-search", "Search the web using Google Custom Search (requires GOOGLE_SEARCH_API_KEY)",
              "web-search \"React tutorials\"", []),
      Listing("gemini", "Chat with Gemini AI with optional file upload support",
              "gemini \"What is machine learning?\"", []),
      Listing("image-generate", "Generate images using OpenAI DALL-E", "image-generate \"A futuristic city\"",
              ["--size 512x512", "--n 3", "--model dall-e-2"]),
      Listing("text-analyze", "Analyze text and return statistics", "text-analyze \"Your text here\"", []),
      Listing("web-research", "Conduct online research using ChatGPT (requires OPENAI_API_KEY)",
              "web-research \"AI trends 2025\"", []),
      Listing("website-screenshot", "Screenshot a website and get design feedback",
              "website-screenshot \"https://example.com\"", ["--fullpage", "--viewport 1920x1080", "--delay 2000"]) ]

  // ---------------------------------------------------------------------
  // POST /api/execute

  /** The request body: `command` (None when absent) and `args` (None when falsy). */
  datatype ExecuteRequest = ExecuteRequest(command: Option<string>, args: Option<Options>)

  datatype ResponseBody =
    | ErrorBody(error: string)                             // { error }
    | SuccessBody(command: string, result: Returned)       // { success: true, command, result }
    | FailureBody(error: string)                           // { success: false, error }

  datatype Response = Response(status: int, body: ResponseBody)

  /** A response and the effects of the command run to produce it. */
  datatype Handled = Handled(response: Response, effects: seq<Effect>)

  const CommandRequired := "Command required"
  const UnknownError := "Unknown error occurred"

  function NotFound(name: string): string {
    "Command '" + name + "' not found"
  }

  /** `args || {}`. */
  function ArgsOr(args: Option<Options>): Options {
    args.GetOr(map[])
  }

  /** `error.message || 'Unknown error occurred'`. */
  function ErrorText(message: string): (t: string)
    ensures t != ""
    ensures message != "" ==> t == message
  {
    if message != "" then message else UnknownError
  }

  /** The handler of POST /api/execute over the registry's table. */
  function Respond(commands: map<string, Entry>, req: ExecuteRequest, w: World): (h: Handled)
    ensures req.command.None? || req.command.value == "" ==>
      h == Handled(Response(400, ErrorBody(CommandRequired)), [])
    ensures req.command.Some? && req.command.value != "" && req.command.value !in commands ==>
      h == Handled(Response(404, ErrorBody(NotFound(req.command.value))), [])
    ensures req.command.Some? && req.command.value != "" && req.command.value in commands ==>
      var run := Perform(commands[req.command.value].command, ArgsOr(req.args), w);
      && h.effects == run.effects
      && (run.result.Ok? ==> h.response == Response(200, SuccessBody(req.command.value, run.result.value)))
      && (run.result.Err? ==> h.response == Response(500, FailureBody(ErrorText(run.result.message))))
  {
    match req.command
    case None => Handled(Response(400, ErrorBody(CommandRequired)), [])
    case Some(name) =>
      if name == "" then Handled(Response(400, ErrorBody(CommandRequired)), [])
      else if name !in commands then Handled(Response(404, ErrorBody(NotFound(name))), [])
      else
        var run := Perform(commands[name].command, ArgsOr(req.args), w);
        match run.result
        case Ok(v) => Handled(Response(200, SuccessBody(name, v)), run.effects)
        case Err(m) => Handled(Response(500, FailureBody(ErrorText(m))), run.effects)
  }

  /**
   * The route itself, asking the registry object as the server does. `Respond`
   * is its specification over the registry's table: the lemmas about the
   * statuses are stated over that function, since a lemma cannot call a method.
   */
  method PostExecute(reg: CommandRegistry, req: ExecuteRequest, w: World) returns (h: Handled)
    requires reg.Valid()
    ensures h == Respond(reg.commands, req, w)
  {
    if req.command.None? || req.command.value == "" {
      return Handled(Response(400, ErrorBody(CommandRequired)), []);
    }
    var name := req.command.value;
    var info := reg.Get(name);
    if info.None? {
      return Handled(Response(404, ErrorBody(NotFound(name))), []);
    }
    var run := Perform(info.value.command, ArgsOr(req.args), w);
    if run.result.Ok? {
      h := Handled(Response(200, SuccessBody(name, run.result.value)), run.effects);
    } else {
      h := Handled(Response(500, FailureBody(ErrorText(run.result.message))), run.effects);
    }
  }

  /**
   * Only four statuses are ever sent; 200 exactly when a registered command
   * completed, and nothing runs unless the name is registered.
   */
  lemma RespondStatuses(commands: map<string, Entry>, req: ExecuteRequest, w: World)
    ensures Respond(commands, req, w).response.status in {200, 400, 404, 500}
    ensures Respond(commands, req, w).response.status == 200 <==>
      req.command.Some? && req.command.value in commands && req.command.value != ""
      && Perform(commands[req.command.value].command, ArgsOr(req.args), w).result.Ok?
    ensures Respond(commands, req, w).effects != [] ==> req.command.Some? && req.command.value in commands
    ensures Respond(commands, req, w).response.body.ErrorBody? || Respond(commands, req, w).response.body.FailureBody? ==>
      Respond(commands, req, w).response.body.error != ""
  {
  }

  /**
   * A registered command called without its required argument is answered
   * 500 with that command's message, and nothing runs.
   */
  lemma RespondMissing(commands: map<string, Entry>, req: ExecuteRequest, w: World)
    requires req.command.Some? && req.command.value != "" && req.command.value in commands
    requires RequiredArg(commands[req.command.value].command).Some?
    requires TextArg(ArgsOr(req.args), RequiredArg(commands[req.command.value].command).value).None?
    ensures Respond(commands, req, w) ==
      Handled(Response(500, FailureBody(ErrorText(MissingMessage(commands[req.command.value].command)))), [])
  {
    ValidationFirst(commands[req.command.value].command, ArgsOr(req.args), w);
  }

  /** The listing offers exactly the names registered at startup, in the same order, so a listed name never gets 404. */
  lemma ListedAreRegistered()
    ensures |CommandList| == |RegisteredNames|
    ensures forall i :: 0 <= i < |CommandList| ==> CommandList[i].name == RegisteredNames[i]
  {
    var l := CommandList;
    var names := RegisteredNames;
    assert l[0].name == names[0] && l[1].name == names[1] && l[2].name == names[2];
    assert l[3].name == names[3] && l[4].name == names[4];
    assert l[5].name == names[5] && l[6].name == names[6];
  }

  // ---------------------------------------------------------------------
  // GET /api/files

  /** A directory entry as `readdirSync` and `statSync` see it. */
  datatype DirEntry = DirEntry(name: string, isFile: bool, size: nat)

  /** One listed file: `{ name, type, path, size }`. */
  datatype Listed = Listed(name: string, kind: string, path: string, size: nat)

  datatype FileList = FileList(images: seq<Listed>, references: seq<Listed>, total: nat)

  /** Every entry of images/, files or not. */
  function ImageItems(entries: seq<DirEntry>): (r: seq<Listed>)
    ensures |r| == |entries|
    ensures forall i :: 0 <= i < |r| ==>
      r[i] == Listed(entries[i].name, "image", "/files/images/" + entries[i].name, entries[i].size)
  {
    seq(|entries|, i requires 0 <= i < |entries| =>
      Listed(entries[i].name, "image", "/files/images/" + entries[i].name, entries[i].size))
  }

  /** The regular files of references/, in directory order. */
  function ReferenceItems(entries: seq<DirEntry>): (r: seq<Listed>)
    ensures |r| <= |entries|
    ensures forall i :: 0 <= i < |r| ==> r[i].kind == "reference" && r[i].path == "/files/references/" + r[i].name
    decreases |entries|
  {
    if entries == [] then []
    else
      var rest := ReferenceItems(entries[1..]);
      var e := entries[0];
      if e.isFile then [Listed(e.name, "reference", "/files/references/" + e.name, e.size)] + rest else rest
  }

  /** The number of regular files among `entries`. */
  function FileCount(entries: seq<DirEntry>): nat
    decreases |entries|
  {
    if entries == [] then 0 else (if entries[0].isFile then 1 else 0) + FileCount(entries[1..])
  }

  /** The listing; a directory that does not exist (None) lists nothing. */
  function ListFiles(images: Option<seq<DirEntry>>, refs: Option<seq<DirEntry>>): (l: FileList)
    ensures l.total == |l.images| + |l.references|
  {
    var imgs := if images.Some? then ImageItems(images.value) else [];
    var references := if refs.Some? then ReferenceItems(refs.value) else [];
    FileList(imgs, references, |imgs| + |references|)
  }

  /** A listed reference is exactly a regular file of the directory, with its name and size. */
  lemma {:induction false} ReferenceItemsExact(entries: seq<DirEntry>)
    ensures |ReferenceItems(entries)| == FileCount(entries)
    ensures forall e :: e in entries && e.isFile ==>
      Listed(e.name, "reference", "/files/references/" + e.name, e.size) in ReferenceItems(entries)
    ensures forall x :: x in ReferenceItems(entries) ==>
      exists e :: e in entries && e.isFile && x == Listed(e.name, "reference", "/files/references/" + e.name, e.size)
    decreases |entries|
  {
    if entries != [] {
      ReferenceItemsExact(entries[1..]);
      forall x | x in ReferenceItems(entries)
        ensures exists e :: e in entries && e.isFile && x == Listed(e.name, "reference", "/files/references/" + e.name, e.size)
      {
        if x !in ReferenceItems(entries[1..]) {
          assert entries[0] in entries;
        } else {
          var e :| e in entries[1..] && e.isFile && x == Listed(e.name, "reference", "/files/references/" + e.name, e.size);
          assert e in entries;
        }
      }
    }
  }

  /** The total counts every entry of images/ and every regular file of references/. */
  lemma TotalCountsFiles(images: seq<DirEntry>, refs: seq<DirEntry>)
    ensures ListFiles(Some(images), Some(refs)).total == |images| + FileCount(refs)
  {
    ReferenceItemsExact(refs);
  }

  // ---------------------------------------------------------------------
  // GET /files/images/:filename and GET /files/references/:filename

  /** 403 'Access denied', 404 'File not found', or the file is sent. */
  datatype FileReply = Denied | Missing | Send(path: Segments)

  function FileStatus(r: FileReply): (int, string) {
    match r
    case Denied => (403, "Access denied")
    case Missing => (404, "File not found")
    case Send(_) => (200, "")
  }

  /** `p` lies strictly below directory `base`. */
  predicate Inside(p: Segments, base: Segments) {
    |p| > |base| && p[..|base|] == base
  }

  /**
   * The routes as written: the joined path passes when its text starts with
   * the base directory's text, and `existing` holds the paths `existsSync`
   * finds. The parameter arrives URL-decoded, so it may hold "/" and "..".
   */
  function ServeAsWritten(base: Segments, name: string, existing: set<Segments>): (r: FileReply)
    ensures r.Send? ==> r.path == JoinPath(base, name) && r.path in existing
    ensures r.Denied? <==> !StartsWith(Render(JoinPath(base, name)), Render(base))
  {
    var p := JoinPath(base, name);
    if !StartsWith(Render(p), Render(base)) then Denied
    else if p !in existing then Missing
    else Send(p)
  }

  /**
   * A rendered path starts with the rendering of any directory that is a
   * prefix of it by segments.
   */
  lemma RenderExtends(dir: Segments, more: Segments)
    requires more != []
    ensures dir == [] ==> Render(dir + more) == Render(dir) + Join(more, "/")
    ensures dir != [] ==> Render(dir + more) == Render(dir) + "/" + Join(more, "/")
    ensures StartsWith(Render(dir + more), Render(dir))
  {
    if dir == [] {
      assert dir + more == more;
    } else {
      JoinAppend(dir, more, "/");
    }
  }

  /**
   * The textual guard admits a sibling of the base directory whose name
   * extends the base's last segment `b` by a non-empty `t`: the request for
   * "../<b><t>/<f>" resolves to <d>/<b><t>/<f>, outside <d>/<b>.
   */
  lemma SiblingPrefixPasses(d: Segments, b: string, t: string, f: string)
    requires Plain(b + t) && Plain(f) && t != ""
    ensures JoinPath(d + [b], Join(["..", b + t, f], "/")) == d + [b + t, f]
    ensures StartsWith(Render(d + [b + t, f]), Render(d + [b]))
    ensures !Inside(d + [b + t, f], d + [b])
  {
    UpAndAcross(d, b, [b + t, f]);
    SiblingRendersLonger(d, b, t, f);
    assert (d + [b + t, f])[..|d| + 1] == d + [b + t];
    assert (d + [b + t])[|d|] != (d + [b])[|d|] by {
      assert |b + t| != |b|;
    }
  }

  /** "../x/y" from <d>/<b> walks to <d>/x/y. */
  lemma UpAndAcross(d: Segments, b: string, names: seq<string>)
    requires |names| >= 1 && AllPlain(names)
    ensures JoinPath(d + [b], Join([".."] + names, "/")) == d + names
  {
    var steps := [".."] + names;
    assert Free(steps, '/') by {
      forall i | 0 <= i < |steps| ensures '/' !in steps[i] {
        if i > 0 { assert steps[i] == names[i - 1]; }
      }
    }
    SplitJoin(steps, '/');
    assert Step(d + [b], "..") == d;
    assert steps[1..] == names;
    WalkPlain(d, names);
  }

  /** <d>/<b><t>/<f> rendered starts with <d>/<b> rendered. */
  lemma SiblingRendersLonger(d: Segments, b: string, t: string, f: string)
    ensures StartsWith(Render(d + [b + t, f]), Render(d + [b]))
  {
    RenderExtends(d, [b + t, f]);
    RenderExtends(d, [b]);
    assert Join([b + t, f], "/") == b + t + "/" + f;
    assert Join([b], "/") == b;
    var rb := Render(d + [b]);
    var rs := Render(d + [b + t, f]);
    if d == [] {
      assert rs == rb + t + "/" + f;
    } else {
      assert rs == rb + t + "/" + f;
    }
  }

  /**
   * With images/ at /srv/images, the request for "../images-old/a" passes the
   * guard and serves /srv/images-old/a, outside images/.
   */
  lemma SiblingPassesGuard(base: Segments, name: string, outside: Segments)
    requires base == ["srv", "images"] && name == "../images-old/a" && outside == ["srv", "images-old", "a"]
    ensures ServeAsWritten(base, name, {outside}) == Send(outside)
    ensures !Inside(outside, base)
  {
    var d, b, t, f := ["srv"], "images", "-old", "a";
    assert b + t == "images-old";
    assert base == d + [b] && outside == d + [b + t, f];
    assert Join([f], "/") == f;
    assert Join([b + t, f], "/") == b + t + "/" + f by {
      assert [b + t, f][1..] == [f];
    }
    assert Join(["..", b + t, f], "/") == ".." + "/" + (b + t + "/" + f) by {
      assert ["..", b + t, f][1..] == [b + t, f];
    }
    assert name == Join(["..", b + t, f], "/");
    SiblingPrefixPasses(d, b, t, f);
  }

  /**
   * The routes as intended: a file is sent only from below the base
   * directory; anything else is denied.
   */
  function Serve(base: Segments, name: string, existing: set<Segments>): (r: FileReply)
    ensures r.Send? ==> Inside(r.path, base) && r.path in existing
    ensures Plain(name) ==> r == (if base + [name] in existing then Send(base + [name]) else Missing)
  {
    var p := JoinPath(base, name);
    JoinOne(base, name);
    if !Inside(p, base) then Denied
    else if p !in existing then Missing
    else Send(p)
  }

  /** `path.join(base, name)` for a plain name appends it. */
  lemma JoinOne(base: Segments, name: string)
    ensures Plain(name) ==> JoinPath(base, name) == base + [name]
  {
    if Plain(name) {
      JoinPlain(base, [name]);
    }
  }

  /** A plain file name is treated alike by both guards. */
  lemma GuardsAgreeOnPlainNames(base: Segments, name: string, existing: set<Segments>)
    requires Plain(name)
    ensures ServeAsWritten(base, name, existing) == Serve(base, name, existing)
  {
    JoinOne(base, name);
    RenderExtends(base, [name]);
  }
}
