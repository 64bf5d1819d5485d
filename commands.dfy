/**
 * The commands as the registry holds them. The abstract base class
 * (src/Command.js) whose `execute` always throws, and its seven subclasses,
 * become one closed datatype; `Perform` dispatches `execute(options)` on it.
 * Everything a command reads from outside (environment, working directory,
 * clock readings, files, remote replies, the browser) is gathered in a `World`.
 */
module Commands {
  import opened Base
  import opened Paths
  import opened Effects
  import HelloCommand
  import ImageGenerateCommand
  import OpenAiImage
  import WebResearchCommand
  import WebSearchCommand
  import GeminiClient
  import GeminiCommand
  import WebsiteScreenshotCommand
  import TextAnalyzeCommand
  import TextStats

  /** The base class itself, then one variant per subclass. */
  datatype CommandKind =
    | Base
    | Hello
    | WebSearch
    | Gemini
    | ImageGenerate
    | TextAnalyze
    | WebResearch
    | WebsiteScreenshot

  const NotImplemented := "execute() must be implemented by subclass"

  /** What the commands find outside themselves during one call. */
  datatype World = World(
    env: Env,
    cwd: Segments,
    clock: Clock,
    uploadNow: nat,                                       // the clock reading the Gemini upload takes
    sizes: map<Segments, nat>,                            // the size of every existing file
    texts: map<Segments, string>,                         // the contents of every readable text file
    chat: Reply<WebResearchCommand.ChatBody>,
    search: Reply<WebSearchCommand.SearchBody>,
    images: Reply<OpenAiImage.ImagesBody>,
    upload: GeminiCommand.UploadReply,
    token: GeminiClient.TokenReply,
    gemini: Reply<GeminiClient.GeminiBody>,
    browser: WebsiteScreenshotCommand.Browser,
    feedback: Reply<WebsiteScreenshotCommand.FeedbackBody>)

  /** What `execute` resolves to: nothing for most commands. */
  datatype Returned =
    | Nothing
    | Shot(saved: WebsiteScreenshotCommand.Saved)
    | Stats(analysis: TextStats.Analysis)

  /** The argument whose absence a command rejects before doing anything else. */
  function RequiredArg(kind: CommandKind): Option<string> {
    match kind
    case Base => None
    case Hello => None
    case WebSearch => Some("query")
    case Gemini => Some("prompt")
    case ImageGenerate => Some("prompt")
    case TextAnalyze => Some("file")
    case WebResearch => Some("topic")
    case WebsiteScreenshot => Some("url")
  }

  /** The message a command throws when its required argument is missing. */
  function MissingMessage(kind: CommandKind): string {
    match kind
    case Base => NotImplemented
    case Hello => NotImplemented
    case WebSearch => WebSearchCommand.MissingQuery
    case Gemini => GeminiCommand.MissingPrompt
    case ImageGenerate => ImageGenerateCommand.MissingPrompt
    case TextAnalyze => TextAnalyzeCommand.MissingPath
    case WebResearch => WebResearchCommand.MissingTopic
    case WebsiteScreenshot => WebsiteScreenshotCommand.MissingUrl
  }

  /** A command that resolves to `undefined`. */
  function Void(r: Run<()>): (v: Run<Returned>)
    ensures v.effects == r.effects
    ensures v.result.Ok? <==> r.result.Ok?
    ensures v.result.Ok? ==> v.result.value == Nothing
    ensures v.result.Err? ==> v.result.message == r.result.message
  {
    match r.result
    case Ok(_) => Run(r.effects, Ok(Nothing))
    case Err(m) => Run(r.effects, Err(m))
  }

  /** A command that resolves to a value. */
  function Returning<T>(r: Run<T>, wrap: T -> Returned): (v: Run<Returned>)
    ensures v.effects == r.effects
    ensures v.result.Ok? <==> r.result.Ok?
    ensures v.result.Ok? ==> v.result.value == wrap(r.result.value)
    ensures v.result.Err? ==> v.result.message == r.result.message
  {
    match r.result
    case Ok(x) => Run(r.effects, Ok(wrap(x)))
    case Err(m) => Run(r.effects, Err(m))
  }

  /** `command.execute(options)`: the command's own `execute`, looked up by kind. */
  function Perform(kind: CommandKind, o: Options, w: World): Run<Returned>
  {
    match kind
    case Base => Throw(NotImplemented)
    case Hello => Void(HelloCommand.Hello(o, w.cwd))
    case WebSearch => Void(WebSearchCommand.WebSearch(o, w.env, w.cwd, w.clock, w.search))
    case Gemini =>
      Void(GeminiCommand.Gemini(o, w.env, w.cwd, w.clock, w.uploadNow, w.sizes, w.upload, w.token, w.gemini))
    case ImageGenerate => Void(ImageGenerateCommand.ImageGenerate(o, w.env, w.cwd, w.clock, w.images))
    case TextAnalyze =>
      Returning(TextAnalyzeCommand.TextAnalyze(o, w.cwd, w.clock, w.texts), (a: TextStats.Analysis) => Stats(a))
    case WebResearch => Void(WebResearchCommand.WebResearch(o, w.env, w.cwd, w.clock, w.chat))
    case WebsiteScreenshot =>
      Returning(WebsiteScreenshotCommand.Execute(o, w.env, w.cwd, w.clock, w.browser, w.feedback),
                (s: WebsiteScreenshotCommand.Saved) => Shot(s))
  }

  /**
   * Every command validates before it acts: a call without the command's
   * required argument (neither under its key nor as the first positional)
   * throws that command's message and leaves no effect.
   */
  lemma ValidationFirst(kind: CommandKind, o: Options, w: World)
    requires RequiredArg(kind).Some? && TextArg(o, RequiredArg(kind).value).None?
    ensures Perform(kind, o, w) == Throw(MissingMessage(kind))
  {
    match kind
    case Hello =>
    case Base =>
    case WebSearch => WebSearchValidates(o, w);
    case Gemini => GeminiValidates(o, w);
    case ImageGenerate => ImageGenerateValidates(o, w);
    case TextAnalyze => TextAnalyzeValidates(o, w);
    case WebResearch => WebResearchValidates(o, w);
    case WebsiteScreenshot => WebsiteScreenshotValidates(o, w);
  }

  // `ValidationFirst`, command by command: the check on the required argument comes first.

  lemma WebSearchValidates(o: Options, w: World)
    requires TextArg(o, "query").None?
    ensures Perform(WebSearch, o, w) == Throw(WebSearchCommand.MissingQuery)
  {
  }

  lemma GeminiValidates(o: Options, w: World)
    requires TextArg(o, "prompt").None?
    ensures Perform(Gemini, o, w) == Throw(GeminiCommand.MissingPrompt)
  {
  }

  lemma ImageGenerateValidates(o: Options, w: World)
    requires TextArg(o, "prompt").None?
    ensures Perform(ImageGenerate, o, w) == Throw(ImageGenerateCommand.MissingPrompt)
  {
  }

  lemma TextAnalyzeValidates(o: Options, w: World)
    requires TextArg(o, "file").None?
    ensures Perform(TextAnalyze, o, w) == Throw(TextAnalyzeCommand.MissingPath)
  {
  }

  lemma WebResearchValidates(o: Options, w: World)
    requires TextArg(o, "topic").None?
    ensures Perform(WebResearch, o, w) == Throw(WebResearchCommand.MissingTopic)
  {
  }

  lemma WebsiteScreenshotValidates(o: Options, w: World)
    requires TextArg(o, "url").None?
    ensures Perform(WebsiteScreenshot, o, w) == Throw(WebsiteScreenshotCommand.MissingUrl)
  {
  }

  /** The base class's `execute` always throws, whatever the options. */
  lemma BaseThrows(o: Options, w: World)
    ensures Perform(Base, o, w) == Throw(NotImplemented)
  {
  }

  /**
   * What a completed `execute` resolves to: the screenshot command its saved
   * files, the text analyzer the analysis of the file it read, every other
   * command nothing; the greeting and the analyzer never call out.
   */
  lemma PerformResults(kind: CommandKind, o: Options, w: World)
    ensures var r := Perform(kind, o, w);
      && (r.result.Ok? && !kind.WebsiteScreenshot? && !kind.TextAnalyze? ==> r.result.value == Nothing)
      && (r.result.Ok? && kind.WebsiteScreenshot? ==> r.result.value.Shot?)
      && (r.result.Ok? && kind.TextAnalyze? ==>
           && Resolve(w.cwd, TextArg(o, "file").value) in w.texts
           && r.result.value == Stats(TextStats.Analyze(w.texts[Resolve(w.cwd, TextArg(o, "file").value)])))
      && (kind.Hello? || kind.TextAnalyze? ==> NoCalls(r.effects))
  {
    match kind
    case Hello =>
    case Base =>
    case WebSearch =>
    case Gemini =>
    case ImageGenerate =>
    case TextAnalyze =>
    case WebResearch =>
    case WebsiteScreenshot =>
  }
}
