/**
 * WebsiteScreenshotCommand (src/commands/WebsiteScreenshotCommand.js): drives
 * a headless browser through launch, viewport, a two-attempt page load that
 * never aborts, an optional wait, reads of the title, description and size,
 * and the screenshot; then saves the image, closes the browser, asks Gemini
 * for design feedback when a key is set, and saves a metadata record.
 *
 * The browser's answers are the parameter `b`: each step either succeeds or
 * throws with a message. The first step that throws ends the run; its message
 * goes through the catch block.
 */
module WebsiteScreenshotCommand {
  import opened Base
  import opened Paths
  import opened Effects

  const MissingUrl := "website-screenshot requires a URL argument"
  const SplitNotAFunction := "viewport.split is not a function"
  const InvalidUrl := "Invalid URL"
  const NotConfigured := "Gemini API key not configured. Skipping design feedback.\nTo enable: add GEMINI_API_KEY to .env"
  const FeedbackRateLimited := "⚠️ Rate limited by Gemini API. Try again in a moment."
  const NoFeedbackText := "Could not extract feedback from Gemini response (no text found)."
  const FirstLoadTimeout := 60000
  const FallbackLoadTimeout := 30000

  /**
   * What the browser does when driven: the error each step throws (None when
   * it succeeds), whether each page-load attempt succeeded, and the values the
   * page reports. `host` is the hostname `new URL(url)` finds, None when it
   * throws.
   */
  datatype Browser = Browser(
    launchError: Option<string>,        // chromium.launch() and newPage()
    viewportError: Option<string>,      // setViewportSize
    domLoaded: bool,                    // goto, waitUntil 'domcontentloaded'
    loaded: bool,                       // goto, waitUntil 'load'
    waitError: Option<string>,          // waitForTimeout
    title: string,
    titleError: Option<string>,
    description: string,                // the meta description, or 'No description'
    descriptionError: Option<string>,
    scrollWidth: int,
    scrollHeight: int,
    scrollError: Option<string>,
    png: seq<byte>,
    screenshotError: Option<string>,
    closeError: Option<string>,
    host: Option<string>)

  /** The design-feedback response: `data.error` when present, and the first part's text when truthy. */
  datatype FeedbackBody = FeedbackBody(error: Option<ApiError>, firstText: Option<string>)

  /** What `execute` returns. */
  datatype Saved = Saved(screenshotPath: string, metadataPath: string, pageTitle: string, url: string)

  /** One awaited step: its effect and the error it throws, or a local throw with no effect. */
  datatype Step = Step(effect: Effect, error: Option<string>) | Fail(message: string)

  /** The effects performed and, once a step has thrown, its message. */
  datatype Trace = Trace(effects: seq<Effect>, failure: Option<string>)

  /** The effects of all the steps, as if none threw. */
  function AllEffects(steps: seq<Step>): (r: seq<Effect>)
    ensures |r| <= |steps|
    decreases |steps|
  {
    if steps == [] then []
    else (if steps[0].Step? then [steps[0].effect] else []) + AllEffects(steps[1..])
  }

  /**
   * Runs the steps in order until one throws: its effect (if any) is the last
   * one performed and its message the failure.
   */
  function Outcome(steps: seq<Step>): Trace
    decreases |steps|
  {
    if steps == [] then Trace([], None)
    else match steps[0]
      case Fail(m) => Trace([], Some(m))
      case Step(e, Some(m)) => Trace([e], Some(m))
      case Step(e, None) =>
        var rest := Outcome(steps[1..]);
        Trace([e] + rest.effects, rest.failure)
  }

  /** The effects performed are a prefix of all the steps' effects, and all of them when nothing throws. */
  lemma {:induction false} OutcomeIsPrefix(steps: seq<Step>)
    ensures var t := Outcome(steps);
      && |t.effects| <= |AllEffects(steps)| && t.effects == AllEffects(steps)[..|t.effects|]
      && (t.failure.None? ==> t.effects == AllEffects(steps))
    decreases |steps|
  {
    if steps != [] && steps[0].Step? && steps[0].error.None? {
      OutcomeIsPrefix(steps[1..]);
    }
  }

  /** Running two lists of steps one after the other. */
  lemma {:induction false} OutcomeConcat(a: seq<Step>, b: seq<Step>)
    ensures Outcome(a + b) == if Outcome(a).failure.Some? then Outcome(a)
                              else Trace(Outcome(a).effects + Outcome(b).effects, Outcome(b).failure)
    decreases |a|
  {
    if a == [] {
      assert a + b == b;
    } else {
      assert (a + b)[0] == a[0] && (a + b)[1..] == a[1..] + b;
      if a[0].Step? && a[0].error.None? {
        var e := a[0].effect;
        var rest := Outcome(a[1..]);
        OutcomeConcat(a[1..], b);
        assert Outcome(a) == Trace([e] + rest.effects, rest.failure);
        if rest.failure.None? {
          assert [e] + (rest.effects + Outcome(b).effects) == [e] + rest.effects + Outcome(b).effects;
        }
      }
    }
  }

  /** Steps that cannot throw are skipped over by the failure. */
  lemma {:induction false} QuietFailure(steps: seq<Step>)
    requires forall i :: 0 <= i < |steps| ==> steps[i].Step? && steps[i].error.None?
    ensures Outcome(steps) == Trace(AllEffects(steps), None)
    decreases |steps|
  {
    if steps != [] {
      QuietFailure(steps[1..]);
    }
  }

  // ---------------------------------------------------------------------
  // Options

  /** `options.fullpage || options['full-page'] || false`. */
  function FullPage(o: Options): Value {
    Or(Field(o, "fullpage"), Or(Field(o, "full-page"), Some(Bool(false)))).value
  }

  /** `options.viewport || '1920x1080'`. */
  function Viewport(o: Options): Value {
    FieldOr(o, "viewport", Str("1920x1080"))
  }

  /** `options.delay || 0`. */
  function Delay(o: Options): Value {
    FieldOr(o, "delay", Num(0))
  }

  /** An optional sign followed by one or more decimal digits. */
  predicate IsNumeral(t: string) {
    (t != "" && AllDigits(t)) || (|t| > 1 && (t[0] == '+' || t[0] == '-') && AllDigits(t[1..]))
  }

  /**
   * `Number(s)` for the strings a viewport or a delay holds: white space around
   * the text is ignored, a blank string is 0, a decimal numeral with an
   * optional sign is its integer, and anything else is NaN.
   */
  function NumberOf(s: string): (v: Value)
    ensures v.Num? || v.NaN?
  {
    var t := Trim(s);
    if t == "" then Num(0) else NumeralValue(t)
  }

  /** A blank string is 0; otherwise `Number` fails exactly on text that is not a numeral once trimmed. */
  lemma NumberOfMeaning(s: string)
    ensures Trim(s) == "" ==> NumberOf(s) == Num(0)
    ensures NumberOf(s).NaN? <==> Trim(s) != "" && !IsNumeral(Trim(s))
  {
  }

  /** The value of a trimmed, non-blank string. */
  function NumeralValue(t: string): (v: Value)
    ensures v.Num? || v.NaN?
    ensures v.NaN? <==> !IsNumeral(t)
  {
    if t != "" && AllDigits(t) then Num(DigitsValue(t))
    else if IsNumeral(t) then
      var n: int := DigitsValue(t[1..]);
      Num(if t[0] == '-' then -n else n)
    else NaN
  }

  /** The numerals of a natural number, unsigned and signed, read back as that number. */
  lemma NumeralsOfNat(n: nat)
    ensures NumeralValue(NatToString(n)) == Num(n)
    ensures NumeralValue("+" + NatToString(n)) == Num(n)
    ensures NumeralValue("-" + NatToString(n)) == Num(-(n as int))
  {
    var d := NatToString(n);
    DigitsValueOfNatToString(n);
    assert ("+" + d)[1..] == d && !IsDigit(("+" + d)[0]);
    assert ("-" + d)[1..] == d && !IsDigit(("-" + d)[0]);
  }

  /** A rendered integer neither starts nor ends with white space. */
  lemma RenderingUnpadded(n: int)
    ensures var x := IntToString(n); x != [] && !IsSpace(x[0]) && !IsSpace(x[|x| - 1])
  {
    var d := NatToString(if n < 0 then -n else n);
    assert IsDigit(d[0]) && IsDigit(d[|d| - 1]);
  }

  /** `Number` reads back the decimal rendering of any integer, with or without white space around it. */
  lemma NumberOfRendering(pre: string, n: int, post: string)
    requires AllSpace(pre) && AllSpace(post)
    ensures NumberOf(pre + IntToString(n) + post) == Num(n)
    ensures n >= 0 ==> NumberOf(pre + "+" + NatToString(n) + post) == Num(n)
  {
    RenderingUnpadded(n);
    TrimPadded(pre, IntToString(n), post);
    NumeralsOfNat(if n < 0 then -n else n);
    if n >= 0 {
      var y := "+" + NatToString(n);
      assert pre + "+" + NatToString(n) + post == pre + y + post;
      RenderingUnpadded(n);
      TrimPadded(pre, y, post);
    }
  }

  /**
   * `const [width, height] = viewport.split('x').map(Number)`: the height is
   * undefined when there is no 'x'; a viewport that is not a string has no
   * `split`.
   */
  function Dimensions(viewport: Value): (r: Result<(Value, Option<Value>)>)
    ensures r.Err? <==> !viewport.Str?
    ensures r.Err? ==> r.message == SplitNotAFunction
    ensures r.Ok? ==> (r.value.1.None? <==> 'x' !in viewport.s)
  {
    if !viewport.Str? then Err(SplitNotAFunction)
    else
      var parts := Split(viewport.s, 'x');
      CountCharZero(viewport.s, 'x');
      Ok((NumberOf(parts[0]), if |parts| > 1 then Some(NumberOf(parts[1])) else None))
  }

  /** A viewport written with spaces around the 'x' still gives its width and height. */
  lemma SpacedViewport(w: nat, h: nat)
    ensures Dimensions(Str(NatToString(w) + " x " + NatToString(h))) == Ok((Num(w), Some(Num(h))))
  {
    var a := NatToString(w) + " ";
    var b := " " + NatToString(h);
    assert NatToString(w) + " x " + NatToString(h) == a + ['x'] + b;
    assert "" + IntToString(w) + " " == a && " " + IntToString(h) + "" == b;
    NoXInNumeral(w, "", " ");
    NoXInNumeral(h, " ", "");
    NumberOfRendering("", w, " ");
    NumberOfRendering(" ", h, "");
    DimensionsOfGlued(a, b);
  }

  lemma DimensionsOfGlued(a: string, b: string)
    requires 'x' !in a && 'x' !in b
    ensures Dimensions(Str(a + ['x'] + b)) == Ok((NumberOf(a), Some(NumberOf(b))))
  {
    SplitAroundX(a, b);
  }

  lemma NoXInNumeral(n: nat, pre: string, post: string)
    requires AllSpace(pre) && AllSpace(post)
    ensures 'x' !in pre + NatToString(n) + post
  {
    var s := pre + NatToString(n) + post;
    forall i | 0 <= i < |s| ensures s[i] != 'x' {
      if i < |pre| {
        assert IsSpace(s[i]);
      } else if i < |pre| + |NatToString(n)| {
        assert IsDigit(s[i]);
      } else {
        assert IsSpace(s[i]);
      }
    }
  }

  lemma SplitAroundX(a: string, b: string)
    requires 'x' !in a && 'x' !in b
    ensures Split(a + ['x'] + b, 'x') == [a, b]
  {
    SplitGlue(a, 'x', b);
    SplitWithout(a, 'x');
    SplitWithout(b, 'x');
  }

  /**
   * `delay > 0` in JavaScript's loose comparison: an array compares through
   * its string form, the elements joined with commas.
   */
  predicate DelayPositive(delay: Value) {
    match delay
    case Num(n) => n > 0
    case Str(s) => PositiveNumber(s)
    case Bool(b) => b
    case NaN => false
    case List(_) => PositiveNumber(ValueText(delay))
  }

  /** `Number(t) > 0`. */
  predicate PositiveNumber(t: string) {
    var v := NumberOf(t);
    v.Num? && v.n > 0
  }

  /** A one-element array reads as its element. */
  lemma OneItemText(v: Value)
    ensures ValueText(List([v])) == ValueText(v)
  {
    var parts := seq(1, i requires 0 <= i < 1 => ValueText([v][i]));
    assert parts == [ValueText(v)];
  }

  /** An empty array reads as the empty string. */
  lemma EmptyListText()
    ensures ValueText(List([])) == ""
  {
  }

  /** `[n] > 0` is `n > 0`: a one-element array waits as its element would. */
  lemma ListDelay(n: int)
    ensures DelayPositive(List([Num(n)])) <==> n > 0
  {
    OneItemText(Num(n));
    NumberOfRendering("", n, "");
    assert "" + IntToString(n) + "" == IntToString(n);
  }

  /** `[] > 0` is false: an empty array never waits. */
  lemma EmptyListNoDelay()
    ensures !DelayPositive(List([]))
  {
    EmptyListText();
    NumberOfMeaning("");
  }

  /** A delay string waits exactly when the integer it renders, padded or signed, is positive. */
  lemma PaddedDelay(pre: string, n: int, post: string)
    requires AllSpace(pre) && AllSpace(post)
    ensures DelayPositive(Str(pre + IntToString(n) + post)) <==> n > 0
    ensures n >= 0 ==> (DelayPositive(Str(pre + "+" + NatToString(n) + post)) <==> n > 0)
  {
    NumberOfRendering(pre, n, post);
  }

  // ---------------------------------------------------------------------
  // Driving the browser

  /** The load strategy: DOMContentLoaded with 60 s, then load with 30 s only if that failed; neither throws. */
  function LoadSteps(url: string, b: Browser): (steps: seq<Step>)
    ensures forall i :: 0 <= i < |steps| ==> steps[i].Step? && steps[i].error.None?
  {
    [Step(Call(Navigate(url, DomContentLoaded, FirstLoadTimeout)), None)]
    + (if b.domLoaded then [] else [Step(Call(Navigate(url, Load, FallbackLoadTimeout)), None)])
  }

  /** The launch and the viewport, given the viewport's `Dimensions`. */
  function SetupSteps(dimensions: Result<(Value, Option<Value>)>, b: Browser): seq<Step> {
    [Step(Call(LaunchBrowser), b.launchError)]
    + match dimensions
      case Err(m) => [Fail(m)]
      case Ok(dims) => [Step(Call(SetViewport(dims.0, dims.1)), b.viewportError)]
  }

  /** The wait (when `wait`, which is `DelayPositive(delay)`), the reads of the page and the screenshot. */
  function ReadSteps(fullPage: Value, delay: Value, wait: bool, b: Browser): seq<Step> {
    (if wait then [Step(Call(WaitFor(delay)), b.waitError)] else [])
    + [Step(Call(ReadTitle), b.titleError), Step(Call(ReadDescription), b.descriptionError)]
    + (if Truthy(fullPage) then [Step(Call(ReadScrollSize), b.scrollError)] else [])
    + [Step(Call(Screenshot(fullPage)), b.screenshotError)]
  }

  /** From the launch to the screenshot, inclusive. */
  function CaptureSteps(url: string, o: Options, b: Browser): seq<Step> {
    SetupSteps(Dimensions(Viewport(o)), b) + LoadSteps(url, b)
    + ReadSteps(FullPage(o), Delay(o), DelayPositive(Delay(o)), b)
  }

  // ---------------------------------------------------------------------
  // Names, records and messages

  /** `urlObj.hostname.replace('www.', '')`: the first occurrence, wherever it is. */
  function Domain(host: string): string {
    ReplaceFirst(host, "www.", "")
  }

  function ImagesDir(cwd: Segments): Segments { cwd + ["images"] }
  function ReferencesDir(cwd: Segments): Segments { cwd + ["references"] }

  function ScreenshotName(ts: nat, domain: string): string {
    NatToString(ts) + "-screenshot-" + domain + ".png"
  }

  function MetadataName(ts: nat, domain: string): string {
    NatToString(ts) + "-screenshot-" + domain + "-metadata.txt"
  }

  /** `${pageSize.width}x${pageSize.height}`: the scroll size in full-page mode, else the viewport's. */
  function SizeText(fullPage: Value, dims: (Value, Option<Value>), b: Browser): (s: string)
    ensures Truthy(fullPage) ==> s == IntToString(b.scrollWidth) + "x" + IntToString(b.scrollHeight)
    ensures !Truthy(fullPage) ==> s == ValueText(dims.0) + "x" + (if dims.1.Some? then ValueText(dims.1.value) else "undefined")
  {
    if Truthy(fullPage) then IntToString(b.scrollWidth) + "x" + IntToString(b.scrollHeight)
    else ValueText(dims.0) + "x" + (if dims.1.Some? then ValueText(dims.1.value) else "undefined")
  }

  function Rule(): string { Repeat('=', 70) }

  function MetadataLines(url: string, b: Browser, iso: string, viewport: Value, fullPage: Value,
                         size: string, screenshotPath: string, feedback: string): (lines: seq<string>)
    ensures |lines| == 16 && lines[13] == feedback
  {
    ["Website Screenshot Analysis", "URL: " + url, "Title: " + b.title, "Description: " + b.description,
     "Captured: " + iso, "Viewport: " + ValueText(viewport), "Full Page: " + ValueText(fullPage),
     "Screenshot Size: " + size + "px", "Screenshot File: " + screenshotPath, Rule(), "",
     "DESIGN FEEDBACK FROM GEMINI:", "", feedback, "", Rule()]
  }

  /** The feedback request's endpoint, the key in its query string. */
  function FeedbackEndpoint(key: string): string {
    "https://generativelanguage.googleapis.com/v1beta/models/gemini-2.5-pro:generateContent?key=" + key
  }

  /** `getDesignFeedback`: every outcome, failures included, becomes text; it never throws. */
  function Feedback(reply: Reply<FeedbackBody>): (s: string)
    ensures reply.Answered? && reply.body.error.Some? ==>
      s == "Gemini Error: " + reply.body.error.value.message.GetOr("undefined")
    ensures reply.Answered? && reply.body.error.None? ==>
      s == if reply.body.firstText.Some? && reply.body.firstText.value != "" then reply.body.firstText.value else NoFeedbackText
    ensures reply.Failed? && HasStatus(reply.failure, 429) ==> s == FeedbackRateLimited
    ensures reply.Failed? && !HasStatus(reply.failure, 429) ==>
      var f := reply.failure;
      s == if f.response.Some? && f.response.value.error.Some?
           then "Gemini Error: " + f.response.value.error.value.message.GetOr("undefined")
           else "Error getting design feedback: " + f.message
    ensures s != ""
  {
    match reply
    case Answered(body) =>
      if body.error.Some? then "Gemini Error: " + body.error.value.message.GetOr("undefined")
      else if body.firstText.Some? && body.firstText.value != "" then body.firstText.value
      else NoFeedbackText
    case Failed(f) =>
      if HasStatus(f, 429) then FeedbackRateLimited
      else if f.response.Some? && f.response.value.error.Some? then
        "Gemini Error: " + f.response.value.error.value.message.GetOr("undefined")
      else "Error getting design feedback: " + f.message
  }

  /** The outer catch block: browser network errors name the URL; anything else is rethrown. */
  function ErrorMessage(url: string, m: string): (e: string)
    ensures Contains(m, "net::ERR_") ==> e == "Failed to load URL: " + url + ". Check the URL is correct and accessible."
    ensures !Contains(m, "net::ERR_") ==> e == m
  {
    if Contains(m, "net::ERR_") then "Failed to load URL: " + url + ". Check the URL is correct and accessible." else m
  }

  // ---------------------------------------------------------------------
  // The command

  /** The feedback text: from Gemini with a key, the fixed notice without. */
  function FeedbackText(env: Env, reply: Reply<FeedbackBody>): string {
    if env.geminiApiKey != "" then Feedback(reply) else NotConfigured
  }

  /** The metadata record. */
  function Metadata(url: string, o: Options, env: Env, cwd: Segments, clock: Clock, b: Browser,
                    reply: Reply<FeedbackBody>): string {
    var dims := Dimensions(Viewport(o));
    var size := if dims.Ok? then SizeText(FullPage(o), dims.value, b) else "";
    var shot := ScreenshotName(clock.now, Domain(b.host.GetOr("")));
    Lines(MetadataLines(url, b, clock.iso, Viewport(o), FullPage(o), size,
                        Render(ImagesDir(cwd) + [shot]), FeedbackText(env, reply)))
  }

  /** The feedback request, made only with a key. */
  function FeedbackCalls(env: Env): seq<Effect> {
    if env.geminiApiKey != "" then [Call(DesignFeedback(FeedbackEndpoint(env.geminiApiKey)))] else []
  }

  /** The image write, closing the browser, the feedback request and the write of the metadata record `meta`. */
  function SaveEffects(env: Env, cwd: Segments, clock: Clock, b: Browser, meta: string): seq<Effect> {
    var domain := Domain(b.host.GetOr(""));
    [MkDirP(ImagesDir(cwd)), Write(ImagesDir(cwd), ScreenshotName(clock.now, domain), Bytes(b.png)), Call(CloseBrowser)]
    + FeedbackCalls(env)
    + [MkDirP(ReferencesDir(cwd)), Write(ReferencesDir(cwd), MetadataName(clock.now, domain), Text(meta))]
  }

  /** Everything after the screenshot: the host check, then the saves around closing the browser. */
  function FinishSteps(env: Env, cwd: Segments, clock: Clock, b: Browser, meta: string): seq<Step> {
    var domain := Domain(b.host.GetOr(""));
    (if b.host.None? then [Fail(InvalidUrl)] else [])
    + [Step(MkDirP(ImagesDir(cwd)), None), Step(Write(ImagesDir(cwd), ScreenshotName(clock.now, domain), Bytes(b.png)), None),
       Step(Call(CloseBrowser), b.closeError)]
    + (if env.geminiApiKey != "" then [Step(Call(DesignFeedback(FeedbackEndpoint(env.geminiApiKey))), None)] else [])
    + [Step(MkDirP(ReferencesDir(cwd)), None),
       Step(Write(ReferencesDir(cwd), MetadataName(clock.now, domain), Text(meta)), None)]
  }

  /** Whether the run gets through every step. */
  predicate Succeeds(url: string, o: Options, b: Browser) {
    Outcome(CaptureSteps(url, o, b)).failure.None? && b.host.Some? && b.closeError.None?
  }

  /**
   * `execute(options)` against browser `b`, with the feedback request's reply.
   * `clock` holds the readings for the file names and the Captured line.
   */
  function Execute(o: Options, env: Env, cwd: Segments, clock: Clock, b: Browser,
                   reply: Reply<FeedbackBody>): (r: Run<Saved>)
    ensures TextArg(o, "url").None? ==> r == Throw(MissingUrl)
    ensures TextArg(o, "url").Some? ==> |r.effects| >= 1 && r.effects[0] == Call(LaunchBrowser)
    ensures r.result.Ok? <==> TextArg(o, "url").Some? && Succeeds(TextArg(o, "url").value, o, b)
    ensures TextArg(o, "url").Some? ==>
      var url := TextArg(o, "url").value;
      r.effects == Outcome(CaptureSteps(url, o, b) + FinishSteps(env, cwd, clock, b, Metadata(url, o, env, cwd, clock, b, reply))).effects
    ensures r.result.Ok? ==>
      var url := TextArg(o, "url").value;
      var domain := Domain(b.host.value);
      && r.result.value == Saved(Render(ImagesDir(cwd) + [ScreenshotName(clock.now, domain)]),
                                 Render(ReferencesDir(cwd) + [MetadataName(clock.now, domain)]),
                                 b.title, url)
      && r.effects == AllEffects(CaptureSteps(url, o, b)) + SaveEffects(env, cwd, clock, b, Metadata(url, o, env, cwd, clock, b, reply))
    ensures r.result.Err? && TextArg(o, "url").Some? ==>
      var url := TextArg(o, "url").value;
      var t := Outcome(CaptureSteps(url, o, b) + FinishSteps(env, cwd, clock, b, Metadata(url, o, env, cwd, clock, b, reply)));
      t.failure.Some? && r.result.message == ErrorMessage(url, t.failure.value)
  {
    match TextArg(o, "url")
    case None => Throw(MissingUrl)
    case Some(url) =>
      var cap := CaptureSteps(url, o, b);
      var meta := Metadata(url, o, env, cwd, clock, b, reply);
      var fin := FinishSteps(env, cwd, clock, b, meta);
      var t := Outcome(cap + fin);
      OutcomeConcat(cap, fin);
      OutcomeIsPrefix(cap);
      FinishOutcome(env, cwd, clock, b, meta);
      LaunchFirst(url, o, b);
      if t.failure.Some? then Run(t.effects, Err(ErrorMessage(url, t.failure.value)))
      else
        var domain := Domain(b.host.value);
        Run(t.effects, Ok(Saved(Render(ImagesDir(cwd) + [ScreenshotName(clock.now, domain)]),
                                Render(ReferencesDir(cwd) + [MetadataName(clock.now, domain)]), b.title, url)))
  }

  /** The launch is the first thing the browser is asked to do. */
  lemma LaunchFirst(url: string, o: Options, b: Browser)
    ensures var t := Outcome(CaptureSteps(url, o, b));
      |t.effects| >= 1 && t.effects[0] == Call(LaunchBrowser)
  {
    var steps := CaptureSteps(url, o, b);
    assert steps[0] == Step(Call(LaunchBrowser), b.launchError);
  }

  /** The image save and the close: the close's error is the only failure. */
  lemma CloseOutcome(e1: Effect, e2: Effect, closeError: Option<string>)
    ensures var t := Outcome([Step(e1, None), Step(e2, None), Step(Call(CloseBrowser), closeError)]);
      t.failure == closeError && t.effects == [e1, e2, Call(CloseBrowser)]
  {
    var s1 := [Step(e1, None), Step(e2, None), Step(Call(CloseBrowser), closeError)];
    var last := [Step(Call(CloseBrowser), closeError)];
    assert s1[1..][1..] == last && last[1..] == [];
    assert Outcome(last) == Trace([Call(CloseBrowser)], closeError);
    assert Outcome(s1[1..]) == Trace([e2, Call(CloseBrowser)], closeError);
  }

  /** The shape of the steps after the screenshot, over any effects. */
  lemma {:induction false} SaveOutcome(head: seq<Step>, e1: Effect, e2: Effect, closeError: Option<string>,
                                       fb: seq<Step>, e4: Effect, e5: Effect)
    requires head == [] || head == [Fail(InvalidUrl)]
    requires forall i :: 0 <= i < |fb| ==> fb[i].Step? && fb[i].error.None?
    ensures var t := Outcome(head + [Step(e1, None), Step(e2, None), Step(Call(CloseBrowser), closeError)]
                             + fb + [Step(e4, None), Step(e5, None)]);
      && t.failure == (if head == [] then closeError else Some(InvalidUrl))
      && (t.failure.None? ==> t.effects == [e1, e2, Call(CloseBrowser)] + AllEffects(fb) + [e4, e5])
  {
    var s1 := [Step(e1, None), Step(e2, None), Step(Call(CloseBrowser), closeError)];
    var s3 := [Step(e4, None), Step(e5, None)];
    OutcomeConcat(head + s1 + fb, s3);
    OutcomeConcat(head + s1, fb);
    OutcomeConcat(head, s1);
    QuietFailure(fb);
    QuietFailure(s3);
    assert AllEffects(s3) == [e4, e5] by {
      assert s3[1..][1..] == [];
    }
    CloseOutcome(e1, e2, closeError);
    if head == [] {
      assert Outcome(head) == Trace([], None);
    } else {
      assert Outcome(head).failure == Some(InvalidUrl);
    }
  }

  /** The steps after the screenshot fail only on a bad host or a failed close; otherwise they perform the saves. */
  lemma FinishOutcome(env: Env, cwd: Segments, clock: Clock, b: Browser, meta: string)
    ensures var t := Outcome(FinishSteps(env, cwd, clock, b, meta));
      && t.failure == (if b.host.None? then Some(InvalidUrl) else b.closeError)
      && (t.failure.None? ==> t.effects == SaveEffects(env, cwd, clock, b, meta))
  {
    var domain := Domain(b.host.GetOr(""));
    var e1 := MkDirP(ImagesDir(cwd));
    var e2 := Write(ImagesDir(cwd), ScreenshotName(clock.now, domain), Bytes(b.png));
    var fb := if env.geminiApiKey != "" then [Step(Call(DesignFeedback(FeedbackEndpoint(env.geminiApiKey))), None)] else [];
    var e4 := MkDirP(ReferencesDir(cwd));
    var e5 := Write(ReferencesDir(cwd), MetadataName(clock.now, domain), Text(meta));
    var head := if b.host.None? then [Fail(InvalidUrl)] else [];
    SaveOutcome(head, e1, e2, b.closeError, fb, e4, e5);
    assert AllEffects(fb) == FeedbackCalls(env);
  }

  // ---------------------------------------------------------------------
  // Properties

  /** Where the page load ends up: the three states of the fallback. */
  datatype PageState = DomContentReady | FullyLoaded | Partial

  function LoadState(b: Browser): (st: PageState)
    ensures st == DomContentReady <==> b.domLoaded
    ensures st == FullyLoaded <==> !b.domLoaded && b.loaded
    ensures st == Partial <==> !b.domLoaded && !b.loaded
  {
    if b.domLoaded then DomContentReady else if b.loaded then FullyLoaded else Partial
  }

  /**
   * The page load: DOMContentLoaded with a 60 s timeout first, load with a
   * 30 s timeout only when that attempt failed, and in every state the run
   * goes on.
   */
  lemma LoadAttempts(url: string, b: Browser)
    ensures var t := Outcome(LoadSteps(url, b));
      && t.failure.None?
      && |t.effects| == (if LoadState(b) == DomContentReady then 1 else 2)
      && t.effects[0] == Call(Navigate(url, DomContentLoaded, 60000))
      && (LoadState(b) != DomContentReady ==> t.effects[1] == Call(Navigate(url, Load, 30000)))
  {
    var steps := LoadSteps(url, b);
    QuietFailure(steps);
    if !b.domLoaded {
      assert steps[1..][1..] == [];
    }
  }

  lemma {:induction false} AllEffectsConcat(a: seq<Step>, b: seq<Step>)
    ensures AllEffects(a + b) == AllEffects(a) + AllEffects(b)
    decreases |a|
  {
    if a == [] {
      assert a + b == b;
    } else {
      assert (a + b)[0] == a[0] && (a + b)[1..] == a[1..] + b;
      AllEffectsConcat(a[1..], b);
    }
  }

  /** Steps that cannot throw never change where, or with what, the run fails. */
  lemma QuietInsert(a: seq<Step>, q: seq<Step>, c: seq<Step>)
    requires forall i :: 0 <= i < |q| ==> q[i].Step? && q[i].error.None?
    ensures Outcome(a + q + c).failure == Outcome(a + c).failure
  {
    OutcomeConcat(a + q, c);
    OutcomeConcat(a, q);
    OutcomeConcat(a, c);
    QuietFailure(q);
  }

  /** Two runs that differ only in steps that cannot throw fail alike. */
  lemma SameFailure(setup: seq<Step>, q: seq<Step>, q': seq<Step>, probes: seq<Step>, fin: seq<Step>, fin': seq<Step>)
    requires forall i :: 0 <= i < |q| ==> q[i].Step? && q[i].error.None?
    requires forall i :: 0 <= i < |q'| ==> q'[i].Step? && q'[i].error.None?
    requires Outcome(fin).failure == Outcome(fin').failure
    ensures Outcome(setup + q + probes).failure == Outcome(setup + q' + probes).failure
    ensures Outcome(setup + q + probes + fin).failure == Outcome(setup + q' + probes + fin').failure
  {
    QuietInsert(setup, q, probes);
    QuietInsert(setup, q', probes);
    OutcomeConcat(setup + q + probes, fin);
    OutcomeConcat(setup + q' + probes, fin');
  }

  /**
   * The outcome of the page-load attempts never matters to the result: with
   * any answers to the two navigations, the run fails or returns exactly as
   * it otherwise would.
   */
  lemma NavigationNeverAborts(o: Options, env: Env, cwd: Segments, clock: Clock, b: Browser,
                              reply: Reply<FeedbackBody>, domLoaded: bool, loaded: bool)
    ensures Execute(o, env, cwd, clock, b.(domLoaded := domLoaded, loaded := loaded), reply).result
         == Execute(o, env, cwd, clock, b, reply).result
  {
    var b' := b.(domLoaded := domLoaded, loaded := loaded);
    if TextArg(o, "url").Some? {
      CaptureFailuresAgree(TextArg(o, "url").value, o, env, cwd, clock, b, b', reply);
    }
  }

  /** The capture fails, and the whole run fails, at the same step whatever the navigations answer. */
  lemma CaptureFailuresAgree(url: string, o: Options, env: Env, cwd: Segments, clock: Clock, b: Browser, b': Browser,
                             reply: Reply<FeedbackBody>)
    requires b' == b.(domLoaded := b'.domLoaded, loaded := b'.loaded)
    ensures Outcome(CaptureSteps(url, o, b')).failure == Outcome(CaptureSteps(url, o, b)).failure
    ensures Metadata(url, o, env, cwd, clock, b', reply) == Metadata(url, o, env, cwd, clock, b, reply)
    ensures var meta := Metadata(url, o, env, cwd, clock, b, reply);
      Outcome(CaptureSteps(url, o, b') + FinishSteps(env, cwd, clock, b', meta)).failure
      == Outcome(CaptureSteps(url, o, b) + FinishSteps(env, cwd, clock, b, meta)).failure
  {
    var setup := SetupSteps(Dimensions(Viewport(o)), b);
    var probes := ReadSteps(FullPage(o), Delay(o), DelayPositive(Delay(o)), b);
    NavigationUnread(url, o, env, cwd, clock, b, b', reply, Dimensions(Viewport(o)), DelayPositive(Delay(o)));
    var meta := Metadata(url, o, env, cwd, clock, b, reply);
    var fin := FinishSteps(env, cwd, clock, b, meta);
    var fin' := FinishSteps(env, cwd, clock, b', meta);
    FinishOutcome(env, cwd, clock, b, meta);
    FinishOutcome(env, cwd, clock, b', meta);
    SameFailure(setup, LoadSteps(url, b), LoadSteps(url, b'), probes, fin, fin');
    assert CaptureSteps(url, o, b) == setup + LoadSteps(url, b) + probes;
    assert CaptureSteps(url, o, b') == setup + LoadSteps(url, b') + probes;
  }

  /** Only the load steps read the answers to the two navigations. */
  lemma NavigationUnread(url: string, o: Options, env: Env, cwd: Segments, clock: Clock, b: Browser, b': Browser,
                         reply: Reply<FeedbackBody>, dimensions: Result<(Value, Option<Value>)>, wait: bool)
    requires b' == b.(domLoaded := b'.domLoaded, loaded := b'.loaded)
    ensures SetupSteps(dimensions, b') == SetupSteps(dimensions, b)
    ensures ReadSteps(FullPage(o), Delay(o), wait, b') == ReadSteps(FullPage(o), Delay(o), wait, b)
    ensures Metadata(url, o, env, cwd, clock, b', reply) == Metadata(url, o, env, cwd, clock, b, reply)
  {
  }

  /** Nothing before the close closes the browser; a failure there, or a bad host, leaves it open. */
  lemma LeftOpen(cap: seq<Step>, fin: seq<Step>)
    requires Call(CloseBrowser) !in AllEffects(cap)
    requires Outcome(cap).failure.Some? || Outcome(fin) == Trace([], Some(InvalidUrl))
    ensures Outcome(cap + fin).failure.Some?
    ensures Call(CloseBrowser) !in Outcome(cap + fin).effects
  {
    OutcomeConcat(cap, fin);
    OutcomeIsPrefix(cap);
    var t := Outcome(cap);
    assert t.effects == AllEffects(cap)[..|t.effects|];
    if t.failure.None? {
      assert t.effects + [] == t.effects;
    }
  }

  /** The capture steps never close the browser. */
  lemma NoCloseInCapture(url: string, o: Options, b: Browser)
    ensures Call(CloseBrowser) !in AllEffects(CaptureSteps(url, o, b))
  {
    var setup := SetupSteps(Dimensions(Viewport(o)), b);
    var load := LoadSteps(url, b);
    var probes := ReadSteps(FullPage(o), Delay(o), DelayPositive(Delay(o)), b);
    AllEffectsConcat(setup + load, probes);
    AllEffectsConcat(setup, load);
    NoCloseInSetup(Dimensions(Viewport(o)), b);
    NoCloseInLoad(url, b);
    NoCloseInReads(FullPage(o), Delay(o), DelayPositive(Delay(o)), b);
  }

  lemma NoCloseInSetup(dimensions: Result<(Value, Option<Value>)>, b: Browser)
    ensures Call(CloseBrowser) !in AllEffects(SetupSteps(dimensions, b))
  {
    var setup := SetupSteps(dimensions, b);
    assert setup[1..][1..] == [];
  }

  lemma NoCloseInLoad(url: string, b: Browser)
    ensures Call(CloseBrowser) !in AllEffects(LoadSteps(url, b))
  {
    LoadAttempts(url, b);
    QuietFailure(LoadSteps(url, b));
  }

  /**
   * When a step before the close throws (or the URL has no host), the browser
   * is never closed: the catch block rethrows without closing it.
   */
  lemma LeftOpenOnEarlyFailure(o: Options, env: Env, cwd: Segments, clock: Clock, b: Browser,
                               reply: Reply<FeedbackBody>)
    requires TextArg(o, "url").Some?
    requires Outcome(CaptureSteps(TextArg(o, "url").value, o, b)).failure.Some? || b.host.None?
    ensures Execute(o, env, cwd, clock, b, reply).result.Err?
    ensures Call(CloseBrowser) !in Execute(o, env, cwd, clock, b, reply).effects
  {
    var url := TextArg(o, "url").value;
    var fin := FinishSteps(env, cwd, clock, b, Metadata(url, o, env, cwd, clock, b, reply));
    NoCloseInCapture(url, o, b);
    if b.host.None? {
      assert fin[0] == Fail(InvalidUrl);
      assert Outcome(fin) == Trace([], Some(InvalidUrl));
    }
    LeftOpen(CaptureSteps(url, o, b), fin);
  }

  lemma NoCloseInReads(fullPage: Value, delay: Value, wait: bool, b: Browser)
    ensures Call(CloseBrowser) !in AllEffects(ReadSteps(fullPage, delay, wait, b))
  {
    var w := if wait then [Step(Call(WaitFor(delay)), b.waitError)] else [];
    var m := [Step(Call(ReadTitle), b.titleError), Step(Call(ReadDescription), b.descriptionError)];
    var sc := if Truthy(fullPage) then [Step(Call(ReadScrollSize), b.scrollError)] else [];
    var sh := [Step(Call(Screenshot(fullPage)), b.screenshotError)];
    AllEffectsConcat(w + m + sc, sh);
    AllEffectsConcat(w + m, sc);
    AllEffectsConcat(w, m);
    assert m[1..][1..] == [];
    assert sh[1..] == [];
    if wait { assert w[1..] == []; }
    if Truthy(fullPage) { assert sc[1..] == []; }
  }

  /** A host starting with "www." loses exactly that prefix, even when the rest has another "www.". */
  lemma DomainDropsLeadingWww(rest: string)
    ensures Domain("www." + rest) == rest
  {
    var h := "www." + rest;
    assert OccursAt(h, "www.", 0) by { assert h[0..4] == "www."; }
    assert h[4..] == rest;
  }

  /** A host without "www." is its own domain. */
  lemma DomainWithoutWww(host: string)
    requires !Contains(host, "www.")
    ensures Domain(host) == host
  {
  }

  lemma {:induction false} FirstWwwAt(h: string, k: nat, m: nat)
    requires k <= m && OccursAt(h, "www.", m)
    requires forall j :: k <= j < m ==> h[j] != 'w'
    ensures IndexFrom(h, "www.", k) == Some(m)
    decreases m - k
  {
    if k < m {
      assert !OccursAt(h, "www.", k) by { assert h[k..k + 4][0] == h[k]; }
      FirstWwwAt(h, k + 1, m);
    }
  }

  /**
   * The first "www." is removed wherever it occurs, not only at the start:
   * after any prefix without a 'w' it is cut out of the middle.
   */
  lemma DomainCutsMiddleWww(prefix: string, rest: string)
    requires 'w' !in prefix
    ensures Domain(prefix + "www." + rest) == prefix + rest
  {
    var h := prefix + "www." + rest;
    var n := |prefix|;
    assert OccursAt(h, "www.", n) by { assert h[n..n + 4] == "www."; }
    forall j | 0 <= j < n ensures h[j] != 'w' { assert h[j] == prefix[j]; }
    FirstWwwAt(h, 0, n);
    assert h[..n] == prefix && h[n + 4..] == rest;
  }
}
