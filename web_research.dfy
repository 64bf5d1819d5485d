/**
 * WebResearchCommand (src/commands/WebResearchCommand.js): checks the topic
 * and the OpenAI key, asks the chat-completion endpoint for a report, and
 * saves it, framed by a header and a note, under references/.
 */
module WebResearchCommand {
  import opened Base
  import opened Paths
  import opened Effects
  import opened FileSystems
  import opened Slug

  const MissingTopic := "web-research requires a topic argument"
  const MissingKey := "web-research requires OPENAI_API_KEY in .env"
  const RateLimited := "Rate limited by OpenAI. Please wait and try again."
  const ErrorPrefix := "OpenAI API error: "
  const ChatModel := "gpt-4o"

  /**
   * The decoded chat reply: `choices[0].message.content` (None for null or
   * undefined), or the TypeError thrown when `choices[0]` is missing.
   */
  datatype ChatBody = Choice(content: Option<string>) | NoChoice(typeError: string)

  /** `path.join(process.cwd(), 'references')`. */
  function ReferencesDir(cwd: Segments): Segments {
    cwd + ["references"]
  }

  /** `${timestamp}-web-research-${sanitized}.txt`. */
  function ReportName(ts: nat, slug: string): (name: string)
    ensures StartsWith(name, NatToString(ts) + "-web-research-")
    ensures EndsWith(name, ".txt")
  {
    var name := NatToString(ts) + "-web-research-" + slug + ".txt";
    assert name[..|NatToString(ts) + "-web-research-"|] == NatToString(ts) + "-web-research-";
    assert name[|name| - 4..] == ".txt";
    name
  }

  function Rule(): string { Repeat('=', 60) }

  /** The report lines before the research text. */
  function Header(topic: string, iso: string): seq<string> {
    ["Web Research Report", "Topic: " + topic, "Generated: " + iso,
     "Model: GPT-4o (with web research)", Rule(), ""]
  }

  /** The report lines after the research text. */
  function Trailer(): seq<string> {
    ["", Rule(), "Note: This research was compiled using OpenAI GPT-4o chat model.",
     "Verify all claims in original sources before using."]
  }

  /** The report: the header, the research, the trailer, joined with '\n'. */
  function Report(topic: string, iso: string, research: string): (text: string)
    ensures text == Lines(Header(topic, iso)) + "\n" + research + "\n" + Lines(Trailer())
  {
    JoinAppend(Header(topic, iso), [research], "\n");
    JoinAppend(Header(topic, iso) + [research], Trailer(), "\n");
    Lines(Header(topic, iso) + [research] + Trailer())
  }

  /** The research text read back out of a report, given the topic and time it names. */
  function ResearchOf(topic: string, iso: string, text: string): string {
    var from := |Lines(Header(topic, iso))| + 1;
    var to := |text| - |Lines(Trailer())| - 1;
    if from <= to then text[from..to] else ""
  }

  /**
   * The catch block: a 429 is reported as rate limiting before any API error
   * object is looked at; an API error object gives "OpenAI API error: " and
   * its message ("undefined" when it has none); anything else is rethrown.
   */
  function FailureMessage(f: Failure): (m: string)
    ensures HasStatus(f, 429) ==> m == RateLimited
    ensures !HasStatus(f, 429) && f.response.Some? && f.response.value.error.Some? ==>
      m == ErrorPrefix + f.response.value.error.value.message.GetOr("undefined")
    ensures !HasStatus(f, 429) && !(f.response.Some? && f.response.value.error.Some?) ==> m == f.message
  {
    if HasStatus(f, 429) then RateLimited
    else if f.response.Some? && f.response.value.error.Some? then
      ErrorPrefix + f.response.value.error.value.message.GetOr("undefined")
    else f.message
  }

  /** `execute(options)` with OPENAI_API_KEY from `env`. */
  function WebResearch(o: Options, env: Env, cwd: Segments, clock: Clock, reply: Reply<ChatBody>): (r: Run<()>)
    ensures TextArg(o, "topic").None? ==> r == Throw(MissingTopic)
    ensures TextArg(o, "topic").Some? && env.openAiKey == "" ==> r == Throw(MissingKey)
    ensures TextArg(o, "topic").Some? && env.openAiKey != "" ==>
      |r.effects| >= 1 && r.effects[0] == Call(ChatCompletion(ChatModel, TextArg(o, "topic").value))
    ensures r.result.Err? ==> NoWrites(r.effects)
    ensures r.result.Ok? <==> TextArg(o, "topic").Some? && env.openAiKey != "" && reply.Answered? && reply.body.Choice?
    ensures TextArg(o, "topic").Some? && env.openAiKey != "" && reply.Failed? ==>
      r.result == Err(FailureMessage(reply.failure))
    ensures TextArg(o, "topic").Some? && env.openAiKey != "" && reply.Answered? && reply.body.NoChoice? ==>
      r.result == Err(reply.body.typeError)
    ensures r.result.Ok? ==>
      var topic := TextArg(o, "topic").value;
      r.effects == [Call(ChatCompletion(ChatModel, topic)), MkDirP(ReferencesDir(cwd)),
        Write(ReferencesDir(cwd), ReportName(clock.now, Sanitize(topic)),
          Text(Report(topic, clock.iso, reply.body.content.GetOr(""))))]
  {
    match TextArg(o, "topic")
    case None => Throw(MissingTopic)
    case Some(topic) =>
      if env.openAiKey == "" then Throw(MissingKey)
      else
        var call := Call(ChatCompletion(ChatModel, topic));
        match reply
        case Failed(f) => Run([call], Err(FailureMessage(f)))
        case Answered(NoChoice(m)) => Run([call], Err(m))
        case Answered(Choice(c)) =>
          var dir := ReferencesDir(cwd);
          Run([call, MkDirP(dir), Write(dir, ReportName(clock.now, Sanitize(topic)), Text(Report(topic, clock.iso, c.GetOr(""))))],
              Ok(()))
  }

  // ---------------------------------------------------------------------
  // Properties

  /** The report carries the research text verbatim: it can be read back out. */
  lemma ReportKeepsResearch(topic: string, iso: string, research: string)
    ensures ResearchOf(topic, iso, Report(topic, iso, research)) == research
  {
    var h := Lines(Header(topic, iso));
    var t := Lines(Trailer());
    var text := Report(topic, iso, research);
    assert text == h + "\n" + research + "\n" + t;
    assert text[|h| + 1..|text| - |t| - 1] == research;
  }

  /**
   * A successful run leaves exactly one new or replaced file, the report under
   * references/, and needs no directory to exist beforehand.
   */
  lemma ResearchSaved(o: Options, env: Env, cwd: Segments, clock: Clock, reply: Reply<ChatBody>,
                      files: map<Segments, Content>, dirs: set<Segments>)
    requires WebResearch(o, env, cwd, clock, reply).result.Ok?
    ensures var topic := TextArg(o, "topic").value;
      var r := WebResearch(o, env, cwd, clock, reply);
      && Prepared(dirs, r.effects)
      && FilesAfter(files, r.effects)
         == files[ReferencesDir(cwd) + [ReportName(clock.now, Sanitize(topic))]
                  := Text(Report(topic, clock.iso, reply.body.content.GetOr("")))]
  {
    var topic := TextArg(o, "topic").value;
    var r := WebResearch(o, env, cwd, clock, reply);
    var name := ReportName(clock.now, Sanitize(topic));
    var c := Text(Report(topic, clock.iso, reply.body.content.GetOr("")));
    var calls := [Call(ChatCompletion(ChatModel, topic))];
    assert r.effects == calls + [MkDirP(ReferencesDir(cwd)), Write(ReferencesDir(cwd), name, c)];
    CallsThenSave(files, dirs, calls, ReferencesDir(cwd), name, c);
  }
}
