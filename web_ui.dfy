/**
 * The browser front end (public/app.js): the per-command form descriptions,
 * the buttons built from the server's command list, the gathering and
 * checking of form values into an argument bag, and `truncateFilename`.
 */
module WebUi {
  import opened Base
  import opened Effects
  import opened Commands
  import opened Registry
  import opened Server
  import TextAnalyzeCommand
  import WebResearchCommand
  import TextStats

  // ---------------------------------------------------------------------
  // Form descriptions

  datatype FieldType = TextField | TextareaField | NumberField | CheckboxField

  /** One form field: its argument name, label, input type, whether it is required, and its default text. */
  datatype FieldSpec = FieldSpec(name: string, title: string, fieldType: FieldType, required: bool, default: string)

  datatype UiConfig = UiConfig(title: string, fields: seq<FieldSpec>)

  /** `commandConfigs[name]`, None for a name without a form. */
  function ConfigOf(name: string): Option<UiConfig> {
    if name == "hello" then
      Some(UiConfig("Hello", [FieldSpec("message", "Message", TextField, false, "Hello from CLI")]))
    else if name == "web-search" then
      Some(UiConfig("Web Search", [FieldSpec("query", "Search Query", TextField, true, "")]))
    else if name == "gemini" then
      Some(UiConfig("Gemini AI", [FieldSpec("prompt", "Prompt", TextareaField, true, ""),
                                  FieldSpec("file", "Image File (optional)", TextField, false, "")]))
    else if name == "image-generate" then
      Some(UiConfig("Generate Image", [FieldSpec("prompt", "Image Description", TextareaField, true, ""),
                                       FieldSpec("size", "Size", TextField, false, "1024x1024"),
                                       FieldSpec("n", "Number of Images", NumberField, false, "1"),
                                       FieldSpec("model", "Model", TextField, false, "dall-e-3")]))
    else if name == "text-analyze" then
      Some(UiConfig("Analyze Text", [FieldSpec("text", "Text to Analyze", TextareaField, true, "")]))
    else if name == "web-research" then
      Some(UiConfig("Web Research", [FieldSpec("query", "Research Topic", TextareaField, true, "")]))
    else if name == "website-screenshot" then
      Some(UiConfig("Screenshot", [FieldSpec("url", "Website URL", TextField, true, ""),
                                   FieldSpec("viewport", "Viewport Size", TextField, false, "1920x1080"),
                                   FieldSpec("fullpage", "Full Page", CheckboxField, false, ""),
                                   FieldSpec("delay", "Delay (ms)", NumberField, false, "1000")]))
    else None
  }

  /** `loadCommands`: one button per listed command that has a form, in list order. */
  function Buttons(listed: seq<Listing>): (names: seq<string>)
    ensures |names| <= |listed|
    ensures forall n :: n in names ==> ConfigOf(n).Some?
    ensures forall i :: 0 <= i < |listed| && ConfigOf(listed[i].name).Some? ==> listed[i].name in names
    decreases |listed|
  {
    if listed == [] then []
    else (if ConfigOf(listed[0].name).Some? then [listed[0].name] else []) + Buttons(listed[1..])
  }

  /** When every listed command has a form, the buttons are the listed names in order. */
  lemma {:induction false} ButtonsWhenAllConfigured(listed: seq<Listing>)
    requires forall i :: 0 <= i < |listed| ==> ConfigOf(listed[i].name).Some?
    ensures |Buttons(listed)| == |listed|
    ensures forall i :: 0 <= i < |listed| ==> Buttons(listed)[i] == listed[i].name
    decreases |listed|
  {
    if listed != [] {
      ButtonsWhenAllConfigured(listed[1..]);
    }
  }

  /** Every registered name has a form. */
  lemma NameConfigured(i: int)
    requires 0 <= i < |RegisteredNames|
    ensures ConfigOf(RegisteredNames[i]).Some?
  {
    var names := RegisteredNames;
    if i == 0 { assert ConfigOf(names[0]).Some?; }
    else if i == 1 { assert ConfigOf(names[1]).Some?; }
    else if i == 2 { assert ConfigOf(names[2]).Some?; }
    else if i == 3 { assert ConfigOf(names[3]).Some?; }
    else if i == 4 { assert ConfigOf(names[4]).Some?; }
    else if i == 5 { assert ConfigOf(names[5]).Some?; }
    else { assert ConfigOf(names[6]).Some?; }
  }

  /** Every command the server lists has a form, so every one gets a button, in the server's order. */
  lemma AllListedGetButtons()
    ensures Buttons(CommandList) == RegisteredNames
  {
    ListedAreRegistered();
    var listed := CommandList;
    forall i | 0 <= i < |listed|
      ensures ConfigOf(listed[i].name).Some?
    {
      NameConfigured(i);
    }
    ButtonsWhenAllConfigured(listed);
  }

  // ---------------------------------------------------------------------
  // parseInt

  function HexValue(c: char): (d: nat)
    ensures d < 16
  {
    if '0' <= c <= '9' then (c as int - '0' as int)
    else if 'a' <= c <= 'f' then (c as int - 'a' as int + 10)
    else if 'A' <= c <= 'F' then (c as int - 'A' as int + 10)
    else 0
  }

  predicate IsHexDigit(c: char) {
    '0' <= c <= '9' || 'a' <= c <= 'f' || 'A' <= c <= 'F'
  }

  /** The length of the longest prefix of `s` whose characters satisfy `p`. */
  function PrefixLength(s: string, p: char -> bool): (n: nat)
    ensures n <= |s|
    ensures forall i :: 0 <= i < n ==> p(s[i])
    ensures n < |s| ==> !p(s[n])
    decreases |s|
  {
    if s != [] && p(s[0]) then 1 + PrefixLength(s[1..], p) else 0
  }

  /** The value of a digit string in `base`, most significant first. */
  function DigitsIn(s: string, base: nat): nat
    decreases |s|
  {
    if s == [] then 0 else DigitsIn(s[..|s| - 1], base) * base + HexValue(s[|s| - 1])
  }

  /** `parseInt(s)` without a radix: leading white space, a sign, then decimal digits, or hex after 0x. */
  function ParseInt(s: string): (v: Value)
    ensures v.Num? || v.NaN?
  {
    var t := s[PrefixLength(s, IsSpace)..];
    var negative := t != [] && t[0] == '-';
    var u := if t != [] && (t[0] == '-' || t[0] == '+') then t[1..] else t;
    var hex := |u| >= 2 && u[0] == '0' && (u[1] == 'x' || u[1] == 'X');
    var digits := if hex then u[2..][..PrefixLength(u[2..], IsHexDigit)] else u[..PrefixLength(u, IsDigit)];
    if digits == [] then NaN
    else
      var n: int := DigitsIn(digits, if hex then 16 else 10);
      Num(if negative then -n else n)
  }

  // ---------------------------------------------------------------------
  // Gathering the form

  /** An input element of the form: its text value and, for a checkbox, whether it is ticked. */
  datatype Input = Input(value: string, checked: bool)

  /** The value `executeCommand` reads for one field: None for `undefined`. */
  function ReadField(f: FieldSpec, input: Input): (v: Option<Value>)
    ensures f.fieldType.CheckboxField? ==> v == Some(Bool(input.checked))
    ensures f.fieldType.NumberField? ==> (v.None? <==> input.value == "")
    ensures f.fieldType.NumberField? && v.Some? ==> v.value.Num? || v.value.NaN?
    ensures (f.fieldType.TextField? || f.fieldType.TextareaField?) ==> v == Some(Str(input.value))
  {
    match f.fieldType
    case CheckboxField => Some(Bool(input.checked))
    case NumberField => if input.value != "" then Some(ParseInt(input.value)) else None
    case _ => Some(Str(input.value))
  }

  /** `value !== undefined && value !== ''`. */
  predicate Kept(v: Option<Value>) {
    v.Some? && v.value != Str("")
  }

  /** The argument bag the form yields, field by field; a later field of the same name overwrites. */
  function Gathered(fields: seq<FieldSpec>, form: map<string, Input>): Options
    decreases |fields|
  {
    if fields == [] then map[]
    else
      var f := fields[|fields| - 1];
      var args := Gathered(fields[..|fields| - 1], form);
      if f.name in form && Kept(ReadField(f, form[f.name])) then args[f.name := ReadField(f, form[f.name]).value]
      else args
  }

  /** The gathering loop of `executeCommand`, filling `args` in place. */
  method GatherArgs(fields: seq<FieldSpec>, form: map<string, Input>) returns (args: Options)
    ensures args == Gathered(fields, form)
  {
    args := map[];
    for k := 0 to |fields|
      invariant args == Gathered(fields[..k], form)
    {
      assert fields[..k + 1][..k] == fields[..k];
      var field := fields[k];
      if field.name !in form {
        continue;
      }
      var value := ReadField(field, form[field.name]);
      if value.Some? && value.value != Str("") {
        args := args[field.name := value.value];
      }
    }
    assert fields[..|fields|] == fields;
  }

  /** The form's fields have distinct names. */
  predicate DistinctNames(fields: seq<FieldSpec>) {
    forall i, j :: 0 <= i < j < |fields| ==> fields[i].name != fields[j].name
  }

  /** Only the form's own field names can appear in the bag. */
  lemma {:induction false} GatheredKeys(fields: seq<FieldSpec>, form: map<string, Input>)
    ensures forall k :: k in Gathered(fields, form) ==> exists i :: 0 <= i < |fields| && fields[i].name == k
    decreases |fields|
  {
    if fields != [] {
      var init := fields[..|fields| - 1];
      GatheredKeys(init, form);
      forall k | k in Gathered(fields, form)
        ensures exists i :: 0 <= i < |fields| && fields[i].name == k
      {
        if k !in Gathered(init, form) {
          assert fields[|fields| - 1].name == k;
        } else {
          var i :| 0 <= i < |init| && init[i].name == k;
          assert fields[i].name == k;
        }
      }
    }
  }

  /** What the bag holds for a field: its kept value, or nothing. */
  predicate Holds(args: Options, f: FieldSpec, form: map<string, Input>) {
    && (f.name in args <==> f.name in form && Kept(ReadField(f, form[f.name])))
    && (f.name in args ==> args[f.name] == ReadField(f, form[f.name]).value)
  }

  /**
   * With distinct names, a field is present exactly when its input exists
   * and its value is kept, and then holds that value.
   */
  lemma {:induction false} GatheredValues(fields: seq<FieldSpec>, form: map<string, Input>)
    requires DistinctNames(fields)
    ensures forall i :: 0 <= i < |fields| ==> Holds(Gathered(fields, form), fields[i], form)
    decreases |fields|
  {
    if fields != [] {
      var n := |fields| - 1;
      var init := fields[..n];
      assert DistinctNames(init);
      GatheredValues(init, form);
      var before := Gathered(init, form);
      var after := Gathered(fields, form);
      var f := fields[n];
      var kept := f.name in form && Kept(ReadField(f, form[f.name]));
      assert after == if kept then before[f.name := ReadField(f, form[f.name]).value] else before;
      forall i | 0 <= i < |fields|
        ensures Holds(after, fields[i], form)
      {
        if i < n {
          var g := init[i];
          assert fields[i] == g;
          assert g.name != f.name;
          assert Holds(before, g, form);
          assert g.name in after <==> g.name in before;
          assert g.name in after ==> after[g.name] == before[g.name];
        } else {
          GatheredKeys(init, form);
          if f.name in before {
            var j :| 0 <= j < |init| && init[j].name == f.name;
            assert fields[j].name == fields[n].name;
          }
        }
      }
    }
  }

  // ---------------------------------------------------------------------
  // Checking required fields

  /** `!args[name]`: absent or falsy. */
  predicate Blank(args: Options, name: string) {
    name !in args || !Truthy(args[name])
  }

  function RequiredMessage(title: string): string {
    title + " is required"
  }

  /** The first required field left blank, by its message; None when every required field is filled. */
  function Validate(fields: seq<FieldSpec>, args: Options): (r: Option<string>)
    ensures r.None? <==> forall i :: 0 <= i < |fields| && fields[i].required ==> !Blank(args, fields[i].name)
    ensures r.Some? ==>
      exists i :: (&& 0 <= i < |fields| && fields[i].required && Blank(args, fields[i].name)
                   && r.value == RequiredMessage(fields[i].title)
                   && forall j :: 0 <= j < i && fields[j].required ==> !Blank(args, fields[j].name))
    decreases |fields|
  {
    if fields == [] then None
    else if fields[0].required && Blank(args, fields[0].name) then
      Some(RequiredMessage(fields[0].title))
    else
      var r := Validate(fields[1..], args);
      if r.Some? then
        ghost var i :| 0 <= i < |fields| - 1 && fields[1..][i].required && Blank(args, fields[1..][i].name)
          && r.value == RequiredMessage(fields[1..][i].title)
          && forall j :: 0 <= j < i && fields[1..][j].required ==> !Blank(args, fields[1..][j].name);
        assert fields[i + 1] == fields[1..][i];
        r
      else r
  }

  // ---------------------------------------------------------------------
  // Submitting

  /** What pressing Execute does: a status message, or a POST to /api/execute. */
  datatype Submission =
    | Refused(status: string)                      // shown with showStatus, nothing is sent
    | Crashed                                      // `config.fields` of an undefined config throws
    | Post(request: ExecuteRequest)

  const SelectCommand := "Please select a command"

  /** `executeCommand()` for the current command and form. */
  function Submit(current: Option<string>, form: map<string, Input>): (s: Submission)
    ensures current.None? || current.value == "" ==> s == Refused(SelectCommand)
    ensures s.Post? ==>
      (&& current.Some? && ConfigOf(current.value).Some?
       && s.request.command == current && s.request.args.Some?
       && Validate(ConfigOf(current.value).value.fields, s.request.args.value).None?)
    ensures current.Some? && current.value != "" && ConfigOf(current.value).None? ==> s == Crashed
    ensures current.Some? && current.value != "" && ConfigOf(current.value).Some? ==>
      var fields := ConfigOf(current.value).value.fields;
      var args := Gathered(fields, form);
      && (Validate(fields, args).None? <==> s.Post?)
      && (s.Post? ==> s.request.args == Some(args))
      && (Validate(fields, args).Some? ==> s == Refused(Validate(fields, args).value))
  {
    if current.None? || current.value == "" then Refused(SelectCommand)
    else match ConfigOf(current.value)
      case None => Crashed
      case Some(config) =>
        var args := Gathered(config.fields, form);
        match Validate(config.fields, args)
        case Some(message) => Refused(message)
        case None => Post(ExecuteRequest(current, Some(args)))
  }

  /** The page's state: the selected command (`currentCommand`). */
  class Page {
    var current: Option<string>

    constructor()
      ensures current == None
    {
      current := None;
    }

    /** `selectCommand(command)`. */
    method Select(command: string)
      modifies this
      ensures current == Some(command)
    {
      current := Some(command);
    }

    /**
     * `executeCommand()` on the page's current command, gathering the form with
     * the loop. `Submit` is its specification as a function of the current
     * command, which the lemmas about the form use.
     */
    method Execute(form: map<string, Input>) returns (s: Submission)
      ensures s == Submit(current, form)
    {
      if current.None? || current.value == "" {
        return Refused(SelectCommand);
      }
      var config := ConfigOf(current.value);
      if config.None? {
        return Crashed;
      }
      var args := GatherArgs(config.value.fields, form);
      var check := Validate(config.value.fields, args);
      if check.Some? {
        return Refused(check.value);
      }
      s := Post(ExecuteRequest(current, Some(args)));
    }
  }

  // ---------------------------------------------------------------------
  // What the server makes of the UI's requests

  /** The only argument a one-field form can send is that field's. */
  lemma OneFieldArgs(field: FieldSpec, form: map<string, Input>, key: string)
    requires key != field.name
    ensures key !in Gathered([field], form)
  {
    GatheredKeys([field], form);
  }

  /**
   * The text-analyze form sends `text`, but the command reads `file` (or the
   * first positional argument): whatever is typed, the request is rejected
   * with the command's missing-path error and nothing is read or written.
   */
  lemma TextAnalyzeFromUiFails(form: map<string, Input>, commands: map<string, Entry>, w: World)
    requires "text-analyze" in commands && commands["text-analyze"].command == TextAnalyze
    ensures Submit(Some("text-analyze"), form).Post? ==>
      Respond(commands, Submit(Some("text-analyze"), form).request, w)
        == Handled(Response(500, FailureBody(TextAnalyzeCommand.MissingPath)), [])
  {
    MismatchedFormFails(form, commands, w, "text-analyze");
  }

  /**
   * A one-field form whose field is neither the command's required argument
   * nor `_`: every request it sends is answered 500 with the command's
   * missing-argument message, and nothing runs.
   */
  lemma MismatchedFormFails(form: map<string, Input>, commands: map<string, Entry>, w: World, name: string)
    requires name != "" && name in commands && RequiredArg(commands[name].command).Some?
    requires ConfigOf(name).Some? && |ConfigOf(name).value.fields| == 1
    requires ConfigOf(name).value.fields[0].name !in {RequiredArg(commands[name].command).value, "_"}
    ensures Submit(Some(name), form).Post? ==>
      Respond(commands, Submit(Some(name), form).request, w)
        == Handled(Response(500, FailureBody(ErrorText(MissingMessage(commands[name].command)))), [])
  {
    if Submit(Some(name), form).Post? {
      SentWithout(form, name, RequiredArg(commands[name].command).value);
      RespondMissing(commands, Submit(Some(name), form).request, w);
    }
  }

  /** A form of one field not named `key` sends neither `key` nor a positional argument. */
  lemma SentWithout(form: map<string, Input>, name: string, key: string)
    requires ConfigOf(name).Some? && |ConfigOf(name).value.fields| == 1
    requires ConfigOf(name).value.fields[0].name !in {key, "_"}
    ensures Submit(Some(name), form).Post? ==>
      TextArg(ArgsOr(Submit(Some(name), form).request.args), key).None?
  {
    var fields := ConfigOf(name).value.fields;
    var args := Gathered(fields, form);
    OneFieldArgs(fields[0], form, key);
    OneFieldArgs(fields[0], form, "_");
  }

  /**
   * The web-research form sends `query`, but the command reads `topic`: the
   * request is always rejected with the missing-topic error before any call.
   */
  lemma WebResearchFromUiFails(form: map<string, Input>, commands: map<string, Entry>, w: World)
    requires "web-research" in commands && commands["web-research"].command == WebResearch
    ensures Submit(Some("web-research"), form).Post? ==>
      Respond(commands, Submit(Some("web-research"), form).request, w)
        == Handled(Response(500, FailureBody(WebResearchCommand.MissingTopic)), [])
  {
    MismatchedFormFails(form, commands, w, "web-research");
  }

  /** Filling the text-analyze form passes the page's own check, so the request is sent. */
  lemma TextAnalyzeFormIsSent(form: map<string, Input>)
    requires "text" in form && form["text"].value != ""
    ensures Submit(Some("text-analyze"), form).Post?
  {
    var fields := ConfigOf("text-analyze").value.fields;
    GatheredValues(fields, form);
    assert Holds(Gathered(fields, form), fields[0], form);
  }

  // ---------------------------------------------------------------------
  // truncateFilename

  const ImageNameWidth := 30       // the default maxLength, used for images
  const ReferenceNameWidth := 50   // used for references

  /** The text after the last `c` in `s`, or all of `s` when it has none. */
  function LastPiece(s: string, c: char): (r: string)
    ensures c !in r && EndsWith(s, r)
    ensures c !in s ==> r == s
    ensures c in s ==> |r| < |s| && s[|s| - |r| - 1] == c
    decreases |s|
  {
    if s == [] then ""
    else if s[|s| - 1] == c then ""
    else
      var init := s[..|s| - 1];
      var p := LastPiece(init, c);
      LastPieceStep(s, init, p, c);
      p + [s[|s| - 1]]
  }

  /** Extending the text by one character other than `c` extends its last piece by it. */
  lemma LastPieceStep(s: string, init: string, p: string, c: char)
    requires s != [] && s[|s| - 1] != c && init == s[..|s| - 1]
    requires c !in p && EndsWith(init, p)
    requires c in init ==> |p| < |init| && init[|init| - |p| - 1] == c
    ensures var r := p + [s[|s| - 1]];
      && c !in r && EndsWith(s, r)
      && (c in s ==> |r| < |s| && s[|s| - |r| - 1] == c)
  {
    var r := p + [s[|s| - 1]];
    assert s == init + [s[|s| - 1]];
    assert s[|s| - |r|..] == init[|init| - |p|..] + [s[|s| - 1]];
    assert c in s ==> c in init;
  }

  /** `s.split(c).pop()` is that last piece. */
  lemma {:induction false} LastPieceOfSplit(s: string, c: char)
    ensures Split(s, c)[|Split(s, c)| - 1] == LastPiece(s, c)
    decreases |s|
  {
    if s != [] {
      LastPieceOfSplit(s[..|s| - 1], c);
    }
  }

  /** `filename.slice(0, end)` with JavaScript's treatment of a negative end. */
  function SliceTo(s: string, end: int): (r: string)
    ensures 0 <= end <= |s| ==> r == s[..end]
    ensures end < 0 ==> r == s[..if |s| + end > 0 then |s| + end else 0]
  {
    if end < 0 then s[..if |s| + end > 0 then |s| + end else 0]
    else if end > |s| then s
    else s[..end]
  }

  /** `truncateFilename(filename, maxLength)`. */
  function TruncateFilename(filename: string, maxLength: int): (r: string)
    ensures |filename| <= maxLength ==> r == filename
    ensures |filename| > maxLength ==>
      && |r| >= 3 + |LastPiece(filename, '.')|
      && r[|r| - |LastPiece(filename, '.')| - 3..] == "..." + LastPiece(filename, '.')
  {
    if |filename| <= maxLength then filename
    else
      var ext := LastPiece(filename, '.');
      var head := SliceTo(filename, maxLength - |ext| - 4);
      SuffixAfter(head, "..." + ext);
      head + "..." + ext
  }

  lemma SuffixAfter(a: string, b: string)
    ensures (a + b)[|a|..] == b
  {
  }

  /**
   * A long name is cut to a prefix of itself, "..." and its extension; when
   * the extension leaves room, the result is one shorter than the limit.
   */
  lemma Truncated(filename: string, maxLength: int)
    requires |filename| > maxLength
    ensures var ext := LastPiece(filename, '.');
            var r := TruncateFilename(filename, maxLength);
            && (maxLength - |ext| - 4 >= 0 ==>
                  |r| == maxLength - 1 && r == filename[..maxLength - |ext| - 4] + "..." + ext)
            && ('.' !in filename ==> ext == filename)
            && '.' !in ext
  {
  }
}
