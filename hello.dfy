/**
 * HelloCommand (src/commands/HelloCommand.js): creates references/custom and
 * overwrites references/custom/hello.txt with the message.
 */
module HelloCommand {
  import opened Base
  import opened Paths
  import opened Effects
  import opened FileSystems

  const DefaultMessage := "Hello from your new command!"
  const FileName := "hello.txt"

  /** `fs.writeFileSync` refuses data that is not a string or a buffer. */
  const InvalidDataMessage := "The \"data\" argument must be of type string or an instance of Buffer, TypedArray, or DataView."

  /** How Node's ERR_INVALID_ARG_TYPE describes the value it received. */
  function Received(v: Value): (t: string)
    ensures v.Num? ==> t == "type number (" + IntToString(v.n) + ")"
    ensures v.List? ==> t == "an instance of Array"
  {
    match v
    case Str(_) => "type string"  // a string is written, never refused
    case Num(n) => "type number (" + IntToString(n) + ")"
    case NaN => "type number (NaN)"
    case Bool(b) => if b then "type boolean (true)" else "type boolean (false)"
    case List(_) => "an instance of Array"
  }

  /** The message `writeFileSync` throws for data `v` that is not a string. */
  function InvalidData(v: Value): string {
    InvalidDataMessage + " Received " + Received(v)
  }

  /** `path.join(process.cwd(), "references/custom")`. */
  function OutputDir(cwd: Segments): Segments {
    cwd + ["references", "custom"]
  }

  /** `options.message || "Hello from your new command!"`. */
  function Message(o: Options): (m: Value)
    ensures "message" in o && Truthy(o["message"]) ==> m == o["message"]
    ensures !("message" in o && Truthy(o["message"])) ==> m == Str(DefaultMessage)
    ensures Truthy(m)
  {
    FieldOr(o, "message", Str(DefaultMessage))
  }

  /** `execute(options)`: the directory is created first, then the file is written; it returns nothing. */
  function Hello(o: Options, cwd: Segments): (r: Run<()>)
    ensures |r.effects| >= 1 && r.effects[0] == MkDirP(OutputDir(cwd))
    ensures Message(o).Str? ==>
      r.effects == [MkDirP(OutputDir(cwd)), Write(OutputDir(cwd), FileName, Text(Message(o).s))] && r.result == Ok(())
    ensures !Message(o).Str? ==> r.effects == [MkDirP(OutputDir(cwd))] && r.result == Err(InvalidData(Message(o)))
    ensures NoCalls(r.effects)
  {
    var m := Message(o);
    if m.Str? then Run([MkDirP(OutputDir(cwd)), Write(OutputDir(cwd), FileName, Text(m.s))], Ok(()))
    else Run([MkDirP(OutputDir(cwd))], Err(InvalidData(m)))
  }

  /** A message that is a non-zero number is refused by the write, naming that number. */
  lemma NumberMessageRefused(o: Options, cwd: Segments, n: int)
    requires "message" in o && o["message"] == Num(n) && n != 0
    ensures Hello(o, cwd).effects == [MkDirP(OutputDir(cwd))]
    ensures Hello(o, cwd).result == Err(InvalidDataMessage + " Received " + "type number (" + IntToString(n) + ")")
  {
    assert Message(o) == Num(n);
  }

  /** `{"message": 5}`: the directory is made, then the write throws, naming the 5. */
  lemma MessageFiveRefused(cwd: Segments)
    ensures Hello(map["message" := Num(5)], cwd).result == Err(InvalidDataMessage + " Received type number (5)")
  {
    NumberMessageRefused(map["message" := Num(5)], cwd, 5);
    assert IntToString(5) == "5";
    var tail := " Received " + "type number (" + IntToString(5) + ")";
    assert tail == " Received type number (5)";
    assert InvalidDataMessage + " Received " + "type number (" + IntToString(5) + ")" == InvalidDataMessage + tail;
  }

  /**
   * After a call the file holds exactly that call's message, whatever it held
   * before, and every other file is unchanged; the trace needs no directory to
   * exist beforehand.
   */
  lemma HelloOverwrites(o: Options, cwd: Segments, files: map<Segments, Content>, dirs: set<Segments>)
    requires Message(o).Str?
    ensures Prepared(dirs, Hello(o, cwd).effects)
    ensures FilesAfter(files, Hello(o, cwd).effects) == files[OutputDir(cwd) + [FileName] := Text(Message(o).s)]
  {
    var d := OutputDir(cwd);
    MkDirThenWrite(files, dirs, d, FileName, Text(Message(o).s));
  }

  /** Two calls in a row leave only the second message. */
  lemma LastHelloWins(o1: Options, o2: Options, cwd: Segments, files: map<Segments, Content>)
    requires Message(o1).Str? && Message(o2).Str?
    ensures var after := FilesAfter(FilesAfter(files, Hello(o1, cwd).effects), Hello(o2, cwd).effects);
      after == files[OutputDir(cwd) + [FileName] := Text(Message(o2).s)]
  {
    HelloOverwrites(o1, cwd, files, {});
    HelloOverwrites(o2, cwd, FilesAfter(files, Hello(o1, cwd).effects), {});
  }

  /** The fixed path is `path.join(process.cwd(), "references/custom", "hello.txt")`. */
  lemma HelloPathIsJoin(cwd: Segments)
    ensures JoinPath(cwd, "references/custom/hello.txt") == OutputDir(cwd) + [FileName]
  {
    var names := ["references", "custom", FileName];
    assert names[1..] == ["custom", FileName] && names[1..][1..] == [FileName];
    assert Join(names[1..][1..], "/") == "hello.txt";
    assert Join(names[1..], "/") == "custom/hello.txt";
    assert Join(names, "/") == "references/custom/hello.txt";
    JoinPlain(cwd, names);
  }
}
