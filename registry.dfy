/**
 * CommandRegistry (src/CommandRegistry.js): a name-to-entry table that the
 * server fills at startup and consults for every request. The class keeps
 * the order in which names were first assigned next to the table (overwriting
 * a name keeps its position); `Object.entries` lists the table in the order
 * `PropertyOrder.OwnKeys` derives from it.
 */
module Registry {
  import opened Base
  import opened Effects
  import opened Commands
  import opened PropertyOrder

  /** The yargs type of a declared argument. */
  datatype ArgType = StringArg | NumberArg | BooleanArg

  /** One call a builder makes: `y.positional(key, …)` or `y.option(key, …)`. */
  datatype ArgSpec =
    | Positional(key: string, describe: string, argType: ArgType)
    | Flag(key: string, describe: string, argType: ArgType, default: Option<Value>)

  /** A command's configuration: a description and a builder, either of which may be absent. */
  datatype Config = Config(description: Option<string>, builder: Option<seq<ArgSpec>>)

  /** What `register` stores under a name. */
  datatype Entry = Entry(name: string, config: Config, command: CommandKind)

  /** One `yargs.command(name, description, builder, handler)` declaration. */
  datatype Declaration = Declaration(name: string, description: string, args: seq<ArgSpec>)

  /** `get(name)`: the entry, or None for the `null` of a miss. */
  function Lookup(commands: map<string, Entry>, name: string): (r: Option<Entry>)
    ensures r.Some? <==> name in commands
    ensures r.Some? ==> r.value == commands[name]
  {
    if name in commands then Some(commands[name]) else None
  }

  function UnknownCommand(name: string): string {
    "Unknown command: " + name
  }

  /** The declaration for one entry: the description falls back to "Run <name> command", the builder to a no-op. */
  function Declare(name: string, e: Entry): (d: Declaration)
    ensures d.name == name
    ensures e.config.description.Some? && e.config.description.value != "" ==> d.description == e.config.description.value
    ensures e.config.description.None? || e.config.description.value == "" ==> d.description == "Run " + name + " command"
    ensures e.config.builder.Some? ==> d.args == e.config.builder.value
    ensures e.config.builder.None? ==> d.args == []
  {
    var description := match e.config.description
      case Some(t) => if t != "" then t else "Run " + name + " command"
      case None => "Run " + name + " command";
    Declaration(name, description, e.config.builder.GetOr([]))
  }

  /** The keys of `commands`, each once, in `order`. */
  ghost predicate Ordered(commands: map<string, Entry>, order: seq<string>) {
    && (forall i, j :: 0 <= i < j < |order| ==> order[i] != order[j])
    && (forall n :: n in commands <==> n in order)
  }

  /** Declarations made in the order `order` name each key of `commands` exactly once. */
  lemma DeclarationNames(commands: map<string, Entry>, order: seq<string>, decls: seq<Declaration>)
    requires Ordered(commands, order)
    requires |decls| == |order|
    requires forall i :: 0 <= i < |decls| ==> decls[i] == Declare(order[i], commands[order[i]])
    ensures forall n :: n in commands <==> exists i :: 0 <= i < |decls| && decls[i].name == n
    ensures forall i, j :: 0 <= i < j < |decls| ==> decls[i].name != decls[j].name
  {
    assert forall i :: 0 <= i < |decls| ==> decls[i].name == order[i];
    forall n | n in commands
      ensures exists i :: 0 <= i < |decls| && decls[i].name == n
    {
      var i :| 0 <= i < |order| && order[i] == n;
      assert decls[i].name == n;
    }
  }

  /** `Object.entries` lists each key of the table once. */
  lemma OrderedOwnKeys(commands: map<string, Entry>, order: seq<string>)
    requires Ordered(commands, order)
    ensures Ordered(commands, OwnKeys(order))
  {
    OwnKeysOrder(order);
    OwnKeysDistinct(order);
  }

  /** Declarations made in the order of `Object.entries` name each key once, each in its place. */
  lemma DeclarationsInEntryOrder(commands: map<string, Entry>, order: seq<string>, decls: seq<Declaration>)
    requires Ordered(commands, order) && Ordered(commands, OwnKeys(order))
    requires |decls| == |order|
    requires forall i :: 0 <= i < |decls| ==> decls[i] == Declare(OwnKeys(order)[i], commands[OwnKeys(order)[i]])
    ensures forall i :: 0 <= i < |decls| ==>
      OwnKeys(order)[i] in commands && decls[i] == Declare(OwnKeys(order)[i], commands[OwnKeys(order)[i]])
    ensures forall n :: n in commands <==> exists i :: 0 <= i < |decls| && decls[i].name == n
    ensures forall i, j :: 0 <= i < j < |decls| ==> decls[i].name != decls[j].name
  {
    var keys := OwnKeys(order);
    assert forall i :: 0 <= i < |keys| ==> keys[i] in commands;
    DeclarationNames(commands, keys, decls);
  }

  class CommandRegistry {
    var commands: map<string, Entry>
    var order: seq<string>

    /** Keys in the order first assigned, each stored entry under its own name. */
    ghost predicate Valid()
      reads this
    {
      && Ordered(commands, order)
      && (forall n :: n in commands ==> commands[n].name == n)
    }

    constructor()
      ensures Valid()
      ensures commands == map[] && order == []
    {
      commands := map[];
      order := [];
    }

    /**
     * `register(name, config, command)`: stores the entry under `name`,
     * replacing any earlier one; no other entry changes and nothing is refused.
     */
    method Register(name: string, config: Config, command: CommandKind)
      requires Valid()
      modifies this
      ensures Valid()
      ensures commands == old(commands)[name := Entry(name, config, command)]
      ensures order == if name in old(commands) then old(order) else old(order) + [name]
      ensures Lookup(commands, name) == Some(Entry(name, config, command))
      ensures forall n :: n != name ==> Lookup(commands, n) == Lookup(old(commands), n)
    {
      if name !in commands {
        order := order + [name];
      }
      commands := commands[name := Entry(name, config, command)];
    }

    /** `getAll()`: the table itself. */
    method GetAll() returns (all: map<string, Entry>)
      ensures all == commands
    {
      all := commands;
    }

    /** `get(name)`: the entry under `name`, or None. */
    method Get(name: string) returns (e: Option<Entry>)
      requires Valid()
      ensures e.Some? <==> name in commands
      ensures e.Some? ==> e.value == commands[name] && e.value.name == name
    {
      e := Lookup(commands, name);
    }

    /**
     * `execute(name, options)`: an unknown name throws before any command
     * runs; a known one runs its command on the same options and returns
     * what the command returns.
     */
    method Execute(name: string, o: Options, w: World) returns (r: Run<Returned>)
      requires Valid()
      ensures name !in commands ==> r.effects == [] && r.result == Err(UnknownCommand(name))
      ensures name in commands ==> r == Perform(commands[name].command, o, w)
    {
      var entry := Get(name);
      if entry.None? {
        return Throw(UnknownCommand(name));
      }
      var kind := entry.value.command;
      assert kind == commands[name].command;
      r := Perform(kind, o, w);
    }

    /**
     * `buildYargsConfig()(yargs)`: one declaration per entry, in the order
     * `Object.entries` lists the table: array-index names first, ascending,
     * then the other names in the order they were first registered.
     */
    method BuildYargsConfig() returns (decls: seq<Declaration>)
      requires Valid()
      ensures |decls| == |order|
      ensures forall i :: 0 <= i < |decls| ==>
        OwnKeys(order)[i] in commands && decls[i] == Declare(OwnKeys(order)[i], commands[OwnKeys(order)[i]])
      ensures forall n :: n in commands <==> exists i :: 0 <= i < |decls| && decls[i].name == n
      ensures forall i, j :: 0 <= i < j < |decls| ==> decls[i].name != decls[j].name
    {
      OrderedOwnKeys(commands, order);
      decls := DeclareEach(OwnKeys(order));
      DeclarationsInEntryOrder(commands, order, decls);
    }

    /** The loop of `buildYargsConfig`: one `yargs.command` per key, in the order given. */
    method DeclareEach(keys: seq<string>) returns (decls: seq<Declaration>)
      requires forall i :: 0 <= i < |keys| ==> keys[i] in commands
      ensures |decls| == |keys|
      ensures forall i :: 0 <= i < |keys| ==> decls[i] == Declare(keys[i], commands[keys[i]])
    {
      decls := [];
      for k := 0 to |keys|
        invariant |decls| == k
        invariant forall i :: 0 <= i < k ==> decls[i] == Declare(keys[i], commands[keys[i]])
      {
        decls := decls + [Declare(keys[k], commands[keys[k]])];
      }
    }
  }
}
