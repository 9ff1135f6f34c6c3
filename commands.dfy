/** The command set of clnews/commands.py. Every command shares one
    process-wide document, `Command.data`, loaded lazily from the data file
    and written back whole by the commands that change it; each command
    keeps the result of its last `execute` in its own `buffer`.

    `DataFile.load`/`save` are reduced to the file's content (`Registry.file`),
    `validate_url` to a function from a URL to the message of the exception
    it raises (`None` when the URL is accepted), and `feedparser.parse` to a
    function from a URL to a `News.Response`. */
module Commands {
  import opened Types
  import opened Render
  import News
  import Maps
  import opened Channels

  /** `config.VERSION` of clnews/config.py. */
  const VERSION := "0.4.0"

  /** `Command.data`, reduced to its channel map. `None` stands for a falsy
      document (`None` or `{}`): `not data` holds and `data['channels']`
      fails. */
  type Document = Option<Table>

  /** The process-wide state every command shares: the class attribute
      `Command.data` and what the data file holds. */
  class Registry {
    var data: Document
    var file: Document

    constructor (file: Document)
      ensures data == None && this.file == file
    {
      data := None;
      this.file := file;
    }
  }

  /** `if not Command.data: Command.data = self.data_file.load()`. */
  function Loaded(data: Document, file: Document): (r: Document)
    ensures data.Some? ==> r == data
    ensures data.None? ==> r == file
  {
    if data.None? then file else data
  }

  /** The subclasses of `Command`. `Remove` is not defined in
      clnews/commands.py; it is modelled from what its tests expect. */
  datatype Kind = Help | List | Get | Quit | Add | Remove

  /** `Command.__subclasses__()` of clnews/commands.py, in definition order. */
  const REGISTERED: seq<Kind> := [Help, List, Get, Quit, Add]

  /** The class attribute `name`. */
  function Name(k: Kind): string
    requires k != Remove
  {
    match k
    case Help => ".help"
    case List => ".list"
    case Get => ".get"
    case Quit => ".quit"
    case Add => ".add"
  }

  /** The class attribute `description`. */
  function Description(k: Kind): string
    requires k != Remove
  {
    match k
    case Help => "show this help message and exit"
    case List => "lists all the available channels"
    case Get => "retrieves the news of a given channel, e.g.: .get cnn"
    case Quit => "exits the application."
    case Add => "adds a new channel."
  }

  /** `Command.get_commands_data()`: `(name, description)` of every
      registered command, in registration order. */
  function CommandsData(): (r: seq<(string, string)>)
    ensures |r| == |REGISTERED|
    ensures forall i :: 0 <= i < |r| ==> r[i] == (Name(REGISTERED[i]), Description(REGISTERED[i]))
  {
    seq(|REGISTERED|, i requires 0 <= i < |REGISTERED| => (Name(REGISTERED[i]), Description(REGISTERED[i])))
  }

  /** No two registered commands share a name. */
  lemma NamesDistinct()
    ensures forall i, j :: 0 <= i < j < |REGISTERED| ==> Name(REGISTERED[i]) != Name(REGISTERED[j])
  {
  }

  // ---------------------------------------------------------------------
  // Selecting a command: `get_command_by_input`

  /** The first kind of `ks` called `name`. */
  function Find(name: string, ks: seq<Kind>): (r: Option<Kind>)
    requires Remove !in ks
    ensures r.Some? ==> r.value in ks && Name(r.value) == name
    ensures r.None? ==> forall k :: k in ks ==> Name(k) != name
  {
    if ks == [] then None
    else if Name(ks[0]) == name then Some(ks[0])
    else Find(name, ks[1..])
  }

  /** What `get_command_by_input(inp)` does: an empty input has no name
      (`IndexError`); an unknown name gives `None`; a known name followed by
      arguments makes `klass(*arguments)` call a constructor that takes none
      (`TypeError`); a known name alone selects that command. */
  function Resolve(inp: seq<string>): (r: Result<Option<Kind>>)
    ensures inp == [] <==> r == Err(IndexError)
    ensures r == Ok(None) <==> inp != [] && forall k :: k in REGISTERED ==> Name(k) != inp[0]
    ensures r == Err(TypeError) <==> |inp| > 1 && exists k :: k in REGISTERED && Name(k) == inp[0]
    ensures r.Ok? && r.value.Some? ==> |inp| == 1 && r.value.value in REGISTERED && Name(r.value.value) == inp[0]
    ensures |inp| == 1 && (exists k :: k in REGISTERED && Name(k) == inp[0]) ==> r.Ok? && r.value.Some?
  {
    if inp == [] then Err(IndexError)
    else
      match Find(inp[0], REGISTERED)
      case None => Ok(None)
      case Some(k) => if |inp| > 1 then Err(TypeError) else Ok(Some(k))
  }

  /** Every registered command is selected by its name alone. */
  lemma ResolveByName(k: Kind)
    requires k in REGISTERED
    ensures Resolve([Name(k)]) == Ok(Some(k))
  {
    NamesDistinct();
  }

  /** `get_command_by_input`: the search over the registered classes, and
      the construction of the one found. */
  method GetCommandByInput(inp: seq<string>, registry: Registry) returns (r: Result<Option<Command>>)
    modifies registry
    ensures r.Ok? <==> Resolve(inp).Ok?
    ensures r.Err? ==> r.error == Resolve(inp).error && registry.data == old(registry.data)
    ensures r.Ok? ==> (r.value.None? <==> Resolve(inp).value.None?)
    ensures r.Ok? && r.value.None? ==> registry.data == old(registry.data)
    ensures r.Ok? && r.value.Some? ==>
              && fresh(r.value.value)
              && r.value.value.kind == Resolve(inp).value.value
              && r.value.value.registry == registry
              && r.value.value.buffer == NoBuffer
              && registry.data == Loaded(old(registry.data), old(registry.file))
    ensures registry.file == old(registry.file)
  {
    if inp == [] {
      return Err(IndexError);
    }
    var name, arguments := inp[0], inp[1..];
    for i := 0 to |REGISTERED|
      invariant Find(name, REGISTERED[i..]) == Find(name, REGISTERED)
      invariant registry.data == old(registry.data)
    {
      assert REGISTERED[i..][1..] == REGISTERED[i + 1..];
      var klass := REGISTERED[i];
      if Name(klass) == name {
        if arguments != [] {
          return Err(TypeError);
        }
        var c := new Command(klass, registry);
        return Ok(Some(c));
      }
    }
    return Ok(None);
  }

  // ---------------------------------------------------------------------
  // What each command computes, as functions of the shared document

  /** The message `Get` raises for a falsy document. */
  const EMPTY_LIST := "You channels' list is empty."

  /** `Get.execute(*args)`, checked in this order: a falsy document, more
      than one argument, no argument (`args[0]`), an unknown code; a known
      code is fetched with its stored URL, and a failure to map the entries
      is reported as `CommandOutputError` while a failing status
      propagates. */
  function GetResult(data: Document, args: seq<string>, parse: string -> News.Response): (r: Result<seq<News.Event>>)
    ensures data.None? ==> r == Err(CommandExecutionError(EMPTY_LIST))
    ensures data.Some? && |args| > 1 ==> r == Err(CommandDoesNotExist)
    ensures data.Some? && args == [] ==> r == Err(IndexError)
    ensures data.Some? && |args| == 1 && args[0] !in data.value ==> r == Err(CommandChannelNotFound)
    ensures r.Ok? <==> data.Some? && |args| == 1 && args[0] in data.value
                       && News.Retrieve(parse(data.value[args[0]].url)).Ok?
    ensures r.Ok? ==> r.value == News.Retrieve(parse(data.value[args[0]].url)).value
    ensures data.Some? && |args| == 1 && args[0] in data.value && r.Err? ==>
              var e := News.Retrieve(parse(data.value[args[0]].url)).error;
              r.error == if e == ChannelRetrieveEventsError then CommandOutputError else e
  {
    if data.None? then Err(CommandExecutionError(EMPTY_LIST))
    else if |args| > 1 then Err(CommandDoesNotExist)
    else if args == [] then Err(IndexError)
    else if args[0] !in data.value then Err(CommandChannelNotFound)
    else
      match News.Retrieve(parse(data.value[args[0]].url))
      case Ok(events) => Ok(events)
      case Err(e) => Err(if e == ChannelRetrieveEventsError then CommandOutputError else e)
  }

  /** `Get` tests the whole document for emptiness, not its channel map: a
      document with no channels reports the code as not found rather than
      the list as empty. */
  lemma GetOnNoChannels(code: string, parse: string -> News.Response)
    ensures GetResult(Some(map[]), [code], parse) == Err(CommandChannelNotFound)
    ensures GetResult(None, [code], parse) == Err(CommandExecutionError(EMPTY_LIST))
  {
  }

  /** The message `Add` raises for a wrong number of arguments. */
  const ADD_USAGE := "Commmand .add requires exactly 3 arguments: <channel_code>, <channel_name>, <url>"
  /** The text `Add` leaves in its buffer. */
  const ADDED := "The RSS URL was added in your list."

  /** `Add.execute(code, name, url)`: exactly three arguments, then a URL
      that `validate` accepts, then `channels.update({code: {name, url}})` on
      the document, which fails on a falsy one. The new channel map is the
      old one with `code` set, inserted or overwritten. */
  function AddResult(data: Document, args: seq<string>, validate: string -> Option<string>): (r: Result<Table>)
    ensures |args| != 3 ==> r == Err(CommandExecutionError(ADD_USAGE))
    ensures |args| == 3 && validate(args[2]).Some? ==>
              r == Err(CommandExecutionError("Given URL: " + args[2] + "\n" + validate(args[2]).value))
    ensures |args| == 3 && validate(args[2]).None? && data.None? ==> r == Err(TypeError)
    ensures r.Ok? <==> |args| == 3 && validate(args[2]).None? && data.Some?
    ensures r.Ok? ==> args[0] in r.value && r.value[args[0]] == ChannelInfo(args[1], args[2])
    ensures r.Ok? ==> forall c :: c != args[0] ==>
              (c in r.value <==> c in data.value) && (c in r.value ==> r.value[c] == data.value[c])
  {
    if |args| != 3 then Err(CommandExecutionError(ADD_USAGE))
    else
      var code, name, url := args[0], args[1], args[2];
      match validate(url)
      case Some(message) => Err(CommandExecutionError("Given URL: " + url + "\n" + message))
      case None =>
        if data.None? then Err(TypeError)
        else Ok(data.value[code := ChannelInfo(name, url)])
  }

  /** `Add` does not reject a code that is already present: it replaces that
      channel's name and URL and the number of channels stays the same. */
  lemma AddOverwrites(channels: Table, code: string, name: string, url: string, validate: string -> Option<string>)
    requires code in channels
    requires validate(url).None?
    ensures AddResult(Some(channels), [code, name, url], validate) == Ok(channels[code := ChannelInfo(name, url)])
    ensures |AddResult(Some(channels), [code, name, url], validate).value| == |channels|
  {
    assert channels[code := ChannelInfo(name, url)].Keys == channels.Keys;
  }

  /** After a successful `Add`, `.get <code>` fetches the URL just added. */
  lemma GetAfterAdd(data: Document, code: string, name: string, url: string,
                    validate: string -> Option<string>, parse: string -> News.Response)
    requires AddResult(data, [code, name, url], validate).Ok?
    ensures var after := Some(AddResult(data, [code, name, url], validate).value);
            GetResult(after, [code], parse).Ok? <==> News.Retrieve(parse(url)).Ok?
  {
  }

  /** The message of a `Remove` without arguments. */
  const REMOVE_USAGE := "Command .remove requires at least one channel code or *."
  /** The message of a `Remove` naming a code that is not a channel. */
  const NOT_FOUND := "Channel not found: "

  /** The first of `codes` that is not a channel. */
  function FirstMissing(codes: seq<string>, channels: Table): (r: Option<string>)
    ensures r.None? <==> forall i :: 0 <= i < |codes| ==> codes[i] in channels
    ensures r.Some? ==> r.value !in channels
    ensures r.Some? ==> exists i :: 0 <= i < |codes| && codes[i] == r.value && forall j :: 0 <= j < i ==> codes[j] in channels
  {
    if codes == [] then None
    else if codes[0] !in channels then Some(codes[0])
    else
      var r := FirstMissing(codes[1..], channels);
      if r.Some? then
        var i :| 0 <= i < |codes[1..]| && codes[1..][i] == r.value && forall j :: 0 <= j < i ==> codes[1..][j] in channels;
        assert codes[i + 1] == r.value && forall j :: 0 <= j < i + 1 ==> codes[j] in channels;
        r
      else r
  }

  /** `channels` without the listed codes. */
  function Without(channels: Table, codes: seq<string>): (r: Table)
    ensures forall c :: c in r <==> c in channels && c !in codes
    ensures forall c :: c in r ==> r[c] == channels[c]
  {
    map c | c in channels && c !in codes :: channels[c]
  }

  /** `Remove.execute(*codes)` as its tests expect it: at least one code;
      the single code `*` empties the channels; otherwise every code must be
      a channel, the first that is not fails the whole command, and all the
      listed channels go at once. */
  function RemoveResult(data: Document, args: seq<string>): (r: Result<Table>)
    ensures args == [] ==> r == Err(CommandExecutionError(REMOVE_USAGE))
    ensures args != [] && data.None? ==> r == Err(TypeError)
    ensures r.Ok? <==> args != [] && data.Some? && (args == ["*"] || forall i :: 0 <= i < |args| ==> args[i] in data.value)
    ensures r.Ok? && args == ["*"] ==> r.value == map[]
    ensures r.Ok? && args != ["*"] ==> r.value == Without(data.value, args)
    ensures r.Err? && args != [] && data.Some? ==>
              exists i :: 0 <= i < |args| && args[i] !in data.value && r.error == CommandExecutionError(NOT_FOUND + args[i])
                          && forall j :: 0 <= j < i ==> args[j] in data.value
  {
    if args == [] then Err(CommandExecutionError(REMOVE_USAGE))
    else if data.None? then Err(TypeError)
    else if args == ["*"] then Ok(map[])
    else
      match FirstMissing(args, data.value)
      case Some(code) => Err(CommandExecutionError(NOT_FOUND + code))
      case None => Ok(Without(data.value, args))
  }

  /** Removing one known code drops that channel and keeps every other one. */
  lemma RemoveOne(channels: Table, code: string)
    requires code in channels && code != "*"
    ensures RemoveResult(Some(channels), [code]).Ok?
    ensures RemoveResult(Some(channels), [code]).value == channels - {code}
  {
    assert [code] != ["*"];
    assert Without(channels, [code]) == channels - {code};
  }

  /** A list with any unknown code is refused as a whole. */
  lemma RemoveRefusesUnknown(channels: Table, codes: seq<string>, i: nat)
    requires i < |codes| && codes[i] !in channels && codes[i] != "*"
    ensures RemoveResult(Some(channels), codes).Err?
  {
    if |codes| == 1 {
      assert codes[0] == codes[i];
    }
  }

  // ---------------------------------------------------------------------
  // The commands

  /** A constructed command of one of the kinds. */
  class Command {
    const kind: Kind
    const registry: Registry
    var buffer: Buffer

    /** Help, Add, Quit and Remove only ever hold text in their buffer. */
    predicate Valid()
      reads this
    {
      kind in {Help, Add, Quit, Remove} ==> buffer.NoBuffer? || buffer.Text?
    }

    /** `Command.__init__`: an empty buffer, and the shared document loaded
        from the data file if it is still falsy. */
    constructor (kind: Kind, registry: Registry)
      modifies registry
      ensures this.kind == kind && this.registry == registry && buffer == NoBuffer
      ensures registry.data == Loaded(old(registry.data), old(registry.file))
      ensures registry.file == old(registry.file)
      ensures Valid()
    {
      this.kind := kind;
      this.registry := registry;
      buffer := NoBuffer;
      new;
      if registry.data.None? {
        registry.data := registry.file;
      }
    }

    /** `Help.execute`: the header, one line per registered command and a
        closing newline. It reads nothing but constants. */
    method ExecuteHelp()
      modifies this`buffer
      ensures buffer == Text(HelpText("CLNews", VERSION, CommandsData()))
    {
      var text := BuildHelp("CLNews", VERSION, CommandsData());
      buffer := Text(text);
    }

    /** `List.execute`: `''` for a falsy document, otherwise one
        `(code, name)` pair per channel, in the dictionary's order. */
    method ExecuteList()
      modifies this`buffer
      ensures registry.data.None? ==> buffer == Text("")
      ensures registry.data.Some? ==> buffer.Pairs? && Lists(buffer.pairs, registry.data.value)
    {
      buffer := Text("");
      if registry.data.Some? {
        var channels := registry.data.value;
        var keys := Maps.Keys(channels);
        PairsOfEnumeration(keys, channels);
        buffer := Pairs(PairsOf(keys, channels));
      }
    }

    /** `Get.execute(*args)`: the events of the channel named by the only
        argument, fetched through a fresh `Channel`; the buffer changes only
        on success. */
    method ExecuteGet(args: seq<string>, parse: string -> News.Response) returns (o: Outcome)
      modifies this`buffer
      ensures o.Pass? <==> GetResult(registry.data, args, parse).Ok?
      ensures o.Fail? ==> o.error == GetResult(registry.data, args, parse).error
      ensures buffer == if o.Pass? then Events(GetResult(registry.data, args, parse).value) else old(buffer)
    {
      if registry.data.None? {
        return Fail(CommandExecutionError(EMPTY_LIST));
      }
      var channels := registry.data.value;
      if |args| > 1 {
        return Fail(CommandDoesNotExist);
      }
      if args == [] {
        return Fail(IndexError);
      }
      var code := args[0];
      if code !in channels {
        return Fail(CommandChannelNotFound);
      }
      var channel := new News.Channel(channels[code].name, channels[code].url);
      var events := channel.GetEvents(parse);
      if events.Err? {
        return Fail(if events.error == ChannelRetrieveEventsError then CommandOutputError else events.error);
      }
      buffer := Events(events.value);
      return Pass;
    }

    /** `Add.execute(*args)`: on success the channel map of the shared
        document becomes `AddResult`, the whole document is saved, and the
        buffer holds the confirmation; on failure nothing changes. */
    method ExecuteAdd(args: seq<string>, validate: string -> Option<string>) returns (o: Outcome)
      modifies this`buffer, registry
      ensures var r := AddResult(old(registry.data), args, validate);
              && (o.Pass? <==> r.Ok?)
              && (o.Fail? ==> o.error == r.error)
              && (r.Ok? ==> registry.data == Some(r.value) && registry.file == Some(r.value) && buffer == Text(ADDED))
              && (r.Err? ==> registry.data == old(registry.data) && registry.file == old(registry.file) && buffer == old(buffer))
    {
      if |args| != 3 {
        return Fail(CommandExecutionError(ADD_USAGE));
      }
      var code, name, url := args[0], args[1], args[2];
      var rejected := validate(url);
      if rejected.Some? {
        return Fail(CommandExecutionError("Given URL: " + url + "\n" + rejected.value));
      }
      if registry.data.None? {
        return Fail(TypeError);
      }
      registry.data := Some(registry.data.value[code := ChannelInfo(name, url)]);
      registry.file := registry.data;
      buffer := Text(ADDED);
      return Pass;
    }

    /** `Remove.execute(*codes)`: every code is checked before any is
        removed; the removal happens on a copy that replaces the channels and
        is saved only once all codes are known. On failure nothing changes. */
    method ExecuteRemove(args: seq<string>) returns (o: Outcome)
      modifies registry
      ensures var r := RemoveResult(old(registry.data), args);
              && (o.Pass? <==> r.Ok?)
              && (o.Fail? ==> o.error == r.error)
              && (r.Ok? ==> registry.data == Some(r.value) && registry.file == Some(r.value))
              && (r.Err? ==> registry.data == old(registry.data) && registry.file == old(registry.file))
    {
      if args == [] {
        return Fail(CommandExecutionError(REMOVE_USAGE));
      }
      if registry.data.None? {
        return Fail(TypeError);
      }
      var channels := registry.data.value;
      if args == ["*"] {
        registry.data := Some(map[]);
        registry.file := registry.data;
        return Pass;
      }
      var copy := channels;
      for i := 0 to |args|
        invariant forall j :: 0 <= j < i ==> args[j] in channels
        invariant FirstMissing(args[i..], channels) == FirstMissing(args, channels)
        invariant copy == map c | c in channels && c !in args[..i] :: channels[c]
      {
        assert args[i..][1..] == args[i + 1..];
        if args[i] !in channels {
          return Fail(CommandExecutionError(NOT_FOUND + args[i]));
        }
        assert args[..i + 1] == args[..i] + [args[i]];
        copy := copy - {args[i]};
      }
      assert args[..|args|] == args;
      registry.data := Some(copy);
      registry.file := registry.data;
      return Pass;
    }

    /** `execute(*args)` of the command's kind. `Quit` defines none and
        inherits the `NotImplementedError` of `Command.execute`. */
    method Execute(args: seq<string>, parse: string -> News.Response, validate: string -> Option<string>)
      returns (o: Outcome)
      requires Valid()
      modifies this`buffer, registry
      ensures Valid()
      ensures kind !in {Add, Remove} ==> registry.data == old(registry.data) && registry.file == old(registry.file)
      ensures kind == Quit ==> o == Fail(NotImplementedError) && buffer == old(buffer)
      ensures kind == Help ==> o == Pass && buffer == Text(HelpText("CLNews", VERSION, CommandsData()))
      ensures kind == List ==> o == Pass
      ensures kind == List && registry.data.None? ==> buffer == Text("")
      ensures kind == List && registry.data.Some? ==> buffer.Pairs? && Lists(buffer.pairs, registry.data.value)
      ensures kind == Get ==> var r := GetResult(registry.data, args, parse);
              && (o.Pass? <==> r.Ok?)
              && (o.Fail? ==> o.error == r.error)
              && buffer == if r.Ok? then Events(r.value) else old(buffer)
      ensures kind == Add ==> var r := AddResult(old(registry.data), args, validate);
              && (o.Pass? <==> r.Ok?)
              && (o.Fail? ==> o.error == r.error)
              && (r.Ok? ==> registry.data == Some(r.value) && registry.file == Some(r.value) && buffer == Text(ADDED))
              && (r.Err? ==> registry.data == old(registry.data) && registry.file == old(registry.file) && buffer == old(buffer))
      ensures kind == Remove ==> var r := RemoveResult(old(registry.data), args);
              && (o.Pass? <==> r.Ok?)
              && (o.Fail? ==> o.error == r.error)
              && buffer == old(buffer)
              && (r.Ok? ==> registry.data == Some(r.value) && registry.file == Some(r.value))
              && (r.Err? ==> registry.data == old(registry.data) && registry.file == old(registry.file))
    {
      match kind
      case Help => ExecuteHelp(); o := Pass;
      case List => ExecuteList(); o := Pass;
      case Get => o := ExecuteGet(args, parse);
      case Quit => o := Fail(NotImplementedError);
      case Add => o := ExecuteAdd(args, validate);
      case Remove => o := ExecuteRemove(args);
    }

    /** `print_output()`: `List` and `Get` render their buffer (the string
        sent to the pager), a failure to iterate it becoming
        `CommandOutputError`; the others print the buffer as it is. */
    function Output(): (r: Result<string>)
      requires Valid()
      reads this
      ensures kind == List ==> r == RenderList(buffer, CommandOutputError)
      ensures kind == Get ==> r == RenderEvents(buffer, CommandOutputError)
      ensures kind !in {List, Get} && buffer.Text? ==> r == Ok(buffer.text)
      ensures kind !in {List, Get} && buffer.NoBuffer? ==> r == Ok("None")
    {
      match kind
      case List => RenderList(buffer, CommandOutputError)
      case Get => RenderEvents(buffer, CommandOutputError)
      case _ => if buffer.Text? then Ok(buffer.text) else Ok("None")
    }
  }
}
