/** The older command line of console.py: the same three commands as the
    shell, fed from config.py and the top-level news.py. It differs from the
    shell in what it prints (the channel list line by line, the events block
    by block followed by a colour reset), in reporting a failed retrieval in
    the buffer instead of as an error, and in having no guard for the empty
    line, so an empty line ends the run with `IndexError`. */
module Console {
  import opened Types
  import opened Strings
  import opened Render
  import opened Channels
  import opened Frontend
  import News
  import LegacyNews

  const UNKNOWN_NOTICE := " Use .help to see the available options"
  const CHANNEL_NOTICE := "The channel was not found. Use .list to see the available ones."
  /** `"CLI News %s \n" % config.VERSION`, printed when the loop starts. */
  function Banner(version: string): string
  {
    "CLI News " + version + " \n"
  }

  /** Line `"%3d. %10s [%s]" % (i, name, short)` of the channel list. */
  function ListLine(i: nat, code: string, name: string): string
  {
    PadLeft(Decimal(i), 3) + ". " + PadLeft(name, 10) + " [" + code + "]"
  }

  /** `f` applied to every element and its index. */
  function Numbered<T>(xs: seq<T>, f: (nat, T) -> Output): (r: seq<Output>)
    ensures |r| == |xs|
    ensures forall i :: 0 <= i < |xs| ==> r[i] == f(i, xs[i])
  {
    seq(|xs|, i requires 0 <= i < |xs| => f(i, xs[i]))
  }

  lemma NumberedGrows<T>(xs: seq<T>, f: (nat, T) -> Output)
    requires xs != []
    ensures Numbered(xs, f) == Numbered(xs[..|xs| - 1], f) + [f(|xs| - 1, xs[|xs| - 1])]
  {
    var a, b := Numbered(xs, f), Numbered(xs[..|xs| - 1], f) + [f(|xs| - 1, xs[|xs| - 1])];
    assert |a| == |b|;
    forall j | 0 <= j < |a| ensures a[j] == b[j] {
      if j < |xs| - 1 {
        assert xs[..|xs| - 1][j] == xs[j];
      }
    }
  }

  /** The `print` of the i-th pair. */
  function ListEntry(i: nat, pair: (string, string)): Output
  {
    Printed(ListLine(i, pair.0, pair.1))
  }

  /** One printed line per pair, numbered from 0. */
  function ListOutput(pairs: seq<(string, string)>): seq<Output>
  {
    Numbered(pairs, ListEntry)
  }

  /** One printed block per event, numbered from 1. */
  function BlocksOutput(events: seq<News.Event>): seq<Output>
  {
    seq(|events|, i requires 0 <= i < |events| => Printed(EventBlock(i + 1, events[i])))
  }

  /** The blocks of the events, then the colour reset. */
  function EventsOutput(events: seq<News.Event>): seq<Output>
  {
    BlocksOutput(events) + [Printed(RESET_ALL)]
  }

  /** `execute()`: the base command does nothing; `.get` fetches its channel
      with news.py. Its handler names `ChannelRetrieveEventsError`, which
      neither `news` nor `exception` defines, so whatever error the retrieval
      raises, evaluating the handler raises `NameError` instead. */
  function Executed(sel: Selected, cfg: Config, parse: string -> News.Response): (r: Result<Buffer>)
    ensures sel.GetCmd? ==>
              r == match LegacyNews.Retrieve(parse(sel.url))
                   case Ok(events) => Ok(Events(events))
                   case Err(_) => Err(NameError)
    ensures !sel.GetCmd? ==> r.Ok?
  {
    match sel
    case Base => Ok(NoBuffer)
    case HelpCmd => Ok(Text(HelpText("CLI News", cfg.version, HelpEntries(cfg.commandOrder))))
    case ListCmd => Ok(Pairs(ListPairs(cfg)))
    case GetCmd(_, url) =>
      match LegacyNews.Retrieve(parse(url))
      case Ok(events) => Ok(Events(events))
      case Err(_) => Err(NameError)
  }

  /** What `print_output()` prints for `buffer`. Unpacking a character of a
      non-empty string into a pair raises `ValueError`, an event `TypeError`,
      and so does `enumerate(None)`; an event list of `.get` that holds pairs
      fails on `title` with `AttributeError`. */
  function Printout(sel: Selected, buffer: Buffer): (r: Result<seq<Output>>)
    ensures sel.Base? ==> r == Ok([])
    ensures sel == HelpCmd && buffer.Text? ==> r == Ok([Printed(buffer.text)])
    ensures sel == ListCmd && buffer.Pairs? ==> r == Ok(ListOutput(buffer.pairs))
    ensures sel.GetCmd? && buffer.Events? ==> r == Ok(EventsOutput(buffer.events))
    ensures sel.GetCmd? && buffer.Text? ==> r == Ok([Printed(buffer.text)])
  {
    match sel
    case Base => Ok([])
    case HelpCmd => Ok([Printed(if buffer.Text? then buffer.text else "None")])
    case ListCmd =>
      (match buffer
       case NoBuffer => Err(TypeError)
       case Text(s) => if s == "" then Ok([]) else Err(ValueError)
       case Pairs(pairs) => Ok(ListOutput(pairs))
       case Events(events) => if events == [] then Ok([]) else Err(TypeError))
    case GetCmd(_, _) =>
      match buffer
      case NoBuffer => Ok([Printed("None")])
      case Text(s) => Ok([Printed(s)])
      case Pairs(pairs) => if pairs == [] then Ok([Printed(RESET_ALL)]) else Err(AttributeError)
      case Events(events) => Ok(EventsOutput(events))
  }

  /** `command.execute()` then `command.print_output()`, after the notices of
      the first half of the iteration. The loop catches none of their
      exceptions. */
  function Perform(sel: Selected, notices: seq<Output>, cfg: Config, parse: string -> News.Response): (r: Trace)
    ensures r.Ended? ==> r.out == notices && r.end.Fail?
  {
    match Executed(sel, cfg, parse)
    case Err(e) => Ended(notices, Fail(e))
    case Ok(buffer) =>
      match Printout(sel, buffer)
      case Ok(o) => Running(notices + o, sel)
      case Err(e) => Ended(notices, Fail(e))
  }

  /** What the rest of an iteration does with the outcome `a` of the
      analysis: `quit` prints an empty line and exits; an unknown command or
      channel is reported and the held command `sel` kept; any other
      exception escapes. */
  function React(a: Result<Selected>, sel: Selected, cfg: Config, parse: string -> News.Response): (r: Trace)
    ensures r.Ended? && r.end.Pass? <==> a == Err(EOFError)
    ensures a == Err(EOFError) ==> r.out == [Printed("")]
    ensures r.Ended? && r.end.Fail? ==> r.end.error !in {ConsoleCommandDoesNotExist, ConsoleCommandChannelNotFound}
  {
    match a
    case Ok(s) => Perform(s, [], cfg, parse)
    case Err(e) =>
      if e == EOFError then Ended([Printed("")], Pass)
      else if e == ConsoleCommandDoesNotExist then Perform(sel, [Printed(UNKNOWN_NOTICE)], cfg, parse)
      else if e == ConsoleCommandChannelNotFound then Perform(sel, [Printed(CHANNEL_NOTICE)], cfg, parse)
      else Ended([], Fail(e))
  }

  /** One iteration of `run`: every line is analysed, the empty one
      included. */
  function StepOn(line: string, sel: Selected, cfg: Config, parse: string -> News.Response): Trace
  {
    React(Analyse(line, cfg.channels, ConsoleCommandDoesNotExist, ConsoleCommandChannelNotFound), sel, cfg, parse)
  }

  function ConsoleStep(cfg: Config, parse: string -> News.Response): Step
  {
    (line, sel) => StepOn(line, sel, cfg, parse)
  }

  /** The command a line selects: none when its analysis fails. */
  function ConsoleChoice(cfg: Config): Choice
  {
    line => Chosen(Analyse(line, cfg.channels, ConsoleCommandDoesNotExist, ConsoleCommandChannelNotFound))
  }

  /** A line that selects a command never selects the base command. */
  lemma ConsoleChoosesCommand(cfg: Config, line: string)
    ensures ConsoleChoice(cfg)(line).Some? ==> !ConsoleChoice(cfg)(line).value.Base?
  {
  }

  /** The trace of the loop of `Console.Run` over `lines`: `Steps` with the
      console's own iteration written in, so that the loop's proof
      needs no function values (`TrailIsSteps`). */
  function Trail(lines: seq<string>, cfg: Config, parse: string -> News.Response): Trace
  {
    if lines == [] then Running([], Base)
    else
      var t := Trail(lines[..|lines| - 1], cfg, parse);
      if t.Ended? then t
      else
        var u := StepOn(lines[|lines| - 1], t.selected, cfg, parse);
        if u.Running? then Running(t.out + u.out, u.selected) else Ended(t.out + u.out, u.end)
  }

  lemma {:induction false} TrailIsSteps(lines: seq<string>, cfg: Config, parse: string -> News.Response)
    ensures Trail(lines, cfg, parse) == Steps(lines, Base, ConsoleStep(cfg, parse))
  {
    if lines != [] {
      TrailIsSteps(lines[..|lines| - 1], cfg, parse);
    }
  }

  /** The command selected by the last line that selects one, or the base
      command: `LastSelected` with the console's own choice written in. */
  function LastChosen(lines: seq<string>, cfg: Config): Selected
  {
    if lines == [] then Base
    else
      var c := Chosen(Analyse(lines[|lines| - 1], cfg.channels, ConsoleCommandDoesNotExist, ConsoleCommandChannelNotFound));
      if c.Some? then c.value else LastChosen(lines[..|lines| - 1], cfg)
  }

  lemma {:induction false} LastChosenIsLastSelected(lines: seq<string>, cfg: Config)
    ensures LastChosen(lines, cfg) == LastSelected(lines, Base, ConsoleChoice(cfg))
  {
    if lines != [] {
      LastChosenIsLastSelected(lines[..|lines| - 1], cfg);
    }
  }

  /** `Console().run()` on the lines typed; the end of the input, like
      `quit`, prints an empty line and exits. */
  function Session(lines: seq<string>, cfg: Config, parse: string -> News.Response): (r: Transcript)
    ensures r.out != [] && r.out[0] == Printed(Banner(cfg.version))
    ensures r.end.Pass? ==> r.out[|r.out| - 1] == Printed("")
  {
    QuietEnd(lines, cfg, parse);
    Finish(Banner(cfg.version), Steps(lines, Base, ConsoleStep(cfg, parse)))
  }

  /** A session that ends normally has printed an empty line last. */
  lemma QuietEnd(lines: seq<string>, cfg: Config, parse: string -> News.Response)
    ensures var t := Steps(lines, Base, ConsoleStep(cfg, parse));
            t.Ended? && t.end.Pass? ==> t.out != [] && t.out[|t.out| - 1] == Printed("")
  {
    forall line, sel
      ensures ConsoleStep(cfg, parse)(line, sel).Ended? && ConsoleStep(cfg, parse)(line, sel).end.Pass? ==>
              ConsoleStep(cfg, parse)(line, sel).out == [Printed("")]
    {
      QuietStep(line, sel, cfg, parse);
    }
    if Steps(lines, Base, ConsoleStep(cfg, parse)).Ended? && Steps(lines, Base, ConsoleStep(cfg, parse)).end.Pass? {
      StepsEndQuietly(lines, Base, ConsoleStep(cfg, parse));
    }
  }

  // ---------------------------------------------------------------------
  // Properties

  /** The list of `.list` has one line per configured channel, and every
      channel has its line, showing its code and name. */
  lemma ListShowsEveryChannel(cfg: Config, code: string)
    requires Iterates(cfg) && code in cfg.channels
    ensures |ListOutput(ListPairs(cfg))| == |cfg.channels|
    ensures exists i :: 0 <= i < |cfg.channels| && ListOutput(ListPairs(cfg))[i] == ListEntry(i, (code, cfg.channels[code].name))
  {
    ListPairsComplete(cfg);
    var ps := ListPairs(cfg);
    ListedCode(ps, cfg.channels, code);
    var i :| 0 <= i < |ps| && ps[i] == (code, cfg.channels[code].name);
    assert ListOutput(ps)[i] == ListEntry(i, ps[i]);
  }

  /** A listing holds the pair of every channel. */
  lemma ListedCode(ps: seq<(string, string)>, table: Table, code: string)
    requires Lists(ps, table) && code in table
    ensures exists i :: 0 <= i < |ps| && ps[i] == (code, table[code].name)
  {
    var i :| 0 <= i < |ps| && ps[i].0 == code;
    assert ps[i] == (code, table[code].name);
  }

  /** Unlike the shell, the console has no guard for the empty line: an
      empty or blank line has no first token and ends the run with
      `IndexError`. */
  lemma EmptyLineCrashes(line: string, sel: Selected, cfg: Config, parse: string -> News.Response)
    requires forall i :: 0 <= i < |line| ==> IsSpace(line[i])
    ensures StepOn(line, sel, cfg, parse) == Ended([], Fail(IndexError))
  {
    AnalyseBlank(line, cfg.channels, ConsoleCommandDoesNotExist, ConsoleCommandChannelNotFound);
  }

  /** A feed that answers with an error status ends the run: news.py raises
      `ChannelDataNotFound` or `ChannelServerError`, the handler of `.get`
      turns it into `NameError`, and the loop does not catch that. */
  lemma FailedFeedEndsRun(name: string, url: string, notices: seq<Output>, cfg: Config, parse: string -> News.Response)
    requires parse(url).status != 200
    ensures Perform(GetCmd(name, url), notices, cfg, parse) == Ended(notices, Fail(NameError))
  {
  }

  /** A feed that answers prints one block per entry and the colour reset. */
  lemma FeedPrintsEveryEntry(name: string, url: string, cfg: Config, parse: string -> News.Response)
    requires parse(url).status == 200
    ensures Perform(GetCmd(name, url), [], cfg, parse).Running?
    ensures var o := Perform(GetCmd(name, url), [], cfg, parse).out;
            && |o| == |parse(url).entries| + 1
            && o[|o| - 1] == Printed(RESET_ALL)
  {
    var es := LegacyNews.Retrieve(parse(url)).value;
    assert Executed(GetCmd(name, url), cfg, parse) == Ok(Events(es));
    assert EventsOutput(es)[|es|] == Printed(RESET_ALL);
    assert |EventsOutput(es)| == |es| + 1;
  }

  /** Executing and printing never changes the command held. */
  lemma PerformKeeps(sel: Selected, notices: seq<Output>, cfg: Config, parse: string -> News.Response)
    ensures Perform(sel, notices, cfg, parse).Running? ==> Perform(sel, notices, cfg, parse).selected == sel
  {
  }

  /** After an analysis that succeeded the new command is held, after one
      that failed the old one, whenever the run goes on. */
  lemma ReactKeeps(a: Result<Selected>, sel: Selected, cfg: Config, parse: string -> News.Response)
    ensures React(a, sel, cfg, parse).Running? ==>
              React(a, sel, cfg, parse).selected == if a.Ok? then a.value else sel
  {
    if a.Ok? {
      PerformKeeps(a.value, [], cfg, parse);
    } else {
      PerformKeeps(sel, [Printed(UNKNOWN_NOTICE)], cfg, parse);
      PerformKeeps(sel, [Printed(CHANNEL_NOTICE)], cfg, parse);
    }
  }

  lemma ConsoleRetains(cfg: Config, parse: string -> News.Response)
    ensures Retains(ConsoleStep(cfg, parse), ConsoleChoice(cfg))
  {
    forall line, sel | ConsoleStep(cfg, parse)(line, sel).Running?
      ensures ConsoleStep(cfg, parse)(line, sel).selected ==
              if ConsoleChoice(cfg)(line).Some? then ConsoleChoice(cfg)(line).value else sel
    {
      ReactKeeps(Analyse(line, cfg.channels, ConsoleCommandDoesNotExist, ConsoleCommandChannelNotFound), sel, cfg, parse);
    }
  }

  /** While the console runs, it executes the command of the last line that
      analysed, or the base command if there was none. */
  lemma ConsoleHoldsLastSelected(lines: seq<string>, cfg: Config, parse: string -> News.Response)
    requires Steps(lines, Base, ConsoleStep(cfg, parse)).Running?
    ensures Steps(lines, Base, ConsoleStep(cfg, parse)).selected == LastSelected(lines, Base, ConsoleChoice(cfg))
  {
    ConsoleRetains(cfg, parse);
    StepsRetainLastSelected(lines, Base, ConsoleStep(cfg, parse), ConsoleChoice(cfg));
  }

  /** The only iteration that leaves the loop normally is the one that
      prints an empty line on `quit` or at the end of the input. */
  lemma QuietStep(line: string, sel: Selected, cfg: Config, parse: string -> News.Response)
    ensures StepOn(line, sel, cfg, parse).Ended? && StepOn(line, sel, cfg, parse).end.Pass? ==>
            StepOn(line, sel, cfg, parse).out == [Printed("")]
  {
  }

  lemma QuitStep(sel: Selected, cfg: Config, parse: string -> News.Response)
    ensures StepOn("quit", sel, cfg, parse) == Ended([Printed("")], Pass)
  {
  }

  /** `quit` ends the run normally with an empty line, and nothing typed
      after it is read. */
  lemma ConsoleQuit(before: seq<string>, after: seq<string>, cfg: Config, parse: string -> News.Response)
    requires Steps(before, Base, ConsoleStep(cfg, parse)).Running?
    ensures Session(before + ["quit"] + after, cfg, parse)
            == Transcript([Printed(Banner(cfg.version))] + Steps(before, Base, ConsoleStep(cfg, parse)).out + [Printed("")], Pass)
  {
    var step := ConsoleStep(cfg, parse);
    QuitStep(Steps(before, Base, step).selected, cfg, parse);
    StepsEndOn(before, "quit", after, Base, step);
  }

  // ---------------------------------------------------------------------
  // The classes

  /** A command of the console and the buffer its last `execute` left. */
  class ConsoleCommand {
    const selected: Selected
    var buffer: Buffer

    constructor (selected: Selected)
      ensures this.selected == selected && buffer == NoBuffer
    {
      this.selected := selected;
      buffer := NoBuffer;
    }

    /** `execute()`: on success the buffer is what `Executed` says (the base
        command leaves it alone); on an error it is left as it was. */
    method Execute(cfg: Config, parse: string -> News.Response) returns (o: Outcome)
      modifies this`buffer
      ensures o.Pass? <==> Executed(selected, cfg, parse).Ok?
      ensures o.Fail? ==> o.error == Executed(selected, cfg, parse).error
      ensures o.Pass? && !selected.Base? ==> buffer == Executed(selected, cfg, parse).value
      ensures o.Fail? || selected.Base? ==> buffer == old(buffer)
    {
      match selected
      case Base =>
        o := Pass;
      case HelpCmd =>
        var text := BuildHelp("CLI News", cfg.version, HelpEntries(cfg.commandOrder));
        buffer := Text(text);
        o := Pass;
      case ListCmd =>
        buffer := Pairs(ListPairs(cfg));
        o := Pass;
      case GetCmd(name, url) =>
        var ch := new LegacyNews.Channel(name, url);
        var events := ch.GetEvents(parse);
        if events.Ok? {
          buffer := Events(events.value);
          o := Pass;
        } else {
          o := Fail(NameError);
        }
    }

    /** `print_output()`: the lines it prints, one `print` at a time. */
    method PrintOutput() returns (r: Result<seq<Output>>)
      ensures r == Printout(selected, buffer)
    {
      match selected
      case Base =>
        r := Ok([]);
      case HelpCmd =>
        r := Ok([Printed(if buffer.Text? then buffer.text else "None")]);
      case ListCmd =>
        if buffer.Pairs? {
          var printed := PrintList(buffer.pairs);
          r := Ok(printed);
        } else if buffer.NoBuffer? {
          r := Err(TypeError);
        } else if buffer.Text? {
          r := if buffer.text == "" then Ok([]) else Err(ValueError);
        } else {
          r := if buffer.events == [] then Ok([]) else Err(TypeError);
        }
      case GetCmd(_, _) =>
        if buffer.Events? {
          var printed := PrintEvents(buffer.events);
          r := Ok(printed);
        } else if buffer.Pairs? {
          r := if buffer.pairs == [] then Ok([Printed(RESET_ALL)]) else Err(AttributeError);
        } else {
          r := Ok([Printed(if buffer.Text? then buffer.text else "None")]);
        }
    }
  }

  lemma ListOutputGrows(pairs: seq<(string, string)>, i: nat)
    requires i < |pairs|
    ensures ListOutput(pairs[..i + 1]) == ListOutput(pairs[..i]) + [ListEntry(i, pairs[i])]
  {
    var p := pairs[..i + 1];
    assert p[..i] == pairs[..i];
    NumberedGrows(p, ListEntry);
  }

  /** The loop of `CommandList.print_output`: one line per pair, numbered
      from 0. */
  method PrintList(pairs: seq<(string, string)>) returns (printed: seq<Output>)
    ensures printed == ListOutput(pairs)
  {
    printed := [];
    for i := 0 to |pairs|
      invariant printed == ListOutput(pairs[..i])
    {
      ListOutputGrows(pairs, i);
      printed := printed + [ListEntry(i, pairs[i])];
    }
    assert pairs[..|pairs|] == pairs;
  }

  /** The loop of `CommandGet.print_output` over a list of events, then the
      colour reset. */
  method PrintEvents(events: seq<News.Event>) returns (printed: seq<Output>)
    ensures printed == EventsOutput(events)
  {
    printed := [];
    for i := 0 to |events|
      invariant printed == BlocksOutput(events[..i])
    {
      printed := printed + [Printed(EventBlock(i + 1, events[i]))];
    }
    assert events[..|events|] == events;
    printed := printed + [Printed(RESET_ALL)];
  }

  /** `Console`: the command the last successful analysis built. */
  class Console {
    const cfg: Config
    var command: Option<ConsoleCommand>

    constructor (cfg: Config)
      ensures this.cfg == cfg && command == None
    {
      this.cfg := cfg;
      command := None;
    }

    /** `_analyse_input(input)`: a fresh command for a line that analyses,
        stored in `command`; on an exception `command` is left as it was. */
    method AnalyseInput(input: string) returns (r: Result<ConsoleCommand>)
      modifies this`command
      ensures var a := Analyse(input, cfg.channels, ConsoleCommandDoesNotExist, ConsoleCommandChannelNotFound);
              && (r.Ok? <==> a.Ok?)
              && (r.Ok? ==> fresh(r.value) && r.value.selected == a.value && r.value.buffer == NoBuffer
                            && command == Some(r.value))
              && (r.Err? ==> r.error == a.error && command == old(command))
    {
      var a := Analyse(input, cfg.channels, ConsoleCommandDoesNotExist, ConsoleCommandChannelNotFound);
      if a.Err? {
        return Err(a.error);
      }
      var c := new ConsoleCommand(a.value);
      command := Some(c);
      return Ok(c);
    }

    /** `command.execute()` then `command.print_output()`. */
    method PerformWith(c: ConsoleCommand, notices: seq<Output>, parse: string -> News.Response) returns (t: Trace)
      modifies c`buffer
      ensures t == Perform(c.selected, notices, cfg, parse)
    {
      var o := c.Execute(cfg, parse);
      if o.Fail? {
        return Ended(notices, Fail(o.error));
      }
      var p := c.PrintOutput();
      if p.Ok? {
        t := Running(notices + p.value, c.selected);
      } else {
        t := Ended(notices, Fail(p.error));
      }
    }

    /** One iteration of `run` on `line` while holding `c`. */
    method Iterate(c: ConsoleCommand, line: string, parse: string -> News.Response) returns (next: ConsoleCommand, t: Trace)
      modifies this`command, c`buffer
      ensures next == c || fresh(next)
      ensures t == StepOn(line, c.selected, cfg, parse)
      ensures t.Running? ==> next.selected == t.selected
      ensures ConsoleChoice(cfg)(line).Some? ==> fresh(next) && command == Some(next)
      ensures ConsoleChoice(cfg)(line).None? ==> next == c && command == old(command)
    {
      next := c;
      var notices: seq<Output> := [];
      var a := AnalyseInput(line);
      if a.Ok? {
        next := a.value;
      } else if a.error == EOFError {
        return next, Ended([Printed("")], Pass);
      } else if a.error == ConsoleCommandDoesNotExist {
        notices := [Printed(UNKNOWN_NOTICE)];
      } else if a.error == ConsoleCommandChannelNotFound {
        notices := [Printed(CHANNEL_NOTICE)];
      } else {
        return next, Ended([], Fail(a.error));
      }
      t := PerformWith(next, notices, parse);
    }

    /** The loop body of `run` on `lines[i]`, after the lines before it
        left the session running while holding `c`: the session over
        `lines[..i + 1]` ends, or runs on holding `next`, and the `command`
        attribute follows the last line that selected a command. */
    method Advance(lines: seq<string>, i: nat, c: ConsoleCommand, ghost out: seq<Output>,
                   ghost before: Option<ConsoleCommand>, parse: string -> News.Response)
      returns (next: ConsoleCommand, t: Trace)
      requires i < |lines|
      requires Trail(lines[..i], cfg, parse) == Running(out, c.selected)
      requires command == Holding(LastChosen(lines[..i], cfg), before, c)
      modifies this`command, c`buffer
      ensures next == c || fresh(next)
      ensures t.Ended? ==> Trail(lines, cfg, parse) == Ended(out + t.out, t.end)
      ensures t.Running? ==> Trail(lines[..i + 1], cfg, parse) == Running(out + t.out, next.selected)
      ensures command == Holding(LastChosen(lines[..i + 1], cfg), before, next)
    {
      ghost var step := ConsoleStep(cfg, parse);
      next, t := Iterate(c, lines[i], parse);
      TrailIsSteps(lines[..i], cfg, parse);
      TrailIsSteps(lines[..i + 1], cfg, parse);
      TrailIsSteps(lines, cfg, parse);
      LastChosenIsLastSelected(lines[..i], cfg);
      LastChosenIsLastSelected(lines[..i + 1], cfg);
      LastSelectedNext(lines, i, Base, ConsoleChoice(cfg));
      ConsoleChoosesCommand(cfg, lines[i]);
      StepsNext(lines, i, Base, step);
      assert step(lines[i], c.selected) == t;
      if t.Ended? {
        EndedAt(lines, i, Base, step);
      }
    }

    /** The loop of `run()`: the trace of the lines typed, the command
        held at the end, and the `command` attribute left behind. */
    method Loop(lines: seq<string>, parse: string -> News.Response) returns (tr: Trace, held: ConsoleCommand)
      modifies this`command
      ensures tr == Trail(lines, cfg, parse)
      ensures fresh(held)
      ensures tr.Running? ==> tr.selected == held.selected
      ensures tr.Running? ==> command == Holding(LastChosen(lines, cfg), old(command), held)
    {
      var out: seq<Output> := [];
      held := new ConsoleCommand(Base);
      var i := 0;
      while i < |lines|
        invariant 0 <= i <= |lines|
        invariant fresh(held)
        invariant Trail(lines[..i], cfg, parse) == Running(out, held.selected)
        invariant command == Holding(LastChosen(lines[..i], cfg), old(command), held)
      {
        var next, performed := Advance(lines, i, held, out, old(command), parse);
        if performed.Ended? {
          return Ended(out + performed.out, performed.end), held;
        }
        held := next;
        out := out + performed.out;
        i := i + 1;
      }
      assert lines[..|lines|] == lines;
      return Running(out, held.selected), held;
    }

    /** `run()` over the lines typed, until `quit`, the end of the input or
        an exception the loop does not catch. When the input runs out, the
        `command` attribute holds the command of the last line that selected
        one, or is as it was if no line did. */
    method Run(lines: seq<string>, parse: string -> News.Response) returns (t: Transcript)
      modifies this`command
      ensures t == Session(lines, cfg, parse)
      ensures Steps(lines, Base, ConsoleStep(cfg, parse)).Running? ==>
                var last := LastSelected(lines, Base, ConsoleChoice(cfg));
                if last == Base then command == old(command)
                else command.Some? && fresh(command.value) && command.value.selected == last
    {
      var tr, held := Loop(lines, parse);
      TrailIsSteps(lines, cfg, parse);
      LastChosenIsLastSelected(lines, cfg);
      if tr.Running? {
        ConsoleHoldsLastSelected(lines, cfg, parse);
      }
      t := Finish(Banner(cfg.version), tr);
    }
  }
}
