/** The interactive shell of clnews/shell.py: the three commands it knows
    (`CommandHelp`, `CommandList`, `CommandGet`, besides the do-nothing base
    `Command`), `Shell._analyse_input`, and the loop of `Shell.run`, which
    keeps the last successfully analysed command and executes and prints it
    again after every line. */
module Shell {
  import opened Types
  import opened Strings
  import opened Render
  import opened Frontend
  import News

  /** What the loop prints for the exceptions it catches. `str(e)` of an
      exception without arguments is empty, so the first notice starts with
      the blank `print` puts between its two items. */
  const UNKNOWN_NOTICE := " Use .help to see the available options"
  const CHANNEL_NOTICE := "The channel was not found. Use .list to see the available ones."
  const OUTPUT_NOTICE := "An error occured while printing the resultof the command"

  /** `"CLNews %s \n" % config.VERSION`, printed when the loop starts. */
  function Banner(version: string): string
  {
    "CLNews " + version + " \n"
  }

  /** The help text of `CommandHelp.execute`. */
  function HelpBuffer(cfg: Config): string
  {
    HelpText("CLI News", cfg.version, HelpEntries(cfg.commandOrder))
  }

  /** `execute()` of a command: the buffer it leaves. The base command does
      nothing; `.get` fetches its channel, a failure to map the entries
      becoming `ShellCommandOutputError` while a failing status propagates. */
  function Executed(sel: Selected, cfg: Config, parse: string -> News.Response): (r: Result<Buffer>)
    ensures sel.GetCmd? ==> (r.Ok? <==> News.Retrieve(parse(sel.url)).Ok?)
    ensures sel.GetCmd? && r.Ok? ==> r.value == Events(News.Retrieve(parse(sel.url)).value)
    ensures sel.GetCmd? && r.Err? ==>
              r.error == if News.Retrieve(parse(sel.url)).error == ChannelRetrieveEventsError
                         then ShellCommandOutputError else News.Retrieve(parse(sel.url)).error
    ensures !sel.GetCmd? ==> r.Ok?
  {
    match sel
    case Base => Ok(NoBuffer)
    case HelpCmd => Ok(Text(HelpBuffer(cfg)))
    case ListCmd => Ok(Pairs(ListPairs(cfg)))
    case GetCmd(_, url) =>
      match News.Retrieve(parse(url))
      case Ok(events) => Ok(Events(events))
      case Err(e) => Err(if e == ChannelRetrieveEventsError then ShellCommandOutputError else e)
  }

  /** `print_output()` of a command holding `buffer`: nothing for the base
      command, the help text as one `print`, and the list and the events as
      one string for the pager. */
  function Printout(sel: Selected, buffer: Buffer): (r: Result<seq<Output>>)
    ensures sel.Base? ==> r == Ok([])
    ensures sel == HelpCmd && buffer.Text? ==> r == Ok([Printed(buffer.text)])
    ensures sel == ListCmd && buffer.Pairs? ==> r == Ok([Paged(ListTable(buffer.pairs))])
    ensures sel.GetCmd? && buffer.Events? ==> r == Ok([Paged(Join("\n", EventBlocks(buffer.events, 1)))])
  {
    match sel
    case Base => Ok([])
    case HelpCmd => Ok([Printed(if buffer.Text? then buffer.text else "None")])
    case ListCmd =>
      (match RenderList(buffer, ShellCommandOutputError)
       case Ok(s) => Ok([Paged(s)])
       case Err(e) => Err(e))
    case GetCmd(_, _) =>
      match RenderEvents(buffer, ShellCommandOutputError)
      case Ok(s) => Ok([Paged(s)])
      case Err(e) => Err(e)
  }

  /** The second half of an iteration: `command.execute()` then
      `command.print_output()`, after the `notices` the first half printed.
      `ShellCommandOutputError` is reported and the loop goes on; any other
      exception ends the run. */
  function Perform(sel: Selected, notices: seq<Output>, cfg: Config, parse: string -> News.Response): (r: Trace)
    ensures r.Ended? ==> r.out == notices && r.end.Fail? && r.end.error != ShellCommandOutputError
  {
    match Executed(sel, cfg, parse)
    case Err(e) =>
      if e == ShellCommandOutputError then Running(notices + [Printed(OUTPUT_NOTICE)], sel)
      else Ended(notices, Fail(e))
    case Ok(buffer) =>
      match Printout(sel, buffer)
      case Ok(o) => Running(notices + o, sel)
      case Err(e) =>
        if e == ShellCommandOutputError then Running(notices + [Printed(OUTPUT_NOTICE)], sel)
        else Ended(notices, Fail(e))
  }

  /** What the rest of an iteration does with the outcome `a` of the
      analysis: `quit` prints an empty line and leaves the loop; an unknown
      command or channel is reported and the held command `sel` kept; any
      other exception of the analysis escapes. */
  function React(a: Result<Selected>, sel: Selected, cfg: Config, parse: string -> News.Response): (r: Trace)
    ensures r.Ended? && r.end.Pass? <==> a == Err(EOFError)
    ensures a == Err(EOFError) ==> r.out == [Printed("")]
    ensures r.Ended? && r.end.Fail? ==> r.end.error !in {ShellCommandDoesNotExist, ShellCommandChannelNotFound}
  {
    match a
    case Ok(s) => Perform(s, [], cfg, parse)
    case Err(e) =>
      if e == EOFError then Ended([Printed("")], Pass)
      else if e == ShellCommandDoesNotExist then Perform(sel, [Printed(UNKNOWN_NOTICE)], cfg, parse)
      else if e == ShellCommandChannelNotFound then Perform(sel, [Printed(CHANNEL_NOTICE)], cfg, parse)
      else Ended([], Fail(e))
  }

  /** One iteration of `run` on `line` while holding `sel`: an empty line
      skips the analysis and repeats the held command. */
  function StepOn(line: string, sel: Selected, cfg: Config, parse: string -> News.Response): Trace
  {
    if line == "" then Perform(sel, [], cfg, parse)
    else React(Analyse(line, cfg.channels, ShellCommandDoesNotExist, ShellCommandChannelNotFound), sel, cfg, parse)
  }

  function ShellStep(cfg: Config, parse: string -> News.Response): Step
  {
    (line, sel) => StepOn(line, sel, cfg, parse)
  }

  /** The command a line selects: none for the empty line or a failed
      analysis. */
  function ShellChoice(cfg: Config): Choice
  {
    line =>
      if line == "" then None
      else Chosen(Analyse(line, cfg.channels, ShellCommandDoesNotExist, ShellCommandChannelNotFound))
  }

  /** A line that selects a command never selects the base command. */
  lemma ShellChoosesCommand(cfg: Config, line: string)
    ensures ShellChoice(cfg)(line).Some? ==> !ShellChoice(cfg)(line).value.Base?
  {
  }

  /** The trace of the loop of `Shell.Run` over `lines`: `Steps` with the
      shell's own iteration written in, so that the loop's proof
      needs no function values (`TrailIsSteps`). */
  function Trail(lines: seq<string>, cfg: Config, parse: string -> News.Response): Trace
  {
    if lines == [] then Running([], Base)
    else
      var t := Trail(lines[..|lines| - 1], cfg, parse);
      if t.Ended? then t
      else
        var u := StepOn(lines[|lines| - 1], t.selected, cfg, parse);
        if u.Running? then Running(t.out + u.out, u.selected) else Ended(t.out + u.out, u.end)
  }

  lemma {:induction false} TrailIsSteps(lines: seq<string>, cfg: Config, parse: string -> News.Response)
    ensures Trail(lines, cfg, parse) == Steps(lines, Base, ShellStep(cfg, parse))
  {
    if lines != [] {
      TrailIsSteps(lines[..|lines| - 1], cfg, parse);
    }
  }

  /** The command selected by the last line that selects one, or the base
      command: `LastSelected` with the shell's own choice written in. */
  function LastChosen(lines: seq<string>, cfg: Config): Selected
  {
    if lines == [] then Base
    else
      var c := if lines[|lines| - 1] == "" then None
               else Chosen(Analyse(lines[|lines| - 1], cfg.channels, ShellCommandDoesNotExist, ShellCommandChannelNotFound));
      if c.Some? then c.value else LastChosen(lines[..|lines| - 1], cfg)
  }

  lemma {:induction false} LastChosenIsLastSelected(lines: seq<string>, cfg: Config)
    ensures LastChosen(lines, cfg) == LastSelected(lines, Base, ShellChoice(cfg))
  {
    if lines != [] {
      LastChosenIsLastSelected(lines[..|lines| - 1], cfg);
    }
  }

  /** `Shell().run()` on the lines typed. */
  function Session(lines: seq<string>, cfg: Config, parse: string -> News.Response): (r: Transcript)
    ensures r.out != [] && r.out[0] == Printed(Banner(cfg.version))
    ensures r.end.Pass? ==> r.out[|r.out| - 1] == Printed("")
  {
    QuietEnd(lines, cfg, parse);
    Finish(Banner(cfg.version), Steps(lines, Base, ShellStep(cfg, parse)))
  }

  /** A session that ends normally has printed an empty line last. */
  lemma QuietEnd(lines: seq<string>, cfg: Config, parse: string -> News.Response)
    ensures var t := Steps(lines, Base, ShellStep(cfg, parse));
            t.Ended? && t.end.Pass? ==> t.out != [] && t.out[|t.out| - 1] == Printed("")
  {
    forall line, sel
      ensures ShellStep(cfg, parse)(line, sel).Ended? && ShellStep(cfg, parse)(line, sel).end.Pass? ==>
              ShellStep(cfg, parse)(line, sel).out == [Printed("")]
    {
      QuietStep(line, sel, cfg, parse);
    }
    if Steps(lines, Base, ShellStep(cfg, parse)).Ended? && Steps(lines, Base, ShellStep(cfg, parse)).end.Pass? {
      StepsEndQuietly(lines, Base, ShellStep(cfg, parse));
    }
  }

  // ---------------------------------------------------------------------
  // Properties of a session

  /** Executing and printing never changes the command held. */
  lemma PerformKeeps(sel: Selected, notices: seq<Output>, cfg: Config, parse: string -> News.Response)
    ensures Perform(sel, notices, cfg, parse).Running? ==> Perform(sel, notices, cfg, parse).selected == sel
  {
  }

  /** After an analysis that succeeded the new command is held, after one
      that failed the old one, whenever the run goes on. */
  lemma ReactKeeps(a: Result<Selected>, sel: Selected, cfg: Config, parse: string -> News.Response)
    ensures React(a, sel, cfg, parse).Running? ==>
              React(a, sel, cfg, parse).selected == if a.Ok? then a.value else sel
  {
    if a.Ok? {
      PerformKeeps(a.value, [], cfg, parse);
    } else {
      PerformKeeps(sel, [Printed(UNKNOWN_NOTICE)], cfg, parse);
      PerformKeeps(sel, [Printed(CHANNEL_NOTICE)], cfg, parse);
    }
  }

  /** Every iteration that does not end the run holds the command the line
      analysed, or the one held before when there was none. */
  lemma StepOnKeeps(line: string, sel: Selected, cfg: Config, parse: string -> News.Response)
    ensures StepOn(line, sel, cfg, parse).Running? ==>
              StepOn(line, sel, cfg, parse).selected == if ShellChoice(cfg)(line).Some? then ShellChoice(cfg)(line).value else sel
  {
    if line == "" {
      PerformKeeps(sel, [], cfg, parse);
    } else {
      ReactKeeps(Analyse(line, cfg.channels, ShellCommandDoesNotExist, ShellCommandChannelNotFound), sel, cfg, parse);
    }
  }

  lemma ShellRetains(cfg: Config, parse: string -> News.Response)
    ensures Retains(ShellStep(cfg, parse), ShellChoice(cfg))
  {
    forall line, sel | ShellStep(cfg, parse)(line, sel).Running?
      ensures ShellStep(cfg, parse)(line, sel).selected ==
              if ShellChoice(cfg)(line).Some? then ShellChoice(cfg)(line).value else sel
    {
      StepOnKeeps(line, sel, cfg, parse);
    }
  }

  /** While the shell runs, the command it executes is the one of the last
      line whose analysis succeeded, or the base command if there was none. */
  lemma ShellHoldsLastSelected(lines: seq<string>, cfg: Config, parse: string -> News.Response)
    requires Steps(lines, Base, ShellStep(cfg, parse)).Running?
    ensures Steps(lines, Base, ShellStep(cfg, parse)).selected == LastSelected(lines, Base, ShellChoice(cfg))
  {
    ShellRetains(cfg, parse);
    StepsRetainLastSelected(lines, Base, ShellStep(cfg, parse), ShellChoice(cfg));
  }

  /** The only iteration that leaves the loop normally is the one that
      prints an empty line on `quit` or at the end of the input. */
  lemma QuietStep(line: string, sel: Selected, cfg: Config, parse: string -> News.Response)
    ensures StepOn(line, sel, cfg, parse).Ended? && StepOn(line, sel, cfg, parse).end.Pass? ==>
            StepOn(line, sel, cfg, parse).out == [Printed("")]
  {
  }

  lemma QuitStep(sel: Selected, cfg: Config, parse: string -> News.Response)
    ensures StepOn("quit", sel, cfg, parse) == Ended([Printed("")], Pass)
  {
  }

  /** `quit` ends the run normally with an empty line, and nothing typed
      after it is read. */
  lemma ShellQuit(before: seq<string>, after: seq<string>, cfg: Config, parse: string -> News.Response)
    requires Steps(before, Base, ShellStep(cfg, parse)).Running?
    ensures Session(before + ["quit"] + after, cfg, parse)
            == Transcript([Printed(Banner(cfg.version))] + Steps(before, Base, ShellStep(cfg, parse)).out + [Printed("")], Pass)
  {
    var step := ShellStep(cfg, parse);
    QuitStep(Steps(before, Base, step).selected, cfg, parse);
    StepsEndOn(before, "quit", after, Base, step);
  }

  /** A line of blanks is not skipped like the empty line: it has no first
      token, and the `IndexError` ends the run. */
  lemma ShellBlankLineCrashes(line: string, sel: Selected, cfg: Config, parse: string -> News.Response)
    requires line != "" && forall i :: 0 <= i < |line| ==> IsSpace(line[i])
    ensures StepOn(line, sel, cfg, parse) == Ended([], Fail(IndexError))
  {
    AnalyseBlank(line, cfg.channels, ShellCommandDoesNotExist, ShellCommandChannelNotFound);
  }

  /** An unknown command prints the notice and then the held help text
      again. */
  lemma ShellUnknownRepeatsHelp(line: string, cfg: Config, parse: string -> News.Response)
    requires line != "quit" && Tokens(line) != [] && Tokens(line)[0] !in COMMANDS
    ensures StepOn(line, HelpCmd, cfg, parse) == Running([Printed(UNKNOWN_NOTICE), Printed(HelpBuffer(cfg))], HelpCmd)
  {
  }

  // ---------------------------------------------------------------------
  // The classes

  /** A command of the shell and the buffer its last `execute` left. */
  class ShellCommand {
    const selected: Selected
    var buffer: Buffer

    constructor (selected: Selected)
      ensures this.selected == selected && buffer == NoBuffer
    {
      this.selected := selected;
      buffer := NoBuffer;
    }

    /** `execute()`: on success the buffer is what `Executed` says; the base
        command leaves it alone, and a failure leaves it as it was. */
    method Execute(cfg: Config, parse: string -> News.Response) returns (o: Outcome)
      modifies this`buffer
      ensures o.Pass? <==> Executed(selected, cfg, parse).Ok?
      ensures o.Fail? ==> o.error == Executed(selected, cfg, parse).error
      ensures o.Pass? && !selected.Base? ==> buffer == Executed(selected, cfg, parse).value
      ensures o.Fail? || selected.Base? ==> buffer == old(buffer)
    {
      match selected
      case Base =>
        o := Pass;
      case HelpCmd =>
        var text := BuildHelp("CLI News", cfg.version, HelpEntries(cfg.commandOrder));
        buffer := Text(text);
        o := Pass;
      case ListCmd =>
        buffer := Pairs(ListPairs(cfg));
        o := Pass;
      case GetCmd(name, url) =>
        var ch := new News.Channel(name, url);
        var events := ch.GetEvents(parse);
        if events.Err? {
          o := Fail(if events.error == ChannelRetrieveEventsError then ShellCommandOutputError else events.error);
        } else {
          buffer := Events(events.value);
          o := Pass;
        }
    }
  }

  /** `Shell`: the command the last successful analysis built. */
  class Shell {
    const cfg: Config
    var command: Option<ShellCommand>

    constructor (cfg: Config)
      ensures this.cfg == cfg && command == None
    {
      this.cfg := cfg;
      command := None;
    }

    /** `_analyse_input(input)`: a fresh command for a line that analyses,
        stored in `command`; on an exception `command` is left as it was. */
    method AnalyseInput(input: string) returns (r: Result<ShellCommand>)
      modifies this`command
      ensures var a := Analyse(input, cfg.channels, ShellCommandDoesNotExist, ShellCommandChannelNotFound);
              && (r.Ok? <==> a.Ok?)
              && (r.Ok? ==> fresh(r.value) && r.value.selected == a.value && r.value.buffer == NoBuffer
                            && command == Some(r.value))
              && (r.Err? ==> r.error == a.error && command == old(command))
    {
      var a := Analyse(input, cfg.channels, ShellCommandDoesNotExist, ShellCommandChannelNotFound);
      if a.Err? {
        return Err(a.error);
      }
      var c := new ShellCommand(a.value);
      command := Some(c);
      return Ok(c);
    }

    /** `command.execute()` then `command.print_output()` of one iteration,
        after the `notices` its first half printed. */
    method PerformWith(c: ShellCommand, notices: seq<Output>, parse: string -> News.Response) returns (t: Trace)
      modifies c`buffer
      ensures t == Perform(c.selected, notices, cfg, parse)
    {
      var o := c.Execute(cfg, parse);
      if o.Fail? {
        if o.error == ShellCommandOutputError {
          t := Running(notices + [Printed(OUTPUT_NOTICE)], c.selected);
        } else {
          t := Ended(notices, Fail(o.error));
        }
      } else {
        var p := Printout(c.selected, c.buffer);
        if p.Ok? {
          t := Running(notices + p.value, c.selected);
        } else if p.error == ShellCommandOutputError {
          t := Running(notices + [Printed(OUTPUT_NOTICE)], c.selected);
        } else {
          t := Ended(notices, Fail(p.error));
        }
      }
    }

    /** One iteration of `run` on `line` while holding `c`: the command held
        afterwards is `c` or the fresh one the line analysed. */
    method Iterate(c: ShellCommand, line: string, parse: string -> News.Response) returns (next: ShellCommand, t: Trace)
      modifies this`command, c`buffer
      ensures next == c || fresh(next)
      ensures t == StepOn(line, c.selected, cfg, parse)
      ensures t.Running? ==> next.selected == t.selected
      ensures ShellChoice(cfg)(line).Some? ==> fresh(next) && command == Some(next)
      ensures ShellChoice(cfg)(line).None? ==> next == c && command == old(command)
    {
      next := c;
      var notices: seq<Output> := [];
      if line != "" {
        var a := AnalyseInput(line);
        if a.Ok? {
          next := a.value;
        } else if a.error == EOFError {
          return next, Ended([Printed("")], Pass);
        } else if a.error == ShellCommandDoesNotExist {
          notices := [Printed(UNKNOWN_NOTICE)];
        } else if a.error == ShellCommandChannelNotFound {
          notices := [Printed(CHANNEL_NOTICE)];
        } else {
          return next, Ended([], Fail(a.error));
        }
      }
      t := PerformWith(next, notices, parse);
    }

    /** The loop body of `run` on `lines[i]`, after the lines before it
        left the session running while holding `c`: the session over
        `lines[..i + 1]` ends, or runs on holding `next`, and the `command`
        attribute follows the last line that selected a command. */
    method Advance(lines: seq<string>, i: nat, c: ShellCommand, ghost out: seq<Output>,
                   ghost before: Option<ShellCommand>, parse: string -> News.Response)
      returns (next: ShellCommand, t: Trace)
      requires i < |lines|
      requires Trail(lines[..i], cfg, parse) == Running(out, c.selected)
      requires command == Holding(LastChosen(lines[..i], cfg), before, c)
      modifies this`command, c`buffer
      ensures next == c || fresh(next)
      ensures t.Ended? ==> Trail(lines, cfg, parse) == Ended(out + t.out, t.end)
      ensures t.Running? ==> Trail(lines[..i + 1], cfg, parse) == Running(out + t.out, next.selected)
      ensures command == Holding(LastChosen(lines[..i + 1], cfg), before, next)
    {
      ghost var step := ShellStep(cfg, parse);
      next, t := Iterate(c, lines[i], parse);
      TrailIsSteps(lines[..i], cfg, parse);
      TrailIsSteps(lines[..i + 1], cfg, parse);
      TrailIsSteps(lines, cfg, parse);
      LastChosenIsLastSelected(lines[..i], cfg);
      LastChosenIsLastSelected(lines[..i + 1], cfg);
      LastSelectedNext(lines, i, Base, ShellChoice(cfg));
      ShellChoosesCommand(cfg, lines[i]);
      StepsNext(lines, i, Base, step);
      assert step(lines[i], c.selected) == t;
      if t.Ended? {
        EndedAt(lines, i, Base, step);
      }
    }

    /** The loop of `run()`: the trace of the lines typed, the command
        held at the end, and the `command` attribute left behind. */
    method Loop(lines: seq<string>, parse: string -> News.Response) returns (tr: Trace, held: ShellCommand)
      modifies this`command
      ensures tr == Trail(lines, cfg, parse)
      ensures fresh(held)
      ensures tr.Running? ==> tr.selected == held.selected
      ensures tr.Running? ==> command == Holding(LastChosen(lines, cfg), old(command), held)
    {
      var out: seq<Output> := [];
      held := new ShellCommand(Base);
      var i := 0;
      while i < |lines|
        invariant 0 <= i <= |lines|
        invariant fresh(held)
        invariant Trail(lines[..i], cfg, parse) == Running(out, held.selected)
        invariant command == Holding(LastChosen(lines[..i], cfg), old(command), held)
      {
        var next, performed := Advance(lines, i, held, out, old(command), parse);
        if performed.Ended? {
          return Ended(out + performed.out, performed.end), held;
        }
        held := next;
        out := out + performed.out;
        i := i + 1;
      }
      assert lines[..|lines|] == lines;
      return Running(out, held.selected), held;
    }

    /** `run()` over the lines typed, until `quit`, the end of the input or
        an exception the loop does not catch. When the input runs out, the
        `command` attribute holds the command of the last line that selected
        one, or is as it was if no line did. */
    method Run(lines: seq<string>, parse: string -> News.Response) returns (t: Transcript)
      modifies this`command
      ensures t == Session(lines, cfg, parse)
      ensures Steps(lines, Base, ShellStep(cfg, parse)).Running? ==>
                var last := LastSelected(lines, Base, ShellChoice(cfg));
                if last == Base then command == old(command)
                else command.Some? && fresh(command.value) && command.value.selected == last
    {
      var tr, held := Loop(lines, parse);
      TrailIsSteps(lines, cfg, parse);
      LastChosenIsLastSelected(lines, cfg);
      if tr.Running? {
        ShellHoldsLastSelected(lines, cfg, parse);
      }
      t := Finish(Banner(cfg.version), tr);
    }
  }
}
