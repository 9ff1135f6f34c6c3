/** What the interactive front ends clnews/shell.py and console.py share:
    the `COMMANDS` table, the configuration they read (`config.VERSION`,
    `config.CHANNELS`), the analysis of an input line into a command, and
    the shape of a session as a fold over the lines typed.

    A session is a sequence of input lines; reading past the last one is the
    `EOFError` of `raw_input`. What the program writes is a sequence of
    `Output`s: one `Printed` per `print` statement (its text, without the
    newline `print` adds) and one `Paged` per string sent to the pager. */
module Frontend {
  import opened Types
  import opened Strings
  import opened Channels
  import Maps

  /** `COMMANDS`: command name to `(name, description)`. */
  const COMMANDS: map<string, (string, string)> := map[
    ".help" := (".help", "show this help message and exit"),
    ".list" := (".list", "lists all the available channels"),
    ".get" := (".get", "retrieves the news of a given channel, e.g.: .get cnn")]

  /** The configuration a front end runs with: `config.VERSION`,
      `config.CHANNELS`, and the orders in which the interpreter happens to
      iterate `config.CHANNELS` and `COMMANDS`. */
  datatype Config = Config(version: string, channels: Table, channelOrder: seq<string>, commandOrder: seq<string>)

  /** The orders really are iteration orders of the two dictionaries. */
  ghost predicate Iterates(cfg: Config)
  {
    Maps.Enumerates(cfg.channelOrder, cfg.channels) && Maps.Enumerates(cfg.commandOrder, COMMANDS)
  }

  /** The command a front end holds: the do-nothing base `Command` it starts
      with, or one built by the analysis of a line. */
  datatype Selected = Base | HelpCmd | ListCmd | GetCmd(name: string, url: string)

  /** `(name, description)` of every entry of `COMMANDS`, in iteration
      order: the lines of the help text. */
  function HelpEntries(order: seq<string>): seq<(string, string)>
  {
    var ks := Known(order, COMMANDS);
    seq(|ks|, i requires 0 <= i < |ks| => COMMANDS[ks[i]])
  }

  lemma CommandsSize()
    ensures |COMMANDS| == 3
  {
    assert COMMANDS.Keys == {".help", ".list", ".get"};
    assert |COMMANDS| == |COMMANDS.Keys|;
  }

  /** The help text lists each of the three commands exactly once. */
  lemma HelpEntriesComplete(order: seq<string>)
    requires Maps.Enumerates(order, COMMANDS)
    ensures |HelpEntries(order)| == 3
    ensures forall k :: k in COMMANDS ==> COMMANDS[k] in HelpEntries(order)
  {
    KnownOfEnumeration(order, COMMANDS);
    CommandsSize();
    var es := HelpEntries(order);
    assert |es| == |order|;
    forall k | k in COMMANDS ensures COMMANDS[k] in es {
      var i :| 0 <= i < |order| && order[i] == k;
      assert es[i] == COMMANDS[k];
    }
  }

  /** `[(ch, CHANNELS[ch]["name"]) for ch in CHANNELS.keys()]`. */
  function ListPairs(cfg: Config): seq<(string, string)>
  {
    PairsOf(Known(cfg.channelOrder, cfg.channels), cfg.channels)
  }

  /** The `.list` buffer names every configured channel exactly once. */
  lemma ListPairsComplete(cfg: Config)
    requires Iterates(cfg)
    ensures Lists(ListPairs(cfg), cfg.channels)
  {
    KnownOfEnumeration(cfg.channelOrder, cfg.channels);
    PairsOfEnumeration(cfg.channelOrder, cfg.channels);
  }

  // ---------------------------------------------------------------------
  // `_analyse_input`

  /** `_analyse_input(input)`, with the two front ends' own exception for an
      unknown command and for an unknown channel: the exact line `quit` ends
      the session; otherwise the line is split at whitespace, its first token
      must be a key of `COMMANDS` (a line without tokens fails at
      `tokens[0]`), and `.get` needs a second token naming a configured
      channel. */
  function Analyse(input: string, channels: Table, unknown: Error, notFound: Error): (r: Result<Selected>)
    ensures r.Err? ==> r.error in {EOFError, IndexError, unknown, notFound}
    ensures r.Ok? ==> !r.value.Base?
  {
    if input == "quit" then Err(EOFError)
    else
      var tokens := Tokens(input);
      if tokens == [] then Err(IndexError)
      else
        var first := tokens[0];
        if first !in COMMANDS then Err(unknown)
        else if first == ".help" then Ok(HelpCmd)
        else if first == ".list" then Ok(ListCmd)
        else if |tokens| < 2 || tokens[1] !in channels then Err(notFound)
        else Ok(GetCmd(channels[tokens[1]].name, channels[tokens[1]].url))
  }

  /** What `_analyse_input` does with each kind of line. */
  lemma AnalyseCases(input: string, channels: Table, unknown: Error, notFound: Error)
    ensures var r, t := Analyse(input, channels, unknown, notFound), Tokens(input);
            && (input == "quit" ==> r == Err(EOFError))
            && (input != "quit" && t == [] ==> r == Err(IndexError))
            && (input != "quit" && t != [] && t[0] !in COMMANDS ==> r == Err(unknown))
            && (r == Ok(HelpCmd) <==> input != "quit" && t != [] && t[0] == ".help")
            && (r == Ok(ListCmd) <==> input != "quit" && t != [] && t[0] == ".list")
            && (r.Ok? && r.value.GetCmd? <==> input != "quit" && |t| >= 2 && t[0] == ".get" && t[1] in channels)
            && (r.Ok? && r.value.GetCmd? ==> r.value == GetCmd(channels[t[1]].name, channels[t[1]].url))
            && (input != "quit" && t != [] && t[0] == ".get" && (|t| < 2 || t[1] !in channels) ==> r == Err(notFound))
            && r != Ok(Base)
  {
  }

  /** Only the exact line `quit` ends a session: `.quit`, or `quit` with a
      blank around it, is an unknown command. */
  lemma AnalyseQuitIsExact(channels: Table, unknown: Error, notFound: Error)
    ensures Analyse("quit", channels, unknown, notFound) == Err(EOFError)
    ensures Analyse(".quit", channels, unknown, notFound) == Err(unknown)
    ensures Analyse("quit ", channels, unknown, notFound) == Err(unknown)
  {
    TokensOfPaddedWord(".quit", "");
    assert ".quit" + "" == ".quit";
    TokensOfPaddedWord("quit", " ");
    assert "quit" + " " == "quit ";
  }

  /** A line of blanks, the empty line included, has no first token. */
  lemma AnalyseBlank(input: string, channels: Table, unknown: Error, notFound: Error)
    requires forall i :: 0 <= i < |input| ==> IsSpace(input[i])
    ensures Analyse(input, channels, unknown, notFound) == Err(IndexError)
  {
    NoTokensIffBlank(input);
  }

  /** Words joined by blanks start with the first word. */
  lemma JoinHead(ts: seq<string>)
    requires |ts| > 1
    ensures |Join(" ", ts)| > |ts[0]|
    ensures Join(" ", ts)[..|ts[0]|] == ts[0]
  {
    assert Join(" ", ts) == ts[0] + (" " + Join(" ", ts[1..]));
  }

  /** A line whose first two tokens are `.get` and a configured code
      selects that channel. */
  lemma AnalyseGetTokens(line: string, code: string, channels: Table, unknown: Error, notFound: Error)
    requires line != "quit" && |Tokens(line)| >= 2 && Tokens(line)[0] == ".get" && Tokens(line)[1] == code
    requires code in channels
    ensures Analyse(line, channels, unknown, notFound) == Ok(GetCmd(channels[code].name, channels[code].url))
  {
  }

  /** The line `.get <code>`, followed by any further words, selects that
      channel, whatever the further words are. */
  lemma AnalyseGet(words: seq<string>, channels: Table, unknown: Error, notFound: Error)
    requires |words| >= 2 && words[0] == ".get" && words[1] in channels
    requires forall i :: 0 <= i < |words| ==> IsWord(words[i])
    ensures Analyse(Join(" ", words), channels, unknown, notFound)
            == Ok(GetCmd(channels[words[1]].name, channels[words[1]].url))
  {
    var line := Join(" ", words);
    assert Tokens(line) == words by {
      TokensOfJoin(words);
    }
    assert line != "quit" by {
      JoinHead(words);
      assert line[0] == '.';
    }
    AnalyseGetTokens(line, words[1], channels, unknown, notFound);
  }

  // ---------------------------------------------------------------------
  // Sessions

  /** One `print` statement, or one string sent to the pager. */
  datatype Output = Printed(text: string) | Paged(text: string)

  /** The state of a session after some lines: still running, with the
      output so far and the command held; or over, with the output and how
      it ended (`Pass` for a normal end, `Fail` for an exception that
      escaped the loop). */
  datatype Trace =
    | Running(out: seq<Output>, selected: Selected)
    | Ended(out: seq<Output>, end: Outcome)

  /** What a front end does with one line when it holds `selected`. */
  type Step = (string, Selected) -> Trace

  /** `t` followed by one more line. */
  function Then(t: Trace, line: string, step: Step): (r: Trace)
    ensures t.Ended? ==> r == t
    ensures t.Running? && step(line, t.selected).Running? ==>
              r == Running(t.out + step(line, t.selected).out, step(line, t.selected).selected)
    ensures t.Running? && step(line, t.selected).Ended? ==>
              r == Ended(t.out + step(line, t.selected).out, step(line, t.selected).end)
  {
    match t
    case Ended(_, _) => t
    case Running(out, sel) =>
      match step(line, sel)
      case Running(o, s) => Running(out + o, s)
      case Ended(o, e) => Ended(out + o, e)
  }

  /** The loop of `run` over `lines`, starting with `start` held. */
  function Steps(lines: seq<string>, start: Selected, step: Step): Trace
  {
    if lines == [] then Running([], start)
    else Then(Steps(lines[..|lines| - 1], start, step), lines[|lines| - 1], step)
  }

  /** The loop after one more line. */
  lemma StepsNext(lines: seq<string>, i: nat, start: Selected, step: Step)
    requires i < |lines|
    ensures Steps(lines[..i + 1], start, step) == Then(Steps(lines[..i], start, step), lines[i], step)
  {
    assert lines[..i + 1][..i] == lines[..i];
  }

  /** Once a session is over, later lines change nothing. */
  lemma {:induction false} StepsAfterEnd(a: seq<string>, b: seq<string>, start: Selected, step: Step)
    requires Steps(a, start, step).Ended?
    ensures Steps(a + b, start, step) == Steps(a, start, step)
    decreases |b|
  {
    if b == [] {
      assert a + b == a;
    } else {
      var b' := b[..|b| - 1];
      assert (a + b)[..|a + b| - 1] == a + b';
      StepsAfterEnd(a, b', start, step);
    }
  }

  /** A line on which the session ends is the last one read. */
  lemma StepsEndOn(before: seq<string>, line: string, after: seq<string>, start: Selected, step: Step)
    requires Steps(before, start, step).Running?
    requires step(line, Steps(before, start, step).selected).Ended?
    ensures Steps(before + [line] + after, start, step)
            == Ended(Steps(before, start, step).out + step(line, Steps(before, start, step).selected).out,
                     step(line, Steps(before, start, step).selected).end)
  {
    var a := before + [line];
    assert a[..|a| - 1] == before;
    StepsAfterEnd(a, after, start, step);
  }

  /** A session that ended on line `i` is the whole session. */
  lemma EndedAt(lines: seq<string>, i: nat, start: Selected, step: Step)
    requires i < |lines|
    requires Steps(lines[..i + 1], start, step).Ended?
    ensures Steps(lines, start, step) == Steps(lines[..i + 1], start, step)
  {
    assert lines == lines[..i + 1] + lines[i + 1..];
    StepsAfterEnd(lines[..i + 1], lines[i + 1..], start, step);
  }

  /** The command a front end holds after a run of lines whose last
      selection was `last`: the one it held before, if no line selected
      any, or otherwise `c`, the one made for that line. */
  function Holding<C>(last: Selected, before: Option<C>, c: C): Option<C>
  {
    if last == Base then before else Some(c)
  }

  /** What a line selects when its analysis succeeds. */
  type Choice = string -> Option<Selected>

  /** The command an analysis selected, if it succeeded. */
  function Chosen(a: Result<Selected>): Option<Selected>
  {
    if a.Ok? then Some(a.value) else None
  }

  /** `step` keeps the command it holds unless `choose` says the line
      selected another one. */
  ghost predicate Retains(step: Step, choose: Choice)
  {
    forall line, sel :: step(line, sel).Running? ==>
      step(line, sel).selected == if choose(line).Some? then choose(line).value else sel
  }

  /** The command selected by the last line that selects one, or `start`
      if there is none. */
  function LastSelected(lines: seq<string>, start: Selected, choose: Choice): Selected
  {
    if lines == [] then start
    else if choose(lines[|lines| - 1]).Some? then choose(lines[|lines| - 1]).value
    else LastSelected(lines[..|lines| - 1], start, choose)
  }

  /** One more line either selects its own command or leaves the last one. */
  lemma LastSelectedNext(lines: seq<string>, i: nat, start: Selected, choose: Choice)
    requires i < |lines|
    ensures LastSelected(lines[..i + 1], start, choose)
            == if choose(lines[i]).Some? then choose(lines[i]).value else LastSelected(lines[..i], start, choose)
  {
    assert lines[..i + 1][..i] == lines[..i];
  }

  /** A running session holds the command of the last line that selected
      one: a line whose analysis fails leaves the previous command in place. */
  lemma {:induction false} StepsRetainLastSelected(lines: seq<string>, start: Selected, step: Step, choose: Choice)
    requires Retains(step, choose)
    requires Steps(lines, start, step).Running?
    ensures Steps(lines, start, step).selected == LastSelected(lines, start, choose)
  {
    if lines != [] {
      var front := lines[..|lines| - 1];
      StepsRetainLastSelected(front, start, step, choose);
    }
  }

  /** `step` ends a run normally only by printing one empty line. */
  ghost predicate EndsQuietly(step: Step)
  {
    forall line, sel :: step(line, sel).Ended? && step(line, sel).end.Pass? ==> step(line, sel).out == [Printed("")]
  }

  /** A loop whose steps end quietly, and that has ended normally, has
      printed an empty line last. */
  lemma {:induction false} StepsEndQuietly(lines: seq<string>, start: Selected, step: Step)
    requires EndsQuietly(step)
    requires Steps(lines, start, step).Ended? && Steps(lines, start, step).end.Pass?
    ensures Steps(lines, start, step).out != []
    ensures Steps(lines, start, step).out[|Steps(lines, start, step).out| - 1] == Printed("")
  {
    var front := lines[..|lines| - 1];
    if Steps(front, start, step).Ended? {
      StepsEndQuietly(front, start, step);
    }
  }

  /** What a whole run leaves behind: the output and how it ended. */
  datatype Transcript = Transcript(out: seq<Output>, end: Outcome)

  /** The banner, then the loop; when the lines run out, `raw_input` raises
      `EOFError`, which prints an empty line and ends the run. */
  function Finish(banner: string, t: Trace): (r: Transcript)
    ensures t.Running? ==> r == Transcript([Printed(banner)] + t.out + [Printed("")], Pass)
    ensures t.Ended? ==> r == Transcript([Printed(banner)] + t.out, t.end)
  {
    match t
    case Running(out, _) => Transcript([Printed(banner)] + out + [Printed("")], Pass)
    case Ended(out, e) => Transcript([Printed(banner)] + out, e)
  }
}
