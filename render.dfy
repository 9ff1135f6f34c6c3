/** What the commands put in their `buffer`, and the text their
    `execute`/`print_output` build from it. The same formats appear in
    clnews/commands.py, clnews/shell.py and console.py; they are defined once
    here. Output that the program pipes through the `less` pager is modelled
    as the string it writes into the pipe. */
module Render {
  import opened Types
  import opened Strings
  import News

  /** A command's `buffer`: `None`, a string, a list of `(code, name)` pairs
      or a list of events. */
  datatype Buffer =
    | NoBuffer
    | Text(text: string)
    | Pairs(pairs: seq<(string, string)>)
    | Events(events: seq<News.Event>)

  // ---------------------------------------------------------------------
  // The channel table of `.list`

  /** The two fixed header lines of the channel table. */
  function ListHeader(): seq<string>
  {
    [Repeat(' ', 5) + "| Name " + Repeat(' ', 15) + "| Code",
     Repeat('-', 5) + "+" + Repeat('-', 21) + "+" + Repeat('-', 20)]
  }

  /** Row `"%5s|%20s | %s" % (str(n), name, code)`. */
  function ListRow(n: nat, code: string, name: string): string
  {
    PadLeft(Decimal(n), 5) + "|" + PadLeft(name, 20) + " | " + code
  }

  /** The rows for `pairs`, numbered from `first` on. */
  function ListRows(pairs: seq<(string, string)>, first: nat): seq<string>
  {
    seq(|pairs|, i requires 0 <= i < |pairs| => ListRow(first + i, pairs[i].0, pairs[i].1))
  }

  /** The lines of the table: the header, then one row per pair, numbered
      from 1. */
  function ListLines(pairs: seq<(string, string)>): seq<string>
  {
    ListHeader() + ListRows(pairs, 1)
  }

  /** `"\n".join(output)` of `print_output`. */
  function ListTable(pairs: seq<(string, string)>): string
  {
    Join("\n", ListLines(pairs))
  }

  /** Whatever the pairs, the table opens with its two header lines. */
  lemma ListTableStartsWithHeader(pairs: seq<(string, string)>)
    ensures ListHeader()[0] + "\n" + ListHeader()[1] <= ListTable(pairs)
  {
    var ls := ListLines(pairs);
    var h := ListHeader();
    assert ls[0] == h[0] && ls[1..][0] == h[1];
    assert h[1] <= Join("\n", ls[1..]);
    assert Join("\n", ls) == h[0] + "\n" + Join("\n", ls[1..]);
  }

  lemma NoNewlineInPadded(s: string, width: nat)
    requires '\n' !in s
    ensures '\n' !in PadLeft(s, width)
  {
    var r := PadLeft(s, width);
    forall i | 0 <= i < |r| ensures r[i] != '\n' {
      if i >= |r| - |s| {
        assert r[i] == r[|r| - |s|..][i - (|r| - |s|)];
      }
    }
  }

  lemma NoNewlineInRow(n: nat, code: string, name: string)
    requires '\n' !in code && '\n' !in name
    ensures '\n' !in ListRow(n, code, name)
  {
    NoNewlineInPadded(Decimal(n), 5);
    NoNewlineInPadded(name, 20);
  }

  lemma NoNewlineInHeader()
    ensures forall i :: 0 <= i < 2 ==> '\n' !in ListHeader()[i]
  {
    assert '\n' !in Repeat(' ', 5) && '\n' !in Repeat(' ', 15);
    assert '\n' !in Repeat('-', 5) && '\n' !in Repeat('-', 21) && '\n' !in Repeat('-', 20);
  }

  /** The table is line-structured: when no code or name holds a newline,
      cutting the table at its newlines gives back exactly the two header
      lines followed by row i+1 for the i-th pair. An empty list yields the
      header alone. */
  lemma ListTableLines(pairs: seq<(string, string)>)
    requires forall i :: 0 <= i < |pairs| ==> '\n' !in pairs[i].0 && '\n' !in pairs[i].1
    ensures SplitOn(ListTable(pairs), '\n') == ListLines(pairs)
    ensures |ListLines(pairs)| == 2 + |pairs|
    ensures ListLines(pairs)[..2] == ListHeader()
    ensures forall i :: 0 <= i < |pairs| ==> ListLines(pairs)[i + 2] == ListRow(i + 1, pairs[i].0, pairs[i].1)
  {
    var ls := ListLines(pairs);
    NoNewlineInHeader();
    forall i | 2 <= i < |ls| ensures '\n' !in ls[i] {
      NoNewlineInRow(i - 1, pairs[i - 2].0, pairs[i - 2].1);
    }
    SplitOnJoin(ls, '\n');
  }

  /** `print_output` of `.list` for whatever the buffer holds. `enumerate`
      of `None` raises `TypeError`, which the command reports as its own
      `outputError`; unpacking a character of a non-empty string raises
      `ValueError`, and unpacking an event `TypeError`. */
  function RenderList(buffer: Buffer, outputError: Error): (r: Result<string>)
    ensures buffer.Pairs? ==> r == Ok(ListTable(buffer.pairs))
    ensures buffer == Text("") || buffer == Events([]) ==> r == Ok(ListTable([]))
    ensures buffer.NoBuffer? ==> r == Err(outputError)
  {
    match buffer
    case NoBuffer => Err(outputError)
    case Text(s) => if s == "" then Ok(ListTable([])) else Err(ValueError)
    case Pairs(pairs) => Ok(ListTable(pairs))
    case Events(events) => if events == [] then Ok(ListTable([])) else Err(outputError)
  }

  // ---------------------------------------------------------------------
  // The events of `.get`

  /** The colorama escape sequences `print_output` writes around the fields. */
  const FORE_WHITE := "\U{1B}[37m"
  const FORE_MAGENTA := "\U{1B}[35m"
  const FORE_YELLOW := "\U{1B}[33m"
  const STYLE_BRIGHT := "\U{1B}[1m"
  const STYLE_DIM := "\U{1B}[2m"
  const STYLE_NORMAL := "\U{1B}[22m"
  /** `Fore.RESET + Back.RESET + Style.RESET_ALL`. */
  const RESET_ALL := "\U{1B}[39m" + "\U{1B}[49m" + "\U{1B}[0m"

  /** Block `"%3s. %s, %s\n     %s\n     %s\n"` for the n-th event, each
      field behind its colour. */
  function EventBlock(n: nat, e: News.Event): (r: string)
    ensures |r| > |e.summary|
    ensures r[|r| - |e.summary| - 1..] == e.summary + "\n"
  {
    PadLeft(FORE_WHITE + STYLE_BRIGHT + Decimal(n), 3) + ". " + e.title + ", " + FORE_MAGENTA + e.date
    + "\n     " + FORE_WHITE + STYLE_DIM + e.url
    + "\n     " + FORE_YELLOW + STYLE_NORMAL + e.summary + "\n"
  }

  /** The blocks for `events`, numbered from `first` on. */
  function EventBlocks(events: seq<News.Event>, first: nat): seq<string>
  {
    seq(|events|, i requires 0 <= i < |events| => EventBlock(first + i, events[i]))
  }

  /** The lines of one block: the numbered title with the date, the URL, the
      summary, and the empty line after the block's closing newline. */
  function EventLines(n: nat, e: News.Event): seq<string>
  {
    [PadLeft(FORE_WHITE + STYLE_BRIGHT + Decimal(n), 3) + ". " + e.title + ", " + FORE_MAGENTA + e.date,
     "     " + FORE_WHITE + STYLE_DIM + e.url,
     "     " + FORE_YELLOW + STYLE_NORMAL + e.summary,
     ""]
  }

  /** The lines of the blocks for `events`, numbered from `first` on. */
  function EventsLines(events: seq<News.Event>, first: nat): (r: seq<string>)
    ensures |r| == 4 * |events|
  {
    if events == [] then [] else EventLines(first, events[0]) + EventsLines(events[1..], first + 1)
  }

  /** A block is its four lines joined by newlines. */
  lemma EventBlockIsLines(n: nat, e: News.Event)
    ensures EventBlock(n, e) == Join("\n", EventLines(n, e))
  {
    var head := PadLeft(FORE_WHITE + STYLE_BRIGHT + Decimal(n), 3) + ". " + e.title + ", " + FORE_MAGENTA + e.date;
    IndentedLines(head, FORE_WHITE, STYLE_DIM, e.url, FORE_YELLOW, STYLE_NORMAL, e.summary);
  }

  /** The layout of one block, on any strings: a head line and two lines
      indented by five spaces, each ending in a newline. */
  lemma IndentedLines(head: string, c1: string, s1: string, a: string, c2: string, s2: string, b: string)
    ensures head + "\n     " + c1 + s1 + a + "\n     " + c2 + s2 + b + "\n"
            == Join("\n", [head, "     " + c1 + s1 + a, "     " + c2 + s2 + b, ""])
  {
    var l1 := "     " + c1 + s1 + a;
    var l2 := "     " + c2 + s2 + b;
    assert [l2, ""][1..] == [""];
    assert Join("\n", [l2, ""]) == l2 + "\n" + "";
    assert [l1, l2, ""][1..] == [l2, ""];
    assert Join("\n", [l1, l2, ""]) == l1 + "\n" + (l2 + "\n" + "");
    assert [head, l1, l2, ""][1..] == [l1, l2, ""];
    assert Join("\n", [head, l1, l2, ""]) == head + "\n" + (l1 + "\n" + (l2 + "\n" + ""));
    assert head + "\n     " + c1 + s1 + a == head + "\n" + l1;
    assert head + "\n     " + c1 + s1 + a + "\n     " + c2 + s2 + b == head + "\n" + l1 + "\n" + l2;
  }

  /** The i-th event owns lines 4i to 4i+3, and carries the number
      `first + i`. */
  lemma {:induction false} EventsLinesAt(events: seq<News.Event>, first: nat, i: nat)
    requires i < |events|
    ensures EventsLines(events, first)[4 * i .. 4 * i + 4] == EventLines(first + i, events[i])
  {
    if i > 0 {
      EventsLinesAt(events[1..], first + 1, i - 1);
      var head := EventLines(first, events[0]);
      assert EventsLines(events, first)[4 * i .. 4 * i + 4] == EventsLines(events[1..], first + 1)[4 * (i - 1) .. 4 * (i - 1) + 4];
    }
  }

  /** Joining the blocks is joining all their lines. */
  lemma {:induction false} EventBlocksAreLines(events: seq<News.Event>, first: nat)
    requires events != []
    ensures Join("\n", EventBlocks(events, first)) == Join("\n", EventsLines(events, first))
  {
    var blocks := EventBlocks(events, first);
    EventBlockIsLines(first, events[0]);
    if |events| == 1 {
      assert EventsLines(events, first) == EventLines(first, events[0]);
    } else {
      var rest := events[1..];
      assert blocks == [EventBlock(first, events[0])] + EventBlocks(rest, first + 1);
      EventBlocksAreLines(rest, first + 1);
      JoinGlue("\n", EventBlock(first, events[0]), EventLines(first, events[0]),
               EventBlocks(rest, first + 1), EventsLines(rest, first + 1));
    }
  }

  lemma NoNewlineInEventLines(n: nat, e: News.Event)
    requires '\n' !in e.title && '\n' !in e.date && '\n' !in e.url && '\n' !in e.summary
    ensures forall k :: 0 <= k < 4 ==> '\n' !in EventLines(n, e)[k]
  {
    assert '\n' !in FORE_WHITE + STYLE_BRIGHT + Decimal(n);
    NoNewlineInPadded(FORE_WHITE + STYLE_BRIGHT + Decimal(n), 3);
    assert '\n' !in FORE_MAGENTA && '\n' !in FORE_WHITE + STYLE_DIM && '\n' !in FORE_YELLOW + STYLE_NORMAL;
  }

  /** `print_output` of `.get` for whatever the buffer holds: the blocks of
      the events, numbered from 1, joined by newlines. A pair or a character
      has no `title` attribute (`AttributeError`); `enumerate(None)` raises
      `TypeError`, reported as the command's `outputError`. */
  function RenderEvents(buffer: Buffer, outputError: Error): (r: Result<string>)
    ensures buffer.Events? ==> r == Ok(Join("\n", EventBlocks(buffer.events, 1)))
    ensures buffer.NoBuffer? ==> r == Err(outputError)
  {
    match buffer
    case NoBuffer => Err(outputError)
    case Text(s) => if s == "" then Ok("") else Err(AttributeError)
    case Pairs(pairs) => if pairs == [] then Ok("") else Err(AttributeError)
    case Events(events) => Ok(Join("\n", EventBlocks(events, 1)))
  }

  lemma {:induction false} NoNewlineInEventsLines(events: seq<News.Event>, first: nat)
    requires forall i :: 0 <= i < |events| ==>
               '\n' !in events[i].title && '\n' !in events[i].date && '\n' !in events[i].url && '\n' !in events[i].summary
    ensures forall j :: 0 <= j < |EventsLines(events, first)| ==> '\n' !in EventsLines(events, first)[j]
  {
    if events != [] {
      NoNewlineInEventLines(first, events[0]);
      NoNewlineInEventsLines(events[1..], first + 1);
      var head, tail := EventLines(first, events[0]), EventsLines(events[1..], first + 1);
      assert EventsLines(events, first) == head + tail;
      forall j | 0 <= j < |head + tail| ensures '\n' !in (head + tail)[j] {
        if j >= 4 { assert (head + tail)[j] == tail[j - 4]; }
      }
    }
  }

  /** The text of `.get` is line-structured: when no field of an event holds
      a newline, cutting it at its newlines gives four lines per event, in
      event order: the title and date behind the number i+1, the URL, the
      summary, and an empty line. No events give the empty text. */
  lemma RenderEventsLines(events: seq<News.Event>, outputError: Error)
    requires forall i :: 0 <= i < |events| ==>
               '\n' !in events[i].title && '\n' !in events[i].date && '\n' !in events[i].url && '\n' !in events[i].summary
    ensures events == [] ==> RenderEvents(Events(events), outputError) == Ok("")
    ensures events != [] ==> SplitOn(RenderEvents(Events(events), outputError).value, '\n') == EventsLines(events, 1)
    ensures |EventsLines(events, 1)| == 4 * |events|
    ensures forall i :: 0 <= i < |events| ==> EventsLines(events, 1)[4 * i .. 4 * i + 4] == EventLines(i + 1, events[i])
  {
    var ls := EventsLines(events, 1);
    forall i | 0 <= i < |events| ensures ls[4 * i .. 4 * i + 4] == EventLines(i + 1, events[i]) {
      EventsLinesAt(events, 1, i);
    }
    if events != [] {
      EventBlocksAreLines(events, 1);
      NoNewlineInEventsLines(events, 1);
      SplitOnJoin(ls, '\n');
    }
  }

  // ---------------------------------------------------------------------
  // The help text of `.help`

  /** Line `"\t%10s\t%s\n" % (name, description)`. */
  function HelpLine(entry: (string, string)): string
  {
    "\t" + PadLeft(entry.0, 10) + "\t" + entry.1 + "\n"
  }

  /** The help lines of `entries`, in order. */
  function HelpLines(entries: seq<(string, string)>): string
  {
    ConcatMap(entries, HelpLine)
  }

  /** The two header lines: `"<title> %s \n\n" % version` and `"Options:\n"`. */
  function HelpHeader(title: string, version: string): string
  {
    title + " " + version + " \n\n" + "Options:\n"
  }

  /** The whole help buffer: header, one line per entry, a closing newline. */
  function HelpText(title: string, version: string, entries: seq<(string, string)>): string
  {
    HelpHeader(title, version) + HelpLines(entries) + "\n"
  }

  /** The help text opens with its header and closes with a newline. */
  lemma HelpTextFrame(title: string, version: string, entries: seq<(string, string)>)
    ensures HelpHeader(title, version) <= HelpText(title, version, entries)
    ensures HelpText(title, version, entries)[|HelpText(title, version, entries)| - 1] == '\n'
  {
    var h := HelpHeader(title, version);
    assert HelpText(title, version, entries)[..|h|] == h;
  }

  /** The loop of `execute` that appends one line per registered command to
      the buffer. The result depends on nothing but its arguments, so
      running it twice gives the same text. */
  method BuildHelp(title: string, version: string, entries: seq<(string, string)>) returns (buffer: string)
    ensures buffer == HelpText(title, version, entries)
  {
    buffer := HelpHeader(title, version);
    for i := 0 to |entries|
      invariant buffer == HelpHeader(title, version) + HelpLines(entries[..i])
    {
      ConcatMapGrow(entries, i, HelpLine);
      buffer := buffer + HelpLine(entries[i]);
    }
    assert entries[..|entries|] == entries;
    buffer := buffer + "\n";
  }

  /** Every registered command gets its own line in the help text, at the
      place its position in the registration order gives it. */
  lemma {:induction false} HelpListsEntry(entries: seq<(string, string)>, i: nat)
    requires i < |entries|
    ensures HelpLines(entries)
            == HelpLines(entries[..i]) + HelpLine(entries[i]) + HelpLines(entries[i + 1..])
  {
    var front, mid, back := entries[..i], [entries[i]], entries[i + 1..];
    assert entries == front + mid + back;
    ConcatMapAppend3(front, mid, back, HelpLine);
    ConcatMapSingle(entries[i], HelpLine);
  }
}
