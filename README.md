# clnews in Dafny

clnews is a small command-line news reader written in Python 2. This project
models its core:

- **Markup.** `remove_html` strips `<...>` tags from a feed summary.
- **Feeds.** `clnews/news.py` and its older copy `news.py` fetch a feed, check
  its HTTP status and turn its entries into events.
- **Commands.** The command set of `clnews/commands.py`:
  - `.help`, `.list`, `.get`, `.add`, `.quit` and `get_command_by_input`;
  - `.remove`, modelled from its tests;
  - the process-wide channel document all of them share.
- **Front ends.** The interactive loops of `clnews/shell.py` and `console.py`:
  - input analysis, the command each holds, and what each prints;
  - which errors they catch and which end the session.
- **Navigation.** The keyboard handling of the terminal interface in
  `clnews/ui.py`.

The modules follow the program:

| module | file | models |
|---|---|---|
| `Types` | `types.dfy` | `Option`, `Result`, `Outcome` and one `Error` constructor per exception class used. |
| `Strings` | `strings.dfy` | The parts of Python 2 string handling the program relies on: `"%Ns"`, `str(n)`, `join`, `split`. |
| `Maps` | `maps.dfy` | Dictionary iteration in an order the program may not rely on. |
| `Channels` | `channels.dfy` | The channel table and the `(code, name)` pairs `.list` builds from it. |
| `Markup` | `markup.dfy` | `remove_html`. |
| `News` | `news.dfy` | `clnews/news.py`. |
| `LegacyNews` | `legacy_news.dfy` | `news.py`. |
| `Render` | `render.dfy` | The buffers of the commands and the text built from them. |
| `Commands` | `commands.dfy` | `clnews/commands.py`. |
| `Frontend` | `frontend.dfy` | What both loops share: `COMMANDS`, the configuration, `_analyse_input`, a session as a fold over the input lines. |
| `Shell` | `shell.dfy` | `clnews/shell.py`. |
| `Console` | `console.dfy` | `console.py`. |
| `Ui` | `ui.dfy` | `clnews/ui.py`. |

State the Python code updates in place is a Dafny `class`:

- `Command.data` and the data file are the `Registry` class.
- Each command keeps the result of its last `execute` in its own `buffer`.
- Feed channels store their `events`.
- The shell and the console hold a `command`.
- A list box holds its `focus`.

Each method is proved against a function of its inputs and old state.
Properties of those functions are proved as lemmas.

A session of the shell or the console is modelled as follows:

- **Input.** The sequence of lines typed.
- **Output.** What the program writes is a sequence of `Output` values:
  - `Printed` for each `print` statement;
  - `Paged` for each string piped to `less`.
- **Result.** The session ends normally (`Pass`) or with an exception that
  escapes the loop (`Fail`).

The methods `Shell.Shell.Run` and `Console.Console.Run` execute the loop with
real command objects. They are proved equal to `Session`, a fold (`Steps`) of
one pure step function over the lines. Each loop is proved against `Trail`,
the same fold with the front end's own step written in (`TrailIsSteps`), one
line at a time (`Advance`).

## Model

| member | source | states |
|---|---|---|
| `Strings.Repeat` | clnews/commands.py:109-110 | `n * c` has length n and every character is c |
| `Strings.PadLeft` | clnews/commands.py:111 | `"%Ns" % s` has length max(N, \|s\|), ends with s and is blank before it |
| `Strings.Decimal` | clnews/commands.py:111 | `str(n)` is a non-empty string of digits whose value is n |
| `Strings.SplitOnJoin` | clnews/commands.py:115 | splitting `"\n".join(lines)` at newlines gives the lines back when none holds a newline |
| `Strings.TokensKeepNonSpace` | clnews/shell.py:227 | `split()` loses exactly the whitespace: its tokens put together are the line's non-blank characters |
| `Strings.NoTokensIffBlank` | clnews/shell.py:227-228 | `split()` gives no token exactly when the line is all whitespace |
| `Strings.TokensOfJoin` | clnews/shell.py:227 | `split()` of words joined by blanks gives back the words |
| `Strings.TokensOfPaddedWord` | clnews/shell.py:224-227 | a word followed only by whitespace splits into that word alone |
| `Strings.Tokens` | clnews/shell.py:227 | every token of `split()` is a non-empty run of non-whitespace characters |
| `Strings.JoinAppend` | clnews/commands.py:115 | joining two non-empty lists puts one separator between the two joins |
| `Maps.Keys` | clnews/commands.py:96-98 | `keys()` lists every key of the dictionary exactly once, in an unspecified order |
| `Channels.PairsOf` | clnews/commands.py:96-98 | one `(key, name)` pair per key, in key order |
| `Channels.PairsOfEnumeration` | clnews/commands.py:96-98 | the pairs built from any iteration order list every channel exactly once with its name |
| `Channels.Known` | clnews/shell.py:127-129 | never more keys than the order lists, and each one held by the dictionary |
| `Channels.KnownMembers` | clnews/shell.py:127-129 | a key is kept exactly when the order lists it and the dictionary holds it |
| `Channels.KnownCons` | clnews/shell.py:127-129 | the first key of the order comes first in the result if the dictionary holds it, and is dropped otherwise |
| `Channels.KnownAppend` | clnews/shell.py:127-129 | filtering an order in two parts is filtering each part, so the kept keys stay in the order given |
| `Channels.KnownOfEnumeration` | clnews/shell.py:127-129 | an iteration order of the dictionary is kept whole |
| `Markup.Close` | clnews/utils.py:12 | where the lazy `.*?>` match ends: the first `>`, provided no newline comes before it, else none |
| `Markup.RemoveHtml` | clnews/utils.py:11-15 | the result is never longer than the input |
| `Markup.ScanTag` | clnews/utils.py:12-14 | a tag the scan cuts off holds no `>` and no newline and is followed by the rest of the text |
| `Markup.ScanDecomposes` | clnews/utils.py:12-14 | every text is cut by the left-to-right scan into kept characters and tags, leftmost and shortest |
| `Markup.RemoveHtmlIsVisible` | clnews/utils.py:12-14 | stripping a text cut into leftmost pieces leaves exactly the kept characters |
| `Markup.RemoveHtmlKeepsVisible` | clnews/utils.py:11-15 | `remove_html` deletes exactly the tags of the scan and keeps every other character in order |
| `Markup.RemoveHtmlKeepsChar` | clnews/utils.py:12-14 | a character that does not open a tag is kept and the scan resumes after it |
| `Markup.CloseAfterBody` | clnews/utils.py:12 | a tag body without `>` and newline ends at the `>` after it |
| `Markup.TaglessMeans` | clnews/utils.py:12 | a text is tag-free exactly when a newline separates every `<` from every later `>` |
| `Markup.CloseNoneKept` | clnews/utils.py:12-14 | stripping cannot create a closing `>` where the input had none before its first newline |
| `Markup.RemoveHtmlTagless` | clnews/utils.py:11-15 | no tag survives stripping |
| `Markup.TaglessUnchanged` | clnews/utils.py:11-15 | a tag-free text is returned unchanged |
| `Markup.TagShortens` | clnews/utils.py:11-15 | a text holding a tag comes back strictly shorter |
| `Markup.RemoveHtmlFixedIffTagless` | clnews/utils.py:11-15 | the text is unchanged exactly when it holds no tag (both directions) |
| `Markup.RemoveHtmlIdempotent` | clnews/utils.py:11-15 | stripping twice is stripping once |
| `Markup.RemoveHtmlWithoutOpen` | clnews/utils.py:11-15 | a text without `<` is returned unchanged |
| `Markup.RemoveHtmlDropsTag` | clnews/utils.py:12-14 | a leading tag is deleted whole |
| `Markup.RemoveHtmlKeepsPlain` | clnews/utils.py:12-14 | a leading text without `<` is kept as it is |
| `Markup.RemoveHtmlExample` | clnews/test/tests.py:21-24 | the summary of the unit test loses its `div` and `img` tags and keeps `test test test` |
| `News.NewEvent` | clnews/news.py:9-13 | an event keeps its title, URL and date, and its summary is never longer than the one given |
| `News.NewEventFields` | clnews/news.py:9-19 | an event keeps title, URL and date, its summary holds no tag, a tag-free summary is kept verbatim, and the default summary is empty |
| `News.Repr` | clnews/news.py:21-22 | `repr` is the title, `", "`, then the URL |
| `News.GetData` | clnews/news.py:31-41 | status 200 yields the entries, 404 raises `ChannelDataNotFound`, any other status `ChannelServerError` |
| `News.ToEvents` | clnews/news.py:46-51 | one event per entry in entry order, or `TypeError` exactly when some summary is not text |
| `News.Retrieve` | clnews/news.py:43-53 | the events of a 200 answer with text summaries, else the status error, else `ChannelRetrieveEventsError` |
| `News.Channel.constructor` | clnews/news.py:26-29 | a channel starts with its name, its URL and no events |
| `News.Channel.GetEvents` | clnews/news.py:43-53 | returns `Retrieve` of the parsed URL, stores the events on success and keeps the old ones on failure |
| `LegacyNews.NewEvent` | news.py:8-12 | an event keeps all four fields verbatim, and equals the newer version's event exactly when the summary holds no tag |
| `LegacyNews.ToEvents` | news.py:39-42 | one event per entry with title, link and date verbatim and an empty summary |
| `LegacyNews.Retrieve` | news.py:24-46 | succeeds exactly on status 200 with every entry mapped, else the status error |
| `LegacyNews.RetrieveVersionsAgree` | news.py:36-46 | where the newer version succeeds the older one does too, with the same events but empty summaries |
| `LegacyNews.Channel.constructor` | news.py:19-22 | a channel starts with its name, its URL and no events |
| `LegacyNews.Channel.GetEvents` | news.py:36-46 | returns `Retrieve` of the parsed URL and stores the events on success |
| `Render.ListTableStartsWithHeader` | clnews/commands.py:108-115 | whatever the pairs, the table opens with the two header lines |
| `Render.ListTableLines` | clnews/commands.py:108-115 | the table splits back into the two header lines and row i+1 for the i-th pair |
| `Render.RenderList` | clnews/commands.py:100-118 | a pair list renders as its table, an empty buffer as the header alone, `None` as `CommandOutputError` |
| `Render.RenderEvents` | clnews/commands.py:159-181 | a list of events renders as the blocks joined by newlines, `None` as `CommandOutputError` |
| `Render.EventBlock` | clnews/commands.py:168-172 | a block ends with the event's summary and a newline |
| `Render.EventsLines` | clnews/commands.py:166-175 | four lines per event |
| `Render.EventBlockIsLines` | clnews/commands.py:168-172 | a block is its head line, the indented URL line, the indented summary line and an empty line, joined by newlines |
| `Render.EventsLinesAt` | clnews/commands.py:166-175 | the i-th event owns lines 4i to 4i+3, numbered `first + i` |
| `Render.EventBlocksAreLines` | clnews/commands.py:175 | joining the blocks by newlines is joining all their lines |
| `Render.RenderEventsLines` | clnews/commands.py:159-181 | when no field holds a newline, cutting the rendered text at its newlines gives four lines per event in order, the i-th event's lines numbered i+1 with its title, date, URL and summary; no events render as the empty string |
| `Render.BuildHelp` | clnews/commands.py:72-77 | the loop leaves the header, one line per entry in order, and a closing newline |
| `Render.HelpTextFrame` | clnews/commands.py:72-77 | the help text opens with its header and ends with a newline |
| `Render.HelpListsEntry` | clnews/commands.py:75-76 | the i-th command's line sits between the lines of the commands before and after it |
| `Commands.Loaded` | clnews/commands.py:38-39 | the shared document is loaded from the file only while it is falsy |
| `Commands.CommandsData` | clnews/commands.py:41-44 | `(name, description)` of each registered command, in definition order |
| `Commands.NamesDistinct` | clnews/commands.py:57-202 | no two registered commands share a name |
| `Commands.Find` | clnews/commands.py:228-230 | the class found carries the name asked for, and no class is found only when none carries it |
| `Commands.Resolve` | clnews/commands.py:225-232 | empty input is `IndexError`, an unknown name `None`, arguments to a known command `TypeError`, a registered name alone its command (each an iff) |
| `Commands.ResolveByName` | clnews/commands.py:225-232 | every registered command is selected by its name |
| `Commands.GetCommandByInput` | clnews/commands.py:225-232 | agrees with `Resolve`; a found command is fresh with an empty buffer and the document loaded |
| `Commands.Registry.constructor` | clnews/commands.py:30 | the shared document starts unset |
| `Commands.Command.constructor` | clnews/commands.py:32-39 | an empty buffer, and the shared document loaded from the file if it was falsy |
| `Commands.GetResult` | clnews/commands.py:130-157 | the error checks in source order, then the stored URL's events; `ChannelRetrieveEventsError` becomes `CommandOutputError` |
| `Commands.GetOnNoChannels` | clnews/commands.py:139-147 | a document with no channels reports the code as not found, and only a falsy one reports the list as empty |
| `Commands.AddResult` | clnews/commands.py:205-222 | exactly three arguments, then an accepted URL, then the channel is set and every other channel is kept |
| `Commands.AddOverwrites` | clnews/commands.py:219-220 | adding an existing code replaces its entry and keeps the number of channels |
| `Commands.GetAfterAdd` | clnews/commands.py:145-155 | after a successful add, `.get` of the code fetches the URL just added |
| `Commands.FirstMissing` | clnews/test/tests.py:180-182 | the first listed code that is not a channel, none exactly when all are |
| `Commands.Without` | clnews/test/tests.py:184-186 | the channels minus the listed codes, the others with their entries |
| `Commands.RemoveResult` | clnews/test/tests.py:156-189 | no argument fails, `*` empties the channels, an unknown code fails the whole call naming the first unknown code, else all listed codes go |
| `Commands.RemoveOne` | clnews/test/tests.py:184-186 | removing a known code drops it and keeps the rest |
| `Commands.RemoveRefusesUnknown` | clnews/test/tests.py:180-182 | a list holding an unknown code is refused |
| `Commands.Command.ExecuteHelp` | clnews/commands.py:66-77 | the buffer holds the help text over the registered commands |
| `Commands.Command.ExecuteList` | clnews/commands.py:89-98 | `''` for a falsy document, else a pair list naming every channel once |
| `Commands.Command.ExecuteGet` | clnews/commands.py:130-157 | outcome as `GetResult`; the buffer holds the events on success and is unchanged otherwise |
| `Commands.Command.ExecuteAdd` | clnews/commands.py:205-222 | outcome as `AddResult`; on success document and file hold the new channels and the buffer the confirmation, on failure nothing changes |
| `Commands.Command.ExecuteRemove` | clnews/test/tests.py:156-189 | outcome as `RemoveResult`; on success document and file hold the remaining channels, on failure nothing changes |
| `Commands.Command.Execute` | clnews/commands.py:47-50 | dispatch by kind with each command's outcome, buffer, document and file as its own `execute` gives them; only `.add` and `.remove` touch the document or the file; `Quit` inherits `NotImplementedError` and changes nothing |
| `Commands.Command.Output` | clnews/commands.py:52-54 | `List` and `Get` render their buffer for the pager, the others print it as it is, `None` for an empty buffer |
| `Frontend.HelpEntriesComplete` | clnews/shell.py:102-103 | the help text lists each of the three commands exactly once |
| `Frontend.ListPairsComplete` | clnews/shell.py:127-129 | the `.list` buffer names every configured channel exactly once |
| `Frontend.Analyse` | clnews/shell.py:222-249 | an analysis fails only with `EOFError`, `IndexError` or the front end's two errors, and never selects the base command |
| `Frontend.AnalyseCases` | clnews/shell.py:222-249 | `quit` is `EOFError`, no token `IndexError`, an unknown first token its error, `.help`/`.list`/`.get <code>` their commands (iff), a bad `.get` the not-found error |
| `Frontend.AnalyseQuitIsExact` | clnews/shell.py:224-225 | only the exact line `quit` ends the loop; `.quit` and `quit ` are unknown commands |
| `Frontend.AnalyseBlank` | clnews/shell.py:227-228 | a line of blanks fails at `tokens[0]` |
| `Frontend.AnalyseGetTokens` | clnews/shell.py:239-247 | `.get` with a configured code selects that channel's name and URL |
| `Frontend.AnalyseGet` | clnews/shell.py:239-247 | the line `.get <code> ...` selects the channel, whatever words follow |
| `Frontend.Then` | clnews/shell.py:256-275 | an ended session ignores further lines; a running one appends the line's output |
| `Frontend.StepsAfterEnd` | clnews/shell.py:261-263 | after the loop is left, later lines change nothing |
| `Frontend.StepsEndOn` | clnews/shell.py:261-263 | the line on which a session ends is the last one read |
| `Frontend.StepsRetainLastSelected` | clnews/shell.py:259-260 | a running session holds the command of the last line that selected one |
| `Frontend.Finish` | clnews/shell.py:254-263 | the banner, then the loop's output; input that runs out ends like `quit` |
| `Frontend.StepsNext` | clnews/shell.py:256-275 | the loop over one more line is one more step after the loop so far |
| `Frontend.LastSelectedNext` | clnews/shell.py:259-260 | one more line either selects its own command or leaves the last one |
| `Frontend.StepsEndQuietly` | clnews/shell.py:261-263 | when the only normal exit prints an empty line, a session that ends normally has printed an empty line last |
| `Shell.Executed` | clnews/shell.py:171-185 | `.get` succeeds exactly when retrieval does and holds its events; `ChannelRetrieveEventsError` becomes the output error |
| `Shell.Printout` | clnews/shell.py:106-208 | nothing for the base command, the help text printed, the table and the event blocks paged |
| `Shell.Perform` | clnews/shell.py:269-275 | execute then print: an exception that escapes leaves the notices as the output and is never the caught output error |
| `Shell.React` | clnews/shell.py:257-268 | the loop is left normally exactly on `EOFError`, printing one empty line; the two caught analysis errors never end it |
| `Shell.QuietStep` | clnews/shell.py:261-263 | an iteration that leaves the loop normally prints exactly one empty line |
| `Shell.Session` | clnews/shell.py:251-275 | a session opens with the banner and, when it ends normally, closes with an empty line |
| `Shell.QuietEnd` | clnews/shell.py:261-263 | a loop that ends normally has printed an empty line last |
| `Shell.ShellChoosesCommand` | clnews/shell.py:259-260 | a line that selects a command never selects the base command |
| `Shell.TrailIsSteps` | clnews/shell.py:256-275 | the shell's loop written out line by line is the fold `Steps` of its step |
| `Shell.LastChosenIsLastSelected` | clnews/shell.py:259-260 | the shell's last selection written out line by line is `LastSelected` of its choice |
| `Shell.PerformKeeps` | clnews/shell.py:269-275 | executing and printing never change the command held |
| `Shell.ReactKeeps` | clnews/shell.py:257-268 | a successful analysis installs its command, a caught error keeps the old one |
| `Shell.StepOnKeeps` | clnews/shell.py:256-275 | each iteration that goes on holds the command the line selected, or the old one |
| `Shell.ShellRetains` | clnews/shell.py:256-275 | the shell's step keeps its command unless the line selects one |
| `Shell.ShellHoldsLastSelected` | clnews/shell.py:255-275 | while running, the shell executes the command of the last selecting line |
| `Shell.QuitStep` | clnews/shell.py:261-263 | `quit` prints an empty line and leaves the loop normally |
| `Shell.ShellQuit` | clnews/shell.py:254-263 | a session with `quit` ends there and ignores the lines after it |
| `Shell.ShellBlankLineCrashes` | clnews/shell.py:259-260 | the empty line is skipped but a line of blanks gets past the guard and crashes with `IndexError` |
| `Shell.ShellUnknownRepeatsHelp` | clnews/shell.py:264-271 | an unknown command prints its notice and then runs the held help again |
| `Shell.ShellCommand.constructor` | clnews/shell.py:64-74 | a command starts with an empty buffer |
| `Shell.ShellCommand.Execute` | clnews/shell.py:93-185 | outcome as `Executed`; the buffer changes only on success |
| `Shell.Shell.constructor` | clnews/shell.py:214-217 | the shell starts without a command |
| `Shell.Shell.AnalyseInput` | clnews/shell.py:222-249 | a fresh command exactly when `Analyse` succeeds, else its error with the held command unchanged |
| `Shell.Shell.PerformWith` | clnews/shell.py:269-275 | execute then print, equal to `Perform` |
| `Shell.Shell.Iterate` | clnews/shell.py:257-275 | one iteration, equal to `StepOn`, holding the selected command afterwards |
| `Shell.Shell.Advance` | clnews/shell.py:256-275 | one turn of the loop extends the trace by the line's step and keeps `command` on the last selection |
| `Shell.Shell.Loop` | clnews/shell.py:256-275 | the loop yields the trace of the lines typed, holding the command of the last selecting line |
| `Shell.Shell.Run` | clnews/shell.py:251-275 | the whole loop over the lines typed equals `Session`; when the input runs out, `command` holds a fresh command for the last line that selected one, or is as it was |
| `Console.Numbered` | console.py:68-69 | one output per element, the i-th built from i and the element |
| `Console.ListShowsEveryChannel` | console.py:59-69 | the channel list prints one line per configured channel, and each channel's line is among them |
| `Console.Executed` | console.py:80-89 | `.get` holds the events on success; any retrieval error reaches a handler that names an undefined class, so `NameError` is raised |
| `Console.Printout` | console.py:49-103 | the help text printed, a line per pair, the event blocks and the colour reset; a text buffer of `.get` printed as it is, a case no run reaches because every retrieval error raises `NameError` |
| `Console.EmptyLineCrashes` | console.py:153-154 | without a guard, the empty line and any blank line crash the loop with `IndexError` |
| `Console.FailedFeedEndsRun` | console.py:84-89 | a feed answering with an error status ends the session with `NameError` |
| `Console.FeedPrintsEveryEntry` | console.py:91-101 | a feed that answers prints one block per entry, then the colour reset |
| `Console.Perform` | console.py:164-165 | execute then print: an exception that escapes leaves the notices as the output |
| `Console.React` | console.py:152-162 | the loop is left normally exactly on `EOFError`, printing one empty line; the two caught analysis errors never end it |
| `Console.QuietStep` | console.py:155-157 | an iteration that exits normally prints exactly one empty line |
| `Console.Session` | console.py:145-165 | a session opens with the banner and, when it ends normally, closes with an empty line |
| `Console.QuietEnd` | console.py:155-157 | a loop that ends normally has printed an empty line last |
| `Console.ConsoleChoosesCommand` | console.py:154 | a line that selects a command never selects the base command |
| `Console.TrailIsSteps` | console.py:151-165 | the console's loop written out line by line is the fold `Steps` of its step |
| `Console.LastChosenIsLastSelected` | console.py:154 | the console's last selection written out line by line is `LastSelected` of its choice |
| `Console.PerformKeeps` | console.py:164-165 | executing and printing never change the command held |
| `Console.ReactKeeps` | console.py:152-162 | a successful analysis installs its command, a caught error keeps the old one |
| `Console.ConsoleRetains` | console.py:151-165 | the console's step keeps its command unless the line selects one |
| `Console.ConsoleHoldsLastSelected` | console.py:150-165 | while running, the console executes the command of the last selecting line |
| `Console.QuitStep` | console.py:155-157 | `quit` prints an empty line and exits normally |
| `Console.ConsoleQuit` | console.py:149-157 | a session with `quit` ends there and ignores the lines after it |
| `Console.ConsoleCommand.constructor` | console.py:19-22 | a command starts with an empty buffer |
| `Console.ConsoleCommand.Execute` | console.py:37-89 | outcome as `Executed`; the buffer changes only on success |
| `Console.ConsoleCommand.PrintOutput` | console.py:49-103 | the lines printed equal `Printout` of the buffer |
| `Console.ListOutputGrows` | console.py:68-69 | each turn of the loop adds the line of the next pair |
| `Console.PrintList` | console.py:67-69 | the loop prints `ListOutput` of the pairs |
| `Console.PrintEvents` | console.py:92-101 | the loop prints one block per event, then the colour reset |
| `Console.Console.constructor` | console.py:107-109 | the console starts without a command |
| `Console.Console.AnalyseInput` | console.py:114-143 | a fresh command exactly when `Analyse` succeeds, else its error with the held command unchanged |
| `Console.Console.PerformWith` | console.py:164-165 | execute then print, equal to `Perform` |
| `Console.Console.Iterate` | console.py:152-165 | one iteration, equal to `StepOn`, holding the selected command afterwards |
| `Console.Console.Advance` | console.py:151-165 | one turn of the loop extends the trace by the line's step and keeps `command` on the last selection |
| `Console.Console.Loop` | console.py:151-165 | the loop yields the trace of the lines typed, holding the command of the last selecting line |
| `Console.Console.Run` | console.py:145-165 | the whole loop over the lines typed equals `Session`; when the input runs out, `command` holds a fresh command for the last line that selected one, or is as it was |
| `Ui.NavigateFocus` | clnews/ui.py:19-22 | `KeyError` for a key without a mapping, division by zero for an empty list, else a focus inside the list that wraps at both ends |
| `Ui.NavigateSteps` | clnews/ui.py:3-22 | inside the list, `down` moves one item on and `up` one back |
| `Ui.NavigateWraps` | clnews/ui.py:3-22 | `down` on the last item gives the first, `up` on the first gives the last |
| `Ui.NavigateRoundTrip` | clnews/ui.py:3-22 | `up` undoes `down` everywhere, wrap-around included |
| `Ui.ListBox.constructor` | clnews/ui.py:41 | a list box holds its items and starts focused on the first |
| `Ui.ListBox.Navigate` | clnews/ui.py:19-22 | only the focus changes, to the computed one, and only when it could be computed |
| `Ui.KeyAction` | clnews/ui.py:9-16 | `q`/`Q` leave (iff), the arrow keys move the focused column's list (iff), other keys are ignored |
| `Ui.ExitOnQ` | clnews/ui.py:9-16 | leaves on `q`, navigates exactly the focused column's list box, leaves the other untouched |

## Left out

- `feedparser.parse` is a parameter from a URL to a status and entries; network access and feed parsing are not modelled.
- The `less` decorator and its pager process are not modelled. The string piped to the pager is the `Paged` output.
- `DataFile` (loading and saving the channel file) is reduced to the content of the file, `Registry.file`.
- `validate_url` is a parameter that gives the message of its exception, or none.
- `raw_input` is modelled as a sequence of lines; reading past the last line is its `EOFError`. The prompt text is not part of the output.
- `exit()` after `quit` in the console is the normal end of the session (`Pass`).
- `colorama_init` and the `sys` reload/encoding calls have no observable effect in the model. The colour escape codes are string constants.
- Dictionary iteration order is a parameter that must list every key once (`Maps.Enumerates`); no particular order is assumed.
- The urwid widgets, palette, layout and main loop of `clnews/ui.py` are not modelled. The two list boxes and the focused column are parameters of `Ui.ExitOnQ`.
- `Ui.NavigateFocus`: an empty list box is modelled as `ZeroDivisionError` from `%`. urwid's own behaviour for an empty list is not modelled.
- `Commands.Document`: a falsy document (`None` or `{}`) is one value, and `.add` and `.remove` on it fail with `TypeError`, which is what `None['channels']` raises. For `{}` the source raises `KeyError` instead (`self.data['channels']`, clnews/commands.py:219); the model does not tell the two apart. A document that is a non-empty dict without `channels` is not modelled.
- Remove:
  - `Commands.RemoveResult`: `clnews/commands.py` defines no `Remove` command. Its behaviour is taken from its tests.
  - Its two error messages and its argument handling beyond what the tests check are this model's choice.
  - Its buffer is left untouched.
- `LegacyNews.Retrieve`: the handler in `news.py` names a misspelt exception class (`ChannerRetrieveEventsError`). It is unreachable, because building an event from three fields cannot raise `TypeError`. Missing entry attributes (`AttributeError`) are not modelled.
- `ShellCommandExecutionError`: `clnews/shell.py` catches it, but nothing raises it, so that handler is not modelled.
- `News.ToEvents`: an entry without `title`, `link`, `published` or `summary` raises `AttributeError` in `clnews/news.py`; entries are modelled as records that always hold the four fields, so that error is not modelled.
- `Shell`: `clnews/shell.py` imports `ShellCommandDoesNotExist`, `ShellCommandChannelNotFound`, `ShellCommandExecutionError` and `ShellCommandOutputError` from `clnews/exception.py`, which defines none of them, so importing the module as written raises `ImportError`. The model treats the four classes as defined. The shell's `import config` (clnews/shell.py:20) is a relative import of `clnews/config.py`, which defines `VERSION` but no `CHANNELS`, so `.list` and the analysis of `.get <code>` (clnews/shell.py:127-129, 243-246) raise `AttributeError` as written; the model takes the channel table as a parameter (`Config.channels`), the table the root `config.py` defines.
- `Commands`: `clnews/commands.py` imports `DataFile` and `validate_url` from `clnews/utils.py`, which defines only `remove_html`, and `CommandOutputError`, `CommandDoesNotExist`, `CommandChannelNotFound` and `CommandExecutionError` from `clnews/exception.py`, which defines none of them, so importing the module as written raises `ImportError`. The model treats the six names as defined: `DataFile` as `Registry.file`, `validate_url` as a parameter, the four exceptions as constructors of `Error`.

## Where the code differs from its documentation

The model follows the code in each of these cases:

- `.add` does not reject a code that already exists. It overwrites the entry (`Commands.AddOverwrites`).
- `.get` without a channel code fails at `args[0]` with `IndexError`, not with a command error (`Commands.GetResult`).
- `.get` checks the whole document for emptiness, not the channel map. A document whose channel map is empty reports the code as not found (`Commands.GetOnNoChannels`).
- `get_command_by_input` passes the arguments to a constructor that takes none. Any command followed by arguments raises `TypeError` (`Commands.Resolve`).
- `.quit` inherits `Command.execute` and raises `NotImplementedError` (`Commands.Command.Execute`). Only the literal line `quit` ends the interactive loops (`Frontend.AnalyseQuitIsExact`).
- The shell skips the empty line but crashes on a line of blanks (`Shell.ShellBlankLineCrashes`). The console crashes on both (`Console.EmptyLineCrashes`).
- The console's `.get` handler names `ChannelRetrieveEventsError`, which neither `news.py` nor `exception.py` defines. Any exception from the retrieval therefore turns into `NameError` when Python evaluates the handler, and the session ends with it (`Console.Executed`, `Console.FailedFeedEndsRun`). The retrieval notice is never printed.
- Both front ends print an unknown-command notice that starts with a blank. The notice comes from `print str(e), '...'` with an empty `str(e)`.
