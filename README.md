# Syndicate standing tracker — a Dafny model

The application watches the game's `EE.log` file and tracks syndicate
standing. It reads only the bytes appended since the last poll and extracts
"standing changed" events from the new lines, then credits each event to one
of six syndicates (Steel Meridian, Arbiters of Hexis, Cephalon Suda, Perrin
Sequence, Red Veil, New Loka). The calculator page projects, for a planned
amount of farming per syndicate, the net change to every syndicate through a
fixed relationship matrix. It shows each final total, classified against
0 and the 132000 cap, and keeps a log of the last 50 events.

The model has six modules, one per file:

| file | module | models |
|---|---|---|
| `factions.dfy` | `Wrappers`, `Factions` | the six faction keys, one value per faction |
| `js_text.dfy` | `JsText` | `trim`, ASCII `toLowerCase`, `includes`, `split('\n')`, `parseInt(_, 10)` on the number capture |
| `log_parser.dfy` | `LogParser` | `parseLogLine` and the line loop of the watcher's timer callback |
| `log_tailer.dfy` | `LogTailer` | `readNewLogContent`, `startLogWatcher` / `stopLogWatcher`, the debounced callback, as the class `Tailer` |
| `projection.dfy` | `Projection` | the `relationships` matrix, the net-change accumulation of `calculate`, the classification |
| `dashboard.dfy` | `Dashboard` | the page state as the class `Dashboard`: `calculate`, `addEventToLog`, the `standing-change` handler, input edits, clearing the log |

Environment stand-ins:

- **Regular expressions.** The two regular expressions are not
  re-implemented. A `Matcher` parameter stands for `line.match(pattern)`. It
  gives, per pattern, either no match or the two captures: the name text,
  and a number text of the shape `[+-]?\d+`.
- **The file system.** Each poll receives an `Observation`: either the
  file's bytes at that moment, with a flag saying whether opening or reading
  them threw, or the fact that `statSync` threw. Starting the watcher
  receives a `StartProbe`: the file is missing, its size cannot be read, or
  its size.
- **IPC.** Whether a main window exists is a Boolean parameter of the
  timer callback.
- **Amounts** are exact `real`s.

Two behaviours of the code are worth stating outright:

- **Read failure after a shrink.** A read that fails after the file shrank
  leaves the offset at 0: the shrink check (main.js:72-75) runs before the
  read, and the catch (main.js:85-86) does not restore the offset.
  `PollStep` states exactly that.
- **Blank name.** A blank name capture trims to the empty name. The empty
  name is contained in the first alias, so it resolves to Steel Meridian.

## Model

| member | source | states |
|---|---|---|
| Factions.Key | renderer.js:21 | the definition of the six key strings of `factions`, one per faction |
| Factions.FactionOfKey | renderer.js:21 | a key names a faction exactly when it is one of the six keys of `factions`, and then that faction |
| Factions.AllFactionsListsEachOnce | renderer.js:21 | the `factions` array lists every faction exactly once |
| JsText.Trim | main.js:50 | the trimmed name is a slice of the capture with only white space cut from both ends, its ends are not white space, and it is empty exactly when the capture is all white space |
| JsText.TrimIdempotent | main.js:50 | trimming twice is trimming once |
| JsText.Lower | main.js:55-56 | the definition of `toLowerCase` on the ASCII letters, character by character |
| JsText.LowerHasLetter | main.js:55-56 | a lower-case letter occurs in the lower-cased text exactly when it occurs in either case in the original |
| JsText.LowerIdempotent | main.js:55-56 | lower-casing leaves no capital ASCII letter, so lower-casing twice changes nothing |
| JsText.Contains | main.js:55-56 | the definition of `includes`: the needle is a prefix of the haystack or is included in its tail |
| JsText.ContainsOccurs | main.js:55-56 | `includes` is true exactly when the needle occurs at some position of the haystack |
| JsText.MissingCharNotContained | main.js:55-56 | a needle holding a character the haystack lacks is not included in it |
| JsText.Split | main.js:138 | `split('\n')` gives at least one piece, no piece holds a newline, and joining the pieces with newlines gives the text back |
| JsText.SplitWithoutSeparator | main.js:138 | a text without a newline is split into itself alone |
| JsText.Digits | main.js:51 | every natural number has a digit spelling without leading zero whose base-10 value is that number |
| JsText.ParseInt | main.js:51 | the definition of `parseInt(_, 10)` on a signed digit string: the sign applied to the base-10 value of the digits |
| JsText.ParseShow | main.js:51 | reading the decimal spelling of any integer back with `parseInt(_, 10)` gives that integer |
| JsText.ParseIgnoresPlusAndZeros | main.js:51 | a leading `+` and leading zeros in the number capture do not change the value read |
| LogParser.Aliases | main.js:27-41 | the definition of `syndicateMap`: the thirteen alias entries with their factions, in source order |
| LogParser.Relates | main.js:55-56 | the definition of the match test: either lower-cased text includes the other |
| LogParser.FirstRelatedFrom | main.js:54-59 | the scan of the alias table stops at the first entry, in table order, whose alias relates to the name, and reports none only when no later entry relates |
| LogParser.Resolve | main.js:27-59 | the name resolves to the faction of the first alias (in `syndicateMap` order) that contains or is contained in it, ignoring case; no faction exactly when no alias relates |
| LogParser.EmptyNameResolvesToSteel | main.js:28-58 | the empty name is contained in `SteelMeridian`, the first entry, so it resolves to Steel Meridian |
| LogParser.RelatesToItself | main.js:55-56 | every name is related to itself, so each alias resolves to a faction |
| LogParser.UnrelatedByLetters | main.js:55-56 | a name and an alias each holding a letter the other lacks (in either case) are unrelated |
| LogParser.ScanStopsWithin | main.js:54-58 | when the second of two consecutive entries of one faction relates to the name, the scan from the first yields that faction |
| LogParser.SteelNameResolves | main.js:29-58 | the name `Steel Meridian` resolves to Steel Meridian |
| LogParser.EventFromCaptures | main.js:49-59 | from a match: no event exactly when the trimmed name relates to no alias; otherwise the faction of the first related alias, and a change equal to the base-10 value of the number capture |
| LogParser.ParseLogLine | main.js:44-62 | the standing pattern is tried first; the syndicate pattern's result is used only when it misses; no match gives no event |
| LogParser.SyndicateConsultedOnlyOnMiss | main.js:47 | when the standing pattern matches, what the syndicate pattern would give has no effect |
| LogParser.SteelMeridianExample | main.js:44-57 | `Syndicate Standing: Steel Meridian +500` gives a Steel Meridian event of +500 |
| LogParser.SteelCaptures | main.js:49-59 | the captures `Steel Meridian` and `+500` give a Steel Meridian event of +500 |
| LogParser.SteelNameTrimmed | main.js:50 | `Steel Meridian` trims to itself |
| LogParser.ResolvedCaptures | main.js:49-59 | captures whose name is already trimmed, resolves to a faction and whose number reads as `n` give that faction's event of `n` |
| LogParser.PlusFiveHundred | main.js:51 | the number text `+500` is read as 500 |
| LogParser.BlankNameCreditsSteel | main.js:50-58 | a name capture of only white space trims to the empty name and is credited to Steel Meridian |
| LogParser.LineEvents | main.js:139-144 | a run of lines gives at most one event per line |
| LogParser.LineEvent | main.js:141-143 | the definition of what one line sends: its event when `parseLogLine` gives one, else nothing |
| LogParser.ChunkEvents | main.js:137-138 | the definition of what a read sends: nothing for empty text, else the events of its newline-separated lines |
| LogParser.LineEventsAppend | main.js:138-144 | the events of two runs of lines are the events of the first followed by those of the second |
| LogParser.LineEventsComeFromLines | main.js:139-143 | every event sent is what `parseLogLine` gives for one of the lines |
| LogParser.DispatchChunk | main.js:137-145 | the loop sends, in line order, the non-null results of `parseLogLine` on the chunk's newline-separated lines; a chunk without a newline is parsed as one line |
| LogTailer.PollStep | main.js:66-97 | a poll returns a suffix of the file; a file shorter than the offset is read from byte 0; otherwise exactly the bytes from the offset to the end are returned and the offset moves to the end; an equal size returns nothing; a failed stat returns nothing and keeps the offset; a failed read returns nothing, and the offset is 0 if the file shrank, unchanged otherwise |
| LogTailer.LastContentExtends | main.js:72-83 | on a file that only grows, the last snapshot extends the first |
| LogTailer.PollOnGrownFile | main.js:77-83 | one poll on a file not shorter than the offset returns the bytes between the old and the new offset |
| LogTailer.GrowingFileEmittedOnce | main.js:72-83 | on a file that only grows, the concatenated output of any run of polls is exactly the bytes between the starting offset and the final offset, each once, in order |
| LogTailer.LastReadReachesEnd | main.js:77-83 | when the last poll reads successfully, the offset ends at the end of the file |
| LogTailer.AppendedBytesEmittedOnce | main.js:121-126 | starting at the file's size, the polls return exactly the bytes appended since the start, and all of them once the last read succeeds |
| LogTailer.TruncatedFileReadFromStart | main.js:72-83 | a file truncated below the offset and then grown is returned from its first byte, with nothing lost across the two polls |
| LogTailer.Decode | main.js:83 | `toString` of the read buffer gives one character per byte |
| LogTailer.DecodeAppend | main.js:83 | decoding two runs of bytes in turn gives the two texts in turn |
| LogTailer.Tailer.constructor | main.js:8 | the offset starts at 0 with no watcher |
| LogTailer.Tailer.Start | main.js:100-157 | any previous watcher is dropped; a missing file returns false without watching and keeps the offset; otherwise watching starts at the file's size, or at 0 when the size cannot be read, and true is returned |
| LogTailer.Tailer.Stop | main.js:161-169 | watching ends and the offset is kept |
| LogTailer.Tailer.ReadNewContent | main.js:66-97 | the offset field and the returned bytes are exactly those of `PollStep` |
| LogTailer.Tailer.Follow | main.js:135-137 | a run of timer firings, one `readNewLogContent` each, leaves the offset and returns the bytes that `Replay` gives; with `AppendedBytesEmittedOnce`, a watcher started at the file's size returns exactly the appended bytes |
| LogTailer.Tailer.OnDebounceTimer | main.js:135-146 | one callback updates the offset as a poll does and, when a window exists, sends the events of the decoded new text |
| Projection.Row | renderer.js:3-10 | the definition of the six matrix rows, entries in source order |
| Projection.Multiplier | renderer.js:3-10 | the definition of a matrix entry: the multiplier a row lists for a target, 0 when it lists none |
| Projection.RowSumOfListed | renderer.js:3-10 | in a row naming each target once, a listed target gets exactly its multiplier |
| Projection.RowSumOfUnlisted | renderer.js:175-179 | a target absent from the row gets nothing |
| Projection.RowShape | renderer.js:3-10 | every row lists four distinct factions, the farmed faction first at +1; a listed faction's matrix entry is its multiplier, an unlisted one's is 0 |
| Projection.TargetsShareRowTotal | renderer.js:177-179 | over the six factions, a row hands out exactly the sum of its multipliers |
| Projection.RowBalanced | renderer.js:3-10 | every row of the matrix sums to 0 |
| Projection.AccumulateNetChanges | renderer.js:161-181 | the nested loops leave each faction's net change equal to the sum over all six sources of `farm * multiplier` |
| Projection.ApplyImpacts | renderer.js:177-179 | the inner loop adds `farm * multiplier` to every target of the row, and nothing to the others |
| Projection.Contribution | renderer.js:167-181 | the definition of one source's contribution to a target: nothing when its farm amount is 0, else the amount times the matrix entry |
| Projection.NetChange | renderer.js:167-181 | the definition of a net change: the contributions of the six sources, in `factions` order |
| Projection.NetChanges | renderer.js:167-181 | the definition of the `netChanges` object: the net change of every faction |
| Projection.ContributionIsProduct | renderer.js:171 | skipping a source planned at 0 gives the same result as adding its zero products |
| Projection.NetChangeExpanded | renderer.js:167-181 | each net change is the sum over sources of the planned amount times the matrix entry |
| Projection.EmptyPlanChangesNothing | renderer.js:162-171 | with nothing planned, every net change stays at 0 |
| Projection.SingleSourcePlan | renderer.js:172-179 | farming one source only moves each target by the amount times that source's multiplier |
| Projection.UnlistedTargetUnchanged | renderer.js:175-179 | farming one source leaves every faction missing from its row unchanged |
| Projection.SteelThousandExample | renderer.js:4-10 | farming Steel Meridian by 1000 gives Steel +1000, Red Veil +500, New Loka −500, Perrin −1000 and 0 for the others |
| Projection.NetChangeAdditive | renderer.js:167-181 | the net change of the sum of two plans is the sum of their net changes |
| Projection.ContributionsIgnoreOrder | renderer.js:167-181 | the total of the contributions of a list of sources does not depend on the list's order |
| Projection.NetChangeOrderIndependent | renderer.js:167-181 | visiting the six sources in any order gives the same net changes |
| Projection.ContributionBalanced | renderer.js:3-10 | one source's contributions to the six factions sum to 0 |
| Projection.ContributionsBalanced | renderer.js:167-181 | any run of sources contributes 0 to the six factions together |
| Projection.NetChangesSumToZero | renderer.js:167-181 | the six net changes of any farm plan sum to 0 |
| Projection.Classify | renderer.js:201-208 | every total gets exactly one class: negative below 0, warning above 132000, safe in between |
| Projection.Project | renderer.js:185-208 | the final total is the current balance plus the net change, and its class follows the total |
| Dashboard.ApplyStandingChange | renderer.js:107-111 | a known faction key gets the change added to its balance and every other faction is unchanged; an unknown key changes nothing |
| Dashboard.EventsCreditTheirFaction | renderer.js:104-111 | after any run of events, each faction's balance has grown by exactly the sum of its own events' changes |
| Dashboard.Projections | renderer.js:184-208 | every faction's cells show its net change, its current balance plus that change, and the class of that total |
| Dashboard.PushCapped | renderer.js:139-145 | the new entry goes on top, the older entries follow in order, and at most 50 are kept |
| Dashboard.Reversed | renderer.js:140 | the entries in the opposite order: the last one first, as repeated insertion at the top leaves them |
| Dashboard.LogKeepsNewestFifty | renderer.js:139-145 | after any number of additions the log is the newest entries first and holds at most 50, dropping the oldest |
| Dashboard.Dashboard.constructor | renderer.js:21-29 | the page starts with its inputs, an empty events log and no calculated table |
| Dashboard.Dashboard.Calculate | renderer.js:160-210 | the table cells become the projection of the current inputs; inputs and log are unchanged |
| Dashboard.Dashboard.AddEventToLog | renderer.js:125-146 | the log becomes the capped push of the new entry |
| Dashboard.Dashboard.ClearEvents | renderer.js:73-75 | the log becomes empty |
| Dashboard.Dashboard.OnStandingChange | renderer.js:104-122 | for a known key: the balance is credited, the table recalculated and the event logged; for an unknown key: nothing changes; the log stays within 50 and the table never shows stale values |
| Dashboard.Dashboard.EditCurrent | renderer.js:27-29 | editing a current-balance input recalculates the table |
| Dashboard.Dashboard.EditFarm | renderer.js:27-29 | editing a farm input recalculates the table |

## Left out

- Regular-expression matching: the lazy quantifiers, backtracking and
  case-insensitive flag of the two patterns (main.js:44-45) are abstracted
  by the `Matcher` parameter; the model does not claim which captures a
  given line produces.
- `toLowerCase` outside ASCII: the name capture holds only `[A-Za-z\s]`, so
  only ASCII letters are folded.
- UTF-8 decoding of the read buffer: `Decode` maps one byte to one
  character, which is exact for ASCII text only.
- Short reads: `readSync` is assumed to fill the buffer. The file is also
  assumed not to change between `statSync` and `readSync` within one poll.
- Lines split across two polls: each poll's text is split and parsed on its
  own, as in the source; the model does not join a partial last line with
  the next poll.
- `parseInt` precision: integers are unbounded, while JavaScript numbers
  lose precision beyond 2^53.
- Floating point: amounts are exact reals, so no IEEE rounding is modelled;
  `parseFloat(...) || 0` on the input fields is not modelled (the inputs are
  already numbers).
- `fs.watch`, the 100 ms debounce timer and its clearing (main.js:106-109,
  129-135, 162-165): each timer firing is one `OnDebounceTimer` call.
- The file system calls themselves, `existsSync`, `statSync`, `openSync`,
  `readSync`, `closeSync`, and the error logging: replaced by
  `Observation` and `StartProbe`.
- Electron plumbing: windows, IPC channels, file dialogs, the
  `tracking-status` messages, `getDefaultLogPath` (main.js:12-18,
  175-241) and the tracking controls of the page (renderer.js:31-101).
- Presentation: number formatting, colours, time stamps, markup of log
  entries (renderer.js:126-137, 189-198), and `highlightRow`
  (renderer.js:149-158).
- The initial values of the inputs and cells come from the page markup,
  which is not part of this model; they are constructor parameters, and
  the cells are empty until the first calculation.
- The display-name resolution of the five factions other than Steel
  Meridian (each `factionNames` entry resolving back to its own key) is
  not stated.
