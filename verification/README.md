# What is modelled

Dafny models of the state machines, parsers and sweeps in the vendored tooling and the trace generators, with
proofs of what they are for. `dafny verify dfyconfig.toml` checks everything.

**Catch2 trackers and run loop** (`TestBody`, `TrackerModel`, `TrackerRuns`, `TrackerFailures`,
`Trackers`, `TestRunner`). A test body is a
static tree: generators first, then sections. `TestBody` says what its runs should be: the paths, their count and their
order. `TrackerModel` is one cycle on a tree of values, with an oracle that decides at every step whether user code
throws; `TrackerRuns` proves what whole runs do, and `TrackerFailures` which section fails when user code throws, found by
the flow of control alone, and that it is never entered again. `Trackers` and `TestRunner` are the objects of the source: trackers
that mutate their run state and children, the context with its current tracker, and the loop of `runTest`. They are
proved to leave, after every operation, the tree of the value model.

**Change inspection** (`ProjectConfig`, `RebuildSets`, `DirtyFiles`, `InspectChanges`, with `Reachability`). Both
breadth-first searches, the reversed graph, the in-place classification and the in-order removal of owned files, against
reachability, a per-file account of ownership, and the patterns themselves.

**Build summary** (`TimeShares`, `NinjaSummary`). The sweep over start and stop events in exact arithmetic, against a
direct sum over elementary intervals.

**Test specifications** (`TestSpecs`, `TagAliases`, `TestSpecParser`, `TestSpecRoundTrip`, `TestSpecTokens`). The parser
object against a state machine on values, the round trip from written filters, and which single conditions are read back.

**Text columns** (`AnsiText`, `AnsiString`, `AnsiSentinels`, `LineBreaks`, `TextColumn`, `ColumnOutput`, `NarrowColumns`).
The string that skips escape sequences in both directions, what sentinels in its text do to it, line breaking on its
visible characters, the iterator over lines on raw positions, and what is seen of the lines it hands out.

**XML encoding** (`Utf8`, `XmlEncode`, `XmlDecode`). The encoder with its copied runs and bit arithmetic, against a reader,
a grammar of units and the table of RFC 3629.

**JSON reporter** (`Json`, `JsonWriter`, `JsonParts`, `JsonStacks`, `JsonReport`, `JsonReporter`, `JsonSession`, `JsonReader`,
`SessionDecoder`, `JsonRoundTrip`). The reporter object with its three stacks, driven by every session of the run grammar; its text is the
rendering of the session's document, a reader written from RFC 8259 gets that document back, and a
decoder by literal keys gets the session back from it.

**Trace generator** (`Bitmap`, `SparseTrace`), **escaping and splitting** (`Replace`, `ReporterSpecs`), **totals bar**
(`TotalsBar`) and **hash mixer** (`HashMixer`). Random numbers are an arbitrary finite stream of keys, and how the loops
end on it is claimed exactly; a shuffle is an arbitrary permutation. `Options` and `Sequences` hold shared helpers.

Where the code does less than one might expect, the exact condition is proved:

- with room for a single character in the later lines, wrapping never ends for some texts
  (`EndsExactlyIfLaterLinesAreRoomy`, `WrapEndsExactlyIf`, `SecondLineRepeats`); with room for a single one in the first line, a text can be
  lost (`KeepsExactlyIfAllLinesAreRoomy`, `FirstLineIsLost`);
- `]]>` at the very beginning of a text is not escaped, because the test on the index is `idx > 2`
  (`CdataEndExactlyAtStart`, `CdataEndGetsThrough`);
- one overlong UTF-8 form passes, because the test is `0x800 < value` (`AcceptedIsTable`, `OverlongIsAccepted`);
- the control characters 0x0B and 0x0C pass, which section 2.2 of XML 1.0 does not admit (`ControlsPassedOn`);
- JSON strings with control characters other than the five escaped ones are not legal (`SessionReadsBack`,
  `ControlCharacterIsNotReadBack`);
- a project that excludes itself can orphan files (`OrphansOnlyBySelfExclusion`, `SelfExcludingProjectOrphans`);
- the totals bar is too long for some runs with skipped tests (`Bar.Adjust`, `SkippedCanOverflow`);
- the scan for duplicate keys leaves its bitmap exactly if more than half of a batch are to be duplicates
  (`ScanStaysInsideExactlyIf`), while the generator admits up to 80 percent (`EightyPercentOverruns`);
- a text that holds what looks like an escape sequence with the sentinel byte for its final character makes the size of
  a column's string too large (`SizeIsRightExactlyIfGenuine`); over any other sentinel byte in it, going back comes to
  the wrong character (`GoesBackExactlyIfNoLoneSentinel`, `LoneSentinelMisleads`) or fails an assertion
  (`AssertionFailsExactlyIf`, `LoneSentinelBlocksTheWayBack`);
- a bare name in a test specification is not read back if the first of its characters that is not escaped is a blank, a
  tilde or a quote, or if all are escaped (`ReadBackExactlyIfProper`, `LeadingBlankIsLost`);
- replacing an empty pattern never ends unless the text is empty, too (`EndsExactlyIf`).

## Model

| member | source | states |
|---|---|---|
| TestBody.PathsCount | catch2/extras/catch_amalgamated.cpp:5957-5980 | The number of runs of a body is the product of its generators' sizes times the sum over its sections (one if it has none) |
| TestBody.PathsEnumerate | catch2/extras/catch_amalgamated.cpp:5957-5980 | The paths of a body are exactly its maximal choices of one value per generator and one section per level; they are pairwise different and listed in depth-first order, innermost generator fastest, as defined by an independent order on paths |
| TrackerRuns.RunBodyVisits | catch2/extras/catch_amalgamated.cpp:7160-7188 | If nothing throws, one pass over a body takes the first path that remains, and closing the scope leaves exactly the other remaining paths to later passes |
| TrackerRuns.RunVisitsEveryPath | catch2/extras/catch_amalgamated.cpp:5959-5980 | From any tracker tree that fits the body and still has a section to enter wherever there are sections, a run in which nothing throws takes exactly the remaining paths, each once and in order, and then stops |
| TrackerRuns.FreshRunVisitsEveryPath | catch2/extras/catch_amalgamated.cpp:5959-5980 | A run from a fresh tracker, in which nothing throws, takes every path of the body exactly once and in order |
| TrackerRuns.RunBodyProgress | catch2/extras/catch_amalgamated.cpp:7160-7196 | Wherever exceptions are thrown, a pass and the closing of its scope complete the scope or strictly reduce the work that is left in it |
| TrackerRuns.RunEnds | catch2/extras/catch_amalgamated.cpp:5959-5980 | Wherever exceptions are thrown, a run ends with its test case tracker completed successfully, no earlier cycle completes it, and there is at most one cycle more than there was work |
| TrackerRuns.SectionRunBound | catch2/extras/catch_amalgamated.cpp:5959-5980 | With sections only, and whatever throws, a run makes at most one cycle per section and one for the test case itself |
| TrackerRuns.RunBodyKept | catch2/extras/catch_amalgamated.cpp:7153-7196 | A pass never reopens a tracker that has completed or failed, nor anything below it, while the generators above keep their value |
| TrackerRuns.RunKeepsCompleted | catch2/extras/catch_amalgamated.cpp:7219-7261 | The same between any two cycles of a whole run |
| TrackerRuns.TestRunStep | catch2/extras/catch_amalgamated.cpp:5959-5980 | A run is its first cycle followed by the run of what that cycle left; the test case tracker itself never fails |
| TrackerFailures.InnermostFails | catch2/extras/catch_amalgamated.cpp:6143-6152 | If an exception leaves a pass inside some section, then in the tree behind that cycle the innermost section around it, found by the flow of control alone, has failed, those around it have not, no other tracker fails, and the scope is not complete; if it leaves no section, no tracker fails |
| TrackerFailures.BarredForGood | catch2/extras/catch_amalgamated.cpp:5959-5980 | No cycle of a run takes a path that leads into a section complete before it, or by a value that a generator has left behind |
| TrackerFailures.AbandonedForGood | catch2/extras/catch_amalgamated.cpp:5959-5980 | The path to a section that an exception left begins the path of its own cycle and of no later one: the section is never entered again while the generators around it keep their values |
| TrackerModel.MovesOnExactlyIf | catch2/extras/catch_amalgamated.cpp:5772-5838 | A generator takes another value exactly if it succeeded, has one, and does not wait for a child to start |
| Trackers.Tracker.FindChild | catch2/extras/catch_amalgamated.cpp:7088-7101 | Finds the first child with the name and location, or none if there is none |
| Trackers.Tracker.OpenChild | catch2/extras/catch_amalgamated.cpp:7112-7119 | Marks the tracker as executing a child, and those above it up to the first that is marked already; nothing else changes |
| Trackers.Tracker.Open | catch2/extras/catch_amalgamated.cpp:7153-7158 | The tracker executes and is current, its parent and those above it are marked up to the first that was marked already, and no other tracker changes |
| Trackers.Tracker.CloseOpenChildren | catch2/extras/catch_amalgamated.cpp:7162-7164 | Closes the chain of generators still open below the tracker, innermost first, and leaves everything outside the tracker alone |
| Trackers.Tracker.Settle | catch2/extras/catch_amalgamated.cpp:7166-7185 | The new run state is that of the tree model; the states the source calls illogical cannot occur |
| Trackers.Tracker.CloseBase | catch2/extras/catch_amalgamated.cpp:7160-7188 | Closing leaves the tree that the model's closing computes, makes the parent current and completes the cycle |
| Trackers.Tracker.Advance | catch2/extras/catch_amalgamated.cpp:5772-5838 | A generator waits if no child has started, else takes its next value if it succeeded and has one; both clear its children |
| Trackers.Tracker.Close | catch2/extras/catch_amalgamated.cpp:5772-5838 | Closing a section, or a generator with what it does about its next value, gives the tree of the model |
| Trackers.Tracker.Fail | catch2/extras/catch_amalgamated.cpp:7189-7196 | The tracker has failed, its parent needs another run and is current, the cycle is complete, and nothing else changes |
| Trackers.TrackerContext.AcquireGenerator | catch2/extras/catch_amalgamated.cpp:5727-5765 | Finds the first child with that name below the current tracker or, if the current tracker is itself the one wanted, below its parent, and opens it unless it is complete; without one nothing changes |
| TestRunner.RunContext.CreateGenerator | catch2/extras/catch_amalgamated.cpp:6090-6112 | The tracker of a generator not met before becomes the last child of the current tracker, and is opened; nothing else below it changes |
| TestRunner.RunContext.AcquireSection | catch2/extras/catch_amalgamated.cpp:7232-7261 | Finds or registers the section's tracker, and opens it exactly if neither it nor the cycle is complete |
| TestRunner.RunContext.SectionEnded | catch2/extras/catch_amalgamated.cpp:6123-6141 | The innermost active section is closed and no longer active; if none is active nothing changes |
| TestRunner.RunContext.SectionEndedEarly | catch2/extras/catch_amalgamated.cpp:6143-6152 | The first section an exception leaves fails, those around it are closed; each is recorded as unfinished (which section fails in the whole tree is TrackerFailures.InnermostFails) |
| TestRunner.RunContext.RunBody | catch2/extras/catch_amalgamated.cpp:6054-6077 | Running a body on the heap of trackers leaves the tree, the trace and the step count of the tree model |
| TestRunner.RunContext.RunSections | catch2/extras/catch_amalgamated.cpp:6054-6077 | The same for the sections of a scope, skipped, entered or only registered |
| TestRunner.RunContext.RunCurrentTest | catch2/extras/catch_amalgamated.cpp:6289-6334 | Runs the test case and closes its tracker, whether or not an exception got out |
| TestRunner.RunContext.RunOnce | catch2/extras/catch_amalgamated.cpp:5959-5977 | One cycle on the heap is one cycle of the tree model |
| TestRunner.RunContext.RunTest | catch2/extras/catch_amalgamated.cpp:5959-5980 | The loop ends; the paths taken are those of the whole run up to and including the first cycle that aborts, and all of them if none does; if nothing throws, the whole run is exactly the paths of the body, each once and in order |
| ProjectConfig.Visit | cccl/ci/inspect_changes.py:237-246 | Finds exactly the other projects that can be reached, whatever cycles there are |
| ProjectConfig.ComputeTransitiveDependencies | cccl/ci/inspect_changes.py:229-259 | For each project, exactly the configured projects reached but not named directly |
| ProjectConfig.Load | cccl/ci/inspect_changes.py:145-159 | Fills in the transitive dependencies and changes nothing else |
| Reachability.ReachesShortcuts | cccl/ci/inspect_changes.py:391-403 | Adding edges between projects that are connected already connects no more |
| Reachability.ReachesInverse | cccl/ci/inspect_changes.py:391-403 | Reversing every edge reverses reachability |
| RebuildSets.AddDependents | cccl/ci/inspect_changes.py:391-403 | Adds exactly one entry for each dependency of a project |
| RebuildSets.BuildReverseDependencyGraph | cccl/ci/inspect_changes.py:391-403 | The graph has an entry exactly for each full, lite and transitive dependency of each project |
| RebuildSets.MarkDependents | cccl/ci/inspect_changes.py:420-447 | One step of the search keeps what it has established: full and lite stay disjoint, nothing unreachable is marked, every dependent is queued |
| RebuildSets.PropagateDirtyProjects | cccl/ci/inspect_changes.py:406-449 | Ends although the depth is part of the queue's keys; full are exactly the dirty projects and their direct full dependents, lite exactly the others downstream of them |
| RebuildSets.ReverseReaches | cccl/ci/inspect_changes.py:391-449 | Reversing the dependencies together with their transitive closure reaches exactly what reversing the dependencies does |
| RebuildSets.DetermineRebuildSets | cccl/ci/inspect_changes.py:533-572 | Every project is full if the core has dirty files; otherwise a project is full exactly if it, or a direct full dependency, has dirty files, and lite exactly if it is not full but depends on one that has |
| DirtyFiles.NeverOrphaned | cccl/ci/inspect_changes.py:294-320 | If no project excludes itself, the in-order removal of files owned by others never leaves a matched file without an owner, whatever cycles the exclusion lists form |
| DirtyFiles.OrphansOnlyBySelfExclusion | cccl/ci/inspect_changes.py:294-320 | A matched file can lose all its owners exactly if some project excludes itself |
| DirtyFiles.SelfExcludingProjectOrphans | cccl/ci/inspect_changes.py:294-320 | A configuration of the core and one project that excludes itself, in which that project loses its file |
| DirtyFiles.CoreIsUnmatched | cccl/ci/inspect_changes.py:282-320 | If no project excludes itself, the files nobody owns in the end are exactly those that no project but the core matches |
| DirtyFiles.OwnersAreMatching | cccl/ci/inspect_changes.py:282-320 | Whoever owns a file in the end is a project other than the core whose patterns match it |
| DirtyFiles.UndisputedKeeps | cccl/ci/inspect_changes.py:294-320 | A project that matches a file owns it after all turns, if no project it defers to matches it |
| DirtyFiles.OrphanedExactlyIfUnmatched | cccl/ci/inspect_changes.py:282-320 | Without self-exclusion a file ends without an owner exactly if no project but the core matches it |
| DirtyFiles.ProjectDirtyFiles | cccl/ci/inspect_changes.py:262-279 | Exactly the dirty files that the project's patterns match, in order |
| DirtyFiles.DropExcluded | cccl/ci/inspect_changes.py:300-312 | One project's turn removes from its list exactly the files that the projects it defers to have at that moment |
| DirtyFiles.BuildProjectDirtyMap | cccl/ci/inspect_changes.py:282-320 | Each project's list is exactly the files it still owns after all turns, in order; the core's is the files nobody owns |
| InspectChanges.Inspect | cccl/ci/inspect_changes.py:642-677 | End to end from the configuration as written: which projects are Dirty, Dirty Deps and Clean, by owners of files and reachability alone; who owns what is put into terms of the patterns below |
| InspectChanges.TouchedByMatch | cccl/ci/inspect_changes.py:262-320 | A project with dirty files matches one of the dirty paths |
| InspectChanges.MatchTouches | cccl/ci/inspect_changes.py:262-320 | A project other than the core that matches a dirty path has dirty files, if no project it defers to matches that path |
| InspectChanges.NotTouchedIfDeferred | cccl/ci/inspect_changes.py:294-320 | A project has no dirty files if it always defers, for every dirty path it matches, to a project that keeps that path |
| InspectChanges.TouchedExactlyIfMatching | cccl/ci/inspect_changes.py:262-320 | A project that defers to nobody has dirty files exactly if it matches a dirty path |
| InspectChanges.CoreTouchedExactlyIf | cccl/ci/inspect_changes.py:314-320 | Without self-exclusion the core has dirty files exactly if some dirty path is matched by no other project |
| TimeShares.ShareBounds | cccl/ci/ninja_summary.py:86-101 | A target's share of the elementary intervals lies between zero and its time within them |
| TimeShares.SharesAddUp | cccl/ci/ninja_summary.py:236-268 | The shares of all targets add up to the length of the union of their intervals |
| TimeShares.UnionBounds | cccl/ci/ninja_summary.py:236-268 | The length of the union is at most the whole span |
| NinjaSummary.SortedSorts | cccl/ci/ninja_summary.py:238-242 | A stable insertion sort by time, starts before stops, sorts and keeps the events |
| NinjaSummary.StartsBeforeStop | cccl/ci/ninja_summary.py:240-242 | In the sorted events every target starts before it stops, also if both are at the same time |
| NinjaSummary.Accrual | cccl/ci/ninja_summary.py:254-258 | Between two events every running target gains the gap divided by the number of targets covering it, and no other target gains anything |
| NinjaSummary.StartStep | cccl/ci/ninja_summary.py:259-261 | Recording the accrued weight at the start makes what accrues from then on the target's own |
| NinjaSummary.StopStep | cccl/ci/ninja_summary.py:262-268 | At its stop a target is running, and its difference is its share so far |
| NinjaSummary.Sweep | cccl/ci/ninja_summary.py:253-270 | Every target's weighted duration is its direct share of the elementary intervals, the total is the length of the union, and nothing is left running |
| NinjaSummary.CollectEvents | cccl/ci/ninja_summary.py:224-235 | Both events of every target, the earliest start, the latest end and the sum of the durations |
| NinjaSummary.StampsAre | cccl/ci/ninja_summary.py:224-242 | The sorted event times, on which the shares are computed, ascend and hold the ends of every target |
| NinjaSummary.DurationsAddUp | cccl/ci/ninja_summary.py:224-235 | The durations of all targets add up to the intervals between the time stamps, each as often as there are targets that cover it |
| NinjaSummary.SummarizeEntries | cccl/ci/ninja_summary.py:212-270 | For all targets with ordered, non-negative times: weighted durations are the direct shares, lie between zero and the duration, and add up to the union of the intervals, which is at most latest less earliest; the total time is every interval as often as targets cover it |
| TestSpecRoundTrip.UnescapeEscaped | catch2/extras/catch_amalgamated.cpp:7556-7579 | Removing the recorded escape positions from an escaped token removes exactly the backslashes that were put in |
| TestSpecRoundTrip.RunWritten | catch2/extras/catch_amalgamated.cpp:7414-7502 | Reading one written token, a tag, a quoted or a bare name, excluded or not, leaves the parser where ending the mode adds exactly its patterns |
| TestSpecRoundTrip.WrittenFiltersParse | catch2/extras/catch_amalgamated.cpp:7392-7618 | Parsing the canonical text of any list of filters, of tags, quoted names and bare names that something ends, gives back as many filters, each requiring exactly the patterns of its tokens that are not excluded and forbidding exactly those of the others, in order; the patterns of a token are listed explicitly |
| TestSpecTokens.ReadBackExactlyIfProper | catch2/extras/catch_amalgamated.cpp:7392-7618 | A condition written alone is read back exactly if its text is not empty, does not begin with exclude: and, as a bare name, has a character that needs no backslash, the first of which is no blank, tilde or quote |
| TestSpecTokens.LeadingBlankIsLost | catch2/extras/catch_amalgamated.cpp:7392-7618 | A bare name of a blank and a letter is not read back |
| TestSpecTokens.ExcludeWordForbidsTag | catch2/extras/catch_amalgamated.cpp:7463-7502 | A tag behind the word exclude: is forbidden, both tags of it if it begins with a dot |
| TagAliases.ExpandAliases | catch2/extras/catch_amalgamated.cpp:6856-6867 | The first occurrence of each alias, in order, gives way to what it stands for |
| TagAliases.FirstOccurrenceGivesWay | catch2/extras/catch_amalgamated.cpp:6856-6867 | What stands before and behind the first occurrence of an alias stays as it is |
| TagAliases.AliasesInTurn | catch2/extras/catch_amalgamated.cpp:6856-6867 | Expanding two lists of aliases one behind the other is expanding by the first and then by the second |
| TagAliases.NoAliasNoChange | catch2/extras/catch_amalgamated.cpp:6856-6867 | An argument in which no alias occurs stays as it is |
| TestSpecParser.Parser.Parse | catch2/extras/catch_amalgamated.cpp:7392-7409 | The mutating parser refines the state machine on the argument with its aliases expanded; a refused argument is recorded as invalid, as it was given |
| TestSpecParser.Parser.VisitAll | catch2/extras/catch_amalgamated.cpp:7401-7406 | The loop over the characters ends at the end of the text or at the first refusal |
| TestSpecParser.Parser.VisitChar | catch2/extras/catch_amalgamated.cpp:7414-7449 | One character takes the parser to the state machine's next state |
| TestSpecParser.Parser.PreprocessPattern | catch2/extras/catch_amalgamated.cpp:7556-7579 | The token without its escapes and without a leading exclude:, which it records; the pattern is empty afterwards |
| TestSpecParser.Parser.AddTagPattern | catch2/extras/catch_amalgamated.cpp:7587-7610 | The tag becomes a required or forbidden pattern, a hidden one two of them |
| TestSpecParser.ParseWritten | catch2/extras/catch_amalgamated.cpp:7392-7412 | The parser object reads the canonical text of any filters back in that sense, if the expansion of aliases leaves that text as it is |
| AnsiText.MarkedVisible | catch2/extras/catch_amalgamated.cpp:7639-7663 | Marking the ends of the escape sequences leaves the same characters visible |
| AnsiText.UnmarkMarked | catch2/extras/catch_amalgamated.cpp:7683-7698 | Undoing the marks gives the text back exactly if it holds no sentinel byte of its own |
| AnsiText.BackOverSkip | catch2/extras/catch_amalgamated.cpp:7726-7742 | Going back from behind any number of marked sequences leads to where they begin |
| AnsiString.AnsiSkippingString.constructor | catch2/extras/catch_amalgamated.cpp:7665-7673 | The string is the marked text and its size the number of visible characters |
| AnsiString.AnsiSkippingString.PreprocessString | catch2/extras/catch_amalgamated.cpp:7639-7663 | The marking loop in place: complete sequences get marked, incomplete ones stay visible, and every visible character is counted once |
| AnsiString.AnsiSkippingString.TryParseAnsiEscapes | catch2/extras/catch_amalgamated.cpp:7700-7718 | Skips all sequences at a position and stops at the next visible character or the end |
| AnsiString.AnsiSkippingString.Advance | catch2/extras/catch_amalgamated.cpp:7720-7724 | From a visible character to the next one |
| AnsiString.AnsiSkippingString.Unadvance | catch2/extras/catch_amalgamated.cpp:7726-7742 | Goes back one character and over the marked sequences before it; the assertions of the loops hold exactly where that is possible |
| AnsiString.AnsiSkippingString.OneBefore | catch2/extras/catch_amalgamated.cpp:7726-7742 | From a visible position to the visible character before it, whenever that is not a sentinel |
| AnsiString.AnsiSkippingString.Substring | catch2/extras/catch_amalgamated.cpp:7683-7698 | The slice between two positions with the marks undone, from the true beginning if it starts at the first visible character; for plain text the text's own slice |
| AnsiString.PlainTextIsClean | catch2/extras/catch_amalgamated.cpp:7639-7663 | In marked plain text no visible character is a sentinel, and the visible positions are those of the text |
| AnsiString.UnadvanceUndoesAdvance | catch2/extras/catch_amalgamated.cpp:7720-7742 | Going back undoes advancing exactly if the visible character to go back to is not itself a sentinel |
| AnsiString.WalkReachesEnd | catch2/extras/catch_amalgamated.cpp:7720-7724 | Advancing from the beginning reaches the end after exactly as many steps as there are visible characters |
| AnsiSentinels.SizeIsRightExactlyIfGenuine | catch2/extras/catch_amalgamated.cpp:7639-7673 | For every text: the recorded size is the number of steps from begin to end exactly if nothing in the text looks like a sequence with a sentinel for its final character; otherwise it is too large |
| AnsiSentinels.SentinelInTextMiscounts | catch2/extras/catch_amalgamated.cpp:7639-7673 | A shortest text for which it is too large |
| AnsiSentinels.GoesBackExactlyIfNoLoneSentinel | catch2/extras/catch_amalgamated.cpp:7720-7742 | For every text: going back undoes advancing everywhere, and no assertion fails, exactly if every sentinel of the text ends what looks like a sequence |
| AnsiSentinels.CleanExactlyIfNoLoneSentinel | catch2/extras/catch_amalgamated.cpp:7639-7663 | The same condition on the text says when no visible character of the marked text is a sentinel, which is what columns ask for |
| AnsiSentinels.AssertionFailsExactlyIf | catch2/extras/catch_amalgamated.cpp:7726-7742 | For every text: going back fails an assertion somewhere exactly if a sentinel that ends nothing has no escape character before it, past the very beginning, that does not follow a sentinel of the marked text |
| AnsiText.BackableExactlyIfAnchored | catch2/extras/catch_amalgamated.cpp:7726-7742 | From a sentinel of any string the loops find a way back exactly if some escape character up to it follows a character that is no sentinel |
| AnsiSentinels.LoneSentinelBlocksTheWayBack | catch2/extras/catch_amalgamated.cpp:7726-7742 | In a text that is one sentinel, going back from the end fails the assertion |
| AnsiSentinels.LoneSentinelMisleads | catch2/extras/catch_amalgamated.cpp:7726-7742 | In a text of four characters no assertion can fail, but from the end going back comes to the first character |
| LineBreaks.LineFits | catch2/extras/catch_amalgamated.cpp:7753-7802 | A line with its hyphen fits the room, and holds no newline but one it begins with |
| LineBreaks.LineBreaksAtLastBoundary | catch2/extras/catch_amalgamated.cpp:7776-7801 | A full line ends at the last boundary that fits, less the whitespace before it; it is split with a hyphen exactly if there is nothing but whitespace before every boundary |
| LineBreaks.WordsAreKept | catch2/extras/catch_amalgamated.cpp:7621-7635 | A line without a hyphen ends at the end of the text, before whitespace or an opening bracket, or behind a closing bracket, a sign of punctuation or an operator, all listed |
| LineBreaks.TakesUpToParting | catch2/extras/catch_amalgamated.cpp:7621-7635 | Where a line could end behind something printed and within its room, it is not split before, and all that is printed up to there is on it |
| LineBreaks.LineMovesOnUnlessStuck | catch2/extras/catch_amalgamated.cpp:7753-7802 | A line takes at least one character, except exactly in the case of room for one character that may not stand alone |
| LineBreaks.LineRepeatsExactlyIf | catch2/extras/catch_amalgamated.cpp:7844-7858 | A line is followed by itself exactly in the case of room for one character that is no whitespace and may not stand alone |
| LineBreaks.EndsExactlyIfLaterLinesAreRoomy | catch2/extras/catch_amalgamated.cpp:7825-7858 | Wrapping ends for every text exactly if the lines after the first have room for two characters |
| LineBreaks.WrapEndsExactlyIf | catch2/extras/catch_amalgamated.cpp:7844-7858 | For one text, by its characters alone: wrapping ends exactly if the later lines have room for two characters, the first line is stuck, or all characters behind the first line may stand at the end of a line |
| LineBreaks.KeepsExactlyIfAllLinesAreRoomy | catch2/extras/catch_amalgamated.cpp:7825-7858 | Wrapping ends and keeps all characters other than whitespace, for every text, exactly if all lines, the first included, have room for two characters |
| LineBreaks.WrapKeepsExactlyIf | catch2/extras/catch_amalgamated.cpp:7825-7858 | For one text whose wrapping ends: something is lost exactly if the first line is stuck and there is something to lose |
| LineBreaks.RoomyEnds | catch2/extras/catch_amalgamated.cpp:7844-7858 | With room for two in the later lines, and a first line that is not stuck, the lines of any text come to an end |
| LineBreaks.LinesKeepInk | catch2/extras/catch_amalgamated.cpp:7844-7858 | The lines hold the text's characters other than whitespace, each once and in order |
| TextColumn.LineIterator.constructor | catch2/extras/catch_amalgamated.cpp:7825-7837 | Stands at the first line, or at the end if there is nothing to show or the first line is stuck |
| TextColumn.LineIterator.IsBoundaryAt | catch2/extras/catch_amalgamated.cpp:7744-7751 | Whether the line may break at a position, by the characters on both sides of it |
| TextColumn.LineIterator.IndentSize | catch2/extras/catch_amalgamated.cpp:7804-7809 | The first line has the initial indentation if there is one |
| TextColumn.Column.IndentedAs | catch2/extras/catch_amalgamated.cpp:7804-7809 | The room of the first line is the width less its own indentation if it has one, and that of the others less theirs |
| TextColumn.LineIterator.CalcLength | catch2/extras/catch_amalgamated.cpp:7753-7802 | Computes the end of the line and whether it needs a hyphen, on raw positions between escape sequences |
| TextColumn.LineIterator.Increment | catch2/extras/catch_amalgamated.cpp:7844-7858 | Goes to the next line, over one newline or over all whitespace |
| TextColumn.LineIterator.Current | catch2/extras/catch_amalgamated.cpp:7811-7842 | The line as handed out: indentation, text with its sequences, hyphen |
| TextColumn.Write | catch2/extras/catch_amalgamated.cpp:7866-7877 | Writes exactly the lines of every text whose wrapping ends (see LineBreaks.WrapEndsExactlyIf), in order, with a newline between any two; nothing if the first line is stuck |
| TextColumn.NeverDone | catch2/extras/catch_amalgamated.cpp:7844-7858 | If wrapping does not end, the iterator is not at the end after any number of increments |
| NarrowColumns.FirstLineIsLost | catch2/extras/catch_amalgamated.cpp:7825-7837 | A column with room for one character in its first line writes nothing of a word of two |
| NarrowColumns.SecondLineRepeats | catch2/extras/catch_amalgamated.cpp:7844-7858 | A column with room for one character in its later lines shows the second line of a text again after any number of increments |
| ColumnOutput.SeenIsVisible | catch2/extras/catch_amalgamated.cpp:7639-7663 | What is seen of a text, sequences left out, is its visible characters; a scan stops at each of them |
| ColumnOutput.SeenBetween | catch2/extras/catch_amalgamated.cpp:7683-7698 | The slice between two visible positions shows exactly the characters between them, wherever sequences are |
| ColumnOutput.SequenceIsNotSeen | catch2/extras/catch_amalgamated.cpp:7700-7718 | ESC, a bracket, numbers between semicolons and m, before any text, add nothing to what is seen |
| ColumnOutput.UnfinishedIsSeen | catch2/extras/catch_amalgamated.cpp:7700-7718 | With another character in place of the m all of it is seen |
| ColumnOutput.SeenOfLine | catch2/extras/catch_amalgamated.cpp:7811-7823 | What is seen of a line handed out is its indentation, its characters and its hyphen |
| ColumnOutput.LinesFitWidth | catch2/extras/catch_amalgamated.cpp:7753-7842 | What is seen of a line fits the width of the column, apart from a newline it may begin with |
| Utf8.AcceptedIsTable | catch2/extras/catch_amalgamated.cpp:8056-8200 | The bit arithmetic accepts exactly the multi-byte sequences of the table in section 4 of RFC 3629, surrogates, and the one overlong form F0 80 A0 80 |
| Utf8.OverlongIsAccepted | catch2/extras/catch_amalgamated.cpp:8056-8200 | F0 80 A0 80 is accepted though it is not in the table |
| XmlEncode.CheckSequence | catch2/extras/catch_amalgamated.cpp:8179-8184 | Whether all the bytes continue the sequence, and the value they spell |
| XmlEncode.Classify | catch2/extras/catch_amalgamated.cpp:8135-8205 | What the encoder does with a byte that has no entity |
| XmlEncode.EncodeTo | catch2/extras/catch_amalgamated.cpp:8100-8208 | Copying runs between replaced bytes writes the token by token encoding |
| XmlEncode.HexReadsBack | catch2/extras/catch_amalgamated.cpp:8082-8088 | A byte is spelled out as a backslash, an x and two hexadecimal digits, capital letters among them, which read as that byte |
| XmlDecode.DecodeEncoded | catch2/extras/catch_amalgamated.cpp:8100-8208 | Resolving the entities in the output gives the input with exactly the rejected bytes spelled out in hexadecimal |
| XmlDecode.RoundTripExactlyIfWellFormed | catch2/extras/catch_amalgamated.cpp:8100-8208 | Resolving the entities gives back the input exactly if it is well formed |
| XmlDecode.SanitizedLength | catch2/extras/catch_amalgamated.cpp:8135-8200 | Spelling out changes nothing exactly if the input is well formed, and makes it longer otherwise |
| XmlDecode.EncodedIsWellFormed | catch2/extras/catch_amalgamated.cpp:8135-8200 | The output is well formed whatever the input: no stray control characters, and every byte above ASCII in an accepted sequence |
| XmlDecode.EncodedIsInert | catch2/extras/catch_amalgamated.cpp:8111-8133 | No raw < and, in attributes, no raw quote; every & in the output begins one of the four entities |
| XmlDecode.ControlsPassedOn | catch2/extras/catch_amalgamated.cpp:8141-8148 | Of the control characters exactly those from tab to carriage return get into the output, and only if they are in the input |
| XmlDecode.CdataEndExactlyAtStart | catch2/extras/catch_amalgamated.cpp:8122-8127 | ]]> occurs in the output exactly if the input begins with it |
| XmlDecode.CdataEndGetsThrough | catch2/extras/catch_amalgamated.cpp:8122-8127 | The input ]]> itself gets into the output |
| JsonWriter.Stream.WriteImpl | catch2/extras/catch_amalgamated.cpp:4678-4694 | Copying runs between escapes writes the escaped string |
| JsonWriter.Stream.OpenMember | catch2/extras/catch_amalgamated.cpp:4609-4615 | Opens a node as the next member: comma, key, bracket |
| JsonWriter.Stream.CloseMember | catch2/extras/catch_amalgamated.cpp:4601-4607 | Closing the node makes it, fully rendered, the writer's last member |
| JsonWriter.OneMoreMember | catch2/extras/catch_amalgamated.cpp:4576-4583 | Rendering one more member appends its lead and its value |
| JsonStacks.TopWriter | catch2/extras/catch_amalgamated.cpp:10449-10451 | While the stacks match the open nodes, the writer on top of its stack is the one of the innermost node |
| JsonStacks.NodeOpened | catch2/extras/catch_amalgamated.cpp:10414-10436 | Opening a node keeps the stacks and the text in step with the open nodes |
| JsonStacks.NodeClosed | catch2/extras/catch_amalgamated.cpp:10438-10447 | Closing a node keeps them in step, and makes it a member of the node below |
| JsonParts.WriteCounts | catch2/extras/catch_amalgamated.cpp:10475-10480 | Writes the four counts as one member |
| JsonParts.WriteListing | catch2/extras/catch_amalgamated.cpp:10640-10710 | Writes one listing as one member |
| JsonReporter.JsonReporter.constructor | catch2/extras/catch_amalgamated.cpp:10374-10402 | The top level object is open with the version and the metadata in it |
| JsonReporter.JsonReporter.StartObjectAt | catch2/extras/catch_amalgamated.cpp:10431-10436 | Opens an object under a key |
| JsonReporter.JsonReporter.StartArrayAt | catch2/extras/catch_amalgamated.cpp:10419-10424 | Opens an array under a key |
| JsonReporter.JsonReporter.StartObject | catch2/extras/catch_amalgamated.cpp:10426-10430 | Opens an object in an array |
| JsonReporter.JsonReporter.EndObject | catch2/extras/catch_amalgamated.cpp:10438-10442 | The assertion holds; the object becomes a member of the node below |
| JsonReporter.JsonReporter.EndArray | catch2/extras/catch_amalgamated.cpp:10443-10447 | The assertion holds; the array becomes a member of the node below |
| JsonReporter.JsonReporter.List | catch2/extras/catch_amalgamated.cpp:10453-10456 | Adds a listing to the listings object, which the first one opens |
| JsonReporter.JsonReporter.TestRunStarting | catch2/extras/catch_amalgamated.cpp:10466-10473 | The listings are closed and the run with its array of test cases is open |
| JsonReporter.JsonReporter.TestRunEnded | catch2/extras/catch_amalgamated.cpp:10482-10498 | The run is closed with its test cases and totals |
| JsonReporter.JsonReporter.TestCaseStarting | catch2/extras/catch_amalgamated.cpp:10500-10521 | A test case is open with its information and an array of runs |
| JsonReporter.JsonReporter.TestCaseEnded | catch2/extras/catch_amalgamated.cpp:10523-10545 | The test case is closed with its runs and totals |
| JsonReporter.JsonReporter.TestCasePartialStarting | catch2/extras/catch_amalgamated.cpp:10547-10554 | A partial run is open with its index and path |
| JsonReporter.JsonReporter.TestCasePartialEnded | catch2/extras/catch_amalgamated.cpp:10556-10584 | The partial run is closed with its captured output, if any, and totals |
| JsonReporter.JsonReporter.SectionStarting | catch2/extras/catch_amalgamated.cpp:10586-10602 | A section is open with its kind, name, location and path |
| JsonReporter.JsonReporter.SectionEnded | catch2/extras/catch_amalgamated.cpp:10603-10611 | The section is closed |
| JsonReporter.JsonReporter.AssertionEnded | catch2/extras/catch_amalgamated.cpp:10613-10632 | The assertion is a member of the innermost path |
| JsonReporter.JsonReporter.Finish | catch2/extras/catch_amalgamated.cpp:10404-10412 | All assertions of the destructor hold; the text is the rendering of the top level object and a newline, and all stacks are empty |
| JsonSession.PlayPart | catch2/extras/catch_amalgamated.cpp:10586-10632 | Any nesting of sections and assertions becomes the members of its document, and leaves everything else open as it was |
| JsonSession.PlayRun | catch2/extras/catch_amalgamated.cpp:10466-10498 | A whole run becomes one member of the top level object |
| JsonSession.Report | catch2/extras/catch_amalgamated.cpp:10374-10710 | For every session, no assertion of the reporter fails and the text written is exactly the rendering of the session's document |
| JsonReader.ReadEscaped | catch2/extras/catch_amalgamated.cpp:4678-4694 | A reader gets an escaped string back exactly if it holds no control character but the five that are escaped |
| JsonReader.ReadRendered | catch2/extras/catch_amalgamated.cpp:4571-4694 | A reader gets a rendered document back if all its strings are printable, and fails otherwise |
| JsonRoundTrip.DocumentIsFramed | catch2/extras/catch_amalgamated.cpp:10374-10710 | Every key the reporter writes needs no escaping and every number and boolean it writes is legal |
| JsonRoundTrip.SessionReadsBack | catch2/extras/catch_amalgamated.cpp:10374-10710 | A reader gets the document of every session back exactly if no string in it holds a control character that is not escaped |
| SessionDecoder.SessionRead | catch2/extras/catch_amalgamated.cpp:10374-10710 | A decoder that looks members up by literal keys, takes true and false by their text and evaluates numerals digit by digit gets every session back from its document |
| JsonRoundTrip.TextSaysSession | catch2/extras/catch_amalgamated.cpp:10374-10710 | If no string of the session holds an unescaped control character, reading its text and decoding the document gives exactly the session |
| JsonRoundTrip.SameTextSameSession | catch2/extras/catch_amalgamated.cpp:10374-10710 | Two such sessions with the same text are the same session |
| JsonRoundTrip.ControlCharacterIsNotReadBack | catch2/extras/catch_amalgamated.cpp:4678-4694 | The document of a session named by one control character without an escape is refused |
| SparseTrace.ScanStaysInsideExactlyIf | tracegen_scripts/tracegen_skiplist.cpp:371-378 | With as many duplicates wanted as the batch has keys that are not fresh, the scan stays inside the bitmap exactly if they are no more than half of the batch |
| SparseTrace.EightyPercentOverruns | tracegen_scripts/tracegen_skiplist.cpp:316-378 | With 80 percent of duplicates a batch of any size overruns the bitmap |
| SparseTrace.AnyNumberCanBeDrawn | tracegen_scripts/tracegen_skiplist.cpp:363-370 | There are such batches: any number of different keys that the bitmap has room for can be drawn |
| SparseTrace.DrawFresh | tracegen_scripts/tracegen_skiplist.cpp:363-370 | The keys of the stream that were not tracked, each once and in the order in which they first come, up to the one that is the last wanted; fewer only if the stream ends; now tracked in both bitmaps |
| SparseTrace.ScanDuplicates | tracegen_scripts/tracegen_skiplist.cpp:371-378 | Stays inside the bitmap exactly if the batch has keys enough, and then fills it up with its smallest keys |
| SparseTrace.InsertOneBatch | tracegen_scripts/tracegen_skiplist.cpp:357-386 | Runs out of keys exactly if the rest of the stream has fewer new ones than wanted, and otherwise is complete exactly if at least half of the batch is fresh; then its keys are the next new ones of the stream, and the batch has the wanted number of different keys, none used before, none more than twice, and those twice are the smallest, however it is shuffled |
| SparseTrace.GenerateInserts | tracegen_scripts/tracegen_skiplist.cpp:353-387 | How the loop ends, exactly, by the number of different keys in the stream: complete if they suffice for all batches, unless more than half of a batch are to be duplicates; then every batch of the trace is such a batch, and exactly its keys, the first different ones of the stream, are tracked |
| SparseTrace.NoKeyThrice | tracegen_scripts/tracegen_skiplist.cpp:353-387 | In the whole insert trace no key occurs more than twice, and there are exactly as many different keys as were drawn fresh |
| SparseTrace.KeysStayInTheirBatch | tracegen_scripts/tracegen_skiplist.cpp:353-387 | No key occurs in two batches |
| SparseTrace.DrawDeletes | tracegen_scripts/tracegen_skiplist.cpp:471-503 | Nothing is passed over that there is room for; when the loop ends the assertion on its counters holds, and exactly the wanted number of keys were inserted and not deleted before |
| SparseTrace.GenerateDeletes | tracegen_scripts/tracegen_skiplist.cpp:464-513 | The same for every batch of the delete trace, however it is shuffled, each picked from behind the one before; if the loop does not come to its end, what is left of the stream is too little for one more batch |
| SparseTrace.DeletedInAll | tracegen_scripts/tracegen_skiplist.cpp:464-513 | Over the whole trace exactly that many inserted keys are deleted per batch |
| Replace.ReplaceInPlace | catch2/extras/catch_amalgamated.cpp:6733-6757 | Replaces exactly the leftmost occurrences that do not overlap, and tells whether there was one; an empty text with an empty pattern becomes the replacement |
| Replace.EndsExactlyIf | catch2/extras/catch_amalgamated.cpp:6744-6752 | The loop ends exactly if the pattern is not empty or the text is empty |
| Replace.FirstReplaced | catch2/extras/catch_amalgamated.cpp:6733-6757 | The first occurrence gives way to the replacement, what is before it stays, and what is behind all of it is treated in the same way |
| Replace.NothingToReplace | catch2/extras/catch_amalgamated.cpp:6733-6757 | A text without the pattern stays as it is |
| Replace.ReplacedByCharacter | catch2/extras/catch_amalgamated.cpp:6733-6757 | For a pattern of one character this is a replacement character by character |
| Replace.PassMade | catch2/extras/catch_amalgamated.cpp:11623-11632 | Each pass extends the per-character replacement of the passes before it by its own character |
| Replace.Escape | catch2/extras/catch_amalgamated.cpp:11623-11632 | The six passes are one replacement character by character |
| Replace.EscapeIsUndone | catch2/extras/catch_amalgamated.cpp:11623-11632 | Un-escaping gives the text back, and no special character stands alone in the escaped text |
| Replace.BarMustGoFirst | catch2/extras/catch_amalgamated.cpp:11623-11632 | Whatever passes come before that over the bars, un-escaping leaves them in the text: it gives the text back exactly if none of their characters occurs in it |
| ReporterSpecs.FindNextSeparator | catch2/extras/catch_amalgamated.cpp:5511-5531 | Finds the next separator or the absence of one |
| ReporterSpecs.SplitReporterSpec | catch2/extras/catch_amalgamated.cpp:5505-5552 | Ends for every text, empty and trailing separators included, with the parts between the separators |
| ReporterSpecs.PartsJoinBack | catch2/extras/catch_amalgamated.cpp:5505-5552 | Joining the parts gives the text back, and no part holds a separator |
| TotalsBar.Bar.FindMax | catch2/extras/catch_amalgamated.cpp:9336-9346 | The share it picks is always a largest one |
| TotalsBar.RatioIsProportional | catch2/extras/catch_amalgamated.cpp:9331-9334 | A share is its part of the width rounded down, or one character if that is nothing |
| TotalsBar.Bar.Adjust | catch2/extras/catch_amalgamated.cpp:9767-9776 | Both loops end, every category that was there keeps a character, the first three shares fit, and the bar has exactly one character less than the width if and only if nothing was skipped or the shares fitted to begin with |
| TotalsBar.SkippedCanOverflow | catch2/extras/catch_amalgamated.cpp:9767-9776 | One passed and one skipped test case make a bar that is too long |
| HashMixer.HashFuncMurmur | include/functions.h:64-71 | The device version computes the mixing function |
| HashMixer.CpuHashFuncHT | include/functions.h:86-93 | So does the processor version, so the two agree on every key |
| HashMixer.KnownHashes | include/functions.h:64-71 | Three values of the published finaliser |
| HashMixer.MixingIsAPermutation | include/functions.h:64-71 | Mixing has an inverse on both sides, so it is a permutation of the 32-bit keys |
| HashMixer.MixingIsInjective | include/functions.h:64-71 | Two keys are mixed to the same value only if they are the same key |

## Left out

- Trackers: section filters given with `-c`; whole runs of bodies in which a generator is reached again in a loop (acquiring it then is modelled); bodies with sections before generators; user code that catches exceptions between sections.
- Trackers: reporter events, totals, output redirection and messages around the run loop; the abort condition is an arbitrary predicate on the number of cycles.
- Trackers: the steps between acquiring and leaving a scope are split into several methods where the source has one function and a destructor; the split methods have no rows.
- Inspection: git, regular expressions (matching is an arbitrary predicate on project and path), loading of the YAML file, ignored files, summaries, printing, and the ordered output lists.
- Build summary: floating point (exact reals instead), grouping by extension, printing, and reading of the log. Python's sort is modelled as a stable insertion sort on values.
- Build summary: the source starts the earliest time at -1 and the latest at 0; times are taken to be non-negative, as in a build log.
- Test specifications: the registration of tag aliases, and matching of patterns against test cases.
- Test specifications: a bare name followed in the same filter by anything but a tag that is not excluded, because what follows joins the name.
- TextColumn.LineIterator.constructor: not for texts with a byte 0xFF, which has no meaning in UTF-8, that does not end what looks like an escape sequence; over it going back comes to the wrong character or fails an assertion, so nothing is said of the lines (`AnsiSentinels.CleanExactlyIfNoLoneSentinel`). The same for `TextColumn.Write`.
- Text columns: what is seen of the lines (`ColumnOutput`) is stated for texts without that byte.
- Text columns: an iterator is its position, because the source copies it by value; `Columns` side by side and `Spacer`.
- TextColumn.Write: requires that wrapping ends, because the loop of the source does not end otherwise (`TextColumn.NeverDone`); `LineBreaks.WrapEndsExactlyIf` puts that into terms of the characters.
- Text columns: escape sequences inside dropped whitespace are dropped too, so only visible characters are claimed to be kept.
- XML: elements, attributes and indentation of the writer; `WellFormed` counts 0x0B and 0x0C, which the encoder passes, as allowed characters.
- JSON: the flag by which a moved-from writer does not close its node again; writers are values held in the stacks.
- JSON: several runs in one session, and listings after a run; the reporter never gets them. Benchmark events, which it ignores.
- Trace generator: the conversion of percentages to counts in floating point; dense traces, the search trace, files. The batch bitmap of the delete loop is written but never read, so it is not modelled.
- Replace.ReplaceInPlace: requires that the loop of the source ends, which `Replace.EndsExactlyIf` puts into terms of the arguments.
- Totals bar: 64-bit overflow of counts; colours.
- The zig-zag trace generator, the monotonic and dense trace scripts, and the other hash functions, which would add only easy members.
- The CUDA kernels and data structures: their sources are not part of this model.
