# Verified model of the logmon broker

A Dafny model of the parts of logmon where a mistake would lose data, hang a caller or report a
difference that is not there, with proofs of what those parts promise. `dafny verify dfyconfig.toml`
checks all of it. Paths below are relative to the repository.

**The boot sweep over collector files** (`Text`, `Sorting`, `CollectorNames`, `Selection`, `Placement`,
`Migration`, `CollectorWorld`). The directory is a mutable map from name to file; each rename may fail,
as a function of its number says, and every state in between is recorded, since a process may die
there. `Migration.Directory` is the sweep with its loops; `Placement` is its two-move phase as a
function of the directory. One sweep without failures brings every file home if and only if no chosen
copy sits at the staging name of a collector that comes earlier in key order and is itself out of place;
"without failures" means that no rename this process attempts fails.

**The SDK's connection** (`Bridge`, `Connection`). State machines over atomic steps, quantified over
every interleaving. Late disconnect reports that take down a fresh connection, and watchers that never
fire, are steps of the model.

**Front matter** (`YamlScalar`, `FlowScanner`, `FlowPrinter`, `FieldNames`, `FrontMatter`,
`FrontMatterLines`, `FrontMatterFormat`, `FrontMatterRoundTrip`). The escaper and printer against the
cursor parser: every document printed reads back field by field, for all texts. `FrontMatterFormat` says what
is printed, spelled out apart from the printer.

**Figures and comparisons** (`Stats`, `PersistedStats`, `Interning`, `GroupLabels`, `Tally`, `MergeRuns`,
`Arms`, `DiffRows`, `Comparison`, `Breakdown`, `CanonicalFilter`, `History`). From the spans a window takes in
to the rows two arms are compared by. Floating point is modelled by reals and integers, hash maps by rows
in any order.

**Case files** (`CaseClaim`, `CaseRecords`, `CaseLoad`) **and the log throttle** (`Throttle`, `Pacing`).

Where the code does not keep a promise in every case, the model follows the code, a lemma gives an
input, and another gives the exact condition:

- An incarnation called `null` reads back as none (`FrontMatterRoundTrip.RoundTrip`).
- Two filters with one canonical form are taken to match the same spans, but the form forgets the case of a
  field name, which is looked up as written; it does not mark where a field name with a colon ends; and it
  forgets the case of a status substring, which is compared with the status words as written. The last can
  only come from a pattern read back from its own JSON encoding, since the filter parser lower-cases
  substrings. `CanonicalFilter.FieldCaseMatters`, `ColonInField` and `StatusCaseMatters` give the failing
  families; `SameTextSameSpans` says exactly when two qualifiers with one text match the same spans.
- Two files, one at the other's canonical name and the other at the first one's staging name, go back
  where they were at every boot (`Migration.Directory.SweepDeadlock`, `Selection.DeadlockExists`).
- A single run's breakdown by name loses spans exactly when a span named `__overflow__` has a row and more
  names came than fit, so that the overflow has one too (`Tally.NameBreakdownAddsUpWhen`,
  `Tally.SpansAreLost`). A breakdown by group loses spans exactly when two tuples have one label
  (`Tally.GroupBreakdownAddsUpWhen`): a value spelled like a reserved label that has a row
  (`Interning.LabelsApartWhen`), or a separator inside a value (`GroupLabels.JoinedAlikeWhen`,
  `Tally.GroupsAreLost`).
- The check of a persisted file's counts saturates, so it accepts files whose negative and malformed counts
  together exceed 64 bits, and the number of well-formed spans underflows for exactly those
  (`PersistedStats.RestoredNeverUnderflows`, `PersistedStats.SaturationHidesAnExcess`).
- A span of more than 292 years wraps when its duration is taken, in a build without overflow checks
  (`Stats.ClassifyTrue`).

Functions that describe bytes, instants, regular expressions or case folding are parameters; what is
needed of them, such as that reading undoes writing, is a premise of the results that use it.

## Model

| member | source | states |
|---|---|---|
| CollectorNames.Encode | crates/core/src/collector/persist.rs:432-445 | The one-pass encoder yields `Encoded`, byte by byte: plain bytes as they are, upper case as `^` and the letter, the rest as `%XX` |
| CollectorNames.Fnv1a64 | crates/core/src/collector/persist.rs:416-423 | The hashing loop yields the 64-bit FNV-1a fold, with the multiplication wrapping |
| CollectorNames.EncodeInjective | crates/core/src/collector/persist.rs:425-445 | Names whose encodings agree once case is folded are the same name |
| CollectorNames.FullInjective | crates/core/src/collector/persist.rs:391-395 | Full file names that agree once case is folded belong to the same owner and the same collector name |
| CollectorNames.FullIsNotShortened | crates/core/src/collector/persist.rs:387-390 | A shortened name never equals a full one, however case is folded |
| CollectorNames.CanonicalLength | crates/core/src/collector/persist.rs:391-411 | No canonical file name is longer than 200 bytes, and no staging name longer than 207 |
| CollectorNames.StagingIsNotCanonical | crates/core/src/collector/persist.rs:469-476 | A staging name is never any collector's canonical name, however case is folded |
| CollectorNames.CanonicalInjective | crates/core/src/collector/persist.rs:391-405 | Two collectors share a file name only if both names were shortened and their 64-bit hashes are equal |
| CollectorNames.PlainCanonical | crates/core/src/collector/persist.rs:391-395 | Owner and name made of lower-case letters, digits, `-` and `_` stand in the file name as they are, with dots between |
| CollectorNames.ShortenedSpelled | crates/core/src/collector/persist.rs:396-411 | A pair too long to spell out is named by up to eighty characters of each and the hash of both names with the byte 255 between them |
| CollectorNames.FnvKnown | crates/core/src/collector/persist.rs:416-423 | The hash has the published values of 64-bit FNV-1a for no input and for `a` |
| CollectorWorld.WorldLaws | crates/core/src/collector/persist.rs:391-476 | The real names and orders satisfy everything the sweep relies on: canonical and staging names are read and apart, set-aside names are not read and distinct, names and keys are totally ordered |
| CollectorWorld.NoCollisionsApart | crates/core/src/collector/persist.rs:391-405 | Unless two long names present share a hash, every collector present has a file name of its own |
| CollectorWorld.KeyOrderIs | crates/core/src/collector/persist.rs:554-555 | Collectors are listed by owner and then by name, in byte order |
| CollectorWorld.AsideSpelled | crates/core/src/collector/persist.rs:458-466 | What cannot be read is set aside as `.corrupt` and an older copy as `.superseded`, with `.1`, `.2` and so on where that is taken |
| CollectorWorld.BootTwice | crates/core/src/collector/persist.rs:514-628 | After a first boot none of whose renames failed, with no file in another's way, a second boot loads the same list and attempts no rename, whatever would fail in it |
| Selection.NewestWhen | crates/core/src/collector/persist.rs:559-568 | A copy is chosen if and only if no copy is newer, and it is in place, or else the one in place is not among the newest and it sorts first among those |
| Selection.NewestUnique | crates/core/src/collector/persist.rs:559-568 | Newest first, then in place, then by name picks one copy only |
| Selection.AsideLoser | crates/core/src/collector/persist.rs:569-575 | Setting an older copy aside changes no collector's choice |
| Selection.MoveDominant | crates/core/src/collector/persist.rs:583-616 | A copy strictly newer than the others stays the choice under any other `.json` name |
| Selection.MoveKeepsChoice | crates/core/src/collector/persist.rs:561-566 | Moving the chosen copy to a name that is not its canonical one keeps it chosen if and only if every other copy is older or, if as new, sorts after that name |
| Selection.SameLoad | crates/core/src/collector/persist.rs:514-628 | Directories that stand for the same copies load the same list of collectors, in the same order |
| Migration.FreeAside | crates/core/src/collector/persist.rs:458-466 | The candidate loop ends, at the first `<path>.<suffix>[.N]` no file has |
| Migration.Rank | crates/core/src/collector/persist.rs:559-576 | Sorting a collector's copies puts the newest first and lists exactly the others after it |
| Migration.SortedKeys | crates/core/src/collector/persist.rs:554-555 | The collectors are visited once each, in key order |
| Migration.Directory.Rename | crates/core/src/collector/persist.rs:458-490 | One rename into a free name: success moves exactly one file, failure changes nothing |
| Migration.Directory.RenameNoClobber | crates/core/src/collector/persist.rs:482-490 | A taken target is refused without an attempt; otherwise the file moves or nothing changes |
| Migration.Directory.SetAside | crates/core/src/collector/persist.rs:458-467 | A file set aside keeps its contents under the first free set-aside name, or stays where it is |
| Migration.Directory.Scan | crates/core/src/collector/persist.rs:525-549 | Every unreadable `.json` file has one attempt to be set aside as `.corrupt`, whether or not others fail; nothing readable is moved, and every directory state on the way loads the same |
| Migration.Directory.SetAsideLosers | crates/core/src/collector/persist.rs:569-576 | Each older copy has one attempt to be set aside as `.superseded`: it stays if and only if that one fails, and the others are attempted all the same |
| Migration.Directory.Elect | crates/core/src/collector/persist.rs:550-577 | One winner per collector in key order, each the newest copy and still in place; the other copies are set aside as `.superseded` or where they were, and out of sight if no rename has failed so far |
| Migration.Directory.Stage | crates/core/src/collector/persist.rs:583-600 | The staging loop is `Placement.StageUpTo`: every winner out of place goes to its staging name if that is free |
| Migration.Directory.Place | crates/core/src/collector/persist.rs:601-616 | The placing loop is `Placement.PlaceUpTo`, and its list of final paths says where each winner's file is |
| Migration.Directory.LoadAll | crates/core/src/collector/persist.rs:514-628 | For every directory and every choice of failing renames: no file is lost or overwritten; every unreadable file is at a `.corrupt` name and every older copy at a `.superseded` one, or where it was, and out of sight if no rename attempted fails; the list is exactly the newest copy of every readable collector; each final path holds that copy; a crash after any number of renames loads the same if no attempt before it failed, or if every copy left out of place is strictly newest or alone in sight; if none of the renames attempted fails, the directory ends in order if and only if no chosen copy sits where an earlier one must wait, and a pair of files deadlocked over each other's names stays so; and a directory in order is not touched |
| Placement.TrySound | crates/core/src/collector/persist.rs:482-490 | A rename attempt, successful or not, keeps every file found at boot under exactly one name, with its contents |
| Placement.StageTaken | crates/core/src/collector/persist.rs:583-600 | A copy cannot be staged while a later one sits at its staging name |
| Placement.StagedWhen | crates/core/src/collector/persist.rs:583-600 | The first move takes a copy to its staging name if and only if it is out of place and already there, or that name is free and the rename works |
| Placement.PlacedWhen | crates/core/src/collector/persist.rs:604-615 | The second takes it to its canonical name if that is free and the rename works, else back to where it was found if it can, and else leaves it staged |
| Placement.CleanMoves | crates/core/src/collector/persist.rs:578-616 | Only the renames that are attempted matter: if none of them fails, both moves end as if none could fail |
| Placement.MovesConverge | crates/core/src/collector/persist.rs:578-616 | If no rename attempted fails, every chosen copy reaches its canonical name if and only if none sits where an earlier one must wait |
| Placement.BlockedStays | crates/core/src/collector/persist.rs:583-616 | A copy whose staging name a later copy occupies is never moved, whatever else happens |
| Placement.DeadlockStays | crates/core/src/collector/persist.rs:604-615 | Of two copies, one at the other's canonical name and that other at the first one's staging name, both end where they started, so they are there again at every boot |
| Selection.DeadlockExists | crates/core/src/collector/persist.rs:583-616 | For any two collectors with different names there is such a directory of two files |
| Migration.Directory.SweepDeadlock | crates/core/src/collector/persist.rs:604-615 | A sweep none of whose renames fails leaves every deadlocked pair deadlocked, so it is at every boot that follows |
| Placement.MovesSteady | crates/core/src/collector/persist.rs:578-616 | Whatever fails, every directory state during both moves stands for the same copies, if each chosen copy is in place or strictly newest |
| Placement.CrashLoadsSame | crates/core/src/collector/persist.rs:469-473 | A boot after a crash between any two renames loads the same list, wherever the directory stood for the same copies |
| Bridge.Pending.Register | crates/sdk/src/bridge.rs:188-195 | Registration under the lock: refused once closed, otherwise the id is in the table |
| Bridge.Pending.Take | crates/sdk/src/bridge.rs:249-252 | Taking a sender out of the table removes that id only |
| Bridge.Pending.Close | crates/sdk/src/bridge.rs:271-275 | Closing empties the table and marks it, in one step |
| Bridge.InvKept | crates/sdk/src/bridge.rs:179-278 | Every step of a caller or the reader keeps: who is in the table, who has been answered by which frame, and closed exactly when the reader is done |
| Bridge.ClosedForEver | crates/sdk/src/bridge.rs:28-38 | Once closed there are no pending calls, for ever after |
| Bridge.AnswersAreFinal | crates/sdk/src/bridge.rs:202-209 | What a call has returned never changes, and a reply sent to it is never lost |
| Bridge.OnlyOwnReplies | crates/sdk/src/bridge.rs:240-252 | A caller gets an answer only from the first frame with its own id read since it registered, an error exactly if that frame reports one, and no frame answers two callers |
| Bridge.AwaitingIsAccountedFor | crates/sdk/src/bridge.rs:188-210 | A waiting caller is in the open table with nothing for it read yet, or its reply is in the reader's hand, or it can return at once |
| Bridge.AnsweredExactlyWhenRead | crates/sdk/src/bridge.rs:247-258 | While the connection lives, a registered call has been sent a reply if and only if a frame with its id has been read since |
| Bridge.StepsOnlyAdvance | crates/sdk/src/bridge.rs:179-210 | A call's own steps bring it nearer its end and nobody else's take it further away |
| Bridge.NobodyBlocks | crates/sdk/src/bridge.rs:269-275 | Once closed, every call still in progress can take its next step at once |
| Bridge.EveryCallReturns | crates/sdk/src/bridge.rs:269-278 | On a closed connection every call in progress returns within three steps of its own: the frame that was sent to it, as a reply or as an error, whatever has happened since, and `Closed` if there was none |
| Bridge.ReceiveTells | crates/sdk/src/bridge.rs:202-210 | In any state of any run, open or closed, a caller that can receive gets the frame sent to it, as a reply or an error, and `Closed` only if the table is closed |
| Bridge.CallGoesOut | crates/sdk/src/bridge.rs:179-200 | On a living connection a new call comes to wait for its reply |
| Bridge.ReplyComesBack | crates/sdk/src/bridge.rs:247-258 | A frame with a waiting call's id is returned by that call |
| Bridge.CallFails | crates/sdk/src/bridge.rs:192-201 | A request that could not be written is a transport error, and a call that comes after the close is told so at once |
| Bridge.ReaderStops | crates/sdk/src/bridge.rs:240-278 | Whatever the reader is doing, it can come to its end, in a number of steps that its state tells, and wake the watcher |
| Connection.BackoffIs | crates/sdk/src/reconnect.rs:164-222 | The wait doubles from attempt to attempt, up to the maximum |
| Connection.InvKept | crates/sdk/src/reconnect.rs:91-161 | Every interleaved step keeps the invariant behind the results below |
| Connection.OneDriverAlways | crates/sdk/src/reconnect.rs:132-161 | `Reconnecting` holds exactly when one reconnect still has its state change to make, and there are never two |
| Connection.FailedForEver | crates/sdk/src/reconnect.rs:132-138 | `PermanentlyFailed` is never left and its reason never changes |
| Connection.AnonymousNeverReconnects | crates/sdk/src/reconnect.rs:140-147 | A session without a name never enters `Reconnecting`, and no reconnect is ever on its way |
| Connection.NoMissedWake | crates/sdk/src/reconnect.rs:95-125 | A waiter parked before a state change can wake, or one task's next step makes it able to |
| Connection.ReconnectedComesFirst | crates/sdk/src/reconnect.rs:196-207 | `Reconnected` for a resumed bridge precedes every notification read from that bridge |
| Connection.ServedBridgesAreRead | crates/sdk/src/reconnect.rs:201-211 | A bridge handed to a caller is being read from, or a task on its way will start its reader |
| Connection.TasksOnlyAdvance | crates/sdk/src/reconnect.rs:164-234 | Each step of a reconnect brings it nearer its end and no other step touches it |
| Connection.ReconnectEnds | crates/sdk/src/reconnect.rs:175-234 | Left to itself a reconnect settles the connection within a bound set by the configured attempts: the first attempt not refused decides, and if all are refused the session is `Disconnected` |
| Connection.VerdictWhen | crates/sdk/src/reconnect.rs:175-222 | That is: `Connected` to the new bridge at the first attempt resumed, `SessionLost` at the first that starts afresh, `Disconnected` after as many refusals as are configured |
| Connection.NamedReconnects | crates/sdk/src/reconnect.rs:132-161 | From every reachable connected state of a named session, a report is followed by a reconnect that ends as its attempts have it |
| Connection.ReportOtherwise | crates/sdk/src/reconnect.rs:132-147 | An anonymous session is lost at once, and a report about a connection that is down changes nothing |
| Connection.LostOnlyWhenGone | crates/sdk/src/reconnect.rs:149-234 | In no run is a named session lost unless an attempt found that the daemon no longer has it |
| Connection.LostConnectionComesBack | crates/sdk/src/reconnect.rs:132-211 | If an attempt in time resumes the session, a run from the report leaves it connected to the new bridge, announced and read from |
| Connection.LookTells | crates/sdk/src/reconnect.rs:95-125 | A caller is handed the bridge, turned away for the very reason the session failed, or parked, as the connection is up, failed or down |
| Connection.WaiterIsAnswered | crates/sdk/src/reconnect.rs:95-125 | From every state of a reconnect, a parked caller can come to be handed the new bridge, or turned away for the reason it ended with |
| YamlScalar.YamlStr | crates/core/src/collector/document.rs:1836-1863 | The escaping loop yields `Quoted` |
| YamlScalar.EscapedStaysOnOneLine | crates/core/src/collector/document.rs:1827-1857 | Escaped text holds no control character and no line break of any kind |
| YamlScalar.Unescape | crates/core/src/cases/read.rs:149-209 | The un-escaping loop yields `Unescaped`, refusing every escape the escaper does not write but `\xHH` in another spelling |
| YamlScalar.UnescapeEscape | crates/core/src/cases/read.rs:144-209 | Un-escaping undoes escaping, for every string |
| YamlScalar.QuotedRoundTrip | crates/core/src/cases/read.rs:246-278 | A quoted scalar reads back as the string it was made from, whatever follows it |
| FlowScanner.NoProgress | crates/core/src/cases/read.rs:379-401 | A value takes no input exactly at the end or at a character that stops an unquoted word |
| FlowScanner.Cur.Quoted | crates/core/src/cases/read.rs:249-278 | The cursor's scan of a quoted scalar is `QuotedFrom` of the remaining input, and moves forward |
| FlowScanner.Cur.Word | crates/core/src/cases/read.rs:281-292 | The cursor's unquoted word is the trimmed text up to the first stopping character |
| FlowScanner.Cur.ParseValue | crates/core/src/cases/read.rs:294-302 | The cursor's value, and where it stops, are `ValueFrom`'s; the mutual recursion ends because the remaining input shrinks |
| FlowScanner.Cur.FlowMap | crates/core/src/cases/read.rs:304-356 | The mapping loop is `MapFrom`, each turn returning or moving forward; of a repeated key the last value counts |
| FlowScanner.Cur.FlowSeq | crates/core/src/cases/read.rs:358-406 | The sequence loop is `SeqFrom`; the progress guard is what makes each turn return or move forward |
| FlowPrinter.PrintParses | crates/core/src/cases/read.rs:294-406 | Reading undoes printing for values nested to any depth, with any input after them |
| FlowPrinter.PrintsOnOneLine | crates/core/src/cases/document.rs:319-398 | A printed value is one line and trimming leaves it alone |
| FieldNames.NamesDistinct | crates/core/src/cases/document.rs:322-428 | The keys and field names written are pairwise different |
| FrontMatter.Render | crates/core/src/cases/document.rs:322-398 | The printer's lines, appended one by one, are the front matter of the capture; evidence left out has no key |
| FrontMatterFormat.FrontMatterSpelled | crates/core/src/cases/document.rs:322-398 | The front matter is, key by key in order, the lines spelled out field by field: a second definition that shares no node, word or order with the printer |
| FrontMatterFormat.CoverageIs | crates/core/src/cases/document.rs:256-262 | The core keys listed as missing are exactly those the registry lacks, in their order, and the number printed is that of the others |
| FrontMatterFormat.PlainTextKept | crates/core/src/collector/document.rs:1836-1863 | Text without breaks, quotes or backslashes is written as it is |
| FrontMatterFormat.SpecialsEscaped | crates/core/src/collector/document.rs:1836-1863 | The escapes of the characters that have one |
| FrontMatter.ParseFrontMatter | crates/core/src/cases/read.rs:604-788 | The reader's loop over lines, with a cursor on each, yields `ParsedFrontMatter` |
| FrontMatterFormat.NewerRefused | crates/core/src/cases/read.rs:628-642 | A document of a newer format is refused, with the format it declares |
| FrontMatterFormat.AcceptedHas | crates/core/src/cases/read.rs:628-788 | Whatever document is accepted has every required key and a known format, and exactly the evidence keys that it reports |
| FrontMatterFormat.EscapeRefused | crates/core/src/cases/read.rs:149-209 | An escape is refused if and only if it is none of the eight short ones nor `x` with a hexadecimal byte |
| FrontMatterLines.PrintedBlock | crates/core/src/cases/read.rs:590-595 | The fence is found where it was written, whatever body follows |
| FrontMatterLines.BlockParses | crates/core/src/cases/read.rs:607-626 | Each printed line is read as its key and its value |
| FrontMatterRoundTrip.InterpretTop | crates/core/src/cases/read.rs:628-788 | Every field is read back from the map the lines leave, in the reader's order of checks |
| FrontMatterRoundTrip.ReadsBack | crates/core/src/cases/read.rs:604-788 | Reading a printed capture gives every field as captured, an incarnation called `null` as none |
| FrontMatterRoundTrip.RoundTrip | crates/core/src/cases/read.rs:758-761 | Every field comes back unchanged, for all texts and any body, if and only if the incarnation is not called `null` |
| Stats.ClassifyTrue | crates/core/src/collector/exact.rs:35-51 | The recorded class is that of the true duration if and only if the true difference fits in 64 bits |
| Stats.ExactStats.Record | crates/core/src/collector/exact.rs:98-119 | Recording a span updates every figure as `Recorded` says |
| Stats.ExactStats.Merge | crates/core/src/collector/exact.rs:173-190 | Merging adds two sets of figures, or refuses two layouts and changes nothing |
| Stats.CountersCount | crates/core/src/collector/exact.rs:58-80 | Each counter is the number of spans its name says |
| Stats.FiguresDescribe | crates/core/src/collector/exact.rs:57-81 | The total, least, greatest and sketch are those of the durations that could be measured |
| Stats.ClampedIs | crates/core/src/collector/exact.rs:57-81 | The sketch holds a duration as itself within its range, and as the nearer end of it otherwise |
| Stats.OfConcat | crates/core/src/collector/exact.rs:171-190 | Merging two folds is folding the concatenation |
| Stats.OfAnyOrder | crates/core/src/collector/exact.rs:29-34 | The order spans arrive in makes no difference |
| Stats.OfSane | crates/core/src/collector/exact.rs:121-126 | The count of well-formed spans never underflows and equals the number in the sketch |
| Stats.SumSane | crates/core/src/collector/exact.rs:171-190 | Merging keeps that, and the bounds of the total by the extremes |
| Stats.AverageBetween | crates/core/src/collector/exact.rs:128-131 | There is an average exactly when there are extremes, and it lies between them |
| Stats.TotalFits | crates/core/src/collector/exact.rs:61-70 | While the span count fits in 64 bits the total fits in 128, whatever the durations |
| PersistedStats.I128RoundTrip | crates/core/src/collector/persist.rs:84-87 | The decimal text of a 128-bit total parses back to it |
| PersistedStats.RestorePersisted | crates/core/src/collector/persist.rs:100-155 | Restoring undoes persisting if and only if the layout is known and the counts agree as the saturating check sees it |
| PersistedStats.RestoredWhen | crates/core/src/collector/persist.rs:100-155 | Of any file: exactly which are accepted, and that each figure restored is the file's |
| PersistedStats.RecordedComesBack | crates/core/src/collector/persist.rs:100-155 | Everything recorded comes back as it was |
| PersistedStats.RestoredNeverUnderflows | crates/core/src/collector/persist.rs:121-136 | Of any accepted file, the restored count of well-formed spans is negative if and only if the file's negative and malformed counts together exceed 64 bits |
| PersistedStats.SaturationHidesAnExcess | crates/core/src/collector/persist.rs:127-130 | Such a file is accepted: a concrete one, whose count is the largest there is |
| Interning.Interner.Intern | crates/core/src/collector/intern.rs:51-63 | A known value keeps its id, a new one gets the next, and past the cap values go to the overflow |
| Interning.Interner.Resolve | crates/core/src/collector/intern.rs:65-75 | An id resolves to its value, or to a reserved label |
| Interning.IdsAreStable | crates/core/src/collector/intern.rs:45-75 | The id a value was given resolves to it, or to the overflow label if it did not fit, however the table grows |
| Interning.LabelsApartWhen | crates/core/src/collector/intern.rs:9-18 | Of the ids that have rows no two resolve to one label if and only if no value with a row is spelled like a reserved label with a row, and at most one row is for what did not fit |
| GroupLabels.JoinedAlikeWhen | crates/core/src/collector/diff.rs:1515-1532 | Two group labels of as many parts are equal if and only if their parts are, or some part runs on past the separator into what follows it in the other |
| GroupLabels.SafePartsAreTold | crates/core/src/collector/diff.rs:1515-1532 | Where no part but the last holds a separator or the beginning of one at its end, the label tells the parts |
| GroupLabels.UnsafePartsAreNot | crates/core/src/collector/diff.rs:1515-1532 | A first part can be misread for another if and only if it is not of that kind |
| GroupLabels.SeparatorChangesSides | crates/core/src/collector/diff.rs:1515-1532 | For all values and any number of keys: a separator inside one value and inside the next gives one label for two groups |
| Tally.Collector.InternAll | crates/core/src/collector/state.rs:230-257 | The loop over group keys interns each value the span has and yields its tuple of ids, the absent id where it has none |
| Tally.Collector.Ingest | crates/core/src/collector/state.rs:218-267 | One span updates the total, its name's row and its tuple's row as `Ingested` says; a new tuple beyond the cap goes to the all-overflow row |
| Tally.RowsReconcile | crates/core/src/collector/state.rs:218-267 | After any spans the rows by name add up to the total in every figure, so do those by group, and the total is that of all the spans |
| Tally.NameRowsAre | crates/core/src/collector/state.rs:227-230 | Each row by name holds exactly the statistics of the spans with its id, and names are missing from the table only when it is full |
| Tally.GroupRowsAre | crates/core/src/collector/state.rs:230-257 | Each row by group but the all-overflow one holds exactly the statistics of the spans with its tuple, and a tuple has no row only if no span has it or 256 have one |
| Tally.PartsOfSpan | crates/core/src/collector/state.rs:230-257 | A span's group reads, key by key, its value, `__absent__` or, where the value did not fit, `__overflow__` |
| Tally.NamesApartWhen | crates/core/src/collector/state.rs:227-230 | The rows by name have different labels if and only if no span named `__overflow__` was interned or every name fitted |
| Tally.NameBreakdownAddsUpWhen | crates/core/src/collector/diff.rs:292-297 | Listed by label, as a single arm lists them, the rows by name still add up to the total under exactly that condition |
| Tally.GroupBreakdownAddsUpWhen | crates/core/src/collector/diff.rs:298-303 | Listed by label, the rows by group still add up if and only if no two tuples have one label |
| Tally.TuplesAlikeWhen | crates/core/src/collector/diff.rs:1515-1532 | Two tuples have one label if and only if they resolve to the same parts or one part runs on |
| Tally.OneKeyApart | crates/core/src/collector/diff.rs:1515-1521 | With one group key, tuples have different labels if and only if their ids do |
| Tally.SafeTuplesApart | crates/core/src/collector/diff.rs:1515-1532 | With several they have, if each key's labels differ and no value but the last can be misread |
| Tally.SpansAreLost | crates/core/src/collector/diff.rs:292-297 | A window of 257 spans with different names, the first `__overflow__`: its listed breakdown does not add up |
| Tally.GroupsAreLost | crates/core/src/collector/diff.rs:1515-1532 | For all values u, v, w: after two spans with `u / v`, `w` and `u`, `v / w` under two keys, the listed breakdown by group does not add up |
| MergeRuns.MergeByLabel | crates/core/src/collector/diff.rs:203-223 | The merging loops yield `MergedByLabel` of all runs' rows |
| MergeRuns.NoLabelDropped | crates/core/src/collector/diff.rs:197-202 | With one sketch layout no merge fails, so the merged table has every label |
| MergeRuns.MergeAnyOrder | crates/core/src/collector/diff.rs:203-223 | Neither the order of runs nor of a hash map's rows makes a difference |
| MergeRuns.MergeConserves | crates/core/src/collector/diff.rs:203-223 | The merged entries add up to the rows, in every figure |
| MergeRuns.MergedEntry | crates/core/src/collector/diff.rs:203-223 | Each entry of the merged table is the sum of the rows with its label |
| MergeRuns.UnmergeableDropped | crates/core/src/collector/diff.rs:197-223 | Rows that cannot be merged leave their label without an entry |
| MergeRuns.MergeTotals | crates/core/src/collector/history.rs:386-406 | The merging loop yields `MergedTotals` |
| MergeRuns.TotalsMergeWhen | crates/core/src/collector/history.rs:386-406 | Totals combine, to their sum, if and only if all have the first one's layout; otherwise the first that has not is named |
| MergeRuns.MergedRunsReconcile | crates/core/src/collector/diff.rs:382-440 | If each run's rows add up to its total, the merged rows add up to the merged total, even where two ids resolve to one label |
| MergeRuns.SingleRunReconciles | crates/core/src/collector/diff.rs:323-339 | A single run's collected breakdown adds up if and only if its labels are distinct |
| DiffRows.ReportedMeansReal | crates/core/src/collector/diff.rs:1570-1604 | An estimated difference that is not held back has the direction of the true one, whatever the floor |
| DiffRows.DeltaLeads | crates/core/src/collector/diff.rs:1622-1669 | In every row the second side is the first plus the difference, and the first changed by the percentage |
| DiffRows.ReportedDelta | crates/core/src/collector/diff.rs:1570-1604 | For all truths behind the readings the difference reported is within 1% of their sum of the true one, and unless it is held back has its sign |
| DiffRows.ExactHeldBackWhen | crates/core/src/collector/diff.rs:1545-1568 | A metric without measurement error is held back if and only if there is a floor and the change is within it |
| DiffRows.BindingFloorIs | crates/core/src/collector/diff.rs:1671-1675 | Two arms share a floor if and only if both have one, and it is the larger |
| DiffRows.ReportedExactlyWhenCertain | crates/core/src/collector/diff.rs:1570-1604 | Where the sketch's resolution decides, a difference is reported if and only if every pair of truths behind the readings differs in its direction |
| DiffRows.ErrorBoundDecides | crates/core/src/collector/diff.rs:1586-1604 | For any floor and values that differ, the difference is held back if and only if the printed error bound is at least 100% times the resolution over the deciding percentage |
| DiffRows.ErrorBoundTellsSuppression | crates/core/src/collector/diff.rs:1592-1603 | Where the resolution decides, if and only if it is at least 100% |
| DiffRows.FloorHoldsBackMore | crates/core/src/collector/diff.rs:1586-1590 | With a larger floor, a difference whose direction is certain is held back if and only if its error bound lies between those two |
| DiffRows.RowsAreSymmetric | crates/core/src/collector/diff.rs:1545-1675 | Swapping the arms negates the difference and changes neither threshold, floor, error bound nor suppression |
| Comparison.TrustedExactlyWhenSound | crates/core/src/collector/diff.rs:991-996 | A report is trusted if and only if the arms share filter, level and group keys, neither lost spans, truncated, capped nor may nest, and both merge several runs |
| Comparison.RefusedWhen | crates/core/src/collector/diff.rs:778-902 | There is no report exactly for different layouts, and unless allowed for different filters, loss known on one side only, or truncation on both; the first of these is the reason given |
| Comparison.RowsShowTheArms | crates/core/src/collector/diff.rs:848-1297 | Every row of a report shows what both arms have, on the side it is theirs, compared as its metric asks for |
| Comparison.NothingMissing | crates/core/src/collector/diff.rs:848-1297 | And every metric that can be compared has its row |
| Comparison.CountMovedWhen | crates/core/src/collector/diff.rs:1677-1684 | Averages are not compared exactly when the counts differ by more than a hundredth of the larger |
| Comparison.LevelIsLower | crates/core/src/collector/diff.rs:903-903 | The level of a report is the lower of the two |
| Comparison.OmittedWhen | crates/core/src/collector/diff.rs:1203-1297 | A report says that sampled figures were left out if and only if it has no row for them |
| Comparison.RowsOfSwapped | crates/core/src/collector/diff.rs:1127-1297 | Row by row, swapping the arms exchanges the sides and negates the difference |
| Comparison.DiffIsSymmetric | crates/core/src/collector/diff.rs:778-1011 | Swapping the arms gives the same refusal, or the same level, trust and marks and the same thresholds and suppression in every row |
| Breakdown.CollectKeys | crates/core/src/collector/diff.rs:1377-1391 | Each key that is not the overflow's is collected once, and the others are counted |
| Breakdown.BeforeRanks | crates/core/src/collector/diff.rs:1450-1467 | The ranking is a strict total order on rows with different keys |
| Breakdown.OneBreakdown | crates/core/src/collector/diff.rs:1395-1467 | There is one breakdown only, however the hash maps iterate |
| Breakdown.GroupRows | crates/core/src/collector/diff.rs:1377-1470 | The rows returned are the first `top_n` of the breakdown, and the total counts all of it: shared rows first, those that moved most before the others, the lesser key first on a tie; each shows both arms' entries, and no shared row left out moved more than one that was kept |
| Breakdown.OverflowPart | crates/core/src/collector/diff.rs:1515-1543 | Where a joined label tells its parts, it counts as the overflow's if and only if one of its parts is the overflow label |
| Breakdown.BreakdownSwaps | crates/core/src/collector/diff.rs:1395-1467 | Swapping the arms swaps each row's sides and leaves the ranking alone |
| Breakdown.MovementsReconcile | crates/core/src/collector/diff.rs:1377-1470 | The movement of a table's sum is that of shared keys, plus what only the second arm has, minus what only the first has, plus the overflow rows' difference |
| CanonicalFilter.SameTextSameSpans | crates/core/src/collector/diff.rs:1744-1781 | Two qualifiers with one text match the same spans if and only if their field names are the same as written, or neither matches anything, and their status substrings are the same or neither is a status word |
| CanonicalFilter.SameFormSameSpans | crates/core/src/collector/diff.rs:1714-1741 | Filters with one canonical form accept the same spans if they agree, in that sense, on every text they share |
| CanonicalFilter.AlikeFiltersSameSpans | crates/core/src/collector/diff.rs:1714-1781 | In particular filters with colon-free field names, if names and status substrings equal in lower case are equal as written |
| CanonicalFilter.OneQualifier | crates/core/src/collector/diff.rs:1714-1781 | For filters of one qualifier the condition is exact |
| CanonicalFilter.OrderForgotten | crates/core/src/collector/diff.rs:1717-1741 | The order of qualifiers makes no difference to the canonical form |
| CanonicalFilter.DurationBounds | crates/core/src/filter/matcher.rs:130-200 | A lower and an upper bound accept the durations between them, ends included |
| CanonicalFilter.SequenceBounds | crates/core/src/filter/matcher.rs:130-200 | Bounds on the sequence number are strict, and a cursor accepts what comes after it |
| CanonicalFilter.PatternsAndWords | crates/core/src/filter/matcher.rs:160-200 | A substring is found wherever it occurs; a status word names its status and any other text only a failure's message; log selectors match no span |
| CanonicalFilter.FieldCaseMatters | crates/core/src/filter/matcher.rs:189-193 | Field names that differ in case have one canonical form, but the filters accept the same spans if and only if the names are the same |
| CanonicalFilter.ColonInField | crates/core/src/collector/diff.rs:1748-1778 | For every name and substring: a colon in the field name gives two filters one canonical form, and one of them alone accepts a span carrying that field |
| CanonicalFilter.StatusCaseMatters | crates/core/src/filter/matcher.rs:172-183 | Status substrings that differ in case have one canonical form, but the filters accept the same spans if and only if neither is a status word |
| Arms.Combine | crates/core/src/collector/diff.rs:382-440 | An arm over several runs: refused at the first run whose filter form, level or group keys differ from the last one's, else the merged total with each breakdown merged if every run has it |
| Arms.RecordedIsConsistent | crates/core/src/collector/state.rs:218-267 | Every run recorded from a window, with or without group keys and breakdowns, is consistent: its rows add up to its total, and without group keys there are none by group |
| Arms.CombinedAddsUp | crates/core/src/collector/diff.rs:366-371 | A combined arm's breakdowns add up to its total, and are left out if and only if some run lacks one; without group keys the one by group is empty |
| Arms.GroupedOrNot | crates/core/src/collector/diff.rs:395-417 | Runs that pass the definition check all have group keys or all have none |
| Arms.MovementsAccountForTotals | crates/core/src/collector/diff.rs:1377-1470 | Between arms whose breakdowns add up, the totals move by the movements of the compared keys and of the rows left out as overflow |
| Arms.CombinedArmsMove | crates/core/src/collector/diff.rs:382-440 | So they do, by name, between any two combined arms of consistent runs, grouped or not |
| Arms.CombinedGroupsMove | crates/core/src/collector/diff.rs:382-440 | And by group, where the runs have group keys |
| History.History.ReserveLabel | crates/core/src/collector/history.rs:253-272 | A requested label is refused if invalid or live; an automatic one is the first free number from the counter on |
| History.History.NextAuto | crates/core/src/collector/history.rs:264-270 | The search for a free number ends, and moves the counter past it |
| History.FirstFreeIs | crates/core/src/collector/history.rs:249-272 | The search passes over live labels only, so it needs at most one try more than there are live runs |
| History.ReservedWhen | crates/core/src/collector/history.rs:253-272 | A requested label is given if and only if it is valid and no live run has it; an automatic one is always given, has the next number and is nobody's |
| History.ValidLabelWhen | crates/core/src/collector/history.rs:228-234 | Which characters a label may have, by their codes, and that it has one |
| History.RestoredIs | crates/core/src/collector/history.rs:306-314 | A restart keeps the counters it was given and the last runs that fit |
| History.FiftyKept | crates/core/src/collector/history.rs:274-281 | One process keeps every run up to the fiftieth, and then always fifty |
| History.History.Push | crates/core/src/collector/history.rs:275-281 | A run is appended and the oldest are pushed out to keep the cap |
| History.InvKept | crates/core/src/collector/persist.rs:654-665 | Recording and restarting keep live labels distinct, the cap, and automatic numbers climbing |
| History.AutoLabelsNeverRepeat | crates/core/src/collector/history.rs:306-314 | No automatic label is given out twice, restarts included |
| History.MostRecentKept | crates/core/src/collector/history.rs:274-281 | Within one process the live runs are the most recent in order, and pushed runs are live or counted as evicted |
| CaseClaim.FileNamesDistinct | crates/core/src/cases/naming.rs:95-101 | No file name belongs to two stems, or to one twice |
| CaseClaim.RolledIsNotBase | crates/core/src/cases/write.rs:70-76 | A re-rolled stem is nobody's first choice |
| CaseClaim.InvKept | crates/core/src/cases/write.rs:150-184 | Every step of every writer keeps: a writer's files are exactly those its claim has in hand, and what it could not remove |
| CaseClaim.OpenTells | crates/core/src/cases/write.rs:150-166 | A file is opened if and only if its name is free and nothing else goes wrong; a name taken leads to another stem and any other error to giving up |
| CaseClaim.UndoneGoesOn | crates/core/src/cases/write.rs:66-87 | Undone, a claim that found a name taken tries again with a new suffix on the first stem, up to eight stems in all |
| CaseClaim.ClaimsOnlyAdvance | crates/core/src/cases/write.rs:66-184 | Every step of its own brings a claim nearer to its end, and no other step touches it |
| CaseClaim.LoneClaimSucceeds | crates/core/src/cases/write.rs:66-87 | By itself, where none of its names is taken, a claim gets the stem it wants |
| CaseClaim.NothingOverwritten | crates/core/src/cases/write.rs:154-166 | No existing file is ever replaced, and a rollback removes only files its own claim created |
| CaseClaim.ClaimsDisjoint | crates/core/src/cases/write.rs:66-87 | Two claims that succeeded share no file, and each has all of its own |
| CaseClaim.NothingLeftBehind | crates/core/src/cases/write.rs:158-166 | A claim given up leaves nothing behind but what could not be removed |
| CaseClaim.ExactlyOneBare | crates/core/src/cases/write.rs:66-87 | With no foreign file under a bare stem and no other error, exactly one of those that want it gets it, whoever else claims at the same time |
| CaseRecords.WriteJsonl | crates/core/src/cases/write.rs:211-239 | The writer's lines are the header and the records, and its figures are their number and the size in bytes |
| CaseRecords.ReadEvidence | crates/core/src/cases/load.rs:239-293 | The reading loop yields `Evidence`, with the ceiling checked before each record is kept |
| CaseRecords.LineRead | crates/core/src/cases/load.rs:262-293 | A line that is no record is refused by its number, and one above the ceiling before it is kept |
| CaseRecords.FirstLineIsNought | crates/core/src/cases/load.rs:262-281 | Lines after the header are numbered from nought |
| CaseRecords.NewerFormatRefused | crates/core/src/cases/load.rs:296-319 | A header of a newer format is refused, whatever follows it |
| CaseRecords.FirstOutOfPlace | crates/core/src/cases/load.rs:341-361 | The first record outside the window or not above its predecessor is what the check reports |
| CaseRecords.TooManyComesFirst | crates/core/src/cases/load.rs:152-170 | Two files too large together are refused for that, whatever else is wrong with their order |
| CaseRecords.WrittenEvidenceReads | crates/core/src/cases/load.rs:239-293 | What was written reads back as exactly the same records if and only if the declared count is theirs and not above the ceiling |
| CaseRecords.ThreeAnswers | crates/core/src/cases/load.rs:233-251 | Left out, empty and lost evidence are three different answers |
| CaseRecords.SwappedFilesRefused | crates/core/src/cases/load.rs:310-319 | A file of one kind is never read as another's |
| CaseRecords.ValidateSeqs | crates/core/src/cases/load.rs:329-361 | The checking loop yields the first record out of place, if any |
| CaseRecords.ChecksExactly | crates/core/src/cases/load.rs:323-361 | The check passes if and only if the window is not inverted and the records are strictly ascending inside it |
| CaseRecords.AcceptedIsSound | crates/core/src/cases/load.rs:134-188 | Any case accepted has its declared counts, ascending records inside its window, its own file names, and a bounded total |
| CaseRecords.WrittenCaseLoads | crates/core/src/cases/load.rs:152-170 | With either kind of evidence declared or left out, files that were written load as written if and only if the declared names and counts are theirs, the records are in order and in the window, and not too many |
| CaseLoad.CapturedCaseLoads | crates/core/src/cases/load.rs:134-188 | A case whose document was printed and whose files were written loads as captured, whatever the document's body, if and only if what the capture declares is true of the records |
| CaseLoad.LoadedCaseFits | crates/core/src/cases/load.rs:134-188 | Whatever the three files hold, an accepted case is what its parsed document declares and the stores require |
| CaseLoad.DocumentComesFirst | crates/core/src/cases/load.rs:134-160 | What is wrong with the document is reported before anything about the other two files |
| Throttle.InvKept | crates/core/src/throttle.rs:41-50 | Every atomic step of any thread, reads as stale as may be, keeps counts distinct and logged times climbing by an interval |
| Throttle.AtMostOneAnInterval | crates/core/src/throttle.rs:41-50 | Any two logged times are as many minutes apart as there are lines between them |
| Throttle.LoneHit | crates/core/src/throttle.rs:41-50 | A hit that nobody gets in the way of is logged, with the count so far, if and only if a minute has passed since the last line |
| Throttle.EveryHitCounted | crates/core/src/throttle.rs:41-43 | Every hit carries its own count, none above the total, and the total is their number |
| Throttle.SilenceExplained | crates/core/src/throttle.rs:44-50 | A hit not logged came within an interval of the time it read, or somebody has logged since that time |
| Throttle.SomethingIsLogged | crates/core/src/throttle.rs:10-16 | Once any hit has come to its end something has been logged |
| Pacing.PacedAccepts.PollNext | crates/core/src/throttle.rs:129-166 | One poll, case by case: nothing while a pause is under way, otherwise what the listener offers; a success starts the count afresh and a failure after a failure starts a pause |
| Pacing.RowCounted | crates/core/src/throttle.rs:99-166 | The count kept is the length of the row of failures since the last success, as far as 32 bits go |
| Pacing.RepeatedFailuresWait | crates/core/src/throttle.rs:99-102 | After a repeated failure the listener is asked again only once a pause is over |

## Left out

- Sockets, the async runtime and real time: time is a number, a sleep is a step, and a notify wakes those that subscribed before it.
- JSON and RFC 3339 encodings, the zip container and its compression: encoders with round-trip premises stand for them.
- The sketch's buckets: a sketch is its layout and the multiset of what was put in, and a reading is within 1% of the truth.
- Rounding: totals are integers of nanoseconds and percentages are reals, so ties that only rounding makes are not modelled.
- Counters near 2^64, except where said: call ids, hit counts and span counts are unbounded.
- Migration.Directory.LoadAll: the two lists of files set aside and their messages are not returned; reading a file and its write time cannot fail apart from the file being unreadable.
- Migration.Directory.LoadAll: that a crash loads the same is claimed only if no rename had failed before it, or every newest copy out of place is strictly newer than the others or the others were set aside; `Selection.MoveKeepsChoice` says exactly when a tied copy stays chosen.
- YamlScalar.Unescape: the error does not say which escape was refused or where.
- FlowScanner.Cur.Quoted: errors do not carry the byte offset at which scanning stopped.
- FlowScanner.Cur.ParseValue: errors do not carry the byte offset at which scanning stopped.
- FlowScanner.Cur.FlowMap: errors do not carry the byte offset at which scanning stopped.
- FlowScanner.Cur.FlowSeq: errors do not carry the byte offset at which scanning stopped.
- FrontMatter.ParseFrontMatter: errors carry their kind, key and offending word but not the byte offset, nor the text of what was found instead.
- FrontMatter.Render: the document body, its tables and its notes; the stem is taken to be letters, digits, `-` and `_`, as the naming code makes it, or any other clean word.
- Connection.ReconnectEnds: the jitter on the wait between attempts, and that waiting ends.
- Bridge.EveryCallReturns: that the runtime lets a task that can go on do so; and a write to the socket is one step that succeeds or fails, so a write that blocks for ever is not modelled.
- Comparison.DiffIsSymmetric: the wording of marks, notes and reasons, and which arm a mark names; the rows by name and group and the overflow count are `Breakdown.BreakdownSwaps` and not part of this report.
- MergeRuns.MergedRunsReconcile: the definition check and the all-or-none rule for breakdowns are in `Arms.Combine`.
- Breakdown.MovementsReconcile: speaks of the tables alone; `Arms.MovementsAccountForTotals` ties it to the arms' totals.
- Tally.Collector.Ingest: the sample tier and the threshold window, which are updated after the rows.
- Arms.Combine: loss, sample completeness, wall time, nesting, paths and the floors of the combined arm.
- Breakdown.GroupRows: the percentile and average rows under each key, and the reasons given when a breakdown is not available.
- CanonicalFilter.SameFormSameSpans: the filter parser itself; and whether the filters differ where they disagree on a text is settled for single qualifiers only, since other qualifiers may leave no span to tell them apart.
- History.History.Push: what a run holds besides its label.
- History.InvKept: a restart is taken to find the counters as they were after the last run was recorded; a process that dies before saving them is not modelled.
- Connection.InvKept: the first connection is made and read from before anyone else holds the session, as the connecting code has it.
- CaseClaim.ExactlyOneBare: creating the directory, and files deleted by others.
- CaseRecords.WriteJsonl: a record that cannot be serialised, and a write that fails.
- CaseRecords.AcceptedIsSound: takes what the document declares; `CaseLoad.LoadedCaseFits` starts from the document's text.
- CaseLoad.CapturedCaseLoads: the registry block, the bundle form of a case, a path that is not absolute, and files that cannot be read.
- Retry helpers, service installation, the protocol's plain data types, rendering and the command line: they would add easy members only.
