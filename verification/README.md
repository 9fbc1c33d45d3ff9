# A Dafny model of config_monitor and of the algorithm kernels it ships with

`config_monitor` watches configuration: nodes of a ZooKeeper server (through `cppzk`) or local files
(through `loc_file`). Watches are one-shot, answers and events travel on wires, and other clients
write at any moment, so the interesting question is what the user is told in the end. The repository
also carries a C getopt and a copy of googletest with a few small but intricate algorithms.

The project models the hard parts of both and proves what they promise, over all inputs and all runs.

| files | what they model |
|---|---|
| `Zk`, `Seqs` | shared vocabulary |
| `SubWatch`, `SubWatchContexts`, `SubWatchListing`, `SubWatchConvergence`, `SubWatchExact` | `watch_sub_path` as a step machine: server, armed watches, two FIFO wires, context table, cached child set, log of notifications |
| `SubWatchHistory` | what the user of `watch_sub_path` is told on the way, in every run |
| `SubWatchClient` | the client of that machine as an object whose callbacks change it |
| `PathWatch`, `PathWatchConvergence`, `PathWatchHistory` | the same for `watch_path` |
| `Session` | what survives an expired session |
| `Paths`, `ZkTree`, `AsyncChain`, `TreeOps`, `ChainOutcome` | `split_path`, recursive listing, create-with-prefixes and recursive delete, each with its completion-driven version; what they leave on the tree and when they succeed |
| `LocalFile`, `LocalFileKeeps`, `LocalFilePoll`, `LocalFileTimes`, `LocalFileSilence`, `LocalFileHistories` | the polling monitor of local files: the object and what it computes, what every run keeps, what callbacks are told, what recorded times mean, when callbacks stay silent, two histories |
| `BlockExchange`, `Getopt`, `GetoptRoles` | `permute_args`, the permuting scan of `getopt_internal`, and what it takes each element for |
| `Glob`, `Edits`, `EditsMinimal`, `UnifiedDiff`, `Regex`, `RegexMatch`, `RegexAtoms`, `Utf8` | googletest's filter matcher, edit scripts and unified diff, mini regex engine, UTF-8 validator and encoder |

`dafny verify dfyconfig.toml` checks everything.

## How the protocol is modelled

A `State` holds the server, the requests and messages under way and the client. A `Step` is a write by
another client, the server answering the oldest request, or the client handling the oldest message. A
run is any sequence of enabled steps, so every interleaving is covered. `Apply` says what a step does;
the classes `SubMonitor` and `PathMonitor` do the client's part by assignment and are proved to become
what `Handle` computes.

The local file monitor is one thread among others. Its poll has a point between any two reads of the
disk; a `plan` lists what other programs write and which watches the user registers at each point. The
class `LocFile` is proved to become what `Polled` computes for the plan at hand, and the results hold for
every plan and every order in which its hash maps are gone through.

## Results that say where the code falls short

Each of these is a property that does not hold everywhere; the model follows the code, shows an input
for which it fails and proves exactly when it holds.

- `watch_sub_path` does not converge when a child is deleted and re-created before the next listing, or
  deleted while it is being read again. `SubWatchExact.SafeExactlyWhenConverging`: after a safe write every
  way of draining the messages ends with the user informed, after any other none does.
  `RecreationIsMissed` and `DeletionIsMissed` are concrete runs.
- A child of `watch_sub_path` that was deleted and re-created while it was being read again can end up with
  two read contexts; its next deletion is then told twice. `SubWatchHistory.ToldOncePerWatch` says how
  often a deletion is told, `DisciplinedToldOnce` that after a safe deletion it is once for a child the user
  knows and never otherwise, `ToldTwice` is a concrete run.
- `watch_path` does not report a target that is deleted and re-created before the re-check.
  `PathWatchConvergence.SafeExactlyWhenConverging` and `RecreationIsMissed`.
- `exists_path` and `get_path_value` watch a path for the first callback only, and `get_path_value` only if
  the file exists. `LocalFilePoll.WatchedExactlyWhenFree` and `StatusesAlternate` say exactly which
  callbacks are watched for; any other is told what it was registered with and nothing else. A callback
  registered while the poll is about to forget the path is such a one: `LocalFileHistories.LostRegistration`.
- `handle_monitor_get` reads the modification time before the content. If the file is missing at the
  first read and back at the second, the recorded time is 0, the time that stands for a missing file;
  when the file then goes away, no poll without interleaved writes reports it:
  `LocalFileHistories.DeletionIsMissed`. `LocalFilePoll.QuietPollInforms` gives the exact condition, over
  every registered callback, under which a poll brings a callback up to date.
- `getopt_internal` moves nothing when a cluster of short options ends in a dash that is not an option:
  `Getopt.Scanner.Scan` has the exact condition under which the scan ends in the stable partition.
- googletest's edit scripts need not be minimal: on a tie between adding and removing the table takes a
  replacement, although it weighs more. `EditsMinimal.MinimalExactlyWhenNoneMissed` has the exact condition,
  `SwapIsMissed` an input.
- `CreateUnifiedDiff` with a context of 0 prints nothing even when the sides differ:
  `UnifiedDiff.CreateUnifiedDiff` has the exact condition.
- `RE::FullMatch` adds no closing anchor to a pattern that ends in an escaped `$`, and then accepts
  strings that are not matched as a whole: `RegexMatch.FullMatchIsWhole`, `EscapedDollarAcceptsMore`.
- `CodePointToUtf8` gives bytes that googletest's own validator rejects, exactly for the surrogates and
  for the numbers from 0x110000 to 0x1FFFFF; 0 gives the empty string. `Utf8.EncodeThenValidate`,
  `Utf8.CodePointToUtf8`.

## Model

| member | source | states |
|---|---|---|
| `SubWatchContexts.OneLiveCycle` | src/cppzk/cppzk.hpp:297-355 | in every run, a context has at most one of request, armed watch and event, and its reply precedes its event |
| `SubWatchContexts.NoDangling` | src/cppzk/cppzk.hpp:297-415 | in every run, the next message is for a live context of the right kind, and the event a completion reads is the one that caused its request |
| `SubWatchContexts.DroppedForGood` | src/cppzk/cppzk.hpp:304-309 | a context erased on a deleted event is never again in the table, armed, requested or addressed |
| `SubWatchContexts.StepKeepsContexts` | src/cppzk/cppzk.hpp:297-415 | every step keeps every context in one of the states of its cycle |
| `SubWatchContexts.RunKeepsContexts` | src/cppzk/cppzk.hpp:297-415 | so does every run |
| `SubWatchListing.ListingCurrentOrInFlight` | src/config_monitor.hpp:312-341 | while the parent exists, under any creates, deletes and re-creates, a check or listing is under way, or the child watch is armed and the cached set equals the server's children |
| `SubWatchListing.StepKeepsListing` | src/cppzk/cppzk.hpp:374-415 | every step keeps the one listing context current, in flight or yet to be opened |
| `SubWatchConvergence.Convergence` | src/config_monitor.hpp:281-343 | in every quiescent state of a disciplined run, replaying the notifications gives the server's child-to-value map and each child has exactly one armed context |
| `SubWatchConvergence.StepKeepsDisciplined` | src/config_monitor.hpp:281-343 | every safe step keeps the invariant behind convergence |
| `SubWatchConvergence.QuietConverges` | src/config_monitor.hpp:281-343 | the invariant and empty wires give convergence |
| `SubWatchExact.DrainEnds` | src/cppzk/cppzk.hpp:297-415 | from every reachable state the messages drain to a quiescent one |
| `SubWatchExact.SafeExactlyWhenConverging` | src/config_monitor.hpp:281-343 | after a disciplined run, a step is safe if and only if every drain after it converges, and unsafe if and only if none does |
| `SubWatchExact.UnsafeStepMeans` | src/config_monitor.hpp:281-343 | after an unsafe create the user's map lacks the child at the end of every drain, after an unsafe delete it keeps it |
| `SubWatchExact.QuietWritesAreSafe` | src/config_monitor.hpp:281-343 | deletes and re-creations that start from a quiescent state are safe |
| `SubWatchExact.NewNamesAreSafe` | src/config_monitor.hpp:330-335 | creating a child under a name never used is safe at any time |
| `SubWatchExact.RecreationIsMissed` | src/config_monitor.hpp:330-335 | a run after which a re-created child is in the server and not in the user's map, however the messages drain |
| `SubWatchExact.DeletionIsMissed` | src/config_monitor.hpp:293-299 | a run after which a deleted child stays in the user's map, however the messages drain |
| `SubWatchExact.DrainKeepsBad` | src/config_monitor.hpp:289-301 | a lost child stays lost and a skipped one skipped, however the messages drain |
| `SubWatchHistory.LogIsHistory` | src/config_monitor.hpp:289-301 | in every run, what the user was told and what the queue still holds are together the reads the server answered with a value and the deletions it fired, in the server's order |
| `SubWatchHistory.OneNotePerMessage` | src/config_monitor.hpp:289-301 | a write or an answer of the server tells the user nothing, one handled message at most one thing |
| `SubWatchHistory.ChangesAreReal` | src/config_monitor.hpp:297-299 | in every run, each value told of a child was the child's value on the server when some read was answered |
| `SubWatchHistory.DeletesAreFirings` | src/cppzk/cppzk.hpp:299-309 | in every run, the `del`s told and queued for a child are as many as the watches its deletions fired |
| `SubWatchHistory.DeletesAreAnswered` | src/config_monitor.hpp:293-296 | in every run, at every moment, no more `del`s of a child are told than it was deleted; without a deletion none |
| `SubWatchHistory.ToldOncePerWatch` | src/cppzk/cppzk.hpp:297-314 | whatever the run before, a deletion is told in the end exactly once for each context armed on the child |
| `SubWatchHistory.DisciplinedToldOnce` | src/config_monitor.hpp:281-343 | after a disciplined run a safe deletion fires exactly one watch for a child the user knows or is about to know, none otherwise |
| `SubWatchHistory.ToldTwice` | src/config_monitor.hpp:322-335 | a run with two contexts on one child: its deletion is told twice, however the messages drain |
| `SubWatchClient.SubMonitor.constructor` | src/config_monitor.hpp:305-310 | the state and the request right after `watch_sub_path` |
| `SubWatchClient.SubMonitor.Monitor` | src/config_monitor.hpp:289-303 | opens one context and one read for the child |
| `SubWatchClient.SubMonitor.MonitorNew` | src/config_monitor.hpp:322-335 | opens contexts for exactly the names not cached, in listing order |
| `SubWatchClient.SubMonitor.OnListing` | src/config_monitor.hpp:312-341 | the two branches of the diff become one specification: monitor what is new, replace the cached set |
| `SubWatchClient.SubMonitor.OnFire` | src/cppzk/cppzk.hpp:299-314 | re-arms by asking again; a deleted child or listing drops its context, the child's after a `del` |
| `SubWatchClient.SubMonitor.OnMessage` | src/config_monitor.hpp:289-343 | every callback leaves the object in the state the protocol's specification gives |
| `PathWatch.PathMonitor.OnMessage` | src/config_monitor.hpp:253-268 | every callback of `watch_path` leaves the object in the state the specification gives |
| `PathWatchContext.StepKeepsContext` | src/cppzk/cppzk.hpp:337-355 | every step keeps the exists context in exactly one of its states, its unhandled reply caused by the current event |
| `PathWatchContext.NotifiedVersionsAscend` | src/config_monitor.hpp:246-269 | in every run, also with deletes, the versions the user is told never go backwards |
| `PathWatchConvergence.Convergence` | src/config_monitor.hpp:246-269 | in every quiescent state of a disciplined run the last notification matches the target, value and version |
| `PathWatchConvergence.WithoutDeletesDisciplined` | src/config_monitor.hpp:246-269 | every run without deletes is disciplined |
| `PathWatchConvergence.NeverDeletedConverges` | src/config_monitor.hpp:246-269 | a target absent at first or not, never deleted: every quiescent state has `changed` with its current value last |
| `PathWatchConvergence.DrainEnds` | src/cppzk/cppzk.hpp:337-355 | the messages always drain |
| `PathWatchConvergence.SafeExactlyWhenConverging` | src/config_monitor.hpp:253-268 | after a disciplined run, a step is safe if and only if every drain after it converges, and unsafe if and only if none does |
| `PathWatchConvergence.RecreationIsMissed` | src/config_monitor.hpp:255-267 | a run after which the re-created target is there and the user holds the first version, however the messages drain |
| `PathWatchHistory.LogIsHistory` | src/config_monitor.hpp:253-268 | in every run, told and queued notifications are together the server's history of answered reads and fired deletions, in order |
| `PathWatchHistory.ChangesAreReal` | src/config_monitor.hpp:262-266 | in every run, each version told was the target when some read was answered |
| `PathWatchHistory.NotesAreAnswered` | src/config_monitor.hpp:255-267 | in every run, at every moment, no more `del`s are told than deletions and no more changes than writes and the first look |
| `Session.OneMoreRecord` | src/config_monitor.hpp:246-251 | recording one more watch and opening its context keeps one context per record |
| `Session.ConfigMonitor.WatchPath` | src/config_monitor.hpp:246-253 | records the callback and opens one exists context |
| `Session.ConfigMonitor.WatchSubPath` | src/config_monitor.hpp:281-305 | the same for the children of a path |
| `Session.ConfigMonitor.OnExpired` | src/config_monitor.hpp:94-115 | both records survive, each recorded watch has exactly one context in the new session, the child cache is empty |
| `Session.ConfigMonitor.OnListing` | src/config_monitor.hpp:318-340 | a read context for each listed name that is not cached, once each, no other; that parent's cached set is replaced, the others stay |
| `Session.ConfigMonitor.ExpireThenList` | src/cppzk/cppzk.hpp:578-583 | after any number of expiries the same holds, and the first listing of any parent opens exactly one read context for every child |
| `BlockExchange.Gcd` | 3party/zookeeper-client-c/include/win_getopt.h:181-194 | the loop returns a common divisor that is a combination of both arguments |
| `BlockExchange.GcdIsGreatest` | 3party/zookeeper-client-c/include/win_getopt.h:181-194 | every common divisor divides it |
| `BlockExchange.CycleExists` | 3party/zookeeper-client-c/include/win_getopt.h:206-216 | from each start the walk has length n/gcd, visits each position of its class once and ends where it began |
| `BlockExchange.WalkCycle` | 3party/zookeeper-client-c/include/win_getopt.h:216-230 | one cycle puts every element of its class in place and touches no other |
| `BlockExchange.PermuteArgs` | 3party/zookeeper-client-c/include/win_getopt.h:201-231 | the two adjacent blocks are exchanged, each in its own order, all else unchanged |
| `Getopt.ExchangeArranges` | 3party/zookeeper-client-c/include/win_getopt.h:513-522 | exchanging the block of non-options with the options behind it puts all options in front, in order |
| `Getopt.Syntax.Partition` | 3party/zookeeper-client-c/include/win_getopt.h:474-548 | options and non-options are together the scanned elements, each exactly once |
| `Getopt.Scanner.Skip` | 3party/zookeeper-client-c/include/win_getopt.h:495-525 | skipping a non-option keeps the vector options, non-options, options, unread |
| `Getopt.Scanner.ReadLetter` | 3party/zookeeper-client-c/include/win_getopt.h:572-627 | reads one letter; the last one of a cluster takes the element with its argument, unless it is a dash |
| `Getopt.Scanner.Advance` | 3party/zookeeper-client-c/include/win_getopt.h:475-548 | goes on to the first option, or finishes the scan at the end or at `--` |
| `Getopt.Scanner.Finish` | 3party/zookeeper-client-c/include/win_getopt.h:477-493 | the scanned part is a stable partition and `optind` points at the first non-option |
| `Getopt.Scanner.GetoptInternal` | 3party/zookeeper-client-c/include/win_getopt.h:474-628 | a call reads one letter, of the cluster at hand or of the first option behind skipped non-options, finishes the scan, or ends at a cluster's dash |
| `Getopt.Scanner.Scan` | 3party/zookeeper-client-c/include/win_getopt.h:437-628 | a whole scan ends in the stable partition, if and only if no cluster's dash cuts it short or no non-option was skipped |
| `GetoptRoles.TextIs` | 3party/zookeeper-client-c/include/win_getopt.h:495-548 | an option starts with a dash, a lone dash counts as the flags say, and only `--` ends the scan |
| `GetoptRoles.ScanClassifies` | 3party/zookeeper-client-c/include/win_getopt.h:474-548 | the options are the dashed elements and the arguments of the element in front, up to the first `--` or cut cluster; all else are non-options, each in order |
| `Glob.PatternMatchesString` | 3party/gtest-1.11.0/src/gtest.cc:655-700 | true exactly when the name is in the glob language, though it only backtracks to the last star |
| `Glob.LastStarSuffices` | 3party/gtest-1.11.0/src/gtest.cc:681-696 | a match that restarts at an earlier star exists also from the later one |
| `Glob.PiecesCut` | 3party/gtest-1.11.0/src/gtest.cc:702-725 | cutting at the first colon yields the first piece and the pieces of the rest |
| `Glob.PiecesJoin` | 3party/gtest-1.11.0/src/gtest.cc:702-725 | the pieces hold no colon and, joined by colons, are the filter |
| `Glob.MatchesFilter` | 3party/gtest-1.11.0/src/gtest.cc:702-725 | true exactly when some colon-separated piece matches |
| `Edits.PathIsScript` | 3party/gtest-1.11.0/src/gtest.cc:1227-1282 | the moves recorded in the table spell a valid script whose weight is the cell's cost |
| `Edits.PathOfEqual` | 3party/gtest-1.11.0/src/gtest.cc:1247-1252 | equal inputs give only matches |
| `Edits.CalculateOptimalEdits` | 3party/gtest-1.11.0/src/gtest.cc:1227-1282 | the returned script turns left into right and weighs the table's last cell |
| `Edits.InternalStrings.GetId` | 3party/gtest-1.11.0/src/gtest.cc:1289-1299 | equal strings get equal ids, different ones different, old ids stay |
| `Edits.SamePath` | 3party/gtest-1.11.0/src/gtest.cc:1303-1317 | inputs that agree on which elements are equal have the same script |
| `Edits.CalculateStringEdits` | 3party/gtest-1.11.0/src/gtest.cc:1303-1317 | the script of the ids is a valid script of the strings |
| `EditsMinimal.MinimalExactlyWhenNoneMissed` | 3party/gtest-1.11.0/src/gtest.cc:1253-1268 | every cell of the table is the least weight of any script for its prefixes, if and only if no cell takes a replacement on a tie where adding or removing would be lighter |
| `EditsMinimal.ScriptIsMinimal` | 3party/gtest-1.11.0/src/gtest.cc:1227-1282 | then no script weighs less than the returned one |
| `EditsMinimal.SwapIsMissed` | 3party/gtest-1.11.0/src/gtest.cc:1253-1268 | two swapped elements are replaced twice, which weighs more than removing one and adding it again |
| `UnifiedDiff.Hunk.PushLine` | 3party/gtest-1.11.0/src/gtest.cc:1334-1350 | a common line comes behind everything so far, with removals in front of additions; removed and added lines are held back, and counted |
| `UnifiedDiff.Hunk.FlushEdits` | 3party/gtest-1.11.0/src/gtest.cc:1365-1368 | the pending removals and additions move behind the lines, nothing is lost |
| `UnifiedDiff.Hunk.PrintTo` | 3party/gtest-1.11.0/src/gtest.cc:1352-1386 | the header's starts and lengths are those of the two sides printed |
| `UnifiedDiff.ApplyLinesWorks` | 3party/gtest-1.11.0/src/gtest.cc:1352-1386 | lines whose left side is the next part of the text replace it by their right side |
| `UnifiedDiff.HunkApplies` | 3party/gtest-1.11.0/src/gtest.cc:1402-1463 | one more printed hunk moves the patched prefix from the last hunk's end to this one's |
| `UnifiedDiff.PushEdits` | 3party/gtest-1.11.0/src/gtest.cc:1427-1453 | the hunk holds the lines of the edits up to `context` matches behind its last change, or to the end; no two changes in it are 2 * context or more matches apart |
| `UnifiedDiff.NextHunk` | 3party/gtest-1.11.0/src/gtest.cc:1409-1461 | each round prints the next hunk of the layout, and it applies, or finishes the diff |
| `UnifiedDiff.CreateUnifiedDiff` | 3party/gtest-1.11.0/src/gtest.cc:1402-1463 | applying the hunks to left gives right, if and only if the context is positive or the sides are equal; with a context the hunks are those of the script's layout, each with its lines and header |
| `UnifiedDiff.SidesOfLines` | 3party/gtest-1.11.0/src/gtest.cc:1352-1386 | the lines printed for a stretch of the script have its left lines on the left side and its right lines on the right |
| `UnifiedDiff.CommonLinesAround` | 3party/gtest-1.11.0/src/gtest.cc:1417-1422 | in a layout, a hunk starts with min(context, matches before it) common lines and ends with min(context, matches behind it) |
| `UnifiedDiff.SameHunkExactlyWhenNear` | 3party/gtest-1.11.0/src/gtest.cc:1424-1437 | in a layout, two consecutive changes are in the same hunk if and only if fewer than 2 * context matches lie between them |
| `UnifiedDiff.ChangeIsShown` | 3party/gtest-1.11.0/src/gtest.cc:1402-1463 | in a layout, every change is in a hunk |
| `Regex.ValidateRegex` | 3party/gtest-1.11.0/src/gtest-port.cc:828-879 | true exactly for the texts the scan's rules accept |
| `Regex.ScanOkIsExpr` | 3party/gtest-1.11.0/src/gtest-port.cc:828-879 | those are exactly the texts of well-formed expressions |
| `Regex.TextUnique` | 3party/gtest-1.11.0/src/gtest-port.cc:774-818 | a text is the text of at most one expression |
| `RegexMatch.MatchRepetitionAndRegexAtHead` | 3party/gtest-1.11.0/src/gtest-port.cc:888-910 | true exactly when some repetition of the atom followed by a match of the rest is a prefix |
| `RegexMatch.MatchRegexAtHead` | 3party/gtest-1.11.0/src/gtest-port.cc:915-941 | true exactly when some prefix (the whole string if anchored) is in the language; the mutual recursion ends |
| `RegexMatch.MatchRegexAnywhere` | 3party/gtest-1.11.0/src/gtest-port.cc:951-963 | true exactly when some substring, placed as the anchors say, is in the language |
| `RegexMatch.PartialMatch` | 3party/gtest-1.11.0/src/gtest-port.cc:979-981 | a valid pattern matches exactly when some substring is in its language, an invalid one never |
| `RegexMatch.FullMatch` | 3party/gtest-1.11.0/src/gtest-port.cc:984-1015 | matches exactly when a prefix is in the language, the whole string unless the pattern ends in an escaped `$` |
| `RegexMatch.FullText` | 3party/gtest-1.11.0/src/gtest-port.cc:1003-1015 | the constructed full pattern is the text of the anchored expression |
| `RegexMatch.FullMatchIsWhole` | 3party/gtest-1.11.0/src/gtest-port.cc:1011-1014 | a full match means the whole string for all strings if and only if the pattern does not end in an escaped `$` |
| `RegexMatch.EscapedDollarAcceptsMore` | 3party/gtest-1.11.0/src/gtest-port.cc:1011-1014 | for every such pattern, a string that is accepted and not in the language |
| `RegexAtoms.AtomAccepts` | 3party/gtest-1.11.0/src/gtest-port.cc:799-818 | what each atom accepts, by character codes: \d is 0 to 9, \w, \s and their complements, the control escapes, the dot, and every literal itself only |
| `RegexAtoms.EscapesAre` | 3party/gtest-1.11.0/src/gtest-port.cc:782-796 | the escapes are the punctuation characters and eleven letters, by character codes |
| `RegexAtoms.PlainAre` | 3party/gtest-1.11.0/src/gtest-port.cc:774-879 | the characters that cannot stand for themselves |
| `RegexAtoms.OneAtomMatches` | 3party/gtest-1.11.0/src/gtest-port.cc:951-963 | the pattern of one atom matches exactly the strings with a character it accepts |
| `RegexAtoms.AnchoredMarkMatches` | 3party/gtest-1.11.0/src/gtest-port.cc:888-941 | an anchored atom with `?`, `*` or `+` matches exactly the strings of characters it accepts, as many as the mark allows |
| `RegexAtoms.OneAtomFullMatches` | 3party/gtest-1.11.0/src/gtest-port.cc:984-1015 | a full match of one atom is one accepted character; only an escaped `$` may be followed by more |
| `Utf8.AcceptedIsScalar` | 3party/gtest-1.11.0/src/gtest-printers.cc:461-490 | a character the validator accepts is the encoding of a Unicode scalar value |
| `Utf8.ScalarIsAccepted` | 3party/gtest-1.11.0/src/gtest-printers.cc:461-490 | among the 21-bit patterns the validator accepts exactly the scalars |
| `Utf8.TextSplits` | 3party/gtest-1.11.0/src/gtest-printers.cc:461-490 | a text is valid exactly when its first character is and the rest is |
| `Utf8.IsValidUTF8` | 3party/gtest-1.11.0/src/gtest-printers.cc:457-492 | true exactly for concatenations of encodings of scalar values (sections 3 and 4 of RFC 3629) |
| `Utf8.ChopLowBits` | 3party/gtest-1.11.0/src/gtest.cc:1918-1922 | splits off the low bits; both parts give the number back |
| `Utf8.CodePointToUtf8` | 3party/gtest-1.11.0/src/gtest.cc:1930-1956 | the bytes written in place are the encoding, for every 32-bit input; 0 and the over-long are told apart |
| `Utf8.EncodeThenValidate` | 3party/gtest-1.11.0/src/gtest.cc:1930-1956 | the encoder's output is valid if and only if the input is a scalar or too large to encode |
| `Utf8.HexRoundTrip` | 3party/gtest-1.11.0/src/gtest.cc:2143-2147 | the printed digits are upper-case hexadecimal, stand for the number and have no leading zero |
| `Paths.ChainIs` | src/cppzk/cppzk.hpp:671-692 | a path's chain has one entry more than slashes, each the parent of the next, the last the path |
| `Paths.SplitPath` | src/cppzk/cppzk.hpp:671-692 | the loop returns that chain without its top, as many entries as slashes, or refuses a path without one |
| `ZkTree.GetSubPath` | src/cppzk/cppzk.hpp:357-372 | lists each child once, or reports a missing node |
| `ZkTree.RecursiveGetSubPath` | src/cppzk/cppzk.hpp:417-432 | ends on every finite tree and lists exactly the strict descendants in post-order: each once, right behind exactly its own subtree |
| `ZkTree.AsyncRecursiveGetSubPath` | src/cppzk/cppzk.hpp:436-473 | the completion-driven listing meets the same specification |
| `AsyncChain.CreatePath` | src/cppzk/cppzk.hpp:107-133 | against any server, the creates sent, the final state, code and path are those of the layers in order up to the first error |
| `AsyncChain.CreateChain.Completion` | src/cppzk/cppzk.hpp:173-196 | one reply pops one layer, and either sends the next create or reports |
| `AsyncChain.AsyncCreatePath` | src/cppzk/cppzk.hpp:135-203 | the same creates, state, code and path as `CreatePath`, and exactly one callback |
| `AsyncChain.DeleteEach` | src/cppzk/cppzk.hpp:212-218 | deletes in order up to and including the first error |
| `AsyncChain.DeleteChain.Completion` | src/cppzk/cppzk.hpp:228-237 | one reply pops one path, and either sends the next delete or reports |
| `AsyncChain.AsyncDeleteEach` | src/cppzk/cppzk.hpp:221-252 | the same deletes, state and code as `DeleteEach`, and exactly one callback |
| `TreeOps.CreateLayersKeeps` | src/cppzk/cppzk.hpp:118-132 | creating the layers keeps the tree prefix-closed, changes no node, and on success leaves every layer and the value |
| `TreeOps.ExistingLayers` | src/cppzk/cppzk.hpp:118-132 | creating an existing path changes nothing and reports that it exists |
| `ChainOutcome.CreatesWhileTolerated` | src/cppzk/cppzk.hpp:118-132 | against any server, each layer is sent if and only if every earlier reply was success or ZNODEEXISTS; the last reply is reported |
| `ChainOutcome.DeletesWhileOk` | src/cppzk/cppzk.hpp:212-218 | against any server, each delete is sent if and only if every earlier one succeeded; the last reply is reported |
| `ChainOutcome.PathCreated` | src/cppzk/cppzk.hpp:118-132 | on a sound tree, the code, path and tree in every case; success if and only if the path is well-formed, no existing node above it is ephemeral and the new name is free |
| `ChainOutcome.BlockedSomewhere` | src/cppzk/cppzk.hpp:118-132 | some layer is refused if and only if the path is malformed or below an ephemeral node |
| `ChainOutcome.CreateOnTree` | src/cppzk/cppzk.hpp:107-133 | the same for a whole call, with every error path, mode and suffix |
| `ChainOutcome.AsyncCreateOnTree` | src/cppzk/cppzk.hpp:135-203 | the same tree, code and path, reported by exactly one callback |
| `TreeOps.DeleteBottomUp` | src/cppzk/cppzk.hpp:212-218 | a bottom-up list of a whole subtree is deleted without error: each delete hits a leaf |
| `TreeOps.DeletePath` | src/cppzk/cppzk.hpp:205-219 | succeeds on every existing path and leaves the tree minus exactly that subtree; a missing path changes nothing |
| `TreeOps.AsyncDeletePath` | src/cppzk/cppzk.hpp:221-252 | the same tree and code, reported by exactly one callback |
| `TreeOps.DeleteKeepsClosed` | src/cppzk/cppzk.hpp:205-219 | the tree stays prefix-closed |
| `LocalFile.LocFile.ExistsPath` | src/local_file/local_file.hpp:145-160 | queues the first notification and watches the path if nobody does |
| `LocalFile.LocFile.GetPathValue` | src/local_file/local_file.hpp:164-178 | queues the first notification and watches the path if the file exists and nobody does |
| `LocalFile.LocFile.DealTasks` | src/local_file/local_file.hpp:67-70 | the loop delivers the queued notifications in order, with others acting in between |
| `LocalFile.LocFile.HandleMonitorExist` | src/local_file/local_file.hpp:351-371 | the loop becomes its specification for every plan and order |
| `LocalFile.LocFile.ReadAndTell` | src/local_file/local_file.hpp:382-391 | content, then callback, then the record is updated or erased |
| `LocalFile.LocFile.HandleMonitorGet` | src/local_file/local_file.hpp:373-393 | the loop becomes its specification for every plan and order |
| `LocalFile.LocFile.PollOnce` | src/local_file/local_file.hpp:49-77 | one round becomes its specification, from the snapshot taken under the lock |
| `LocalFileKeeps.FlipKeeps` | src/local_file/local_file.hpp:351-371 | telling a changed status keeps created and deleted alternating and the record equal to what was told last |
| `LocalFileKeeps.AddGetKeeps` | src/local_file/local_file.hpp:164-178 | a registration keeps exactly the right callbacks watched for and told or about to be told |
| `LocalFileKeeps.ReportReports` | src/local_file/local_file.hpp:373-393 | time first, content second: a recorded time is never paired with another file's content |
| `LocalFileKeeps.ForgetKeeps` | src/local_file/local_file.hpp:384-389 | forgetting a path drops its own callback and no other |
| `LocalFileKeeps.PolledKeeps` | src/local_file/local_file.hpp:49-77 | every round keeps the invariant, whatever others do meanwhile |
| `LocalFileKeeps.RunKeeps` | src/local_file/local_file.hpp:49-77 | so does every run |
| `LocalFilePoll.StatusesAlternate` | src/local_file/local_file.hpp:145-160 | in every run an existence callback is told its registered status first and then, if and only if the path had no watch, created and deleted in turn |
| `LocalFilePoll.WatchedExactlyWhenFree` | src/local_file/local_file.hpp:164-178 | in every run a content callback is watched for until told that the file is gone, if and only if the file existed and the path had no watch; else it is only ever told its first value |
| `LocalFilePoll.EveryRegistration` | src/local_file/local_file.hpp:164-178 | the same for registrations at any point, also within a poll |
| `LocalFilePoll.InsideCallback` | src/local_file/local_file.hpp:384-391 | what others do between a content callback and the update of its record, also from inside the callback, might as well have come before both |
| `LocalFilePoll.QuietPollInforms` | src/local_file/local_file.hpp:373-393 | after a round without interleaved writes, any registered callback knows its content, or that it is gone and in neither map, if and only if it was watched for or up to date and the path is not a missing file with recorded time 0 |
| `LocalFilePoll.QuietPollTellsStatus` | src/local_file/local_file.hpp:351-371 | after such a round any existence callback was told the real status last, if and only if it is watched for or was registered with it |
| `LocalFileTimes.ZeroMeansSeenComingBack` | src/local_file/local_file.hpp:373-393 | in every run a recorded time is 0 only if some poll read the time while the file was missing and the content when it was back |
| `LocalFileTimes.RegistrationInformed` | src/local_file/local_file.hpp:164-178 | unless a poll saw that, a callback registered on an existing file at a free path knows its content, or was told that it is gone, after every later quiet poll |
| `LocalFileTimes.QuietRegistrationInformed` | src/local_file/local_file.hpp:164-178 | so without writes interleaved within polls no such registration is ever lost |
| `LocalFileSilence.SilentWhileUntouched` | src/local_file/local_file.hpp:373-393 | in every run that leaves the file alone, the callback on record is called for its queued task and never again |
| `LocalFileSilence.RegisteredToldOnce` | src/local_file/local_file.hpp:164-178 | a callback registered on an existing file at a free path is called at most once while nobody touches the file |
| `LocalFileSilence.SilentOnceTold` | src/local_file/local_file.hpp:373-393 | after a quiet poll a watching callback is not called again in any run that leaves its file alone |
| `LocalFileHistories.LostRegistration` | src/local_file/local_file.hpp:381-389 | a history from the first registration on after which a second callback is told one value and, in every run from there, nothing else |
| `LocalFileHistories.DeletionIsMissed` | src/local_file/local_file.hpp:373-393 | a history from the first registration on after which no round without interleaved writes reports the deletion |

## Left out

- Network, threads, sleeps, SSL, authentication, logging, `get_client_ip`: foreign calls.
- The ZooKeeper client library is modelled by its documented behaviour: one-shot watches, an exists watch
  also on an absent node, first-in first-out delivery in both directions, one live session per machine.
- Session events and the timing of the expiry detection; `Session` starts where the expired callback runs.
- Deletion of the watched parent, and `remove_watches` in both backends.
- Context identities are numbers that are never reused; the original uses addresses.
- `cause` and `zxid` in the protocol machines are bookkeeping that no handler reads.
- Each protocol machine has one call of `watch_sub_path` or `watch_path`; several calls on one path share
  the cache in the original.
- The root path `/` is not in the tree model; the server's sequence suffix is a parameter.
- Recursive listing and deletion assume that nobody else writes during the call.
- Edits.CalculateOptimalEdits: costs are exact real numbers where the original adds doubles, so the weight
  is not the rounded one; minimality is stated in `EditsMinimal`, where it holds.
- The unified diff is a sequence of structured hunks, not text.
- Regular expressions: null pointers, and the limit of `size_t` on repetitions.
- getopt: looking an option up is abstracted to how many calls read the element, how many slots it takes
  and whether it is a cluster ending in a dash; only the permuting mode; the scan starts within the vector;
  what the option values are is not modelled.
- UTF-8 shifts and masks are written as arithmetic.
- Local files: `handle_monitor_sub`, the create, set and delete tasks; a callback and the update of its
  record are one step (for contents `LocalFilePoll.InsideCallback` shows that it makes no difference); a
  registration is atomic with respect to writes and to the snapshot; a modification time never comes back.
- `zookeeper.jute.c`, `addrvec.c`, the rest of googletest, the thin wrappers of `config_monitor`: easy or I/O.
