# Models and proofs for the workspace gate, the FFI session and the tool runtimes

This project models the parts of the repository whose correctness is hardest to see by reading, and
proves what they promise. All of it is Dafny; `dafny verify dfyconfig.toml` checks the whole project.

## What is modelled

**The diff-scoped gate and the suite ledger** (`xtask/src/main.rs`). A change is mapped to workspace
crates, widened through the reverse dependency graph, and only the suites of affected packages run.
Separately, a ledger stores, per suite, the key of its last green run; a suite whose key has not changed
is skipped. `CargoLock` models the hand-written lock reader over text, with a printer of lock files as
its partner, and `LockText` is about text the printer does not write. `LockGraph` is the lock diff, the
closure and the lock cone. `Gate` is classification, reverse dependents and selection. `PathRange`,
`KeyFormat` and `SuiteMemo` are the key: the path ranges it reads, its layout, and the inputs it stands
for. `GateSoundness` ties the two halves together: it says exactly for which members the suites the gate
leaves out keep their keys, and `GateCases` takes it to concrete workspaces and lock files. `Lane` and
`Scheduler` are the overlapped lane as a state machine over its lock regions, for every interleaving of
any number of workers; `LaneSchedule` is the schedules it is run with, `Overlap` how many suites are
underway at once and `Report` what is reported as failed. `Ledger` puts lanes, edits and ledger writes
into histories and proves that every skip is backed by an earlier real green run with the same inputs;
`Escalation` says which edits make it run a suite again. `GateRun` composes all of it: the first full
run that passes puts a green run on record for every suite of the battery, and the gate runs that pass
after it keep it there; `GateRunCases` is two such runs.

**The session behind the C interface** (`bindings/daemon-core-ffi/src/lib.rs`, with the ring of
`crates/contracts/daemon-common/src/cursored.rs`). `MergedLog` holds the ring and the log. `Session` is
the state machine of the event pump, the parking handlers, the responders and the pollers, one step per
lock region, and the object whose methods take those steps. `SessionRuns` and `SessionReplies` are about
all its runs: what is conserved, and which answer reaches which parked request. `SessionPaths` is what
each call achieves from any state. `ResponseOrder` says exactly when a response is sure to follow its
request on the log, `Subscription` is one subscriber's stream.

**Smaller components with a law of their own.** `HeadTail` is the bounded output capture, `Pager` the
numbered-line reader, `Tokenize` the shard author, `Verdict` the per-round majority of replay digests,
`Gateway` the remote-gateway setting with its stored override, `Browser` the supervisor with its
crash-loop breaker.

`Text`, `Sorting`, `Graph`, `Flatten` and `Bags` are shared helpers: strings and their order, insertion
sort, reachability, concatenation with filtering, and multisets.

## What the modelling assumes

- A digest is an injective constructor over the list of fragments fed to it (`KeyFormat.Fragment`); a
  fragment is a byte string or a rendered digest. Collisions of the real hash are outside the model.
- `git`, `cargo`, the file system, the toolchain and the environment are inputs: a `Tree` holds the
  listings, the dirty files, the lock text, the toolchain text and the environment a key is computed from.
- A suite's real outcome, a bind's outcome, a browser launch's outcome and the order of tasks are chosen
  freely at every step, so each theorem holds for all of them.
- Each critical section is one atomic step; a task that panics or poisons a mutex is not modelled.

## Where the code and its documentation differ

The model follows the code. Each point below has a lemma that shows it and a statement of exactly when
the documented property does hold.

- The gate is documented to over-select only (`xtask/src/main.rs:2818-2825`). A suite's key follows the
  lock graph and hashes whole crate directories, while the gate widens seeds along the members' own
  manifest dependencies and charges a path to the innermost crate. It never misses a suite of a member if
  and only if the member's declared dependencies reach every crate that lies in a crate the lock makes it
  depend on, with two clauses more for crates that overlap the guests or are named like the root manifest
  (`GateSoundness.GateIsSoundExactly`). `GateCases` has a lock path through an outside package and a nested
  crate that are missed, and a nested crate that is not.
- The lock reader is documented to over-select when a name resolves at several versions
  (`xtask/src/main.rs:2053-2054`). It drops the version of a dependency reference, so moving an edge from
  one version to the other is seen neither by the gate nor by any key (`GateCases.VersionSwitchIsUnseen`).
  A change of edges is read if and only if it changes the set of names that some name depends on
  (`CargoLock.EdgesReadExactly`).
- The keys are documented to cover everything that can reach a suite (`xtask/src/main.rs:2036-2050`).
  Vendored sources and the cargo configuration demand the full battery and are in no key, so the full
  battery then skips what was green before (`Escalation.UnkeyedEditIsSkipped`). An edit makes a recorded
  suite run again if and only if its key reads the path (`Escalation.EditReRunsExactly`).
- A subscriber that asks for entries after a cursor beyond the head gets entries at or below that cursor
  (`Subscription.BeyondHeadRepeats`). The stream starts right after the cursor if and only if the cursor
  is not beyond the head (`Subscription.StreamIsOrderly`).
- A response can be logged before its request, because a handler parks before it logs. One more response
  is sure to come after its request if and only if the request is on the log when the host answers
  (`ResponseOrder.AnswerIsSafeExactly`); a host that answers what it has polled is safe.
- A gateway change without an address keeps the address in force once activation has run. Before that it
  takes the boot address, which is the one in force if and only if none is stored or both agree
  (`Gateway.BareSetBeforeActivation`).

## Model

| member | source | states |
|---|---|---|
| `CargoLock.ParseCargoLock` | xtask/src/main.rs:2077-2146 | the line loop computes the parse of the text, whose meaning `RoundTrip` gives |
| `CargoLock.ScanBlock` | xtask/src/main.rs:2107-2146 | from any state, one printed block flushes what was open and leaves exactly its own name, identity lines and dependency names |
| `CargoLock.RoundTrip` | xtask/src/main.rs:2077-2146 | every printed lock file reads back as what its blocks denote: per name the sorted identity lines and dependency names of all its blocks; a file without blocks is an error |
| `CargoLock.EdgesReadExactly` | xtask/src/main.rs:2118-2126 | lock files that differ only in dependency references read the same if and only if every name depends on the same set of names |
| `CargoLock.SortedIdentity` | xtask/src/main.rs:2095-2099 | identity lines in any order are stored as checksum, source, version |
| `CargoLock.DepVersionsAreForgotten` | xtask/src/main.rs:2118-2126 | so lock files that differ only in the versions of dependency references always read the same |
| `LockText.LineEndsAreIgnored` | xtask/src/main.rs:2107-2108 | whitespace at the ends of lines, carriage returns included, changes nothing that is read |
| `LockText.LastNewlineIsOptional` | xtask/src/main.rs:2107-2107 | nor does a missing newline after the last line |
| `LockText.DependencyIndentIsIgnored` | xtask/src/main.rs:2114-2126 | nor does whitespace before a dependency or the bracket that ends them |
| `LockText.DepNameExactly` | xtask/src/main.rs:2118-2126 | a dependency is read exactly from a line in quotes, whitespace and trailing commas aside, and its name is the first word inside |
| `LockText.FirstWordIs` | xtask/src/main.rs:2125-2125 | that word starts after leading whitespace and ends before the next; of nothing but whitespace it is the whole |
| `LockText.TwoNamesAreAnError` | xtask/src/main.rs:2130-2132 | a block with two names makes any text an error, whatever stands before and after it |
| `LockText.UnquotedDependencyIsAnError` | xtask/src/main.rs:2119-2124 | so does a line among the dependencies that is neither in quotes nor their end |
| `LockGraph.LockChangedNames` | xtask/src/main.rs:2153-2172 | a name is reported if and only if its entry differs between the two locks, including added and removed names |
| `LockGraph.ClosureIsReach` | xtask/src/main.rs:2291-2316 | the closure holds exactly what can be reached along lock edges |
| `LockGraph.Closure` | xtask/src/main.rs:2291-2316 | the worklist computes that closure, and fails exactly when a package is not in the lock |
| `Graph.Explore` | xtask/src/main.rs:2303-2314 | the worklist ends with exactly the nodes reachable from the roots |
| `Graph.AddDependents` | xtask/src/main.rs:2767-2779 | the reversed edge map has an edge exactly where one of the two locks has it the other way round |
| `LockGraph.LockCone` | xtask/src/main.rs:2765-2788 | the cone is exactly the names that reach a changed name along the edges of either lock |
| `LockGraph.LockConeSeeds` | xtask/src/main.rs:2742-2795 | the seeds are exactly the members in the cone; an unreadable lock on either side is an error |
| `LockGraph.OutsideConeReach` | xtask/src/main.rs:2733-2741 | a name outside the cone reaches the same names in both locks |
| `LockGraph.OutsideConeUntouched` | xtask/src/main.rs:2733-2741 | a name outside the cone has the same closure in both locks, every entry of it unchanged |
| `LockGraph.ConeIsExact` | xtask/src/main.rs:2733-2795 | a name is in the cone if and only if its own closure in the base lock holds a changed entry: the union of edges adds nothing |
| `Gate.Owner` | xtask/src/main.rs:2633-2640 | the owner is a member whose directory is a longest prefix of the path, and there is none exactly when no directory matches |
| `Gate.ClassifyExactly` | xtask/src/main.rs:2569-2647 | by name: guests by their directory, the lock by its name, the runner, cargo configuration, vendored sources and four root files whoever owns them to the full gate; of the rest what a crate owns to the innermost one, three directories and twelve files are ignored, anything else is full |
| `Gate.PackageIsAfterFirst` | xtask/src/main.rs:803-809 | the package of a suite is the argument after the first `-p` |
| `Gate.ReverseDependents` | xtask/src/main.rs:2799-2816 | the fixed-point passes end with exactly the seeds and the members that transitively depend on one |
| `Gate.ScanInputs` | xtask/src/main.rs:2855-2872 | the early-exit loop collects exactly the seeds and flags, or stops exactly when an input demands the full gate |
| `Gate.AffectedPackages` | xtask/src/main.rs:2851-2906 | full gate exactly when an input demands it or a changed lock cannot be read; otherwise exactly the affected packages; `EscalatesExactly` and `AffectedExactly` say which those are |
| `Gate.EscalatesExactly` | xtask/src/main.rs:2855-2898 | the full battery runs exactly when a changed path is global or nothing accounts for it, or the changed lock cannot be read at base or head |
| `Gate.AffectedExactly` | xtask/src/main.rs:2851-2906 | otherwise a package is affected exactly when it depends on a crate charged with a changed path or on a member whose part of the lock changed, or is one of the five named packages and a guest path changed |
| `Gate.SelectSuites` | xtask/src/main.rs:2851-2917 | the whole battery, or exactly the suites of affected packages in battery order, each as often; any change of a global path, the toolchain pins included, selects the whole battery |
| `Gate.Keep` | xtask/src/main.rs:2914-2917 | a suite is kept if and only if it is in the battery and its package is affected |
| `Gate.KeepIsChosen` | xtask/src/main.rs:2914-2917 | the filter keeps battery order and multiplicity |
| `Gate.ConeIsLeast` | xtask/src/main.rs:2799-2816 | any set that holds the seeds and is closed under dependents holds the affected cone |
| `Gate.ConeHoldsSeedsAndDependents` | xtask/src/main.rs:2799-2816 | the affected cone is itself such a set |
| `Gate.ClassifyIgnoresOrder` | xtask/src/main.rs:2623-2647 | listing the members in another order classifies no path differently, when no directory has two names |
| `Gate.SharedDirFollowsOrder` | xtask/src/main.rs:2633-2640 | with two names for one directory, the last one listed wins |
| `Gate.SelectionIgnoresOrder` | xtask/src/main.rs:2851-2906 | escalation and selection do not depend on the order of the members |
| `PathRange.PartitionPoint` | xtask/src/main.rs:2375-2379 | binary search finds the boundary of a downward-closed property |
| `PathRange.RangeOf` | xtask/src/main.rs:2375-2379 | the slice between two partition points is exactly the entries under the prefix |
| `PathRange.UnderCongruent` | xtask/src/main.rs:2375-2379 | two sorted listings with the same entries under a prefix give the same range |
| `KeyFormat.KeyIsUnambiguous` | xtask/src/main.rs:2322-2371 | the fragments fed to the hash can be read back: equal fragment lists come from equal views |
| `SuiteMemo.PrefixDigestIsExact` | xtask/src/main.rs:2235-2251 | two prefix digests are equal if and only if the trees agree under the prefix |
| `SuiteMemo.GlobalsAreExact` | xtask/src/main.rs:2253-2275 | two global digests are equal if and only if root manifest, runner sources, toolchain and environment agree |
| `SuiteMemo.SuiteKey` | xtask/src/main.rs:2322-2371 | the key of the specification, over the closure in name order; none when a package is not in the lock |
| `SuiteMemo.Feed` | xtask/src/main.rs:2324-2370 | the hasher is fed exactly the fragments of the key's view, block by block |
| `SuiteMemo.FindBlocks` | xtask/src/main.rs:2327-2359 | the loop builds the block of each closure name: a member by its files, another package by its lock entry |
| `SuiteMemo.KeyIsExact` | xtask/src/main.rs:2322-2371 | two keys are equal if and only if every input agrees: globals, closure, each crate's files and lock entry, guests where linked, title, and the arguments joined by spaces |
| `SuiteMemo.ArgumentsAreExact` | xtask/src/main.rs:2367-2369 | two nonempty argument lists without a space in any argument, joined by spaces, are equal if and only if the lists are |
| `SuiteMemo.OutsideEditsKeepKey` | xtask/src/main.rs:2322-2379 | with lock, globals and guests fixed, no change outside the directories of the closure's crates changes the key |
| `GateSoundness.UnselectedKeepsKey` | xtask/src/main.rs:2818-2825 | a suite of a covered member that the gate leaves out has the same key at base and head, crates added, moved and removed included, when a removed one shows in the change |
| `GateSoundness.UnselectedKeepsKeyExactly` | xtask/src/main.rs:2818-2825 | a suite of a covered member that the gate does not select keeps its key if and only if no crate the member depends on stopped being one |
| `GateSoundness.GoneIsSeen` | xtask/src/main.rs:2623-2647 | a removed crate whose lock entry changed, whose removal touched the root manifest, or whose directory is nobody's now, changes the lock or escalates the gate |
| `GateSoundness.ReadIsFelt` | xtask/src/main.rs:2623-2647 | every path the keys of a covered member read makes the gate escalate or select it, in any layout of crate directories |
| `GateSoundness.UnreadKeepsKey` | xtask/src/main.rs:2322-2379 | no change outside what a member's keys read changes them, while its part of the lock and the crates it depends on stay |
| `GateSoundness.ReadsByName` | xtask/src/main.rs:2253-2371 | what the keys read, by name: root manifest, runner, guests for the five packages, and the crates the lock makes the member depend on |
| `GateSoundness.EditChangesKeyExactly` | xtask/src/main.rs:2322-2371 | editing one path changes a member's keys if and only if they read it: a crate of its closure, the root manifest, the runner, or the guests where linked |
| `GateSoundness.UncoveredIsUnfelt` | xtask/src/main.rs:2623-2647 | for a member that is not covered there is a path its keys read and the gate does not feel |
| `GateSoundness.UnfeltEditIsMissed` | xtask/src/main.rs:2799-2816 | from any tree, editing such a path changes the keys and the gate leaves the suites out |
| `GateSoundness.GateIsSoundExactly` | xtask/src/main.rs:2818-2825 | the gate never misses a member's suites, over all bases and changes, if and only if the member is covered or has no key |
| `GateSoundness.SameReadIsUnseen` | xtask/src/main.rs:2742-2795 | a new lock text that reads like the old one seeds nothing and changes no key |
| `GateCases.VersionSwitchIsUnseen` | xtask/src/main.rs:2118-2126 | at two concrete locks in which both versions are needed, moving one edge to the other version is seen by neither gate nor keys |
| `GateCases.OutsidePathIsMissed` | xtask/src/main.rs:2799-2816 | at a concrete lock and member list, a declared outside package that leads back to a member is missed |
| `GateCases.NestedDependencyIsCovered` | xtask/src/main.rs:2633-2640 | a crate nested in one that depends on it is never missed |
| `GateCases.NestedStrangerIsMissed` | xtask/src/main.rs:2633-2640 | a crate nested in one that does not depend on it is missed |
| `Lane.MakePlan` | xtask/src/main.rs:888-899 | each suite is in exactly one group, a group holds exactly the suites of its package in order and is not empty; longer groups come first, equally long ones in the order of their first suites |
| `Scheduler.StepInv` | xtask/src/main.rs:901-963 | every step of every worker keeps the lane invariant |
| `Scheduler.RunInv` | xtask/src/main.rs:901-963 | every reachable state of every interleaving keeps the lane invariant |
| `Scheduler.PackageIsSerial` | xtask/src/main.rs:901-963 | in every interleaving the events of one package are those of a serial run of its suites, stopped at the first red one |
| `Scheduler.StartsAreOrdered` | xtask/src/main.rs:901-963 | of two suites of one package the earlier one finished green before the later one started |
| `Scheduler.OkMeansAllGreen` | xtask/src/main.rs:965-971 | a lane that ends without failures started every suite exactly once and each finished green |
| `Scheduler.FailuresAreRed` | xtask/src/main.rs:965-971 | every reported failure is a suite that really finished red or did not start |
| `Report.FailuresAreExact` | xtask/src/main.rs:940-971 | when a lane is over its failures are exactly the suites that did not end green, each as often |
| `Overlap.AtMostGroups` | xtask/src/main.rs:905-910 | in every interleaving at most as many suites are underway as the schedule has groups, and as there are packages |
| `Overlap.BoundIsReached` | xtask/src/main.rs:905-910 | and some interleaving has that many underway |
| `Overlap.SerialIsOneAtATime` | xtask/src/main.rs:871-886 | the serial loop has one suite underway at a time, wherever it stands |
| `Scheduler.NothingStartsAfterStop` | xtask/src/main.rs:817-820 | once the stop flag is up, starts plus workers already past it stay constant in every interleaving |
| `Scheduler.FailuresRaiseStop` | xtask/src/main.rs:940-955 | a reported failure has raised the stop flag, or its worker is about to |
| `Scheduler.RunsAreBounded` | xtask/src/main.rs:901-963 | the number of steps of any run is bounded by the plan and the worker count |
| `Scheduler.SomeoneCanStep` | xtask/src/main.rs:901-963 | in every reachable state that is not over, some worker can move |
| `Scheduler.StepSpends` | xtask/src/main.rs:901-963 | every step spends from a budget, whatever the outcome |
| `LaneSchedule.DetSchedule` | xtask/src/main.rs:779-797 | whatever the environment holds, at least one group and at least one thread |
| `LaneSchedule.GroupsAreRead` | xtask/src/main.rs:783-787 | a number written into the variable is the number of groups, unless it is 0 or too large for 64 bits |
| `LaneSchedule.WrittenIsRead` | xtask/src/main.rs:783-792 | any such variable, with or without a plus sign |
| `LaneSchedule.UnreadableIsUnset` | xtask/src/main.rs:783-792 | any other text counts as not set |
| `LaneSchedule.SchedulesAre` | xtask/src/main.rs:753-797 | serial on request; otherwise the groups and threads set, by default 3 and 4; the other lane has one group and 4 threads and is not the serial loop |
| `LaneSchedule.BuiltHasWorkers` | xtask/src/main.rs:906-908 | every schedule that is built starts a worker for a lane with suites |
| `LaneSchedule.PassingRanEverything` | xtask/src/main.rs:821-971 | under every schedule that is built, serial under any outcomes or overlapped in any interleaving, a lane that passes ran each suite exactly once, green |
| `LaneSchedule.PassingBankedEverything` | xtask/src/main.rs:871-971 | and gave each to the ledger |
| `Ledger.RunSerially` | xtask/src/main.rs:871-886 | the events and verdict of the serial loop, which passes exactly when every suite is green |
| `Ledger.SerialPassIsGreen` | xtask/src/main.rs:871-886 | a serial loop that passes ran every suite once, green and recorded, in order |
| `Ledger.BankedAfterGreen` | xtask/src/main.rs:913-950 | a ledger write for a suite comes after that suite finished green |
| `Ledger.LaneIsHonest` | xtask/src/main.rs:843-885 | in a serial or an overlapped lane every write is for a suite of the lane that finished green before |
| `Ledger.LaneKeepsFiles` | xtask/src/main.rs:2396-2403 | a lane leaves every ledger file naming the key of a real green run, through partial and failed writes |
| `Ledger.HistoryKeepsWorld` | xtask/src/main.rs:2389-2403 | every history of edits, lanes and forgotten ledger files keeps that |
| `Ledger.ToRunExactly` | xtask/src/main.rs:843-869 | a lane runs exactly those of its suites that are not memoized, in list order, each as often; all of them when it does not memoize |
| `Ledger.SkippedExactly` | xtask/src/main.rs:854-862 | and reports exactly the others as skipped, in list order |
| `Ledger.UnmemoizedWritesNothing` | xtask/src/main.rs:2396-2397 | a lane that does not memoize leaves the ledger as it was |
| `Ledger.EqualKeysJustify` | xtask/src/main.rs:2322-2371 | a green run whose key equals a skipped suite's key had the same inputs, title and joined arguments |
| `Ledger.SkipsAreJustified` | xtask/src/main.rs:843-885 | every suite ever skipped has an earlier real green run with the same inputs, title and joined arguments |
| `Escalation.EditReRunsExactly` | xtask/src/main.rs:843-869 | after one edited path, a lane runs a suite that it would have skipped before if and only if the suite's key reads the path, and otherwise reports it as skipped |
| `Escalation.UnkeyedEditIsSkipped` | xtask/src/main.rs:2569-2572 | an edit under `vendor/` or `.cargo/` outside all crates escalates, and the lane over the full battery skips every suite it would have skipped before; with all recorded green it runs nothing |
| `Escalation.VendorEditIsSkipped` | xtask/src/main.rs:2569-2572 | the same at a concrete workspace of one crate and the path `vendor/x`: the lane runs nothing |
| `GateRun.GreenCarries` | xtask/src/main.rs:2818-2825 | a green run on record at the base still counts at the head for a suite the gate leaves out |
| `GateRun.PassingLaneGreens` | xtask/src/main.rs:821-971 | a lane that passes leaves a green run on record for each of its suites, run or skipped |
| `GateRun.PassedIsNotRunAgain` | xtask/src/main.rs:843-971 | after a memoizing lane that passes with every write stored, each suite to a file of its own, the same lane on the same tree runs exactly the suites without a key |
| `GateRun.PassingLanesGreen` | xtask/src/main.rs:2459-2556 | the same for lanes on schedules of their own that pass one after the other |
| `GateRun.PassingGateGreensBattery` | xtask/src/main.rs:2826-2986 | a gate run that passes leaves the whole battery on record at the head, if the suites it left out were on record at the base and what the gate relies on holds of them; nothing is assumed of the others |
| `GateRun.FullRunGreensBattery` | xtask/src/main.rs:2459-2556 | a passing run of the full battery puts all of it on record, whatever was recorded before and however the toolchain changed; of the ledger it takes only what `HistoryKeepsWorld` keeps |
| `GateRun.BatteryStaysGreen` | xtask/src/main.rs:2826-2986 | the battery stays on record over any sequence of passing gate runs, each against the tree before, if what the gate relies on holds of the suites each run left out |
| `GateRun.GreenFromFullRunOn` | xtask/src/main.rs:2826-2986 | from the first passing full run on, the battery is on record after every such sequence |
| `GateRunCases.RecordOutlivesDocs` | xtask/src/main.rs:2826-2986 | at a concrete workspace, a full run and then a run that leaves the suite out make such a sequence |
| `MergedLog.CursoredRing.constructor` | crates/contracts/daemon-common/src/cursored.rs:44-55 | a new ring is empty and valid |
| `MergedLog.CursoredRing.Push` | crates/contracts/daemon-common/src/cursored.rs:57-69 | ids are consecutive and the ring holds the last items up to its capacity |
| `MergedLog.CursoredRing.Evict` | crates/contracts/daemon-common/src/cursored.rs:62-68 | evicting leaves the last items up to the capacity and the floor just below them |
| `MergedLog.CursoredRing.Page` | crates/contracts/daemon-common/src/cursored.rs:112-125 | a page is the retained items after the cursor, cut to the maximum |
| `MergedLog.Merged.constructor` | bindings/daemon-core-ffi/src/lib.rs:539-548 | a new log is empty |
| `MergedLog.Merged.Append` | bindings/daemon-core-ffi/src/lib.rs:550-568 | an append adds one entry stamped with the next number and keeps the log stamped 1, 2, 3 |
| `MergedLog.Merged.Page` | bindings/daemon-core-ffi/src/lib.rs:570-586 | a page over the log as specified, with the cursor to go on from |
| `MergedLog.Merged.Subscribe` | bindings/daemon-core-ffi/src/lib.rs:588-604 | the backlog is every entry past the cursor, and live entries are heard from the head on |
| `MergedLog.PageContinues` | bindings/daemon-core-ffi/src/lib.rs:570-586 | what was read plus the page is a prefix of the log, the cursor stands still only at the end, and a page of at most `max` entries has fewer only at the end; the head is the length of the log |
| `MergedLog.PageBeyondHead` | bindings/daemon-core-ffi/src/lib.rs:570-586 | a cursor beyond the head gets an empty page and stays |
| `MergedLog.PagingCollectsAll` | bindings/daemon-core-ffi/src/lib.rs:570-586 | paging over a log that grows between reads collects exactly its entries, in order, each once |
| `Session.Live.constructor` | bindings/daemon-core-ffi/src/lib.rs:683-685 | a new session stands at the start of the machine, with no steps taken |
| `Session.Live.Poll` | bindings/daemon-core-ffi/src/lib.rs:838-850 | the object stays where its steps lead the machine, the poll included; polled items followed by what is left are the queue before; a poll of 0 takes everything, any other at most that many and fewer only when nothing is left |
| `Session.Live.Queue` | bindings/daemon-core-ffi/src/lib.rs:931-931 | pushing a logged request keeps the object on a run of the machine, so that all about runs holds of it |
| `Session.Live.Park` | bindings/daemon-core-ffi/src/lib.rs:921-924 | the same for parking under an id |
| `Session.Live.Record` | bindings/daemon-core-ffi/src/lib.rs:925-930 | the same for logging the request, between parking and queueing |
| `Session.Live.PumpLog` | bindings/daemon-core-ffi/src/lib.rs:702-708 | the same for logging an event, which the pump then holds |
| `Session.Live.PumpQueue` | bindings/daemon-core-ffi/src/lib.rs:709-709 | the same for queueing that event |
| `Session.Live.TakeSender` | bindings/daemon-core-ffi/src/lib.rs:852-869 | the same for taking a sender; none is taken exactly when the call is refused |
| `Session.Live.Note` | bindings/daemon-core-ffi/src/lib.rs:860-865 | the same for logging the response before it is sent |
| `Session.Live.Say` | bindings/daemon-core-ffi/src/lib.rs:728-742 | the same for logging an inbound command |
| `SessionRuns.NothingIsLostOrDoubled` | bindings/daemon-core-ffi/src/lib.rs:696-712 | in every interleaving polled plus queued is what was queued, in order; the log has sent out that plus what is in flight; the log is stamped without gaps |
| `SessionRuns.PollDelivers` | bindings/daemon-core-ffi/src/lib.rs:838-850 | in every run, after a poll of 0 all that was ever queued has been polled, and after any other either that many more or all |
| `SessionRuns.LiveConserves` | bindings/daemon-core-ffi/src/lib.rs:696-712 | whatever has been done to a session object: polled plus queued is what was queued, the log balances and is stamped without gaps |
| `SessionReplies.RepliesMatch` | bindings/daemon-core-ffi/src/lib.rs:852-870 | a handler returns a response to its own id that some responder sent to it, or one that approves nothing when another handler took its id; at most one responder holds its sender |
| `SessionReplies.WaitingCanBeAnswered` | bindings/daemon-core-ffi/src/lib.rs:921-943 | a waiting handler is in the table, held by a responder, answered, or displaced by one with its id |
| `SessionReplies.DisplacedIsDenied` | bindings/daemon-core-ffi/src/lib.rs:921-943 | a request whose id another one parks under returns nothing but a response that approves nothing, now or for good, whatever happens next |
| `SessionPaths.RequestIsAsked` | bindings/daemon-core-ffi/src/lib.rs:921-931 | from any state, a request that takes its three steps is logged as outbound, queued last and parked under its id |
| `SessionPaths.AnswerArrives` | bindings/daemon-core-ffi/src/lib.rs:852-870 | from any state, a response to a parked request is logged as inbound, leaves the table and is what the request returns |
| `SessionPaths.UnknownIsRefused` | bindings/daemon-core-ffi/src/lib.rs:852-870 | a response to an id that is not parked is refused and changes nothing else |
| `SessionPaths.EventIsPumped` | bindings/daemon-core-ffi/src/lib.rs:696-712 | an event is logged as outbound and then queued last |
| `SessionPaths.LogIsLabelled` | bindings/daemon-core-ffi/src/lib.rs:696-742 | in every run each log entry has the direction, origin and disposition of its kind |
| `SessionPaths.SaidIsLogged` | bindings/daemon-core-ffi/src/lib.rs:728-742 | an inbound command is logged with the origin and disposition it was given |
| `ResponseOrder.ResponsesFollowRequests` | bindings/daemon-core-ffi/src/lib.rs:852-870 | for a host that answers only ids on the log, however it learned them, each logged response comes after its logged request |
| `ResponseOrder.UnaskedComesFirst` | bindings/daemon-core-ffi/src/lib.rs:921-931 | from any state, answering an id that is not on the log can put the response first |
| `ResponseOrder.AnswerIsSafeExactly` | bindings/daemon-core-ffi/src/lib.rs:852-870 | one more response is sure to come after its request, whatever the tasks do, if and only if the request is on the log when the host answers |
| `ResponseOrder.PollingIsCareful` | bindings/daemon-core-ffi/src/lib.rs:838-870 | a host that answers only ids it has polled answers only ids on the log |
| `Subscription.StreamIsOrderly` | bindings/daemon-core-ffi/src/lib.rs:588-604 | a stream is consecutive from its first entry, skipping only where it says it lagged; it starts after the cursor exactly when the cursor is not beyond the head |
| `Subscription.BeyondHeadRepeats` | bindings/daemon-core-ffi/src/lib.rs:588-604 | a cursor beyond the head is followed by an entry at or below it |
| `Subscription.SubscribedTo` | bindings/daemon-core-ffi/src/lib.rs:588-598 | the backlog a subscription takes and the number it listens from are the start state of the stream |
| `Subscription.BacklogComesFirst` | bindings/daemon-core-ffi/src/lib.rs:590-604 | the first pulls deliver the backlog of the log, entry by entry, whatever is appended between them |
| `Subscription.LaggedExactlyWhenLate` | bindings/daemon-core-ffi/src/lib.rs:541-604 | a run reports a lag if and only if some pull came more than 256 entries late, counting only the appends and pulls before it |
| `Subscription.PullIsServed` | bindings/daemon-core-ffi/src/lib.rs:588-604 | until a lag, a pull is served exactly when the log holds an entry the stream has not delivered |
| `Subscription.OldestComesAfterLag` | bindings/daemon-core-ffi/src/lib.rs:598-603 | a pull after a lag delivers the oldest of the last 256 entries, or another lag when something was appended since |
| `HeadTail.Accumulator.constructor` | tools/daemon-tool-execute-code/src/exec.rs:243-251 | nothing kept of an empty stream |
| `HeadTail.Accumulator.Push` | tools/daemon-tool-execute-code/src/exec.rs:253-270 | head and tail stay the first and last bytes of everything pushed |
| `HeadTail.Accumulator.Trim` | tools/daemon-tool-execute-code/src/exec.rs:267-269 | the tail keeps its last bytes up to the cap |
| `HeadTail.Drain` | tools/daemon-tool-execute-code/src/exec.rs:220-230 | the result depends on the stream only, not on how it was cut into chunks |
| `HeadTail.Assemble` | tools/daemon-tool-execute-code/src/exec.rs:278-293 | the notice counts exactly what neither end holds |
| `HeadTail.HeadCapFits` | tools/daemon-tool-execute-code/src/exec.rs:131-132 | the head is two fifths of the cap, rounded down, and leaves room for a tail |
| `HeadTail.Capture` | tools/daemon-tool-execute-code/src/exec.rs:278-293 | the whole stream when it fits, else its first and last bytes with the exact omitted and total counts; the head is two fifths of the cap, rounded down, and both ends together are the cap |
| `HeadTail.Commafy` | tools/daemon-tool-execute-code/src/exec.rs:296-308 | the loop writes the decimal digits grouped by three from the right: counted from there, exactly every fourth character is a comma |
| `HeadTail.CountReadsBack` | tools/daemon-tool-execute-code/src/exec.rs:296-308 | without the commas a count reads back as the number |
| `Pager.Paginate` | tools/daemon-tool-fs/src/read.rs:40-82 | the page of the specification, which is as asked: from the line asked for, or that far from the end, it shows the least of the limit asked for, the page limit and the lines left, both limits at least 1; past the end it is empty; a long line is cut and marked |
| `Pager.PagedAsAsked` | tools/daemon-tool-fs/src/read.rs:40-91 | the same of every page of the specification |
| `Pager.NumberLines` | tools/daemon-tool-fs/src/read.rs:70-74 | one numbered line per line of the window |
| `Pager.LinesAreContent` | tools/daemon-tool-fs/src/read.rs:28-34 | the lines joined are the text up to one trailing newline |
| `Pager.PageReadsBack` | tools/daemon-tool-fs/src/read.rs:70-74 | a page's text, taken apart, is the window's lines, each under its own number |
| `Pager.PageInside` | tools/daemon-tool-fs/src/read.rs:66-81 | the end line is the number of the last line shown, and a page is truncated exactly when lines are left after it |
| `Pager.ReadAll` | tools/daemon-tool-fs/src/read.rs:40-82 | the pages got by going on at the end line plus one, with any limits, until one is not truncated, show every line once, in order and under its own number, and give the text back when no line is cut |
| `Pager.TailReadIsForward` | tools/daemon-tool-fs/src/read.rs:51-57 | a tail read gives the page of the forward read that starts that far from the end |
| `Tokenize.EncodeShard` | xtask/src/tokenize.rs:187-202 | the loop computes the little-endian encoding, whose inverse `DecodeEncoded` gives |
| `Tokenize.DecodeEncoded` | xtask/src/tokenize.rs:187-202 | tokens that fit the width decode back, at the width's bytes each |
| `Tokenize.ReadTokens` | xtask/src/tokenize.rs:84-97 | the tokens of the lines before the stop, cut to the cap; an error exactly when a line before the cap does not encode |
| `Tokenize.ReadingIsCapping` | xtask/src/tokenize.rs:84-97 | reading succeeds if and only if enough lines encode, whatever comes after them, and gives their capped stream |
| `Tokenize.ReadingIsPrefix` | xtask/src/tokenize.rs:84-97 | the stream read is a prefix of the lines' tokens put together, of the cap's length or all of them |
| `Tokenize.CutShards` | xtask/src/tokenize.rs:123-136 | the shards decoded and put together are the tokens; each is whole sequences and all but the last are full |
| `Tokenize.Author` | xtask/src/tokenize.rs:99-136 | the shards hold the longest whole-sequence prefix; it fails exactly when a shard or the corpus cannot hold a sequence or, at two bytes, a kept token is not below 65536 |
| `Tokenize.TokenizeCorpus` | xtask/src/tokenize.rs:84-136 | the same for the whole run over what was read, with lines past the cap never encoded |
| `Verdict.Tally` | xtask/src/replay.rs:657-663 | the tally counts each digest's reports of the round |
| `Verdict.Quorum` | xtask/src/replay.rs:664-666 | the most reported digest, the greatest of several |
| `Verdict.JudgeRound` | xtask/src/replay.rs:656-689 | the quorum is the largest of the most reported digests; each reporting peer's agreement with it; the round agrees if and only if no two peers differ |
| `Verdict.AgreeIsNoDivergence` | xtask/src/replay.rs:656-689 | a round agrees if and only if no two peers reported different digests |
| `Verdict.JudgeAll` | xtask/src/replay.rs:646-697 | each round judged, and the first of them that diverges |
| `Verdict.PerPeerVerdict` | xtask/src/replay.rs:646-697 | the peers in order; every reported round once, ascending, with its quorum; the first divergence is the least round with two digests; overall agreement exactly when there is none |
| `Gateway.Resource.constructor` | bins/daemon/src/managed_backends.rs:65-78 | nothing runs before activation, whatever is stored |
| `Gateway.Resource.Apply` | bins/daemon/src/managed_backends.rs:92-129 | the live state after applying a setting, with the old task stopped |
| `Gateway.Resource.Activate` | bins/daemon/src/managed_backends.rs:148-162 | the boot setting resolved against the stored override, and whether it came up |
| `Gateway.Resource.Set` | bins/daemon/src/managed_backends.rs:198-210 | live state and stored override after a change, also when storing fails |
| `Gateway.Resource.Stop` | bins/daemon/src/managed_backends.rs:183-189 | the listener ends and the setting stays |
| `Gateway.RestartResolvesLive` | bins/daemon/src/managed_backends.rs:148-210 | after any activated run a restart resolves to the setting in force; listening means enabled, with a task and no error |
| `Gateway.SetListensExactly` | bins/daemon/src/managed_backends.rs:92-210 | after any run a stored change takes its own address or the one in force, and listens if and only if it is enabled, has an address and the bind succeeds; otherwise an enabled one has the error of what is missing |
| `Gateway.RestartListensExactly` | bins/daemon/src/managed_backends.rs:148-162 | a restart listens on the same terms at the address in force |
| `Gateway.UnstoredAndStopped` | bins/daemon/src/managed_backends.rs:183-210 | a change that cannot be stored changes nothing; stopping ends the listener and keeps the setting |
| `Gateway.BareSetKeepsAddress` | bins/daemon/src/managed_backends.rs:198-210 | after activation a change without an address keeps the one in force, now and after a restart |
| `Gateway.BareSetBeforeActivation` | bins/daemon/src/managed_backends.rs:198-210 | before activation it takes the boot address, and that is the stored one exactly when they agree or none is stored |
| `Browser.Supervisor.constructor` | tools/daemon-tool-browser/src/supervisor.rs:114-121 | no session and no failures |
| `Browser.Supervisor.Launch` | tools/daemon-tool-browser/src/supervisor.rs:375-389 | one more failure after a launch that fails, none after one that comes up, and no launch once the breaker is open |
| `Browser.Supervisor.RunOp` | tools/daemon-tool-browser/src/supervisor.rs:334-361 | session, failure count and reply after an operation, for every fault |
| `Browser.Supervisor.Prewarm` | tools/daemon-tool-browser/src/supervisor.rs:366-372 | done exactly when a session is up afterwards; refused exactly when the breaker is open and none was |
| `Browser.Supervisor.Close` | tools/daemon-tool-browser/src/supervisor.rs:323-330 | the session ends and the failure count stays |
| `Browser.SessionMeansNoFailures` | tools/daemon-tool-browser/src/supervisor.rs:323-389 | in every run a live session means no failures counted, and the count never passes the limit |
| `Browser.CountIsFailedInARow` | tools/daemon-tool-browser/src/supervisor.rs:334-389 | in every run the failure count is the number of failed launches since the last one that came up |
| `Browser.BreakerOpensExactly` | tools/daemon-tool-browser/src/supervisor.rs:375-389 | the breaker is open exactly when the last three launches failed, and then every later call is refused without a launch |
| `Browser.FailingPrewarms` | tools/daemon-tool-browser/src/supervisor.rs:366-389 | however often a prewarm fails, a launch is attempted three times and no more |
| `Browser.BreakerStaysOpen` | tools/daemon-tool-browser/src/supervisor.rs:375-389 | once the breaker is open nothing changes any more |
| `Browser.PersistentSessionStays` | tools/daemon-tool-browser/src/supervisor.rs:334-361 | a persistent session ends exactly on close or on a launch fault |

## Left out

- GateSoundness.UnselectedKeepsKey: takes one toolchain and environment for base and head and, for the crates the member depends on, a changed path under every one that was added or moved; a crate that stopped being a member is not covered when its lock entry and the root manifest are unchanged and its old directory lies in another crate, in the guests or in what the gate ignores.
- GateSoundness.GateIsSoundExactly: takes a workspace in which no two members share a directory, as cargo demands.
- GateRun.PassingGateGreensBattery: is about the suites of a gate run, in lanes one after the other; the dependency check and guest build before them, the lane-level ledger around them, the opt-in run of the two lanes at once and the acceptance lane after them are not part of it. For the suites a run leaves out it takes what GateSoundness.UnselectedKeepsKey takes, one toolchain and environment included.
- Ledger.SkipsAreJustified: holds the tree fixed while a lane runs; an edit during a lane is outside the model.
- KeyFormat.KeyIsUnambiguous: is over fragments with an injective digest; nothing is claimed about raw bytes of the real hash.
- MergedLog.CursoredRing.Push: coalescing pushes and the backlog callback of the ring are not modelled.
- Pager.Paginate: characters are Dafny characters; lossy decoding, the offset of least 64-bit value and overflow of line numbers are not modelled.
- Gateway.Resource.Set: two overlapping calls are not modelled; each call is one step.
- The acceptance lane of the gate and its cache, the lane-level ledger and the two lanes running at once.
- Running `git`, `cargo`, `nix` and the toolchain, and reading and writing files other than the ledger.
- Events the engine's own channel drops before the session's pump receives them.
- The C entry points around the session: pointers, buffers and status codes.
- First use of the browser from several tasks at once, its shutdown, and the browser protocol.
- The tokenizer itself, shard hashes, chunk sizes and the manifest encoding.
- Decoding of replay transcripts into reports.
- The engine, host, store and federation crates.
