# FreeCAD MCP: a verified model of its algorithmic core

FreeCAD MCP lets a remote client drive FreeCAD. Around the CAD code the repository keeps a number of small
components that other parts trust blindly: an architecture linter, the bridge that applies native mutations, an
isolated launcher, a telemetry and benchmark pipeline, a source rewriter and a local pause gate. This project models
those components in Dafny and proves what they are for.

- **The linter reads `__all__`** (`PythonAst`, `ExplicitAll`, `ModuleRuns`, `AllVisibility`, `AllSoundness`,
  `AllShapes`, `ModuleSteps`, `ListSurvival`, `ListSpoiling`, `ListFate`, `AllBlindSpots`, `AllHelpers`, `AllReadings`,
  `AllRebinding`, `AllSharing`, `AllExample`, `Traversal`). The scan is a function on a small Python syntax, the loop
  refines it, and `ModuleRuns` gives modules a run-time meaning of their own, with a heap of shared lists, in which
  branches, loops, handlers and star imports are nondeterministic, and in which a call, a decorator or a class header
  may change any list it mentions and run the body of any function or lambda of the module. On modules that keep a
  stated discipline, what the scan reports is what every completed run leaves in `__all__`, and what it can read it
  reports (`AllReadings`); `AllVisibility` says from the syntax alone which changes the scan overlooks, `ListFate`
  which lists outlive the statements after them, and the other modules when exactly breaking a clause makes the scan
  wrong.
- **The linter resolves aliases** (`AliasBindings`, `ImportNames`, `AliasCycles`, `BareCycles`): the last import of a
  name decides, bounded rounds over the assignments reach full expansion, cycles that add attributes never settle, and
  it is decided when bare ones do.
- **The allowance ratchet** (`Allowances`, `AllowanceRecords`, `AllowanceTerms`): loading, applying and recording
  allowances.
- **The native mutation bridge** (`NativeMutation`, `NativeEndings`, `Settlement`, `SettlementLog`): one coordinator
  commit, one deferred reapply, the direct and the awaited path, and the bounded settlement of pending recompute.
- **The launcher** (`StartupWatchdog`, `WatchdogSamples`, `Launcher`, `LaunchEndings`): the amortised deadline and the
  protocol that must not lose a child.
- **Telemetry and key figures** (`StableSort`, `TextOrder`, `Counting`, `MergeTelemetry`, `MergedEvents`,
  `AnalyzeTelemetry`, `TelemetryFigures`, `Percentiles`, `BenchmarkKpis`, `KpiFigures`): merging, order-independent
  reports, percentiles, and gates over rounded rates.
- **The import rewriter** (`BarrelImports`, `BarrelLookups`, `BarrelMisreads`, `BarrelStars`) and **the pause gate**
  (`PauseGate`, `GateViews`).

Code that the repository writes with loops and updated fields is a method or a class here, proved equal to a
specification function of its inputs or of its old state; the properties are lemmas about those functions. Beside
each specification stands a second account that does not follow its steps (a run-time meaning, a table of endings,
numbers of events, the last import of a name), and lemmas prove that the two agree. The
environment (the native coordinator, the document, processes, files, clocks, the hash behind a fingerprint) enters as a
parameter about which as little as possible is assumed. Floating-point numbers are real numbers. `Wrappers` holds the
option type and the binding of several names at once.

## What the proofs found

These are properties one might expect of the code that do not hold; each has a lemma with the failing inputs, and where
the property holds exactly, one that says when.

- `_explicit_all` overlooks changes of `__all__` in these shapes: the rest of a mapping pattern, a star import, a
  subscript or attribute stored into (as a loop or `with` target, say), a call that is handed the list or reaches it
  other than by its bare name, a decorator or class header that is handed it, whatever the defaults, decorators or class
  body of a definition, or the defaults of a lambda, do, and whatever calls, decorates or creates a class while some
  function or lambda of the module changes the list. `AllVisibility.OverlookedExactlyWhen` proves that these are all.
- So the usual `def export(f): __all__.append(...)` with `@export` is misread (`AllBlindSpots.DecoratorIsBlind`), and
  so is every statement that hides such a change and shows none. `AllBlindSpots.MisreadExactlyWhen` is the whole
  extent, also for changes through names that the list is handed to, in that statement or a later one: after
  `__all__ = [...]` the scan is wrong exactly when all that follows is silent and something strikes at the list.
- The scan drops every change of a helper that is not an assignment: `h = [...]; ...; __all__ = h` is misread exactly
  when something in between strikes at the list of `h`, whatever it shows (`AllHelpers.HelperIsMisreadExactlyWhen`), and
  so for `h.append("b")`, `for h in x`, `def h()`, `import h` (`AllHelpers.TouchedHelperMisreads`), for `h += more`
  unless nothing is added (`AllHelpers.ExtendedHelperIsMisreadExactlyWhen`) and for a star import
  (`AllHelpers.StarImportSpoilsHelpers`).
- `h, g = ["a", "b"]` reads `h` as the whole list (`AllRebinding.TakingIsMisreadExactlyWhen`), a helper rebound to a
  value the scan cannot read keeps its old reading (`AllRebinding.RebindingIsMisreadExactlyWhen`), a set display is
  read as an ordered list (`AllHelpers.DisplayIsMisreadExactlyWhen`), and a list shared with a helper or another name
  can grow under it (`AllSharing.SharedIsMisreadExactlyWhen`, `AllSharing.AliasedIsMisreadExactlyWhen`).
- Alias rounds on a cycle that adds an attribute anywhere change something for ever
  (`AliasCycles.AddingCycleNeverSettles`). A cycle of bare names, of any length and in any order, settles exactly when
  the readings carried into the first round agree (`BareCycles.BareCycleSettlesExactlyWhen`): `x = y; y = x` always
  does, `a = b; b = c; c = a` only if two readings happen to be the same.
- The awaited mutation relies on being awaited once: if the native side answers a second wait with an accepted failure
  again, the edit is applied twice (`NativeMutation.AwaitingTwiceAppliesTwiceExactlyWhen`). A binding that refuses the
  call with `TypeError` is the one difference between the two paths (`NativeMutation.SyncAndAsyncAgree`).
- A new launch overwrites the record of an earlier unresolved one (`Launcher.EarlierRecordSurvivesExactlyWhen`).
- The interpolated percentile is rounded to three places; it stays within the samples exactly when rounding pushes
  neither the smallest nor the largest out (`Percentiles.InterpolatedIsWithinExactlyWhen`).
- Gates over rounded rates agree with whole-number comparisons up to 20,000 tasks and calls, and not beyond
  (`BenchmarkKpis.OneTaskMoreFlips`, `BenchmarkKpis.LargeRunPassesBelowThreshold`).
- The import rewriter replaces whole lines, so whatever shares a line with a rewritten import vanishes; it looks up
  the new name of an import with `as`, resolves absolute imports beside the file, takes the first export of an
  `__init__` without regard to renaming or level, and takes `*` for a name. `BarrelLookups.AsIsKeptExactlyWhen`,
  `BarrelMisreads` and `BarrelStars` say for each exactly when the import is kept.

## Model

| member | source | states |
|---|---|---|
| ExplicitAll.ExplicitAll | ci/lint_python.py:987-1018 | the loop over the module body computes the scan, statement by statement, with the dictionary of readings and the deciding statement |
| ExplicitAll.RecordNames | ci/lint_python.py:1000-1012 | the inner loop over assigned names records each reading, and only `__all__` decides |
| ExplicitAll.ScanFromAppends | ci/lint_python.py:987-1018 | scanning one more statement is one more step after scanning the rest |
| AllSoundness.ExplicitAllIsSound | ci/lint_python.py:802-1018 | whenever the scan of a disciplined module reports names, every completed run, from any closed state, ends with `__all__` holding exactly those names in order |
| AllSoundness.StaticIsDenoted | ci/lint_python.py:802-825 | a statically read list expression denotes that list in every state in which the readings are faithful |
| AllSoundness.StatementKeepsInv | ci/lint_python.py:987-1018 | every run of a disciplined statement keeps all readings of the scan faithful and the tracked lists unshared |
| AllExample.SoundnessApplies | ci/lint_python.py:987-1018 | for every helper and every readable value the premises of the soundness theorem hold together: `h = value; __all__ = h` is disciplined, runs, and is reported |
| AllExample.StarImportFirstIsNotMisread | ci/lint_python.py:987-1018 | a star import before anything is read does no harm |
| AllReadings.AssignedListIsReported | ci/lint_python.py:987-1018 | complete: when a disciplined module goes on to assign `__all__` or a helper, annotated or not, alone or taken apart among any targets, a value built of lists over names that are read, the list it is in the run is the report and the reading |
| AllReadings.AssignmentIsReportedExactlyWhen | ci/lint_python.py:802-843 | after any statements, an assignment of `__all__` that shows no change is reported if and only if its value is built of strings, displays, sums and names that are read |
| AllReadings.ExtensionIsReportedExtended | ci/lint_python.py:846-860 | an extension of a reported list is reported as that list followed by what the other side is in the run |
| AllReadings.UnreadExtensionEndsTheReport | ci/lint_python.py:846-860 | any other augmented assignment, or one that cannot be read, ends the report |
| AllReadings.OthersKeepOrEndTheReport | ci/lint_python.py:987-1018 | every statement that does not assign `__all__` keeps the report as it is, or ends it exactly if it shows a change |
| AllReadings.OthersKeepTheReading | ci/lint_python.py:1000-1012 | the reading of a helper stays until an assignment names the helper |
| AllReadings.OwnerIsTheLastToDecide | ci/lint_python.py:987-1018 | the statement named beside the report is the last one that shows a change of `__all__` or assigns it a value |
| AllVisibility.ChangeIsHiddenOrKnown | ci/lint_python.py:922-964 | every node that can bind or change `__all__`, itself or by what it invokes, is recognised by the scan or has one of the overlooked shapes |
| AllVisibility.ReportedExactlyWhen | ci/lint_python.py:846-897 | a statement is reported exactly when it shows a change in a known shape in plain view |
| AllVisibility.OverlookedExactlyWhen | ci/lint_python.py:846-984 | a statement, with the function bodies that run with it, can change `__all__` unreported if and only if it hides a change in an overlooked shape and shows none in a known one |
| AllShapes.RecognisedExactlyWhen | ci/lint_python.py:922-964 | a node is taken for a change of `__all__` if and only if it binds or deletes the name, has a target from which attributes, subscripts, stars and elements lead to it, calls a method of it, or is a definition, import, handler or pattern that binds it |
| AllShapes.ShowsExactlyWhen | ci/lint_python.py:846-919 | so a statement shows a change if and only if such a node is in view |
| AllShapes.AssignedExactlyWhen | ci/lint_python.py:828-843 | the names recorded for an assignment, annotated or not, are those that stars and elements of its targets lead to |
| AllVisibility.ReportedIsAChange | ci/lint_python.py:846-964 | a statement whose targets are targets is reported only if running it can bind or change `__all__` |
| ListFate.ListIsLostExactlyWhen | ci/lint_python.py:987-1018 | after `x = [...]`, statements that do not assign `x` leave it without its list in some run if and only if one of them, or a body it calls, binds `x` or changes a list through a name the list may have been handed to |
| AllBlindSpots.MisreadExactlyWhen | ci/lint_python.py:846-1018 | after `__all__ = [...]`, any statements that do not assign it make the report wrong if and only if all of them are silent and one strikes at the list |
| AllBlindSpots.OneStatementMisreadsExactlyWhen | ci/lint_python.py:846-1018 | for one statement of any kind, assignments and augmented assignments to other names included, with no further condition |
| AllBlindSpots.StatementMisreadsExactlyWhen | ci/lint_python.py:846-984 | for one that assigns nothing itself: exactly when it shows no change, and hides one or changes the list through a name it hands it to |
| AllBlindSpots.BlindStatementMisreads | ci/lint_python.py:846-984 | every statement that hides a change, among silent ones after any published list, has a run the scan misreads |
| AllBlindSpots.DecoratorIsBlind | ci/lint_python.py:900-909 | for every function whose body changes `__all__`, and every definition it decorates |
| AllBlindSpots.InvokedBodiesAreBlind | ci/lint_python.py:900-909 | and for every call, decorator or class header anywhere in a module with such a function or lambda |
| AllBlindSpots.StoredTargetIsBlind | ci/lint_python.py:922-964 | a subscript or attribute of the list stored into by a loop, a `with` or the like is overlooked |
| AllBlindSpots.CallIsBlind | ci/lint_python.py:935-940 | so is a call that is handed the list, or a method of anything but its bare name |
| AllBlindSpots.StarImportIsBlind | ci/lint_python.py:609-613 | so is a star import of any module |
| AllBlindSpots.DefinitionsAreBlind | ci/lint_python.py:900-909 | so are defaults, decorators and class bodies of any definition or lambda in a statement |
| AllBlindSpots.MappingPatternIsBlind | ci/lint_python.py:953-956 | so is the rest name of a mapping pattern anywhere in a statement |
| AllHelpers.HelperIsMisreadExactlyWhen | ci/lint_python.py:993-1012 | `h = [...]`, any statements that do not assign `h`, `__all__ = h`: misread if and only if one of them strikes at the list of `h` |
| AllHelpers.TouchedHelperMisreads | ci/lint_python.py:993-1003 | so every statement that binds the helper or changes it in place, itself or by what it calls, is misread |
| AllHelpers.ExtendedHelperIsMisreadExactlyWhen | ci/lint_python.py:846-860 | for every helper and all displays that can be added, `h = value; h += more; __all__ = h` is misread exactly when something is added |
| AllHelpers.StarImportSpoilsHelpers | ci/lint_python.py:609-613 | for every helper, value and module, a star import between helper and publication is misread |
| AllHelpers.DisplayIsMisreadExactlyWhen | ci/lint_python.py:802-825 | a display of readable elements is misread exactly when it is a set display |
| AllRebinding.RebindingIsMisreadExactlyWhen | ci/lint_python.py:1004-1012 | for every helper and all values, `h = value; h = next; __all__ = h` is misread exactly when the scan cannot read the second value |
| AllRebinding.TakingIsMisreadExactlyWhen | ci/lint_python.py:828-843 | for every helper and value, assigned alone or among as many targets as there are values, `__all__ = h` is misread exactly when the helper is unpacked |
| AllSharing.SharedIsMisreadExactlyWhen | ci/lint_python.py:846-860 | for every helper, display and extension, `h = value; __all__ = h; __all__ += more; __all__ = h` is misread exactly when the display is a list and the extension adds something |
| AllSharing.AliasedIsMisreadExactlyWhen | ci/lint_python.py:846-860 | for every second name and all displays that can be added, `__all__ = value; y = __all__; y += more` is misread exactly when the display is a list and the extension adds something |
| Traversal.ModuleExecutedNodes | ci/lint_python.py:599-606 | the explicit stack visits exactly the recursive preorder pruned below functions, classes and lambdas, each node once |
| Traversal.ModuleExecutedDescendants | ci/lint_python.py:900-909 | the unreversed stack visits the same pruned tree in mirrored order |
| Traversal.MirroredVisitsTheSame | ci/lint_python.py:900-909 | mirrored order and preorder hold the same nodes, equally often |
| Traversal.FallbackArmImports | ci/lint_python.py:1312-1326 | the imports collected from a fallback arm are those of the pruned preorder, in order |
| Traversal.VisitedExactlyWhen | ci/lint_python.py:599-606 | a node is visited if and only if it is one of the roots or a child of a visited node that is no function, class or lambda |
| AliasBindings.ImportBindings | ci/lint_python.py:1340-1350 | the import loop and the rounds after it compute the specified map |
| AliasBindings.ExtendAssignmentBindings | ci/lint_python.py:1353-1371 | stopping at the first unchanged round is the same as all `len(assignments) + 1` rounds |
| AliasBindings.BindNames | ci/lint_python.py:1363-1369 | binding the targets of one assignment, and whether anything changed |
| AliasBindings.ChainIsQualified | ci/lint_python.py:1374-1380 | the qualified name of an attribute chain is its base as bound, followed by its attributes; other expressions have none |
| AliasBindings.DepthIsBounded | ci/lint_python.py:1353-1371 | with write-once acyclic assignments no alias chain is longer than the number of assignments |
| AliasBindings.RoundsExpandFully | ci/lint_python.py:1353-1371 | whatever the order of the assignments, that many rounds give every name its full expansion, and more rounds change nothing |
| AliasBindings.ReportedThroughAnyChain | ci/lint_python.py:1383-1401 | a callee is reported exactly when it is an alias chain that leads to `importlib.import_module` |
| ImportNames.LastImportDecides | ci/lint_python.py:1340-1350 | for every walk and name: the last import alias that binds the name decides, `from mod import a` giving `mod` followed by `a`, and `import a.b` giving `a.b`, under the new name or else under the first component |
| ImportNames.UnboundIsAbsent | ci/lint_python.py:1340-1350 | a name that no import binds is absent |
| ImportNames.AssignmentsAreWalked | ci/lint_python.py:1353-1362 | the rounds go over exactly the assignments of the walk, annotated ones too |
| ImportNames.ReportedExactlyWhenImported | ci/lint_python.py:1383-1401 | a call whose callee leads, through any chain of aliases, to the name `y` and on by `path` is reported if and only if the import of `y` followed by `path` is `importlib.import_module` |
| ImportNames.RenamedLocatorIsReported | ci/lint_python.py:1383-1401 | so with `from importlib import import_module as y` every call of `y`, or of anything assigned from it, is reported, for every `y` |
| AliasCycles.AddingCycleNeverSettles | ci/lint_python.py:1353-1371 | on any assignments with a cycle, each of whose names is written once, that adds an attribute anywhere, every round changes something |
| AliasCycles.AddingCycleHasNoFixpoint | ci/lint_python.py:1353-1371 | because no bindings at all are a fixpoint of the round |
| BareCycles.BareCycleSettlesExactlyWhen | ci/lint_python.py:1353-1371 | on any assignments with a cycle of bare names, each written once, from the first round on a further round leaves the readings of the cycle alone if and only if the readings carried into the first round agree |
| AliasCycles.TwoCycleSettles | ci/lint_python.py:1353-1371 | `x = y; y = x` settles after one round, for all names and bindings |
| AliasCycles.ThreeCycleSettlesExactlyWhen | ci/lint_python.py:1353-1371 | `a = b; b = c; c = a` settles exactly when two readings agree, and swings between two states otherwise |
| AliasCycles.SelfAliasGrows | ci/lint_python.py:1353-1371 | `x = x.attr` grows by one attribute a round, from any imports |
| Allowances.LoadAllowances | ci/lint_python.py:1909-1948 | the file is accepted whole, entry for entry, or refused at its first faulty or repeated entry with that entry's first fault |
| Allowances.LoadingIsDetermined | ci/lint_python.py:1909-1948 | that contract leaves exactly one result |
| Allowances.ApplyAllowances | ci/lint_python.py:1968-2015 | the loops over findings and over the dictionary compute the specified report |
| Allowances.FindingsAreReported | ci/lint_python.py:1979-1990 | without a scope a finding is reported, as often as found, exactly when no allowance names it |
| Allowances.StaleAllowancesAreReported | ci/lint_python.py:1991-2015 | with a scope the report holds exactly the unallowed findings and one entry for each unmatched allowance in scope |
| Allowances.CleanExactlyWhen | ci/lint_python.py:1968-2015 | with a scope nothing is left if and only if every finding is allowed and every allowance in scope matches a finding |
| Allowances.ReportIsSorted | ci/lint_python.py:174-181 | the report is sorted by path, line, column, code, message, fingerprint |
| Allowances.ReportIgnoresOrder | ci/lint_python.py:1968-2015 | the order of the findings does not matter |
| AllowanceRecords.WriteRecords | ci/lint_python.py:2103-2131 | the loop records exactly the findings with a policy code, sorted |
| AllowanceRecords.RecordsLoadExactlyWhen | ci/lint_python.py:1909-1948 | the record of some findings loads if and only if its findings are well placed and have distinct identities |
| AllowanceRecords.LoadedIdentities | ci/lint_python.py:2103-2131 | what then loads allows exactly the identities of the findings with a policy code |
| AllowanceRecords.RecordsRoundTrip | ci/lint_python.py:1968-2015 | applied to the findings it was made from, under any scope, it leaves exactly those without a policy code |
| AllowanceTerms.FirstFaultIsNamed | ci/lint_python.py:1909-1948 | the faults of an entry in terms of its fields, in the order in which they are looked for |
| AllowanceTerms.FindingIsSilencedExactlyWhen | ci/lint_python.py:1979-1990 | without a scope a finding is left, as often as it was made, unless an allowance agrees with it in code, path, line, column and fingerprint |
| AllowanceTerms.ReportedExactlyWhen | ci/lint_python.py:1968-2015 | with a scope the report holds exactly the findings that no allowance names, and what is said of the last allowance for each place that lies under a prefix and names nothing |
| AllowanceTerms.InScopeExactlyWhen | ci/lint_python.py:1951-1966 | a path is in scope if and only if it is a prefix or lies below one; the root holds everything |
| AllowanceTerms.ReportIsOrdered | ci/lint_python.py:174-181 | the order of the report, field by field |
| AllowanceTerms.RecordNamesItsFinding | ci/lint_python.py:2103-2131 | the record of a finding allows that finding, with its grounds and message as the reason and the phase set for its code |
| NativeMutation.SyncIsExactlyOnce | addon/FreeCADMCP/collaboration_api.py:414-492 | whatever the coordinator does, a call that is committed, rolled back or unsupported leaves the settled document with the edit applied once or not at all, truthfully reported; at most two commits, the second without recompute |
| NativeMutation.AsyncIsExactlyOnce | addon/FreeCADMCP/collaboration_api.py:121-249 | the same for the path on the GUI thread |
| NativeMutation.BodyCreateIsExactlyOnce | addon/FreeCADMCP/collaboration_api.py:330-395 | the same for body creation, in one commit, off and on the GUI thread |
| NativeMutation.BodyCreationsAgree | addon/FreeCADMCP/collaboration_api.py:374-395 | both paths of body creation end alike, but for the same refusal |
| NativeMutation.SyncAndAsyncAgree | addon/FreeCADMCP/collaboration_api.py:146-165 | both paths give the same result or exception, document and commits, if and only if the binding does not refuse the call with a type error |
| NativeMutation.CommitsWhenNothingFails | addon/FreeCADMCP/collaboration_api.py:414-492 | when nothing fails the edit is committed and said to be |
| NativeMutation.CallbackFailureIsReported | addon/FreeCADMCP/collaboration_api.py:272-301 | a raising callback is a proven rejection after a working rollback and an uncertain failure otherwise |
| NativeMutation.CommitIsTruthful | addon/FreeCADMCP/collaboration_api.py:272-301 | after one commit, from any frame with nothing lost, committed or recorded yet, a returned outcome or an exception recorded by our callbacks says truly whether the edit is in the document |
| NativeMutation.FinishCommitsExactlyWhen | addon/FreeCADMCP/collaboration_api.py:452-464 | in whatever frame, finishing is one more commit without recompute exactly when its guard holds, and then one more edit if that commit goes well |
| NativeMutation.AwaitingTwiceAppliesTwiceExactlyWhen | addon/FreeCADMCP/collaboration_api.py:452-480 | in a run whose first await reapplied the edit, a second await applies it again exactly when the native side answers with an accepted failure again |
| NativeMutation.Bridge.ProvenRejection | addon/FreeCADMCP/collaboration_api.py:292-301 | the loop over recorded exceptions finds the first that is this very object |
| NativeMutation.Bridge.InvokeCallback | addon/FreeCADMCP/collaboration_api.py:421-432 | the callback starts, captures the baseline, applies the edit, and records what it raises |
| NativeMutation.Bridge.InvokePostcondition | addon/FreeCADMCP/collaboration_api.py:434-450 | in a reapply the bindings are checked before the postcondition |
| NativeMutation.Bridge.FinishResult | addon/FreeCADMCP/collaboration_api.py:452-479 | one reapply without recompute, then settlement, only for an accepted failure |
| NativeMutation.Bridge.CreateBody | addon/FreeCADMCP/collaboration_api.py:386-395 | body creation as it updates its shared variables is the specified run |
| NativeMutation.Bridge.CreateBodyAndAwait | addon/FreeCADMCP/collaboration_api.py:374-384 | so is the awaited one |
| NativeMutation.Bridge.CommitDirectly | addon/FreeCADMCP/collaboration_api.py:481-492 | the direct call as it updates its shared variables is the specified run |
| NativeMutation.Bridge.CommitAndAwait | addon/FreeCADMCP/collaboration_api.py:121-249 | so is the awaited one |
| NativeEndings.CommitEndsAs | addon/FreeCADMCP/collaboration_api.py:272-301 | one commit in which nothing was recorded before ends, document and answer, as a table over the coordinator's script says |
| NativeEndings.SyncEndsAs | addon/FreeCADMCP/collaboration_api.py:414-492 | every direct call ends as that table says for its one commit, or, if missing sources alone made the recompute fail, as it says for the reapply and its settlement |
| NativeEndings.AsyncEndsAs | addon/FreeCADMCP/collaboration_api.py:121-249 | and every awaited one |
| NativeEndings.BodyCreateEndsAs | addon/FreeCADMCP/collaboration_api.py:330-395 | body creation ends as one recomputed commit, on both paths |
| NativeEndings.CommitsTwiceExactlyWhen | addon/FreeCADMCP/collaboration_api.py:452-464 | there is a second commit, without recompute, if and only if the first finished its callback and failed its recompute, explained, with missing sources, and was rolled back |
| NativeEndings.ReappliedEditKeepsBindings | addon/FreeCADMCP/collaboration_api.py:434-450 | on both paths, whatever happens: an edit that is in the document after two commits has its bindings preserved |
| NativeEndings.LostBindingsAreRefused | addon/FreeCADMCP/collaboration_api.py:434-450 | conversely, a reapply that lost its bindings leaves the document as it was and is said to have failed its postcondition |
| NativeEndings.PostconditionDecides | addon/FreeCADMCP/collaboration_api.py:434-450 | a postcondition that says yes commits, one that says no is a failed postcondition, and one that raises a proven rejection |
| Settlement.SettlementIsBounded | addon/FreeCADMCP/document_recompute_settlement.py:74-113 | for any document, whatever it answers and whichever call raises: at most `max_passes + 1` recomputes, all but the first forced, one purge and only after every pass left work, nothing once work is seen cleared or a call raised, and all of it done when work stays |
| Settlement.Document.SettleMustExecute | addon/FreeCADMCP/document_recompute_settlement.py:74-113 | the retry loop makes exactly the specified calls |
| Settlement.AsyncPump | addon/FreeCADMCP/document_recompute_settlement.py:39-54 | at most 180,000 iterations; it ends at the first done reply or past the deadline |
| SettlementLog.SettlementFollows | addon/FreeCADMCP/document_recompute_settlement.py:74-113 | the whole log, call by call: what each question, recompute, pump and purge follows, that each gets the next of the document's answers, and that nothing is left to do at the end |
| SettlementLog.BlockedRecomputeIsPumped | addon/FreeCADMCP/document_recompute_settlement.py:57-71 | a recompute that would block is pumped next, with the same force |
| StartupWatchdog.MarksAreBounded | scripts/start_freecad_isolated.py:274-331 | samples that move the deadline number at most phases plus processor high-water in minimums plus read high-water in mebibytes |
| StartupWatchdog.RunsAreStoppedInTime | scripts/start_freecad_isolated.py:332-338 | with a bounded gap between samples a run is over within the cap plus one gap, and within one stall window and gap per mark and one more |
| StartupWatchdog.ListeningFixesTheDeadline | scripts/start_freecad_isolated.py:307-338 | once the endpoint listens no further sample changes the watchdog |
| StartupWatchdog.Watchdog.TakeSample | scripts/start_freecad_isolated.py:293-338 | one sample of the object is one step of the specification |
| StartupWatchdog.RunsAreStoppedInTimeForTheirProgress | scripts/start_freecad_isolated.py:293-338 | together: a run is over within one stall window and gap for each phase, CPU minimum and mebibyte it used, and one more, and within the cap plus one gap |
| WatchdogSamples.SampleMoves | scripts/start_freecad_isolated.py:293-331 | what a sample makes of phases, high-water marks and deadline, in phase files, seconds and bytes |
| WatchdogSamples.StoppedExactlyWhen | scripts/start_freecad_isolated.py:332-338 | a launch is stopped if and only if its whole time is up, or it makes no progress and its stall window is over |
| WatchdogSamples.ProgressIsNotStopped | scripts/start_freecad_isolated.py:293-338 | so one that makes progress within its whole time goes on with a new stall window |
| WatchdogSamples.ReportingOnlyLooks | scripts/start_freecad_isolated.py:293-306 | a reporting sample counts phases and changes nothing else |
| Launcher.TerminateSpawnedProcess | scripts/start_freecad_isolated.py:528-548 | no living child is reported stopped; one that dies by the second wait is, and one that dies by the last poll unless the first wait failed |
| Launcher.NoChildIsLost | scripts/start_freecad_isolated.py:1581-1754 | for every sequence of faults after the spawn: manifest published, or child dead in time without this launch's record, or child alive at the last poll with the record on disk, unless writing or clearing it failed |
| Launcher.ManifestFollowsProof | scripts/start_freecad_isolated.py:1675-1701 | the manifest changes only after a proof, whose child is not stopped, and success is returned exactly then |
| Launcher.WaitPublishesOnlyProofs | scripts/start_freecad_isolated.py:1641-1701 | what the waiting loop publishes is exactly the facts of the first proof |
| Launcher.EarlierRecordSurvivesExactlyWhen | scripts/start_freecad_isolated.py:1581-1754 | a record left by an earlier launch survives if and only if the spawn fails, or announcing or writing fails and then the child dies in time or the second write fails |
| Launcher.Session.Run | scripts/start_freecad_isolated.py:1581-1754 | the launch with its flags and its `finally` is the specified run |
| LaunchEndings.LaunchEndsAs | scripts/start_freecad_isolated.py:1581-1754 | every launch: the proven facts are in the manifest, and the child left running, if and only if every step up to it goes well and the turn that ends the wait proves them; otherwise the manifest is as it was; when the child is stopped, which record is on disk, and which exit is given |
| LaunchEndings.WaitEndsAs | scripts/start_freecad_isolated.py:1641-1701 | the wait ends at the first turn that is not merely unready, and as that turn says |
| LaunchEndings.ProvenLaunchSucceeds | scripts/start_freecad_isolated.py:1675-1701 | when all goes well the proof that was waited for is published, the record is gone, and nought is returned |
| LaunchEndings.ChildsExitIsReturned | scripts/start_freecad_isolated.py:1641-1656 | a child that ends early lends its exit code, one in place of nought |
| MergeTelemetry.ReadEvents | scripts/merge_mcp_telemetry.py:12-31 | the reading loop collects the objects of all files in order, sourced, and sorts them, or stops at the first bad line |
| MergeTelemetry.Merge | scripts/merge_mcp_telemetry.py:34-41 | the written file holds exactly the sorted events |
| MergeTelemetry.EventsAreSortedStably | scripts/merge_mcp_telemetry.py:24-31 | the events are a permutation of the collected ones, sorted by timestamp, session and sequence, and equal keys keep their order |
| MergeTelemetry.MergedIsCollected | scripts/merge_mcp_telemetry.py:12-41 | reading a merged file gives back its events |
| MergeTelemetry.MergingInStepsIsMergingAtOnce | scripts/merge_mcp_telemetry.py:12-41 | merging a merge of neighbouring files with the files around it gives event for event the merge of all |
| MergeTelemetry.RemergingIsIdempotent | scripts/merge_mcp_telemetry.py:12-41 | merging a merged file again changes nothing |
| MergedEvents.BadLineIsNamed | scripts/merge_mcp_telemetry.py:12-31 | reading a file stops exactly at its first line that is no JSON object, named by file and number |
| MergedEvents.FileIsRead | scripts/merge_mcp_telemetry.py:12-31 | otherwise its events are those of its lines, in order, unchanged but marked with the file's name unless they had a mark |
| MergedEvents.FilesAreRead | scripts/merge_mcp_telemetry.py:12-31 | the files follow one another, up to the first with a bad line |
| MergedEvents.MergedAreOrdered | scripts/merge_mcp_telemetry.py:24-31 | by timestamp, then session, then sequence number, what is missing counting as empty or nought |
| StableSort.SortIsStable | scripts/merge_mcp_telemetry.py:24-31 | equivalent elements keep their order |
| StableSort.SortedIsDetermined | scripts/merge_mcp_telemetry.py:24-31 | a sorted sequence is determined by the order inside its equivalence classes |
| Percentiles.NearestRankSplitsTheSamples | scripts/analyze_mcp_telemetry.py:14-19 | the nearest rank is a sample with at least `p * n` samples not above it and strictly fewer below it |
| Percentiles.NearestRankOfPermutation | scripts/analyze_mcp_telemetry.py:14-19 | it does not depend on the order of the samples |
| Percentiles.InterpolatedIsMonotone | benchmarks/runner.py:65-75 | the interpolated percentile is monotone in the percentile, across index boundaries |
| Percentiles.InterpolatedIsBetween | benchmarks/runner.py:65-75 | it lies between the rounded minimum and the rounded maximum |
| Percentiles.InterpolatedIsWithinExactlyWhen | benchmarks/runner.py:65-75 | every percentile lies between minimum and maximum if and only if rounding pushes neither of them out |
| Percentiles.SingleSampleIsRounded | benchmarks/runner.py:65-75 | for one sample it lies between minimum and maximum exactly when the sample has at most three decimals |
| Percentiles.InterpolatedOfPermutation | benchmarks/runner.py:65-75 | it does not depend on the order of the samples |
| Percentiles.HalfEvenIsNearest | benchmarks/runner.py:65-79 | rounding gives the nearest number, the even one of two |
| Percentiles.InterpolatesLinearly | benchmarks/runner.py:65-75 | between two neighbouring samples the percentile is what divides their distance as the index divides theirs, rounded; the smallest sample is at the bottom of the scale and the largest at its top |
| AnalyzeTelemetry.CountEvents | scripts/analyze_mcp_telemetry.py:33-59 | the counters and the set of sessions that the loop keeps |
| AnalyzeTelemetry.GroupCalls | scripts/analyze_mcp_telemetry.py:51-96 | the dictionary of groups, with its keys in the order first seen, holds for every key the calls with that key |
| AnalyzeTelemetry.RenderPatterns | scripts/analyze_mcp_telemetry.py:98-143 | the patterns are rendered by falling calls, then by key |
| AnalyzeTelemetry.Summarize | scripts/analyze_mcp_telemetry.py:22-160 | the report is the specified function of the events |
| AnalyzeTelemetry.ReportIgnoresOrder | scripts/analyze_mcp_telemetry.py:22-160 | the whole report is the same for every order of the same events |
| AnalyzeTelemetry.AnalysisIgnoresSplitting | scripts/analyze_mcp_telemetry.py:22-160 | and for every way of spreading them over files |
| AnalyzeTelemetry.AnalysisOfMergedFile | scripts/analyze_mcp_telemetry.py:22-160 | analysing a merged file is analysing the files it was merged from |
| AnalyzeTelemetry.KeysAreTheGroups | scripts/analyze_mcp_telemetry.py:51-96 | there is one entry for every key that some event falls under, and none else |
| AnalyzeTelemetry.CallsAreConserved | scripts/analyze_mcp_telemetry.py:63-87 | in every group the calls equal the sum of outcomes, of access modes, of modes and of targets |
| AnalyzeTelemetry.PatternsAreConserved | scripts/analyze_mcp_telemetry.py:103-131 | successes, unmet conditions, warnings and failures add up to the calls |
| TelemetryFigures.ReportCounts | scripts/analyze_mcp_telemetry.py:33-59 | the counters and shares of the report as numbers of events with that name, status or class |
| TelemetryFigures.ReportCountsSessions | scripts/analyze_mcp_telemetry.py:33-59 | the sessions counted are the different ones that occur |
| TelemetryFigures.GroupsCountCalls | scripts/analyze_mcp_telemetry.py:51-96 | every tally of a group, by access, mode, target and outcome, is the number of its calls of which it holds |
| TelemetryFigures.GroupsCollect | scripts/analyze_mcp_telemetry.py:51-96 | the sets of a group hold what the code of some call of it mentions |
| TelemetryFigures.PatternCounts | scripts/analyze_mcp_telemetry.py:98-143 | for every pattern: successes, timeouts and failures as numbers of calls, the mean of the durations, and their two percentiles |
| TelemetryFigures.PatternsAreOrdered | scripts/analyze_mcp_telemetry.py:98-103 | patterns with more calls come first, then by key |
| TelemetryFigures.PatternsCoverTheKeys | scripts/analyze_mcp_telemetry.py:98-143 | there is exactly one for each key that some call falls under |
| TelemetryFigures.LinesAreAnalyzed | scripts/analyze_mcp_telemetry.py:22-32 | the events that are analysed are those of the lines, in order; other values are skipped |
| TelemetryFigures.ReadableFilesAreAnalyzed | scripts/analyze_mcp_telemetry.py:22-32 | the files follow one another, and the report is that of all their events |
| TelemetryFigures.FirstBrokenLineIsNamed | scripts/analyze_mcp_telemetry.py:22-32 | the first line that is no JSON stops the analysis |
| BenchmarkKpis.RatioReaches | benchmarks/runner.py:78-79 | for every numerator and denominator, comparing a rounded rate with a percentage decides one whole-number inequality |
| BenchmarkKpis.RatioIsAShare | benchmarks/runner.py:78-79 | a share stays between nought and one, and when it is exactly one |
| BenchmarkKpis.FlippedExactlyWhen | benchmarks/runner.py:218-246 | rounding flips a comparison if and only if the shortfall is positive and at most a twenty-thousandth of the denominator |
| BenchmarkKpis.GatesOnAnyRun | benchmarks/runner.py:82-246 | what each of the eleven gates decides on a run of any size, in counted tasks and calls |
| BenchmarkKpis.RoundingFlipsNoVerdict | benchmarks/runner.py:82-246 | up to twenty thousand tasks and calls the gates are the plain inequalities, with zero denominators failing lower and passing upper bounds |
| BenchmarkKpis.OneTaskMoreFlips | benchmarks/runner.py:218-246 | with one task more the timeout gate fails a run it should pass |
| BenchmarkKpis.LargeRunPassesBelowThreshold | benchmarks/runner.py:218-246 | the argument gate passes a run of 20,033 tasks below its threshold |
| BenchmarkKpis.EmptyRunFails | benchmarks/runner.py:218-246 | a run without tasks fails the lower bounds and passes the upper ones |
| BenchmarkKpis.CollectLatencies | benchmarks/runner.py:89-91 | the dictionary of latencies holds for every tool class its durations in order |
| BenchmarkKpis.MedianIsBelow | benchmarks/runner.py:161-168 | in every tool class that occurs the median is reported and not above the 95th percentile |
| KpiFigures.RatioIsRate | benchmarks/runner.py:78-79 | a rate is the millionth nearest to the quotient, the even one of two, and nought without a denominator |
| KpiFigures.RatesOfAllTasks | benchmarks/runner.py:82-160 | the rates over all tasks, each as a number of tasks of which something holds |
| KpiFigures.RatesOfSomeTasks | benchmarks/runner.py:82-160 | the rates over the tasks concerned: refusals, recoveries, rollbacks, reopenings and tokens |
| KpiFigures.SharesOfCalls | benchmarks/runner.py:82-160 | the public, typed and generated shares as sums of calls |
| KpiFigures.FiguresOfSuccesses | benchmarks/runner.py:82-216 | calls and tokens for each success |
| KpiFigures.LatenciesAreReported | benchmarks/runner.py:161-168 | median and 95th percentile of the durations of every tool class that occurs |
| KpiFigures.GatesInTasks | benchmarks/runner.py:218-246 | what each gate asks for, in tasks and calls, up to twenty thousand |
| BarrelImports.PackageDirForImport | scripts/rewrite_barrel_imports.py:30-40 | the loop up the directories finds the specified package, if it has an `__init__` and no sibling module |
| BarrelImports.RewriteNode | scripts/rewrite_barrel_imports.py:43-80 | one import's row is replaced by one import per name, exactly when some name has a leaf |
| BarrelImports.RewriteFile | scripts/rewrite_barrel_imports.py:83-101 | the loop ends on every tree, in the specified fixpoint, and says whether it changed anything |
| BarrelImports.StepDeepens | scripts/rewrite_barrel_imports.py:83-101 | every rewrite lowers the total depth that imported names have left |
| BarrelImports.RewritingMeansTheSame | scripts/rewrite_barrel_imports.py:15-101 | under the conventions for packages and importers, every local name is bound in the same order to the same definition after the rewriting |
| BarrelImports.RewrittenIsSettled | scripts/rewrite_barrel_imports.py:83-101 | in the result nothing can be rewritten, and rewriting again changes nothing |
| BarrelImports.RewrittenImportsAreDirect | scripts/rewrite_barrel_imports.py:15-101 | in the result every imported name comes from the module that defines it, unless a module shadows the package |
| BarrelLookups.RewrittenExactlyWhen | scripts/rewrite_barrel_imports.py:15-53 | an import is rewritten if and only if its directory, up by the dots and down by the module, is a package beside no module of the name, and for some alias, the last of its name, some export there is a re-export from a named module under the alias's new name |
| BarrelLookups.LineGoesToTheFirstOffer | scripts/rewrite_barrel_imports.py:43-80 | every alias gets one line, which goes to the target of the first such export, or to the package if there is none, keeping level and name, and `as` only where it renames |
| BarrelLookups.StepReplacesTheFirst | scripts/rewrite_barrel_imports.py:83-101 | one step replaces the first row that holds such an import by the lines of the first one in it |
| BarrelLookups.NothingToRewrite | scripts/rewrite_barrel_imports.py:83-101 | a file without such an import is left as it is |
| BarrelMisreads.StepKeepsExactlyWhen | scripts/rewrite_barrel_imports.py:55-80 | under the other conventions a rewrite keeps everything the file does exactly when the import has its line to itself |
| BarrelMisreads.ImportIsKeptExactlyWhen | scripts/rewrite_barrel_imports.py:43-80 | an import of any number of names is kept exactly when each of its names is |
| BarrelMisreads.NameIsKeptExactlyWhen | scripts/rewrite_barrel_imports.py:43-80 | in any tree of plain packages a name is kept exactly when the package and the leaf that was found take it from the same module in the end |
| BarrelMisreads.AbsoluteImportIsKeptExactlyWhen | scripts/rewrite_barrel_imports.py:30-40 | there a name of an absolute import is kept exactly when the package it really names takes it from a module of the same name |
| BarrelMisreads.ExportIsKeptExactlyWhen | scripts/rewrite_barrel_imports.py:15-27 | with any `__init__` over modules, a name is kept exactly when the binding that counts re-exports it unrenamed from the module found |
| BarrelMisreads.TracedNameIsKeptExactlyWhen | scripts/rewrite_barrel_imports.py:15-80 | in any tree, through any re-exports, a name is kept exactly when following it from the package and from the module of the new line ends alike, or nowhere for both |
| BarrelLookups.AsIsKeptExactlyWhen | scripts/rewrite_barrel_imports.py:48-53 | where packages take both names straight from modules, an import with `as` is kept if and only if the first re-exports of the old and of the new name have one target |
| BarrelStars.StarIsKeptExactlyWhen | scripts/rewrite_barrel_imports.py:15-27 | a star import through a package is kept exactly when the star-imported module gives every public name the package gives, and gives each of its own last |
| BarrelStars.OwnNameIsLost | scripts/rewrite_barrel_imports.py:15-27 | so a further public name that the package defines itself is lost |
| PauseGate.Gate.AdmitRemoteWrite | addon/FreeCADMCP/automation_pause.py:55-75 | a write is admitted with its token and its named documents, or refused with the status and nothing changed |
| PauseGate.Gate.FinishRemoteWrite | addon/FreeCADMCP/automation_pause.py:78-86 | a known token's write leaves the table and becomes the last finished |
| PauseGate.Gate.ReadStatus | addon/FreeCADMCP/automation_pause.py:89-102 | the status is the specified view of the state |
| PauseGate.ActiveIsOutstanding | addon/FreeCADMCP/automation_pause.py:33-102 | over every run with fresh tokens the table holds exactly the writes admitted and not finished, in admission order |
| PauseGate.CurrentIsOldest | addon/FreeCADMCP/automation_pause.py:89-102 | the current operation is the oldest such write |
| PauseGate.CurrentIsNone | addon/FreeCADMCP/automation_pause.py:89-102 | and there is none exactly when no write is outstanding |
| PauseGate.NoTokenWhilePaused | addon/FreeCADMCP/automation_pause.py:55-68 | no token is issued between a pause and the next resume |
| PauseGate.ActiveOnlyFalls | addon/FreeCADMCP/automation_pause.py:33-75 | meanwhile the number of active writes never rises |
| PauseGate.WaitsForTheAdmitted | addon/FreeCADMCP/automation_pause.py:89-102 | the gate waits exactly while a write admitted before the pause is unfinished |
| PauseGate.FinishingAgainChangesNothing | addon/FreeCADMCP/automation_pause.py:78-86 | finishing the same write again, however much later, changes nothing |
| PauseGate.FinishRecordsTheWrite | addon/FreeCADMCP/automation_pause.py:78-86 | finishing an outstanding write shows that write as the last operation |
| GateViews.AdmissionIsDecided | addon/FreeCADMCP/automation_pause.py:55-75 | after any run with fresh tokens, a write is refused with the status exactly if the user has paused, and otherwise answered with the token that then stands for it in the table, behind all others |
| GateViews.TableIsKept | addon/FreeCADMCP/automation_pause.py:55-86 | in any state the table is a dictionary: an admission sets the entry of its token, an ending takes it away, and nothing else touches it |
| GateViews.StatusIsShown | addon/FreeCADMCP/automation_pause.py:89-102 | the status shows whether the user paused, and the writes admitted and not finished, oldest first |
| GateViews.OthersKeepTheLastOperation | addon/FreeCADMCP/automation_pause.py:78-86 | whatever ends no outstanding write leaves the last operation alone |
| GateViews.NonEmptyNamesAreKept | addon/FreeCADMCP/automation_pause.py:55-75 | a write keeps its non-empty document names, as often as given |

## Left out

- Python syntax: a small tree of statements and expressions stands for `ast`; operator and context nodes without
  children are not visited, and the text of a file is not parsed.
- Names are resolved: those local to a function, a class body or a comprehension are spelled apart from the module's,
  so a comprehension variable called `__all__`, which the scan takes for the module's, is not modelled.
- Module runs: a call, a decorator or a class header may change any list it mentions and run any function or lambda of
  the module, but no code of other modules reaches back into the module's names; operators, iteration, attribute access
  and context managers run no function of the module unless something is called in the same statement; a list put into
  a container or an object by one statement is not followed when another takes it out; an expression that would raise,
  such as a list plus a tuple, may get a value. Where the syntax does not tell, anything is a run: `print(__all__)` may
  change the list, and so counts as misread.
- AllSoundness.ExplicitAllIsSound: assumes a discipline on helpers (plain-name targets, never mutated, no list shared
  with an untracked name or changed in place while shared, no set display; where something is called, the same of every
  function body) and that no statement hides a change of a reading that is kept; `AllBlindSpots`, `AllHelpers`,
  `AllRebinding` and `AllSharing` show for each clause what goes wrong without.
- ListFate.ListIsLostExactlyWhen: among several statements, the target of an augmented assignment neither may hold the
  list nor was assigned by an earlier one of them; for a single statement this always holds, and
  `AllSharing.AliasedIsMisreadExactlyWhen` decides an alias that is extended.
- AllBlindSpots.MisreadExactlyWhen: the same.
- AllHelpers.HelperIsMisreadExactlyWhen: the same.
- AliasBindings.RoundsExpandFully: assumes write-once acyclic assignments, and is relative to the import map, which
  records an unaliased `import a.b` as `a` standing for `a.b`.
- ImportNames.LastImportDecides: every imported alias has a name, as the grammar demands.
- AllVisibility.ReportedIsAChange: targets are names, attributes and subscripts in that role, as the grammar demands.
- AllReadings.AssignedListIsReported: the discipline of `AllSoundness.ExplicitAllIsSound`, up to the assignment.
- The other findings of the linter (layering, facades, public surface, runtime locators other than
  `importlib.import_module`) are pattern matches with easy facts only; so is `_effective_explicit_all`.
- Allowances: values of the wrong JSON type in the file, the reading of JSON itself, and the hash.
- NativeMutation.SyncIsExactlyOnce: assumes that the coordinator re-raises a callback's exception only after restoring
  the document and never raises that very object for another reason, as collaboration_api.py:273-281 states.
- NativeMutation.AsyncIsExactlyOnce: the waiter is awaited once; threads and the GUI queue are left out, and so is a
  `wait(timeout)` that gives up while the native commit goes on (collaboration_api.py:142-160).
- NativeEndings.SyncEndsAs: the same assumption on the coordinator.
- NativeMutation: the message that a failed recompute carries is reduced to whether it explains every failed node
  (native_error_boundary.py:141-156); `commit_compatibility_mutation` and the path without a native binding are left
  out.
- StartupWatchdog.RunsAreStoppedInTime: the time one probe of the operating system takes belongs to the gap.
- Launcher.NoChildIsLost: covers the unsupervised launch; an asynchronous interrupt between a step and the flag that
  records it, and the supervised, exit-status and Windows paths, are left out, as is what the handshake proves.
- MergeTelemetry: a `sequence` that is not an integer, which raises in the source, and the encoding of JSON.
- AnalyzeTelemetry: sorted lists and dictionaries of counts in the report are sets and multisets; the rendering of one
  pattern keeps its group and its derived figures.
- BenchmarkKpis: plain rates that no gate reads and that are computed like the others (response completion, false
  positives, tool selection, health regression, timeout stages) and the running of the catalogue.
- BarrelImports: each statement stands on one physical line, resolution does not fail beyond the top-level package, and
  the side effects of importing a module are not followed; lines are those that `ast` counts, though `str.splitlines`
  also breaks at form feeds and U+2028, after which the wrong line is replaced.
- BarrelImports.RewritingMeansTheSame: assumes that an `__init__` re-exports from inside its package name by name,
  without renaming, and binds each symbol once, that importers use neither `as` nor `*`, that absolute imports are not
  found beside the file unless it lies at the import root, and that imports have their lines to themselves;
  `BarrelMisreads` and `BarrelStars` cover the rest.
- BarrelLookups.AsIsKeptExactlyWhen: packages re-export without renaming, and the last alias of a name is meant.
- BarrelStars.StarIsKeptExactlyWhen: packages without an `__all__` of their own, whose sources are modules.
- BarrelMisreads.ExportIsKeptExactlyWhen: the binding that counts comes straight from a module; for others
  `BarrelMisreads.TracedNameIsKeptExactlyWhen` follows both names to their ends.
- PauseGate: the refresh of the local display; runs in which a token is issued twice, beyond `GateViews.TableIsKept`.
- FreeCAD, Qt, processes, sockets and signals appear only through their replies; the `ci/check_*` and `ci/qualify_*`
  wrappers, pattern scanners over other files, live CAD scripts and profile setup have no algorithm to model.
