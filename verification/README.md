# Verified model of the workbench's decision code

QUINE is a research workbench: a desktop process owns a core child, a local web server and local
simulations; a browser workspace reads backtest reports, maps CSV files, edits strategy drafts and
starts simulations; scripts route CI jobs and check recovery drills. This project models the parts of
it where correctness is decided by code rather than by plumbing, and proves what they promise for every
input and every run. `dafny verify dfyconfig.toml` checks all of it.

| module | models |
|---|---|
| `Digits`, `Decimal` | `apps/web/src/decimal.ts`: canonical decimals, exact differences, their order |
| `FrozenReport` | the display rounding of `apps/web/src/frozen-report.tsx` |
| `CsvHeader` | the CSV header reader of `apps/web/src/csv-mapping-form.tsx` (section 2 of RFC 4180) |
| `GuidedDeclaration`, `DeclarationTexts` | the declaration writer and reader of the same file, and what they do with the panel's texts |
| `JournalTruth` | the recovery oracle and admission checks of `scripts/ppv16_fault_campaign.py` |
| `ImportGraph`, `CiRoutes` | `scripts/ci_routes.py`: import reachability, path routing, the change list |
| `KnownReferences`, `ReferenceRecords` | the reference index of `apps/web/src/resources.tsx`, and what it shows of each record |
| `DraftEditor` | the save protocol of `apps/web/src/draft-editor.tsx` |
| `PaperStart` | the start protocol of `apps/web/src/paper-workspace.tsx` |
| `DesktopSession` | the lifecycle of `src/ea/desktop.py` |
| `DesktopSettings` | the connection store of `src/ea/desktop_settings.py` |

Code that computes is a function, code that loops or updates fields is a method or a class proved
against a specification function, and the promises are lemmas about that specification. The three
protocols (`DraftEditor`, `PaperStart`, `DesktopSession`) each have a class whose methods are the pieces
of code between two awaits, and a run machine over the same steps in which replies, reloads, messages
and failures come in any order; a state is reachable when some sequence of possible events leads to it.
Stores, replies, clocks and fresh identities enter as parameters of the steps.

A specification that follows the code step by step is in turn tied to a statement that does not: which
records, texts, imports or events bring each part of the result about, each refusal included, in both
directions (the lemmas whose names end in `Exactly`).

Some expectations one may have of this code do not hold. In each case the code is kept, lemmas show
that the failing states are reached, and another says exactly when the expectation holds:

- A reply to a query about one simulation start clears whatever start is pending by then, without
  comparing the two (`paper-workspace.tsx:115-127`), so a later start can be forgotten while it is still
  unresolved and another one let through (`PaperStart.TwoUnresolvedHappens`). The protocol holds on a run
  exactly when no such reply meets another unresolved start (`PaperStart.RunHoldsExactly`).
- A save refused with a listed code should free the tab. It does so, on screen and in storage, exactly
  when the refusal reaches the page that sent the save and the unlocked values can be stored there
  (`DraftEditor.RefusalFreesExactly`). When the page was left first (`DraftEditor.LateRefusalHappens`), or
  storing failed and the page is reloaded (`DraftEditor.UnstoredRefusalHappens`), the refused operation is
  pending again and stays so until a record holding it arrives (`DraftEditor.PendingStaysForGood`).
- A fallback session should find the simulation of the failed one confirmed stopped. It does not when
  the stop raises instead of answering, or when the second stop inside the simulation's own `close` denies
  what the first had confirmed: neither ends the startup (`DesktopSession.UnstoppedFallsBack`). It does in
  every other case, a close that fails otherwise included (`DesktopSession.FallbackStopExactly`).
- A second submission result can withdraw a confirmation and makes the truth depend on the order of the
  records (`JournalTruth.SecondResultWithdraws`, `JournalTruth.ConfirmedStaysExactly`,
  `JournalTruth.OrderIndependentExactly`).
- An admission that lists two intents for one order is judged by the last alone
  (`JournalTruth.ShadowedIntentPasses`). Every intent an accepted admission lists is right exactly when
  any two it lists for one order state the same classification and terminal
  (`JournalTruth.ListedRightExactly`).
- A declaration that can be shown should be written back whole. All four keys are accepted in either of
  its two texts but read from their own alone, so a timezone in the mapping text is dropped
  (`GuidedDeclaration.MisplacedTimezoneIsDropped`), and under the derived availability policy so is a column
  or format stated for the availability time (`GuidedDeclaration.StatedAvailabilityIsDropped`). Nothing is
  lost exactly when neither is the case (`GuidedDeclaration.LosesNothingExactly`).
- Importing a module runs its packages too, so they should count as installed with it. Those on the way to
  an imported name do; the two entry points are pushed without theirs, which can be missing
  (`ImportGraph.EntryPackageIsMissed`). Every package of every installed module is installed exactly when
  those of the entry points are (`ImportGraph.PackagesAreInstalledExactly`).
- An empty path list needs every job, so routing is a join for non-empty parts only
  (`CiRoutes.ClassifyIsJoin`).

## Model

| member | source | states |
|---|---|---|
| Decimal.Parse | apps/web/src/decimal.ts:1-10 | reading succeeds exactly on the canonical grammar |
| Decimal.Format | apps/web/src/decimal.ts:16-26 | the stripping loop prints what the specification prints for every coefficient and scale; the four lemmas below say what that is |
| Decimal.FormatReadsBack | apps/web/src/decimal.ts:1-26 | every printed text, without a leading plus, is canonical and reads back as the number printed, with the number's sign |
| Decimal.ReadFormatsBack | apps/web/src/decimal.ts:1-26 | printing what was read from a canonical string gives that string with its sign made explicit |
| Decimal.FormatDependsOnNumber | apps/web/src/decimal.ts:16-26 | equal numbers print equally, whatever coefficient and scale carry them |
| Decimal.CanonicalIsUnique | apps/web/src/decimal.ts:1-10 | two canonical strings denote one number exactly when they are one string |
| Decimal.CanonicalIsPrinted | apps/web/src/decimal.ts:1-26 | the canonical strings are exactly what the printer prints, without a leading plus |
| Decimal.ExactDelta | apps/web/src/decimal.ts:28-45 | the code with its two scale branches computes the specified difference or refusal |
| Decimal.DeltaIsExact | apps/web/src/decimal.ts:28-45 | the difference is canonical and denotes exactly (after - before) * 10^shift for every scale and shift; exactly the malformed calls are refused |
| Decimal.DeltaRefusedExactly | apps/web/src/decimal.ts:28-33 | a shift outside the safe range is refused before either text is looked at, then a text that is not canonical, and nothing else |
| Decimal.DeltasTelescope | apps/web/src/decimal.ts:28-45 | consecutive differences add up to the whole one at every shift |
| Decimal.DeltaIsAntisymmetric | apps/web/src/decimal.ts:28-45 | exchanging the operands flips the sign character and nothing else |
| Decimal.CompareCanonicalDecimal | apps/web/src/decimal.ts:47-54 | comparing succeeds exactly on two canonical strings |
| Decimal.CompareIsNumericOrder | apps/web/src/decimal.ts:47-54 | the verdict is the order of the numbers denoted, ties only on identical strings, and is antisymmetric |
| Decimal.CompareIsTransitive | apps/web/src/decimal.ts:47-54 | the order is transitive, so it is a total order on canonical strings |
| Decimal.CompareAgreesWithDelta | apps/web/src/decimal.ts:28-54 | the sign of every shifted difference is the verdict of the comparison |
| Decimal.PercentIsExact | apps/web/src/decimal.ts:56-58 | the percent text is the canonical string of exactly 100 times the value, then the percent sign |
| FrozenReport.RoundsHalfUp | apps/web/src/frozen-report.tsx:21-27 | although one digit past the cut is inspected, the digits kept are the half-up rounding of the magnitude |
| FrozenReport.DisplayIsRounding | apps/web/src/frozen-report.tsx:20-31 | the "<" form appears exactly for non-zero magnitudes below half of the last place and names one unit of that place; every other text reads as the half-up rounding at exactly the places asked for; a minus stands before it exactly when the value has one |
| FrozenReport.SignIsShown | apps/web/src/frozen-report.tsx:21-30 | a plus changes nothing, a minus is shown before what is shown without it |
| FrozenReport.ReportPercentRounds | apps/web/src/frozen-report.tsx:33-37 | a reported ratio is shown as 100 times itself, half up at four places, with its own sign |
| CsvHeader.ReadNames | apps/web/src/csv-mapping-form.tsx:110-157 | the scanning loop over index, field, quoted, closed and names computes the character machine's result |
| CsvHeader.ReadHeader | apps/web/src/csv-mapping-form.tsx:102-177 | mark, scan, blank check and repeat check give the specified header or refusal |
| CsvHeader.ScanRow | apps/web/src/csv-mapping-form.tsx:110-157 | any names written quoted or bare, then a record end, are scanned back exactly |
| CsvHeader.ScanReadsRow | apps/web/src/csv-mapping-form.tsx:110-157 | every successful scan read a written row of its names followed by a record end |
| CsvHeader.HeaderIsExact | apps/web/src/csv-mapping-form.tsx:102-177 | the reader succeeds with a list of names exactly when the text is some written row of them and they are non-blank and distinct |
| CsvHeader.HeaderRoundTrip | apps/web/src/csv-mapping-form.tsx:102-177 | distinct non-blank names written in any style, with any line end and tail, with or without a byte-order mark, are read back |
| CsvHeader.NamingRefusals | apps/web/src/csv-mapping-form.tsx:158-175 | a naming refusal names the first blank column, or without blanks the first repeated name |
| CsvHeader.ScanRefusedExactly | apps/web/src/csv-mapping-form.tsx:117-157 | scanning stops with a problem exactly when whole names stand before one that runs to the end of the text inside quotes, goes on after its closing quote, or has a quote inside; the problem repeats just that name or junk |
| CsvHeader.HeaderRefusedExactly | apps/web/src/csv-mapping-form.tsx:102-177 | which of the six problems a header is refused with, for every text |
| CsvHeader.MarkChangesOnlyTheNotice | apps/web/src/csv-mapping-form.tsx:102-110 | a byte-order mark before unmarked text adds its notice and changes neither names nor success |
| CsvHeader.ScanIsLocal | apps/web/src/csv-mapping-form.tsx:117-157 | the scan of a closed record does not depend on what follows its line end |
| CsvHeader.OnlyTheRecordIsRead | apps/web/src/csv-mapping-form.tsx:102-177 | success, names, notices and refusals are those of the text up to the first line end outside quotes |
| GuidedDeclaration.ReadChoices | apps/web/src/csv-mapping-form.tsx:285-318 | the two loops over columns and constants give the specified choices or first refusal |
| GuidedDeclaration.ReadGuidedDeclaration | apps/web/src/csv-mapping-form.tsx:265-344 | the whole reader computes the specified reading of the two texts |
| GuidedDeclaration.MappingOf | apps/web/src/csv-mapping-form.tsx:187-200 | the writer's loop produces the specified mapping document |
| GuidedDeclaration.TimeOf | apps/web/src/csv-mapping-form.tsx:202-211 | the writer's loop produces the specified time document |
| GuidedDeclaration.PartsReadingIsExact | apps/web/src/csv-mapping-form.tsx:285-344 | a declaration is read exactly when every entry can be shown and no destination is named twice, and then as precisely its own entries |
| GuidedDeclaration.ReadingIsExact | apps/web/src/csv-mapping-form.tsx:222-344 | the same for the two texts of the panel, blank and malformed ones included |
| GuidedDeclaration.WriteReadRoundTrip | apps/web/src/csv-mapping-form.tsx:187-344 | what was written is read back exactly for the well-formed states, as the state minus what the text does not carry |
| GuidedDeclaration.WriteReadWriteIsFixed | apps/web/src/csv-mapping-form.tsx:187-344 | writing, reading and writing again gives the same two documents |
| GuidedDeclaration.ReadWriteKeepsDeclaration | apps/web/src/csv-mapping-form.tsx:187-344 | the columns, constants, formats and timezone that were read are written back, up to what a derived availability omits |
| GuidedDeclaration.LosesNothingExactly | apps/web/src/csv-mapping-form.tsx:187-344 | every key the two texts state, and under it every name with its text, is written again exactly when the mapping text holds no timezone or formats, the time text no columns or constants, and the derived policy omits no stated column or format |
| GuidedDeclaration.MisplacedTimezoneIsDropped | apps/web/src/csv-mapping-form.tsx:271-284 | a timezone in the mapping text is accepted, not shown and not written back |
| GuidedDeclaration.StatedAvailabilityIsDropped | apps/web/src/csv-mapping-form.tsx:190-196 | under the derived policy a column stated for the availability time is shown and not written back |
| GuidedDeclaration.DeclaredIsCovered | apps/web/src/csv-mapping-form.tsx:187-219 | nothing is left to declare exactly when columns and constants, always disjoint, cover exactly the required destinations and no constant is still empty |
| DeclarationTexts.ReadableExactly | apps/web/src/csv-mapping-form.tsx:222-344 | the controls show exactly the declarations of which both texts are blank or one object with no other section, columns and constants are objects of names to text, columns not empty and constants only of descriptions without a column, the timezone is text and the formats are accepted forms of instants |
| DeclarationTexts.ShownExactly | apps/web/src/csv-mapping-form.tsx:285-344 | what is shown is what the texts state, entry by entry, and the timezone or none |
| DeclarationTexts.FirstFaultIsReported | apps/web/src/csv-mapping-form.tsx:222-344 | a declaration that is not shown, malformed text included, is refused with its first fault in the order in which faults are looked for |
| DeclarationTexts.WrittenExactly | apps/web/src/csv-mapping-form.tsx:187-211 | from any state exactly the named columns, the constants even while empty, the chosen forms and the timezone are written, except for the destination the policy computes |
| DeclarationTexts.UndeclaredExactly | apps/web/src/csv-mapping-form.tsx:213-219 | a destination is undeclared exactly while neither a column nor a constant has a value for it and the policy does not compute it |
| JournalTruth.ExpectedTruth | scripts/ppv16_fault_campaign.py:483-533 | the loops over entries and fact sets compute, for each order, the verdict given by its distinct facts and latest result |
| JournalTruth.VerdictExactly | scripts/ppv16_fault_campaign.py:483-533 | the truth has exactly the orders the journal mentions, counts their distinct trade facts, and classifies each by whether a trade is recorded and otherwise by its latest result record |
| JournalTruth.PrefixMonotone | scripts/ppv16_fault_campaign.py:483-533 | more journal never removes an order, lowers its trade count or unfills it |
| JournalTruth.ConfirmedStaysExactly | scripts/ppv16_fault_campaign.py:499-532 | a confirmed order stays confirmed exactly when a trade is known or no later result says otherwise |
| JournalTruth.ConfirmedStays | scripts/ppv16_fault_campaign.py:499-532 | with one result per order a confirmation is never withdrawn |
| JournalTruth.SecondResultWithdraws | scripts/ppv16_fault_campaign.py:499-532 | without that bound a second result withdraws one |
| JournalTruth.TruthOfRecordSet | scripts/ppv16_fault_campaign.py:483-533 | when results agree the truth depends only on which records the journal holds, not on order or repetition |
| JournalTruth.RedeliveryIsHarmless | scripts/ppv16_fault_campaign.py:505-517 | repeating a recorded record changes nothing unless it is a result other than the latest |
| JournalTruth.OrderIndependentExactly | scripts/ppv16_fault_campaign.py:483-533 | the truth is the same under every reordering exactly when the results of each order agree |
| JournalTruth.CheckOrders | scripts/ppv16_fault_campaign.py:554-580 | the loop passes exactly when every order's intent, terminal, trade count and queue membership are right |
| JournalTruth.VerifyAdmission | scripts/ppv16_fault_campaign.py:536-604 | the checks pass exactly on the admissions the predicate accepts, and a missing key is told from a failed check |
| JournalTruth.AcceptedExactly | scripts/ppv16_fault_campaign.py:536-604 | the checker accepts exactly the admissions that agree with the journal, stated on the records and the listed intents alone |
| JournalTruth.AcceptedIsTruth | scripts/ppv16_fault_campaign.py:536-604 | an accepted non-terminal admission states the journal's own truth for exactly its orders, one recovered fill per filled order, unknown orders closed and unsent, other unfilled ones open |
| JournalTruth.AcceptedAgree | scripts/ppv16_fault_campaign.py:536-604 | two accepted admissions of one journal agree on every order and on the fill count |
| JournalTruth.AcceptableExactly | scripts/ppv16_fault_campaign.py:536-604 | a journal has an accepted non-terminal admission exactly when no order traded twice |
| JournalTruth.ShadowedIntentPasses | scripts/ppv16_fault_campaign.py:548-552 | an earlier intent that contradicts the truth passes when a later one for its order does not |
| JournalTruth.OnlyShadowedGoWrong | scripts/ppv16_fault_campaign.py:548-564 | in an accepted admission an intent that contradicts the journal stands before a later one for its order |
| JournalTruth.ListedRightExactly | scripts/ppv16_fault_campaign.py:548-564 | an accepted admission lists no intent that contradicts the journal exactly when it never contradicts itself about an order |
| ImportGraph.InstalledPythonModules | scripts/ci_routes.py:28-103 | the worklist terminates and returns none exactly when a reachable module does not resolve, otherwise exactly the reachable modules |
| ImportGraph.CollectTargets | scripts/ci_routes.py:62-100 | the walk over one file's nodes collects what its imports add, or is uncertain |
| ImportGraph.InstalledIsLeastClosed | scripts/ci_routes.py:28-103 | the result is the least set holding the roots and closed under imports |
| ImportGraph.CertainExactly | scripts/ci_routes.py:28-103 | the result is certain exactly when some closed set of modules all resolves |
| ImportGraph.NodeOrderDoesNotMatter | scripts/ci_routes.py:64-100 | neither order nor repetition of a file's nodes changes certainty or what is added |
| ImportGraph.NodeLeadsExactly | scripts/ci_routes.py:44-100 | a node of any kind can be followed exactly when a dynamic import has a constant target, a relative one climbs no higher than its package, and all it imports and every package on the way is one file; it then leads exactly there |
| ImportGraph.BaseExactly | scripts/ci_routes.py:71-80 | slicing the package name gives the base reached by climbing one parent with each dot after the first |
| ImportGraph.TargetsExactly | scripts/ci_routes.py:54-100 | a module has known targets exactly when it is readable and all its nodes can be followed, and they are the modules one import away |
| ImportGraph.InstalledExactly | scripts/ci_routes.py:28-103 | the result is certain exactly when every module reached by imports is readable and all its nodes can be followed, and is then exactly those modules |
| ImportGraph.ImportedPackagesAreInstalled | scripts/ci_routes.py:44-100 | what an installed module imports by a node of any kind is installed, and every package on the way to it |
| ImportGraph.PackagesAreInstalledExactly | scripts/ci_routes.py:28-103 | every package of every installed module is installed exactly when the packages of the two entry points are |
| ImportGraph.EntryPackageIsMissed | scripts/ci_routes.py:30 | an entry point is installed and its package, which has a file, is not |
| ImportGraph.InstalledTargets | scripts/ci_routes.py:54-100 | every node of an installed module leads only to installed modules |
| CiRoutes.NeedsE2e | scripts/ci_routes.py:151-169 | the lazily computed module set gives the same answer as one computed for each path |
| CiRoutes.SetFlags | scripts/ci_routes.py:127-209 | the branch for a kind of path adds exactly that kind's flags to those already set |
| CiRoutes.AddPath | scripts/ci_routes.py:127-209 | one turn of the loop joins one path's routes to those so far |
| CiRoutes.Classify | scripts/ci_routes.py:106-215 | the loop computes the join over the paths, narrowed in candidate mode |
| CiRoutes.ClassifyIsJoin | scripts/ci_routes.py:106-215 | in every mode the routes of two parts together are the flag-wise join of theirs exactly when both are non-empty or everything is needed anyway |
| CiRoutes.ClassifyDependsOnPathSet | scripts/ci_routes.py:106-215 | neither order nor repetition of paths matters |
| CiRoutes.DocsOnlyExactly | scripts/ci_routes.py:118-215 | outside candidate mode a change is documentation only exactly when it needs neither Python nor web, and exactly when every path is documentation |
| CiRoutes.MorePathsMoreJobs | scripts/ci_routes.py:106-215 | adding paths to a non-empty change never drops a job |
| CiRoutes.JobsExactly | scripts/ci_routes.py:106-215 | each job of a non-empty change runs exactly when some path asks for it and the mode does not hand it to another profile |
| CiRoutes.KindExactly | scripts/ci_routes.py:127-203 | the branches overlap in two places only, so a path's kind is its directory or name in whatever order they are tested |
| CiRoutes.AddedModuleExactly | scripts/ci_routes.py:154-161 | which added paths are modules of the package |
| CiRoutes.ModuleOfItsFile | scripts/ci_routes.py:164-168 | a module's file, written from its parts, is read back as the module, and an `__init__` file as its package |
| CiRoutes.SourceOnlySkipsE2e | scripts/ci_routes.py:106-215 | a change of source files alone skips the browser tests exactly when each path only adds a regular module, everything the entry points reach resolves, and no import chain from them reaches one of these modules |
| CiRoutes.ChangeListRoundTrip | scripts/ci_routes.py:218-225 | reading the NUL-delimited listing of any changes gives each path's last status and nothing else |
| CiRoutes.LastStatusExactly | scripts/ci_routes.py:225 | a listed path has the status of its last line |
| CiRoutes.OnlyListedHaveStatus | scripts/ci_routes.py:225 | no other path has a status |
| CiRoutes.ChangeListRefusals | scripts/ci_routes.py:218-225 | a list is refused exactly when its last field does not end or its non-empty fields do not pair up |
| KnownReferences.ReferenceIndex.EnsureReference | apps/web/src/resources.tsx:140-165 | an existing reference is returned as it is, a new one is created empty, linked to its run and listed last |
| KnownReferences.WithInput | apps/web/src/resources.tsx:246-252 | a job's record, scenario and input are filled in that order, the snapshot's input first |
| KnownReferences.WithBinding | apps/web/src/resources.tsx:253-256 | a binding fills the layers only when none is known and is associated either way |
| KnownReferences.ReferenceIndex.AddJob | apps/web/src/resources.tsx:246-261 | the index after a job is the index with that job's contribution applied |
| KnownReferences.ReferenceIndex.AddTaskJob | apps/web/src/resources.tsx:270-282 | the index after one run named by a research task |
| KnownReferences.ReferenceIndex.AddPinned | apps/web/src/resources.tsx:285-298 | the index after a pinned research task without runs |
| KnownReferences.ReferenceIndex.AddSelection | apps/web/src/resources.tsx:299-309 | the index after a research task that is only a selection |
| KnownReferences.ReferenceIndex.AddTask | apps/web/src/resources.tsx:264-310 | a research task contributes to its runs, or to its pinned reference, or to its selection, or nothing |
| KnownReferences.ReferenceIndex.AddStrategy | apps/web/src/resources.tsx:316-335 | a strategy contributes its draft, unless it is an intent, and each experiment with a run |
| KnownReferences.DeriveKnownReferences | apps/web/src/resources.tsx:242-338 | the three loops over the mutable index give the references of applying every contribution in order |
| KnownReferences.KeysAreTheUnion | apps/web/src/resources.tsx:242-338 | every identity appears once, and the identities are the union of what each source alone gives |
| KnownReferences.RunsAreFrozenOnce | apps/web/src/resources.tsx:242-338 | a run has a reference exactly when a record names it, and then one, frozen and naming that run |
| KnownReferences.FirstStatementWins | apps/web/src/resources.tsx:211-218 | scenario, dataset and source digest are the first non-empty value stated, and no later record changes them |
| KnownReferences.FirstBindingWins | apps/web/src/resources.tsx:253-281 | a run shows the first non-empty binding any record brings for it, never the default route, and no later record replaces it |
| KnownReferences.DuplicatedSourceChangesNothing | apps/web/src/resources.tsx:242-338 | reading any source list twice over gives the same references in the same order |
| KnownReferences.UnknownIsExact | apps/web/src/resources.tsx:220-230 | a reference names as unknown exactly the dimensions it lacks, each once |
| KnownReferences.ClearedSelectionStaysCleared | apps/web/src/resources.tsx:186-200 | when every record of a research task has a spec without a selection, its reference is listed with no layers and on the default route, whatever selection was recorded at creation |
| ReferenceRecords.KeysExactly | apps/web/src/resources.tsx:242-338 | a key is listed exactly when some record of the three sources names it |
| ReferenceRecords.AssociationsExactly | apps/web/src/resources.tsx:242-338 | a reference was observed exactly where the records that name its key say, and leads exactly to its own run and to the tasks and strategies that name it |
| ReferenceRecords.IdentityExactly | apps/web/src/resources.tsx:211-218 | scenario, dataset and source are the first non-empty text the records naming the key state: the run's own record with its snapshot's input first, then the tasks by the specification confirmed last or else the draft, then the strategies |
| ReferenceRecords.TaskLayersExactly | apps/web/src/resources.tsx:176-200 | a task without runs shows the pinned layers, or exactly those its held specification or else its creation selects, in layer order and without digests, and the default route exactly when that is nothing |
| ReferenceRecords.RunLayersExactly | apps/web/src/resources.tsx:253-281 | a run shows the first binding with a component, its own records' before its tasks', and never the default route |
| ReferenceRecords.KindsExactly | apps/web/src/resources.tsx:242-338 | runs and pinned tasks are frozen, selections and drafts are not, and only runs name a run |
| ReferenceRecords.EarlierRecordsStandFirst | apps/web/src/resources.tsx:242-338 | keys are listed in the order in which they are first named, jobs before tasks before strategies |
| ReferenceRecords.UnknownInOrder | apps/web/src/resources.tsx:220-230 | what is unknown is named in the source's order |
| DraftEditor.ConvertValues | apps/web/src/draft-editor.tsx:63-71 | conversion succeeds exactly when every typed value has an editable field and an integer where one is due, and then converts each path |
| DraftEditor.ConvertedExactly | apps/web/src/draft-editor.tsx:63-70 | a value converts exactly when its path has an editable field, the first one, that takes it |
| DraftEditor.Editor.constructor | apps/web/src/draft-editor.tsx:22-29 | a mount shows what is stored |
| DraftEditor.Editor.Persist | apps/web/src/draft-editor.tsx:37-44 | the screen always changes, storage only when it works, and the flag says which |
| DraftEditor.Editor.Change | apps/web/src/draft-editor.tsx:97 | typing keeps the revision first typed against and drops no other value |
| DraftEditor.Editor.Cancel | apps/web/src/draft-editor.tsx:98 | cancelling empties the buffer |
| DraftEditor.Editor.BeginSave | apps/web/src/draft-editor.tsx:61-80 | a request is handed to sending exactly when every guard holds, the values convert and storing its identity worked; otherwise the buffer stays as typed |
| DraftEditor.Editor.Finish | apps/web/src/draft-editor.tsx:45-52 | only a record of this research that holds the manual operation empties storage and screen |
| DraftEditor.Editor.EndSave | apps/web/src/draft-editor.tsx:81-88 | a confirmed save empties, a listed refusal unlocks the typed values, anything else keeps them pending |
| DraftEditor.Editor.BeginReconcile | apps/web/src/draft-editor.tsx:53-56 | only a pending operation is asked about, and only while nothing is in flight |
| DraftEditor.Editor.EndReconcile | apps/web/src/draft-editor.tsx:56-58 | a read finishes the pending operation or changes nothing |
| DraftEditor.SendsExactly | apps/web/src/draft-editor.tsx:60-71 | a save can be sent exactly when nothing is in flight or unresolved, something is typed, the draft has not moved on, and every value fits an editable field |
| DraftEditor.BufferExactly | apps/web/src/draft-editor.tsx:37-98 | what every step leaves on screen |
| DraftEditor.StoredExactly | apps/web/src/draft-editor.tsx:37-98 | what every step leaves in storage |
| DraftEditor.RetainedExactly | apps/web/src/draft-editor.tsx:37-44 | the page warns exactly from the latest storing that failed on |
| DraftEditor.SentOnlyWhenStored | apps/web/src/draft-editor.tsx:61-88 | on every run a step sends at most one request, with a new identity, while every earlier one is resolved, for the current draft revision, carrying exactly the typed values of editable fields, and stored as pending by then |
| DraftEditor.OneUnresolvedAtMost | apps/web/src/draft-editor.tsx:53-88 | at no point of any run are two sent operations unresolved |
| DraftEditor.ResolvedExactly | apps/web/src/draft-editor.tsx:45-88 | after every run an operation is resolved exactly when some reply of that run was a record holding it or a listed refusal of its own save, and then it had been sent |
| DraftEditor.PendingClearedOnlyWhenResolved | apps/web/src/draft-editor.tsx:9-88 | on every run, reloads included, a pending operation leaves the screen only once resolved |
| DraftEditor.TypedValuesStay | apps/web/src/draft-editor.tsx:37-98 | typed values stay unless one is typed, which replaces that one alone, or by an allowed cancel, a record confirming their save, or a reload after storing failed, which shows what is stored |
| DraftEditor.PendingStaysForGood | apps/web/src/draft-editor.tsx:45-98 | an operation pending on screen and in storage with no save in flight stays so through every continuation until a record holding it arrives, and nothing is typed, cancelled or saved meanwhile |
| DraftEditor.LateRefusalHappens | apps/web/src/draft-editor.tsx:82-86 | the run type, save, leave, be refused ends in that state, refused and confirmed nowhere |
| DraftEditor.UnstoredRefusalHappens | apps/web/src/draft-editor.tsx:37-44 | so does the run type, save, be refused on the page while storing fails, reload |
| DraftEditor.RefusalFreesExactly | apps/web/src/draft-editor.tsx:82-86 | on every run a listed refusal takes its operation off screen and storage exactly when it reaches the page that sent the save and storing works there |
| PaperStart.PaperPage.constructor | apps/web/src/paper-workspace.tsx:41-65 | a mount takes over the stored request and starts unticked, idle and unprepared |
| PaperStart.PaperPage.Render | apps/web/src/paper-workspace.tsx:52-56 | a confirmation of another key becomes an unticked one of the present key |
| PaperStart.PaperPage.UpdatePending | apps/web/src/paper-workspace.tsx:79-82 | storage and page change together or, when storage throws, not at all |
| PaperStart.PaperPage.EndRefresh | apps/web/src/paper-workspace.tsx:86-95 | only the latest refresh is applied; it clears the pending start exactly when it lists its run and storage works |
| PaperStart.PaperPage.EndQuery | apps/web/src/paper-workspace.tsx:118-126 | a found or missing answer clears what is pending, any other keeps it |
| PaperStart.PaperPage.BeginStart | apps/web/src/paper-workspace.tsx:128-135 | a request is handed to sending exactly when every guard and validation holds and storing it worked; otherwise nothing changes |
| PaperStart.PaperPage.EndStart | apps/web/src/paper-workspace.tsx:137-141 | a found run clears, unticks and waits for a refresh; a failure keeps the pending start |
| PaperStart.PaperPage.EndStop | apps/web/src/paper-workspace.tsx:147-153 | a stop's answer replaces its own row; no answer counts as disconnected |
| PaperStart.SentAsTickedAndStored | apps/web/src/paper-workspace.tsx:52-56 | on every run only a start with nothing in its way sends, one request with a new identity, saying exactly what the box was last ticked for, stored and pending by then |
| PaperStart.StartsExactly | apps/web/src/paper-workspace.tsx:128-132 | a start is possible exactly when none of its obstacles stands: something in flight, an unresolved start, a run not terminal, disconnection, no tick for these inputs, no eligible and available preparation of this candidate, or a name, price, interval or duration out of range |
| PaperStart.BuiltSaysKey | apps/web/src/paper-workspace.tsx:130-133 | a request built from valid inputs says what their confirmation key says, price by price |
| PaperStart.AnyChangeUnticks | apps/web/src/paper-workspace.tsx:52-56 | any step that changes the confirmed inputs takes the tick away, and only ticking sets it |
| PaperStart.TickExactly | apps/web/src/paper-workspace.tsx:52-56 | the box is ticked exactly when it has just been, or was and neither the inputs nor a settled start unticked it |
| PaperStart.RowsExactly | apps/web/src/paper-workspace.tsx:83-153 | a listing shows its rows and a stop's result its own row |
| PaperStart.DisconnectedExactly | apps/web/src/paper-workspace.tsx:83-153 | the page is disconnected from a failed listing or stop, or a listed start that could not be cleared, until the next listing |
| PaperStart.PageExactly | apps/web/src/paper-workspace.tsx:66-142 | only entering changes the inputs, and only navigating or finding a run the location |
| PaperStart.BusyExactly | apps/web/src/paper-workspace.tsx:128-154 | what the page waits for after every step |
| PaperStart.EpochExactly | apps/web/src/paper-workspace.tsx:83-154 | each refresh, start and stop makes earlier listings stale |
| PaperStart.StepHoldsExactly | apps/web/src/paper-workspace.tsx:79-142 | a step lets go of an unresolved start exactly when a query reply about another start clears it |
| PaperStart.RunHoldsExactly | apps/web/src/paper-workspace.tsx:79-142 | every unresolved start is held at every point of a run exactly when no query reply of the run clears another start |
| PaperStart.NoSecondStart | apps/web/src/paper-workspace.tsx:128-142 | on such runs at most one start is unresolved, and none when another is sent |
| PaperStart.ResolvedExactly | apps/web/src/paper-workspace.tsx:83-142 | after every run a start is resolved exactly when some event of that run was its reply, a listing or query that finds its run, or a missing answer for its identity |
| PaperStart.LetGoOnlyWhenResolved | apps/web/src/paper-workspace.tsx:83-142 | on such runs a held start is let go of only once resolved |
| PaperStart.TwoUnresolvedHappens | apps/web/src/paper-workspace.tsx:115-127 | a run in which a query reply clears a start it is not about ends with two unresolved starts |
| DesktopSession.DrainResearch | src/ea/desktop.py:93-118 | draining succeeds exactly when some poll before the deadline saw drained true and zero pending |
| DesktopSession.ServeWeb | src/ea/desktop.py:70-90 | how each end of the server becomes a result, and when it ends the startup |
| DesktopSession.WorkspaceSession.ParentMessage | src/ea/desktop.py:304-309 | a message or the end of the pipe ends the startup and queues an exit request; the end stops listening |
| DesktopSession.WorkspaceSession.BeginExit | src/ea/desktop.py:261-265 | a request begins only when no other negotiates |
| DesktopSession.WorkspaceSession.EndExit | src/ea/desktop.py:266-302 | letting go, blocking and what is printed follow from the drain, the stop and whether the parent was lost |
| DesktopSession.WorkspaceSession.EndWeb | src/ea/desktop.py:80-90 | the end of the web task |
| DesktopSession.WorkspaceSession.PollStartup | src/ea/desktop.py:314-333 | one turn of the startup loop: ready, a failed or returned server, a gone parent, or none |
| DesktopSession.WorkspaceSession.PollReady | src/ea/desktop.py:334-337 | one turn of the serving loop |
| DesktopSession.WorkspaceSession.StopPaper | src/ea/desktop.py:338-345 | a denied stop ends the startup and raises, one that raises only raises, a confirmed one goes on to close |
| DesktopSession.WorkspaceSession.ClosePaper | src/ea/web/paper_desktop.py:564-574 | closing stops once more and raises when that is denied, raises itself, or the rest of closing fails |
| DesktopSession.WorkspaceSession.ReapCore | src/ea/desktop.py:351-376 | the last message and the exit of a session after its core is reaped or reaping failed |
| DesktopSession.FallbackIsSafe | src/ea/desktop.py:121-376 | on every run at most two sessions and one live core; a second one only after a selected workspace's session failed before readiness and before any parent message, with its core gone and nothing timed out, and with its simulation stopped unless it never served or stopping or closing it raised |
| DesktopSession.FallbackExactly | src/ea/desktop.py:145-161 | once the first session ended, exactly these facts of its run let a second one start |
| DesktopSession.ClosedIsTruthful | src/ea/desktop.py:351-376 | "closed" is reported exactly when the latest completed explicit shutdown saw a settled receipt and the core exited with zero |
| DesktopSession.OneNegotiationAtATime | src/ea/desktop.py:259-302 | on every run at most one exit is negotiated at a time, and the flag says whether one is |
| DesktopSession.GoneExactly | src/ea/desktop.py:261-302 | on every run the parent of a session counts as gone exactly when some negotiation of that session ended with a confirmed stop and was for a lost parent or saw research drained |
| DesktopSession.ExitIsLastThrow | src/ea/desktop.py:308-376 | on every run a session's exit is the latest exception raised in it and an ordinary return when there was none; one that returned was stopped in order, its simulation confirmed, its server returned, its core reaped and, after a drain, exited with zero |
| DesktopSession.ReadyReturnsOnlyWhen | src/ea/desktop.py:334-337 | a session that was ready and returned had left serving because its server was done or because a negotiation of its own let the parent go |
| DesktopSession.CrashIsFatal | src/ea/desktop.py:335-336 | a session that saw its core gone while its server ran and its parent was there never returns ordinarily |
| DesktopSession.ExitStep | src/ea/desktop.py:308-376 | an exit changes by exceptions alone |
| DesktopSession.PhaseExactly | src/ea/desktop.py:164-376 | every way into each phase |
| DesktopSession.OrdersExactly | src/ea/desktop.py:259-346 | the steps from which the server is told to exit and the pipe is listened to |
| DesktopSession.PaperExactly | src/ea/desktop.py:338-345 | what the two stops of the cleanup make of the simulation |
| DesktopSession.CoreExactly | src/ea/desktop.py:185-376 | the core lives from its spawn until it dies or is reaped |
| DesktopSession.OutcomeIsEnd | src/ea/desktop.py:80-90 | what each end of the server raises where its task is awaited, and when it ends the startup |
| DesktopSession.FinishedStep | src/ea/desktop.py:80-376 | the steps that end the startup |
| DesktopSession.TalkExactly | src/ea/desktop.py:259-309 | a negotiation begins with the oldest request, only when none is under way |
| DesktopSession.SaidExactly | src/ea/desktop.py:280-376 | when each message is printed, once and in which order |
| DesktopSession.UnstoppedFallsBack | src/ea/desktop.py:338-344 | for each way to lose it, a stop that raises and one confirmed and then denied inside close, the run in which the web server fails to start and the simulation answers so falls back without a confirmed stop |
| DesktopSession.FallbackStopExactly | src/ea/desktop.py:145-161 | a fallback finds the latest answer about the simulation to be a confirmed stop, or it never served, exactly when in no step of the run its stop raised or was denied inside close |
| DesktopSettings.Settings.SaveModel | src/ea/desktop_settings.py:212-276 | a save stores the specified document or leaves the old one |
| DesktopSettings.Settings.Update | src/ea/desktop_settings.py:154-210 | each request stores the specified document or leaves the old one |
| DesktopSettings.OneConnectionPerSave | src/ea/desktop_settings.py:154-276 | an accepted request raises the revision of the connection it saves by one and touches no other |
| DesktopSettings.SavedExactly | src/ea/desktop_settings.py:255-276 | an accepted save leaves what was submitted, the credential removed when asked, replaced when entered and otherwise kept, and the chosen default as it was |
| DesktopSettings.ChosenExactly | src/ea/desktop_settings.py:186-194 | an accepted choice stores that default, which is there or the unnamed connection, and nothing else |
| DesktopSettings.RequestRefusedExactly | src/ea/desktop_settings.py:154-276 | over a document the store accepts, a request is refused exactly when one of the listed faults is there |
| DesktopSettings.RevisionCountsSaves | src/ea/desktop_settings.py:264-276 | on every run a revision is what it was plus one for each accepted save of that connection |
| DesktopSettings.KeyStaysOnItsRoute | src/ea/desktop_settings.py:251-276 | on every run a stored credential was entered for its connection's present provider and endpoint, or was there at the start with them |
| DesktopSettings.RefusedExactly | src/ea/desktop_settings.py:212-276 | a save that can be written is refused exactly when malformed, when it would carry a credential to another route, or when there is no room |
| DesktopSettings.PlainOnlyToLoopback | src/ea/desktop_settings.py:232-246 | saves never store an unencrypted endpoint on another machine |

## Left out

- Processes, sockets, signals, locks, files, HTTP, clocks and React rendering: they appear only as the outcomes the code branches on, as parameters of steps and methods.
- Workspace selection and its validation, sample installation, themes and the preferences file: the session model starts from whether another workspace is selected.
- Fresh identities (UUIDs, router location keys) are identities not used before; digests are opaque values with equality.
- JSON text and regular expressions: objects are sequences of entries, a panel text is what it parses to, and canonical decimals are a predicate on characters. Keys and free texts of records are identities.
- Characters are Unicode scalar values where JavaScript counts UTF-16 units; only ASCII letters are lower-cased for the ".md" check.
- Decimal.ExactDelta: a shift is an integer, so the refusal of fractional, infinite and not-a-number shifts is not modelled.
- FrozenReport.DisplayIsRounding: covers plain numerals and one place or more; on other texts the code throws, and with no places it slices differently.
- Audit records are read fields: a journal payload without the keys the oracle indexes, which raises in the source, is not representable, and the messages of failed checks are not modelled.
- JournalTruth.AcceptedIsTruth: nothing is claimed about keeping definitely-not-sent orders out of the open queue, because the source requires them in it.
- Python parsing and the file system behind import reachability are facts given per module; byte decoding of the change list and the script's command line are not modelled.
- KnownReferences.ReferenceIndex.Record: the source changes references in place through the map; here a changed reference is written back under its key.
- Link targets and labels of references are identities; the URL encoding of identifiers is not modelled.
- DraftEditor: reading storage is taken to work on mount, and buffers of a foreign shape read as none; the form disables its inputs while an operation is pending, which is a precondition of typing and cancelling.
- PaperStart: prices and intervals are the numbers their texts read as, over reals; the stop request's optimistic row change, events, candidates and the read-only entry are not modelled.
- DesktopSession: the interpreter's own interrupts are modelled where the session awaits. The simulation's shutdown is its answer or an exception, and its inner loop over runs is not modelled; when the stop inside close raises after a confirmed one, the confirmed answer stays the latest.
- DesktopSettings: the read-only status projection, environment-variable credentials and file permissions are not modelled; an empty credential counts as none, and endpoint parsing is given as the facts the code inspects.
- Appearance settings, evidence selection, observability counters, the studio journey and the coverage floors: they set one preference, filter one list, count or compare numbers, and take part in none of the protocols above.
