# RKE2 patcher: a verified model

The RKE2 patcher moves single components of an RKE2 cluster to newer image tags. It does so by merging
a few generated values into the HelmChartConfig of the component's chart, and it undoes it by
subtracting the same values again. Two modes exist and exclude each other: a controller that drives
`ImagePatch` objects, and a command line that keeps its decisions in a ConfigMap. Neither keeps any
state in memory, so every guarantee is a property of the objects in the cluster over whole runs, in
which any write may fail, be lost after it landed, or be followed by a crash.

This project models both modes and proves those guarantees.

## Layout

| file | what it holds |
|---|---|
| `Text.dfy`, `Sorting.dfy` | strings, numbers and trimming as Go's library treats them; sorting by a strict order |
| `Values.dfy` | Helm values as trees: override merge, structural subtraction, and their laws |
| `Components.dfy`, `Comparison.dfy`, `Patcher.dfy` | the ten components, the values generated for them, the comparison with a live object, bundled tags, patch and revert |
| `Tags.dfy`, `Calendar.dfy`, `Policy.dfy` | release tags and their order, calendar days, the patch policy of both modes |
| `Cluster.dfy` | the objects in the cluster and compare-and-swap writes |
| `Reconciliation.dfy` | one controller pass as a function of the cluster, of what it observes and of how its writes fare |
| `Controller.dfy` | the reconciler as it runs, method by method, proved to be that function |
| `PassFacts.dfy`, `Reports.dfy` | the summary of a pass that every run property rests on; the status it reports |
| `CommandLine.dfy`, `Commands.dfy`, `CommandRules.dfy` | `image-patch` and `image-reconcile`, specified and as they run, and the rules of `image-patch` |
| `Runs.dfy`, `Versions.dfy`, `Invariants.dfy` | runs of the whole system, the optimistic lock over runs, and what every reachable state satisfies |
| `AutoRevertSafety.dfy`, `SingleWrite.dfy`, `Convergence.dfy`, `Rollback.dfy` | upgrades and crashes, no ping-pong, convergence, no rollback |
| `Witnesses.dfy` | concrete inputs and runs for the properties that fail or need their condition |
| `StateStore.dfy`, `Resume.dfy` | the state ConfigMap under concurrent clients; resuming an interrupted `image-reconcile` |
| `ScanLog.dfy`, `Indentation.dfy` | the framing of a batch scan's log and the list of findings; the indentation of values |

Conventions. A pass takes an `Observed` value: every read outside the modelled objects, each of which
may have failed. It also takes `Verdicts`: how each of its writes fares (acknowledged, refused as a
conflict, failed or crashed with or without having landed, or raced: another client's write is stored
between the pass's read and its write, which is then compared like any other). Statements quantify
over all of them. `Owned` means that the component's managed annotation is set, `Shape(c)` is
the tree of the leaves generated for `c`, and `PathDisjoint(c)` holds for every component but
rke2-coredns and rke2-dns-node-cache, the only pair that writes common leaves.

## What was found

* `DefaultAgreesOnTheLine`: without an explicit tag, `image-patch` refuses a newer minor line but not an
  older one, so its default choice can be a tag the controller refuses. The two agree on the next newer
  tag in the list exactly when it is not on an older line. `OlderLineIsChosen` gives an input: current
  tag v1.5.0-build20260101 with v1.4.9-build20260201 published.
* `RollbackIsPossibleExactly`: a tag that a pass wrote can be rolled back, while the component stays
  managed, exactly when the tag recorded last is not at least that tag. Two things lead there. A write
  can land without being recorded, because its reply is lost, the controller crashes, or the status is
  not stored (`UnrecordedWriteRollsBack`): the older tag stays recorded, and once the spec asks for it
  again it is written over the newer one. Or a pass finds the values of an older spec tag in place and
  records that tag (`PassKeepsFloor`, `TakenOverTagIsWritten`). Without either, tags never go down
  (`TagsNeverGoDown`); while users edit unrelated values only, the second cannot happen to a component
  with leaves of its own (`TagsNeverGoDownUndrifted`), the first still can. `LostReplyRun` and
  `TakeOverRun` are such runs from an untouched cluster.
* `PassRemembersExactly`: under AutoRevert a spec generation stays on the release it was written on
  (`AppliedSpecStaysOnItsRelease`), even while the passes see the version of one release and the chart of
  another, with one exception: a pass that sees the patch's own release with a bundled tag that has
  reached it reverts without a marker, and the same generation can be written on another release
  (`ForgottenSpecIsWrittenElsewhere`, and `SkewedReadRun` as an input).
* `AppliedExactly`: the Applied condition is set only by a pass that gets to know about the patch. One that
  is stopped earlier keeps the old condition, so after a failed revert or a foreign edit a status can still
  say Applied while the values are gone.
* `InterruptedPatchKeeps`: `image-patch` cut short between its two writes leaves the component's values
  set while no entry says so; the invariant and all other components are unaffected.
* `PatchThenRevertRestores`: a revert restores the values exactly when nothing stood at the generated
  leaves, no scalar or list stood in their way, and no empty map lay on their paths.
* `RetryIsFreshExactly`, `RemovedBaselineReturns`: a retried `Persist` is not a fresh call; it can store
  again the baseline of a key that was removed between its attempts.
* `RecoversExactlyWhenClean`: the log parser recovers what was scanned exactly when no output line
  starts with a marker, every output ends with a newline, and every line is shorter than 64 KiB.
  `UnframedLogIsEmpty`: a log without frames, as the script prints it for a single image, has no result
  for any image.
* `StrippingUndoesEnsuring`: taking the indentation off gives a text back exactly when it was not already
  indented, or is empty.

## Model

| member | source | states |
|---|---|---|
| Invariants.Ownership | internal/controller/imagepatch_controller.go:143-151 | over all runs from a cluster without generated leaves, a component with leaves of its own is managed exactly when all of them are set (while the CLI has no entry for it), none is set otherwise, and a managed one has an ImagePatch holding the finalizer; any pass or command may fail or crash, but for an image-patch of the component cut short between its two writes |
| Invariants.ModesExclude | internal/cmd/state.go:45-50 | no reachable state, commands cut short included, has both a CLI entry and a managed component, and the CLI state never mixes two releases |
| Invariants.OneReleaseAtATime | internal/controller/imagepatch_controller.go:320-334 | in every reachable state all managed annotations name one release, whatever versions the passes saw |
| Invariants.RunKeepsInvariant | internal/controller/imagepatch_controller.go:135-180 | passes and commands with any failures and crashes, upgrades, edits and deletions keep the five-part invariant: versions, finalizers, modes, one managed release, one CLI release |
| Invariants.RunKeepsLeaves | internal/controller/imagepatch_controller.go:143-151 | over such runs a component's leaves stay accounted for by its annotation or a CLI entry, as long as no image-patch of that component is cut short |
| Invariants.PassWritesItsOwnLeavesOnce | internal/controller/imagepatch_controller.go:369-382 | a pass makes at most one write, to its own chart's object; values off the component's leaves, other components' annotations and unknown fields stay; and when another client's write comes between its read and its write, only that client's write is stored |
| Invariants.InterruptedPatchKeeps | internal/cmd/run.go:278-284 | image-patch cut short after its HelmChartConfig write keeps the invariant and every other component's leaves; the component's own leaves are all set, and are accounted for if and only if an entry for it was there before |
| Cluster.StaleWriteIsRefused | internal/kube/helmchartconfigs.go:166-194 | a create or an update based on a read before another client's write is refused by the version it carries: only the other write is stored, and the client sees a conflict unless its request breaks |
| Versions.RunKeepsVersions | internal/kube/helmchartconfigs.go:166-194 | over any run stored versions stay below the next one, and each object is the same or has a version not given out before |
| Versions.LateWriteNeedsWhatWasRead | internal/kube/helmchartconfigs.go:166-194 | however many steps of any kind lie between a read and the write based on it, the write changes the cluster if and only if it lands and the object, or its absence, is still exactly what was read |
| PassFacts.PassIsAStep | internal/controller/imagepatch_controller.go:182-401 | whatever is read and however the writes fare, a pass writes at most once, and only after every rule was met: a patch on a prime cluster without CLI state, with the bundled tag at every tag path of the chart, published, newer, same line, in the window, nothing stale, no foreign override; a revert or a mark only past the same reads and for a marked, stale or superseded spec; the spec and the CLI state stay |
| PassFacts.EffectsAreExact | internal/controller/imagepatch_controller.go:147-382 | a pass that can read, and whose writes land, the first one over a new ImagePatch and the one that removes an outdated marker included, patches if and only if the cluster is prime, has no CLI state, a known version and a chart that sets one tag beside the repository at every tag path, and every rule is met, with the tag of the spec on the version read; and reverts if and only if the same is read and the spec is marked, stale under AutoRevert, at the bundled tag, or in place and reached by it |
| PassFacts.OpenMeans | internal/controller/imagepatch_controller.go:183-218 | the gates let a pass on with a bundled tag and a version if and only if prime is true, the CLI state is readable and empty, that version is read, and the chart sets that tag beside the component's repository at every tag path |
| PassFacts.WritesNeedReads | internal/controller/imagepatch_controller.go:183-218 | however its writes fare, a pass that patches or reverts for a live ImagePatch has read exactly that, and met its rules on what it read |
| PassFacts.ShutGatesKeepConfigs | internal/controller/imagepatch_controller.go:183-203 | on a cluster not known to be prime, or with CLI state, no pass over a live ImagePatch changes any HelmChartConfig or marker |
| PassFacts.PatchKeepsRepository | internal/controller/imagepatch_controller.go:617-624 | the repository written is that of the first running image without a registry host, or the component's own when nothing runs |
| PassFacts.OthersStaleMeans | internal/controller/imagepatch_controller.go:495-514 | another component is stale exactly when its annotation names a version other than the one read |
| Reports.PassReports | internal/controller/imagepatch_controller.go:182-590 | a pass that runs to its end and whose status write lands leaves exactly the status that what it read and found calls for: every condition with its reason and generation, the bundled tag, the running images, the recorded tag and version, and the observed generation |
| Reports.ReadyExactly | internal/controller/imagepatch_controller.go:516-540 | Ready holds if and only if there are pods and every one carries the tag in force: the spec's where the patch is in place or was written and acknowledged, the bundled one where the component is as shipped |
| Reports.StaleExactly | internal/controller/imagepatch_controller.go:242-251 | Stale holds, as RKE2Upgraded, if and only if the patch is managed on another release and its policy is Manual |
| Reports.BlockedExactly | internal/controller/imagepatch_controller.go:187-366 | Blocked holds with a given reason if and only if that very rule refuses: not prime, CLI patches, chart layout, stale others, each policy reason, or a conflicting override |
| Reports.AppliedExactly | internal/controller/imagepatch_controller.go:288-398 | Applied holds if and only if the patch stands, or it was reported so before and the pass came to no decision about it |
| Reports.StandsInPlace | internal/controller/imagepatch_controller.go:303-398 | where the patch stands and no other client wrote in between, the component is managed on the version read and the values of the spec's tag are there |
| PassFacts.DecisionIsGood | internal/controller/imagepatch_controller.go:222-367 | whatever is read, the branch taken reverts or patches only under its rules, and only the stale branch marks the spec |
| AutoRevertSafety.AppliedSpecStaysOnItsRelease | internal/controller/imagepatch_controller.go:205-240 | a spec generation written on one release is never written on another, whatever mixture of releases the passes see, across any run that neither recreates the ImagePatch nor removes the marker and in which no pass over the component sees the patch's own release with a bundled tag that has reached it |
| AutoRevertSafety.PassRemembersExactly | internal/controller/imagepatch_controller.go:242-318 | a pass over a patch in force leaves it managed on its release or marked if and only if it does not see that release with a bundled tag that has reached the patch |
| AutoRevertSafety.ForgottenSpecIsWrittenElsewhere | internal/controller/imagepatch_controller.go:303-318 | after such a pass, the next one that sees another release and meets the rules writes the same spec generation there |
| AutoRevertSafety.RevertSurvives | internal/controller/imagepatch_controller.go:261-268 | wherever a pass over a patch to be reverted fails or crashes, it writes no patch and the revert stays pending or done |
| AutoRevertSafety.RevertIsFinished | internal/controller/imagepatch_controller.go:433-448 | the next pass whose writes succeed removes the annotation and every generated leaf and leaves the spec marked |
| AutoRevertSafety.InterruptedRevertFinishes | internal/controller/imagepatch_controller.go:242-271 | from any point of a revert, over any run of failing passes, upgrades, edits of other objects and commands that leaves the component's own spec alone, no pass writes the patch again, and the first pass whose writes succeed leaves the component unmanaged and its spec marked |
| AutoRevertSafety.InterruptedRevertLeavesNothing | internal/controller/imagepatch_controller.go:469-487 | in reachable states that pass leaves none of the component's leaves set |
| SingleWrite.AtMostOneWrite | internal/controller/imagepatch_controller.go:227-318 | on one release and one spec a component with leaves of its own is written at most once, whatever happens to the others in between |
| SingleWrite.RunKeepsSettled | internal/controller/imagepatch_controller.go:299-318 | once nothing is left to write for a component, no run of other steps changes that |
| Convergence.PassDescends | internal/controller/setup.go:65-78 | in a quiet environment a pass either changes nothing or lowers a natural-number measure |
| Convergence.FewPassesChange | internal/controller/imagepatch_controller.go:565-590 | in any schedule of passes over all components, the number of passes that change anything is bounded by the measure |
| Convergence.Converges | internal/controller/setup.go:65-78 | after more turns than the measure, in any order, every pass leaves the cluster as it is |
| Convergence.FewPassesChangeInPhases | internal/controller/imagepatch_controller.go:565-590 | while what the passes see changes finitely often, with any legal run in between, at most 560 passes change anything after each change |
| Convergence.ConvergesInPhases | internal/controller/setup.go:65-78 | once more than 560 turns of each component follow the last such change, no pass changes anything, whatever went before |
| Convergence.FixpointIsDone | internal/controller/imagepatch_controller.go:299-367 | in a state no pass changes, no readable component is left that meets every rule for a patch or has an occasion to revert |
| Convergence.StayRepeats | internal/controller/imagepatch_controller.go:565-590 | the status a pass leaves is left by the next pass too, so an unchanged object is not written again |
| Rollback.RecordedTag | internal/controller/imagepatch_controller.go:336-344 | a pass over a managed component, or one that writes it, leaves as recorded tag the one it takes over or sees written, provided its status write lands, and otherwise the old one |
| Rollback.RunRecords | internal/controller/imagepatch_controller.go:376-398 | over any run in which a component stays managed, with any failures, drift and edits, the recorded tag is exactly the one stored last |
| Rollback.PassKeepsFloor | internal/controller/imagepatch_controller.go:336-344 | while managed, a pass writes nothing older than the recorded floor and lowers the floor if and only if it takes over an older tag |
| Rollback.RollbackIsPossibleExactly | internal/controller/imagepatch_controller.go:336-398 | after a pass writes a tag, with whatever luck, and any run in which the component stays managed, some edits and one more pass write an older tag if and only if the tag stored last is not at least the one written (the published tags and the window still allowing that stored tag) |
| Rollback.RecordedTagIsSafe | internal/policy/window.go:89-99 | while the tag stored last is at least the one written, no edits of spec or values let a pass write an older one |
| Rollback.TagsNeverGoDown | internal/policy/window.go:89-99 | after a write that is acknowledged and recorded, and a run in which no pass takes over an older tag, no edits let a pass write an older tag |
| Rollback.TagsNeverGoDownUndrifted | internal/controller/imagepatch_controller.go:303-317 | with edits of unrelated values only, a component with leaves of its own needs no condition on take-overs; the write must still be acknowledged and recorded |
| Rollback.UnrecordedWriteRollsBack | internal/controller/imagepatch_controller.go:376-398 | whenever a write lands unrecorded, the next permitted pass after the spec asks for the older recorded tag writes that tag, with nothing drifted or taken over |
| Rollback.TakenOverTagIsWritten | internal/controller/imagepatch_controller.go:303-317 | every take-over followed by drift of that value ends in a write of the taken-over tag, however old |
| Witnesses.LostReplyRun | internal/controller/imagepatch_controller.go:376-381 | a run from an untouched cluster: a tag is written, a newer one is written and its reply lost, and the older one is written again |
| Witnesses.TakeOverRun | internal/controller/imagepatch_controller.go:303-317 | a run from an untouched cluster: a tag is written, an older one is put in place and taken over, and is written once the values hold the newer one again |
| Witnesses.SkewedReadRun | internal/controller/imagepatch_controller.go:205-218 | a run from an untouched cluster: a spec generation is written, reverted without a marker by a pass that sees the old release with a chart bundling its tag, and written again on the next release |
| Witnesses.OlderLineIsChosen | internal/cmd/tags.go:94-136 | from v1.5.0-build20260101 the default choice is v1.4.9-build20260201, which the controller refuses as another minor version |
| Controller.Reconcile | internal/controller/imagepatch_controller.go:135-180 | the sequence of reads and writes does to the stored objects exactly what the specified pass does |
| Controller.ReconcilePatch | internal/controller/imagepatch_controller.go:182-401 | the early exits and writes of reconcilePatch give the specified cluster, ImagePatch copy and outcome |
| Controller.FinishRevert | internal/controller/imagepatch_controller.go:225-236 | a marked spec is reverted if still managed, and only then reported as reverted |
| Controller.HandleStale | internal/controller/imagepatch_controller.go:242-271 | Manual blocks; AutoRevert marks first and reverts only once the mark is stored |
| Controller.HandleBaseline | internal/controller/imagepatch_controller.go:279-293 | asking for the bundled tag reverts a managed component before the status says so |
| Controller.KeepApplied | internal/controller/imagepatch_controller.go:303-318 | values in place are kept, or reverted when the bundled tag has reached them |
| Controller.ApplyPatch | internal/controller/imagepatch_controller.go:369-400 | the merged object is written on the version read; a conflict is retried and not an error |
| Controller.CheckRules | internal/controller/imagepatch_controller.go:320-362 | the rules in their order: stale others, not older than recorded, published, newer, same line, window |
| Controller.StalePatches | internal/controller/imagepatch_controller.go:495-514 | non-empty exactly when another component is managed on another release |
| Controller.RevertComponent | internal/controller/imagepatch_controller.go:469-487 | subtracts the generated shape and the annotation from what was read, on the version read |
| Controller.RolloutOutcomeFor | internal/controller/imagepatch_controller.go:525-541 | the loop over all running images sets RolledOut and gives the outcome that `Reports.ReadyExactly` speaks of |
| Controller.Finalize | internal/controller/imagepatch_controller.go:543-563 | the finalizer goes only after the revert was acknowledged, or was not needed |
| Controller.WriteStatus | internal/controller/imagepatch_controller.go:565-590 | sets the three conditions and the observed generation, and writes only a status that changed |
| Controller.ApiServer.ApplyHelmChartConfig | internal/kube/helmchartconfigs.go:166-194 | create-if-absent or compare-and-swap, compared with what is stored when the write arrives, another client's write in a race included: a write lands only on the version that was read |
| Values.RestoresExactlyWhenClean | internal/patcher/helmchartconfig.go:415-441 | merge then subtract gives the tree back if and only if it was clean on the generated paths |
| Values.SubtractFollowsShape | internal/patcher/helmchartconfig.go:415-441 | subtraction depends on the keys alone, not on the leaves |
| Values.SubtractIsIdempotent | internal/patcher/helmchartconfig.go:415-441 | subtracting twice is subtracting once |
| Values.SubtractionsCommute | internal/patcher/helmchartconfig.go:415-441 | subtractions of any two trees commute |
| Values.DisjointMergesCommute | internal/patcher/helmchartconfig.go:184-197 | merges of disjoint trees commute |
| Values.SubtractPassesThroughMerge | internal/patcher/helmchartconfig.go:415-441 | subtracting one of two disjoint overlays undoes it below the other |
| Values.MergedHasAllLeaves | internal/patcher/helmchartconfig.go:184-197 | after a merge every overlay leaf is there with the overlay's value |
| Values.SubtractedHasNoLeaves | internal/patcher/helmchartconfig.go:415-441 | after a subtraction no removed leaf is left |
| Values.SubtractOfDisjointAgrees | internal/patcher/helmchartconfig.go:415-441 | a subtraction leaves the values at the leaves of any disjoint tree |
| Patcher.DeepSubtractMap | internal/patcher/helmchartconfig.go:415-441 | the key-by-key loop over a copy computes the structural subtraction |
| Patcher.PatchThenRevertRestores | internal/controller/imagepatch_controller.go:467-475 | for every component, repository and tag: patch then revert restores the values if and only if they were clean for the component |
| Patcher.SharedChartIsIndependent | internal/patcher/helmchartconfig.go:457-513 | two disjoint components of one chart: reverting one leaves exactly the other's patch, in either order |
| Patcher.Comparer.CompareLeaves | internal/patcher/values_compare.go:41-72 | clears the flag exactly when something is missing or differs, and appends exactly the conflicting paths |
| Patcher.PresentExactlyWhenMergeChangesNothing | internal/patcher/values_compare.go:14-72 | present if and only if the merge would change nothing, values compared as printed |
| Patcher.NoConflictExactlyWhenNothingIsReplaced | internal/patcher/values_compare.go:14-72 | no conflict if and only if the merge would replace no existing value |
| Patcher.MergedIsPresent | internal/patcher/values_compare.go:14-72 | what was just merged compares as present and without conflicts |
| Patcher.ConflictIsSomewhere | internal/patcher/values_compare.go:41-72 | a conflict is reported exactly when some path holds one |
| Patcher.BundledImageTag | internal/patcher/bundled.go:51-78 | the loop over the tag paths computes the bundled tag or the first mismatch |
| Patcher.BundledTagMeans | internal/patcher/bundled.go:51-78 | a component has a bundled tag if and only if the chart sets that one tag next to its repository at every path it writes |
| Patcher.CommonPathExcludes | internal/patcher/bundled.go:51-78 | components with a common tag path and different repositories never both have a bundled tag |
| Patcher.CoreDnsExcludesNodeCache | internal/components/components.go:41-103 | rke2-coredns and rke2-dns-node-cache are never both patchable |
| Patcher.PairLosesAllLeaves | internal/patcher/helmchartconfig.go:457-513 | reverting rke2-coredns removes every leaf of rke2-dns-node-cache, which is why ownership is stated for the other components |
| Patcher.AppliedTagReadsBack | internal/patcher/bundled.go:82-118 | after any merge the applied tag reads back |
| Patcher.NoEmptyTag | internal/patcher/bundled.go:82-118 | an empty applied tag counts as none |
| Components.OnlyCoreDnsAndNodeCacheOverlap | internal/patcher/helmchartconfig.go:457-513 | components of one chart write disjoint values, except exactly that pair |
| Components.WithoutRegistryMeans | internal/patcher/helmchartconfig.go:515-528 | a first part with a dot or a colon, or localhost, is a registry host and is dropped; any other first part stays |
| Comparison.CollectSentinelPaths | internal/patcher/bundled.go:33-48 | appends every path holding the sentinel, nothing else, each once |
| Comparison.SentinelPathsAreTagPaths | internal/patcher/bundled.go:17-31 | the sentinel search over a component's values finds exactly its tag paths |
| Comparison.LookupString | internal/patcher/bundled.go:103-118 | the walk finds the printed, trimmed value at a path, or nothing |
| Comparison.LookupMeans | internal/patcher/bundled.go:103-118 | a lookup gives the value at the path as printed and trimmed, and nothing when the path leads nowhere or to a null |
| Tags.OrderTags | internal/policy/tags.go:28-55 | the strictly descending list of exactly the distinct parsable names |
| Tags.OrderIsFixedByNames | internal/policy/tags.go:28-55 | the list is fixed by the set of names, whatever their order and repetition |
| Tags.NewerIsStrictOrder | internal/policy/tags.go:163-186 | the comparison is a strict total order on tags |
| Tags.NewerByFields | internal/policy/tags.go:163-186 | the order on the fields: build, major, minor, patch, flavor text, flavor number |
| Text.CompareAt | internal/policy/tags.go:176-185 | texts are compared by the first character that differs, prefixes first |
| Tags.LargerFlavorNumberIsNewer | internal/policy/tags.go:135-160 | of two printed tags that differ in the number at the end of the flavor alone, the larger number is newer: hardened10 above hardened2 |
| Tags.ParseOfPrinted | internal/policy/tags.go:58-133 | every printed release tag, with any flavor, parses back to its fields |
| Tags.ParsedHasForm | internal/policy/tags.go:58-133 | what parses starts with a v and is three numbers, a flavor behind a dash if there is one, and a build number behind its marker if there is one, with exactly these fields |
| Tags.SignaturesAreNoTags | internal/policy/tags.go:64-72 | names that end in .sig or .att, in any case, are no release tags |
| Tags.SplitFlavor | internal/policy/tags.go:135-160 | the decrementing index finds the maximal run of trailing digits |
| Tags.SpaceIsNoFlavor | internal/policy/tags.go:135-160 | space around a flavor is no part of it |
| Policy.CliAndControllerAgree | internal/cmd/tags.go:72-137 | on the ordered list the index test accepts an explicit tag if and only if the controller's rule does, for every listed current tag |
| Policy.DefaultIsImmediateSuccessor | internal/cmd/tags.go:94-98 | the default choice is the closest newer published tag |
| Policy.DefaultIsOnNoNewerLine | internal/cmd/tags.go:94-136 | without an explicit tag the next newer tag of the list is chosen if and only if (major, minor) is not above the current one, and refused as a newer minor release otherwise |
| Policy.ExplicitRefusals | internal/cmd/tags.go:82-136 | the reason each explicit tag is refused for, from the list, the order and the numbers of the two tags |
| Policy.DefaultRefusals | internal/cmd/tags.go:82-98 | without an explicit tag, no tags, an unlisted and a newest current tag are refused as such |
| Policy.BaselineReasons | internal/policy/window.go:89-121 | the reason each rule against the bundled or the applied tag gives, from the two tags |
| Policy.WindowReasons | internal/policy/window.go:45-67 | no build date, or one more than 45 days after the zero-day, is the reason given |
| Policy.DefaultAgreesOnTheLine | internal/policy/window.go:103-121 | on the next newer tag of the list, the default choice and the controller's rule agree if and only if its major and minor numbers are not below the current ones; the controller takes it exactly when they are equal |
| Policy.ClimbEnds | internal/cmd/tags.go:72-137 | repeated default patching climbs strictly through the list and ends |
| Policy.ResolveTarget | internal/cmd/tags.go:72-137 | from the published names in any order, the choice is the one the specified rules make on their ordered list |
| Policy.ResolveOrdered | internal/cmd/tags.go:82-136 | the two index searches and the line checks compute the specified choice |
| Policy.ValidateExplicitTarget | internal/policy/window.go:71-87 | the scan accepts exactly the published tags that pass the baseline rules |
| Policy.WindowIsFortyFiveDays | internal/policy/window.go:45-67 | a tag passes if and only if the component is rke2-ingress-nginx or the tag is dated and its Gregorian day number is at most the zero-day's plus 45 |
| Policy.WindowIsDownwardClosed | internal/policy/window.go:45-67 | what is not newer than an accepted dated tag is accepted |
| Policy.ListingMatchesPatching | internal/cmd/patch_window.go:38-70 | a newer tag is listed as eligible if and only if the patch command's window check accepts it |
| Policy.SplitTagsByPatchWindow | internal/cmd/patch_window.go:38-70 | the loop splits the tags in their order |
| Policy.ThoseSplit | internal/cmd/patch_window.go:53-69 | the eligible and the blocked tags are the two parts of the list, each in its order |
| Policy.SelectTagsForListing | internal/cmd/tags.go:30-65 | the tags shown are the current one, its predecessor and everything newer |
| Calendar.DayNumberCounts | internal/policy/tags.go:207-219 | the day number grows by one from each valid date to the next |
| Calendar.FirstDay | internal/policy/tags.go:207-219 | the count starts at 0 on the first day of year 0 |
| Calendar.ValidIsGregorian | internal/policy/tags.go:207-219 | the valid dates, month by month: 31, 30, or 28 days and 29 in Gregorian leap years |
| Calendar.DayNumberIsGregorian | internal/policy/tags.go:207-219 | the day number in closed form, with years that begin in March, without any table of months |
| Calendar.DateOfDigits | internal/policy/tags.go:207-219 | the eight digits of every valid date read back as that date, and no other number does |
| Calendar.AddDaysCounts | internal/policy/window.go:45-67 | adding days to a date adds that number to its day number, which `DayNumberIsGregorian` fixes |
| Calendar.BuildOrderIsDateOrder | internal/policy/tags.go:207-219 | build numbers that are dates are ordered as their dates |
| StateStore.NoLostUpdates | internal/clistate/state.go:131-162 | under any interleaving, what is stored changes only by a save equal to that client's mutation of what is stored at that instant, or by deletion |
| StateStore.FirstBaselineStays | internal/clistate/state.go:165-180 | a key's first non-blank baseline stays until the key is removed |
| StateStore.LoopSerializes | internal/clistate/state.go:131-162 | an Update that reports success stored the mutation of what was stored when its save was accepted |
| StateStore.RetryIsFreshExactly | internal/clistate/state.go:165-180 | what a retried Persist stores, and that a fresh call would store the same if and only if the key still has a baseline or none but its own was seen |
| StateStore.RemovedBaselineReturns | internal/clistate/state.go:165-180 | a removal between load and save makes the retry store the removed baseline |
| StateStore.Update | internal/clistate/state.go:131-162 | the five-attempt loop over load, mutate and save, with other clients in between, computes the specified outcome |
| StateStore.Closure.Mutate | internal/clistate/state.go:165-194 | one call of Persist's or RemoveEntries' closure, the captured entry it overwrites included |
| StateStore.ConfigMap.Save | internal/kube/state_configmap.go:55-101 | create if none was read, else replace only the version that was read |
| Resume.ResumeIsComplete | internal/cmd/run.go:292-377 | interrupted anywhere and run again in any order, image-reconcile ends in the values and state of an uninterrupted run |
| Resume.ForgottenMeansReverted | internal/cmd/run.go:353-376 | an entry is forgotten only when its leaves are gone, and entries of other components stay |
| Resume.StrippingIsOrderFree | internal/clistate/revert.go:38-67 | what reverts leave depends only on the set of values removed |
| Commands.RunReconcile | internal/cmd/run.go:292-377 | the entries of other releases are visited if there are any, and else those of this one; a revert of the latter that is declined leaves the cluster as it is; however each write fares, what is left is a prefix of the reverts, the removal of the entries only after all of them, and the rival's write if a conflict ended the command; it completes when every write succeeds |
| Commands.RunImagePatch | internal/cmd/run.go:186-289 | from the published names to the recorded decision, however the two writes fare, the command leaves what `CommandRules` characterises; refusals change nothing, and after a failed write of the values no decision is stored |
| CommandRules.WritesOnlyByTheRules | internal/cmd/run.go:186-288 | image-patch changes the cluster only if no ImagePatch exists, the tag is listed and newer than the running one, is the requested one on its release line or else the closest newer one on no newer line, is dated within 45 days of the zero-day or exempt, it is no dry run, an existing object was approved, and no entry names another release; then that very tag is merged, read back and recorded, and in a race nothing of its own is written |
| CommandRules.WritesByTheRules | internal/cmd/run.go:186-288 | conversely, whenever all of this holds for a tag it is merged and recorded, unless the write fails or is refused, and then nothing is changed |
| CommandRules.ChosenExactly | internal/cmd/tags.go:72-137 | the choice is a tag if and only if the rules on the list, on the order and on the major and minor numbers hold for it |
| Commands.RevertEntryWith | internal/clistate/revert.go:38-67 | subtracts an entry's values on the version read, and reports nothing to revert, unreadable values, or a write that was not acknowledged |
| Commands.GenerateStateWrite | internal/cmd/state.go:33-76 | refuses exactly while an entry of another release exists, and keeps the first baseline |
| ScanLog.RecoversExactlyWhenClean | internal/cve/scanner.go:112-157 | for distinct trimmed images the parser recovers all lines and exit codes if and only if no output line carries a marker, every output ends with a newline, and every line of the log is shorter than the scanner's 64 KiB |
| ScanLog.ReportIsOfOwnScan | internal/cve/scanner.go:159-191 | each image of such a batch is reported with its own findings, or with its own fault: its exit code, its trimmed output, or output that is no report |
| ScanLog.ParseLog | internal/cve/scanner.go:112-191 | every log that is not refused puts each requested image in exactly one of results and errors |
| ScanLog.EveryLineCounts | internal/cve/scanner.go:123-158 | on any log, a plain line is added to the image whose begin line came last and was not closed since, a code line sets its image's code, and nothing else changes lines or codes |
| ScanLog.RefusedExactly | internal/cve/scanner.go:125-162 | a log is refused if and only if some line of it is 64 KiB long or is a code line without a code |
| ScanLog.BadCodeMeans | internal/cve/scanner.go:134-147 | a code line has no code when no image, no separator or no number stands behind its prefix |
| ScanLog.JoinedLinesSplit | internal/cve/scanner.go:171-171 | the text made of an image's lines has exactly these lines |
| ScanLog.PreambleIsIgnored | internal/cve/scanner.go:123-157 | unmarked lines of readable length before the first frame change nothing |
| ScanLog.UnframedLogIsEmpty | internal/kube/cve_job.go:237-251 | a log without frames yields nothing |
| ScanLog.PrintLog | internal/kube/cve_job.go:241-249 | the script's loop prints one frame per image, the exit code right behind an unfinished last line |
| ScanLog.Dedupe | internal/cve/scanner.go:407-435 | each counted identifier once, with its highest severity, worst first and then by name |
| ScanLog.WorstFirst | internal/cve/scanner.go:426-431 | in that order no high finding precedes a critical one, and identifiers ascend within a severity |
| ScanLog.CountedMeans | internal/cve/scanner.go:409-414 | a finding counts if and only if it has an identifier and is critical or high in any case |
| ScanLog.FindingsFixTheList | internal/cve/scanner.go:407-435 | the list depends only on which findings were printed |
| Indentation.EnsureProperIndentation | internal/patcher/helmchartconfig.go:203-220 | the line loop computes the indented block |
| Indentation.DeindentValuesContent | internal/patcher/helmchartconfig.go:265-294 | the line loop takes one layer of indentation off |
| Indentation.EnsuringKeepsNesting | internal/patcher/helmchartconfig.go:199-220 | every line that is not blank moves by one common amount, 0 or 4 columns |
| Indentation.OnlyEmptyLinesGo | internal/patcher/helmchartconfig.go:203-207 | trimming takes away empty lines at both ends and nothing else |
| Indentation.StrippingKeepsNesting | internal/patcher/helmchartconfig.go:263-294 | the same for taking the indentation off |
| Indentation.EnsuringIsIdempotent | internal/patcher/helmchartconfig.go:203-236 | the result always passes the indentation check, and is left alone from then on |
| Indentation.StrippingUndoesEnsuring | internal/patcher/helmchartconfig.go:263-294 | the text comes back without its outer newlines if and only if it was not already indented or is empty |

## Left out

- YAML and JSON text: values are trees and texts are lists of lines; rendering, comments and parsing errors of whole documents are not part of this model.
- The merge library (`mergo.Merge` with override) is taken to be recursive override for overlays whose leaves are non-empty strings and whose maps are non-empty, which is what is rendered here.
- Floats and other YAML scalars are one constructor holding their printed form.
- Condition messages, events, requeue times and printed output: outcomes and reasons are kept, wording is not.
- Registry, scanners, jobs, Kubernetes clients, watches and caches: what they return is an arbitrary input.
- A pass is one step of a run: there is a single worker, its reads are taken together, and another client's write between its read and its write of the HelmChartConfig is part of the step (the `Raced` verdict). Edits of the ImagePatch during a pass appear as failed writes.
- The reads and writes of `image-patch`, and each revert of `image-reconcile`, are taken together in a run: how each write fares is part of the step, but the race between a command's checks and a controller pass is not modelled (the code checks first and acts later).
- In runs, users edit values no component generates and leave the patcher's annotations and finalizers alone; `Rollback` alone admits edits of any value.
- Commands.PersistPatchDecision: in a whole command nobody writes the state in between, and whether its save lands is an input; the retries are modelled in `StateStore`.
- Convergence.Converges: all reads and the release stay the same and all writes succeed (`ConvergesInPhases` lets them change finitely often); `AtMostOneWrite` needs neither.
- Rollback.RollbackIsPossibleExactly: the published tags, the window and the other components still allow the recorded tag, and the spec is not marked as reverted; without that a rollback is ruled out by other rules, and `RecordedTagIsSafe` needs none of it.
- ScanLog.RecoversExactlyWhenClean: a character stands for a byte of the log.
- Unicode case folding beyond the characters that decide the patterns compared.
- `SaveStateConfigMapData`, `cleanObjectMeta` and `dropStatusField`: unconditional save and metadata cleanup, of no consequence for the properties above.
- Local scans, VEX download, prompts, flags and environment.
