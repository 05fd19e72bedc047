# Verification of the NRI adaptation layer

NRI lets several plugins edit one container request. The runtime's side relays a request to the
plugins one after the other, folds each reply into a *collected reply* for the runtime and into the
*view* of the request that the next plugin is shown, and rejects replies that conflict. This project
models that machinery and proves what it is there for:

- **The merge engine.** A table of owners grants or refuses claims; mounts, devices, environment,
  namespaces, resources and updates of other containers are folded in place (`Result`). The methods are
  proved against folds over values, and the folds are proved to keep reply, view and owners in agreement.
  As long as nobody else touches what a plugin removes, the order of the plugins does not matter
  (`CreationOrder`).
- **The Spec applier.** Replaying the collected reply on the original Spec gives the view the last
  plugin left, with exact conditions where the code does not achieve it; mounts come out in an order
  that puts parents first.
- **Requests as a whole.** Plugin lists, relaying, validators; a response exists if and only if every
  reply was accepted and every validator passed it (`CreateContainer`), and applying it to the Spec
  yields what the last plugin was shown if and only if nothing is lost (`CreateAndApply`).
- **Split synchronization.** A sender that shrinks its chunks and a stub that puts them together.
- **The connection multiplexer.** Framing, demultiplexing under all interleavings, errors, shutdown.
- **Registration against requests in flight.** The reader/writer protocol of plugin synchronization.

`dafny verify dfyconfig.toml` checks the project.

## How it is organised

| files | contents |
|---|---|
| `Prelude`, `Markers`, `KeyedLists` | options, removal markers and `KEY=VALUE` text, lists looked up by key |
| `Owners` | the table of owners as a class; the law it keeps over all traces |
| `ListMerge`, `EnvMerge`, `NamespaceMerge`, `Resources`, `ResourceRuns`, `CreateRuns` | the folds of a creation, kind by kind and together |
| `UpdateRuns`, `CreationRequests` | the fold of updates; creation requests with both |
| `ResourceObjects`, `ListOps`, `MergeResult` | the objects that are changed in place, and the methods that do it |
| `MountOrder`, `SpecEdits`, `SpecApplier` | mount order, the edits of a Spec, and the generator that makes them in place |
| `CreationOrder`, `Coherence` | the order of the plugins; reply against view |
| `CreationContents`, `UpdateContents` | what an accepted creation, and a request to update, hold of the plugins' replies, entry by entry |
| `Adaptation`, `EndToEnd` | plugin lists and requests; from request to Spec |
| `SplitSync` | sender, stub and their protocol |
| `Framing`, `MuxMachine`, `Mux` | frames, the state machine of the multiplexer, the classes that refine it |
| `MuxRuns`, `MuxSafety` | what holds over the runs of the state machine |
| `Registration` | the registration protocol |

Where the code changes state step by step, a class with the same fields does; its methods are tied to a
function or to a state machine, about which the properties are proved. The iteration order of a map, the
answers of plugins, the verdicts on messages and the choices of the scheduler are parameters, over all
values of which everything is stated.

## Where the code departs from its intent

The model keeps the code as it is. Each of these is a lemma, with the exact condition beside it.

- A removal of an environment variable or a device that comes without a new value changes the view but is
  never put into the reply (`ListMerge.UnpairedRemovalIsLost`); reply and view agree if and only if no
  original key is lost that way (`Coherence.EnvCoherent`, `Coherence.DevicesCoherent`).
- A mount removal given with two markers takes back another plugin's removal in the reply only
  (`ListMerge.DoubleMarkerIsLost`, `Coherence.MountsCoherent`).
- An update claims the pids limit when the resources it is laid over have one, and never changes it
  (`UpdateRuns.PidsNeverChange`). Updates of a container that touch different fields therefore all succeed if
  and only if it has no pids limit or there is at most one of them (`UpdateRuns.DisjointUpdatesSucceedIff`,
  `UpdateRuns.TwoUpdates`); for any updates the exact condition is that no claim is made twice, the one of the
  pids limit included (`UpdateRuns.AllSucceedIff`).
- A claim by a plugin whose name starts with the removal marker is taken for a clear by the plugin of the
  bare name (`OwnerTraces.MarkedNameBreaksLaw`, an if and only if). The index of a built-in plugin is not
  checked, so that "-1" and "1" can both own a slot (`OwnerTraces.MarkedIndexSharesSlot`).
- An unclean spelling of the root can be mounted after a mount below it (`MountOrder.UncleanRootComesLast`).
- A synchronization panics if and only if some rejection of the run, the first or a later one, falls back to
  4 pods and 4 containers when fewer than 4 of a kind are left, and then the slices have no room for 4 or the
  next message is acknowledged (`SplitSync.PanicsIffTrips`). Having 4 of each to begin with does not help
  (`SplitSync.SecondRejectionPanics`).
- A count per message can be cut off to 0 while objects of that kind are left (`SplitSync.OneRejectionStarves`);
  the synchronization then never ends by itself, and ends otherwise (`SplitSync.DrainsUnlessStarved`).
- A payload of which nothing reaches the trunk leaves its header behind; the stream then loses its framing
  though the multiplexer stays open (`Framing.FailureKeepsFraming`, an if and only if on which write fails
  first; `Framing.BareHeaderStays`).
- An overflow is meant to be returned by all reads after it. It is if and only if no read has failed before it:
  a read from a connection that has been closed itself fixes the end of file as the error of a multiplexer that
  is still open (`MuxRuns.OverflowErrorIff`, `MuxRuns.EarlyReadFixesError`).
- A read is checked against the capacity of the buffer but copies up to its length (`Mux.Conn.Read`). A payload
  that does not fit is taken off the queue all the same.
- A trunk that the peer closes right after the header of a frame passes for one that it closes between frames
  (`MuxRuns.TruncatedFrameFails`).
- Shutting down closes the connections there are, stale ones included, and none opened later
  (`MuxRuns.ClosedAfterShutDown`, an if and only if). A read from one opened later yields nothing and does not
  fail until the connection is closed itself (`MuxRuns.LateConnectionHangs`), unless the reader had a frame for
  it in hand when the multiplexer was shut down (`MuxRuns.LateConnectionGetsFrame`).

## Model

| member | source | states |
|---|---|---|
| Markers.MarkerRoundTrip | pkg/api/helpers.go:47-72 | marking a key for removal is undone by both ways of reading it, and is the only way for a key to be marked |
| Markers.EnvRoundTrip | pkg/adaptation/result.go:639-648 | printing a variable and splitting it again gives it back exactly when its name holds no "=" |
| Markers.FromOCIEnv | pkg/api/env.go:29-55 | the loop turns every environment string into a variable, in order |
| Markers.EnvListRoundTrip | pkg/api/env.go:24-55 | reading a printed environment back loses nothing if no name holds "=" |
| Owners.OwningPlugins.MustOwnersFor | pkg/api/owners.go:387-394 | creates a missing table without changing any record |
| Owners.OwningPlugins.IsCompoundConflict | pkg/api/owners.go:411-432 | names the conflicting plugin, if any; its side effect of creating a field's table changes no record |
| Owners.OwningPlugins.IsSimpleConflict | pkg/api/owners.go:434-449 | the same for fields without keys, with no side effect on records |
| Owners.ConflictNames | pkg/api/owners.go:411-449 | a claim is let through exactly by a missing record or the plugin's own clear; else the plugin named is the one whose claim or clear the record is |
| Owners.OwningPlugins.ClaimCompound | pkg/api/owners.go:451-458 | a granted claim changes exactly one record; a refused one changes none, and names the plugin in the way |
| Owners.OwningPlugins.ClaimSimple | pkg/api/owners.go:460-467 | the same for fields without keys |
| Owners.OwningPlugins.ClearCompound | pkg/api/owners.go:633-641 | leaves a clear marked with the plugin's name on one record |
| Owners.OwningPlugins.ClearSimple | pkg/api/owners.go:643-645 | the same for fields without keys |
| Owners.OwningPlugins.ClearRdt | pkg/api/owners.go:675-679 | clears the three RDT fields and nothing else |
| OwnerTraces.Apply | pkg/api/owners.go:411-467 | whatever happened before, a claim is granted if and only if the latest record of the slot makes it due, and else told who left that record; the table goes on matching the history |
| OwnerTraces.Play | pkg/api/owners.go:411-467 | every outcome of every sequence of claims and clears obeys that law, and every refusal names the plugin of the latest record |
| OwnerTraces.DueForOrdinaryNames | pkg/api/helpers.go:47-60 | for names without marker: due if and only if there is no record or the latest is a clear by the plugin itself |
| OwnerTraces.LatestIsEvent | pkg/api/owners.go:451-467 | the latest record is the last granted operation on the same slot, so other slots never interfere |
| OwnerTraces.MarkedNameBreaksLaw | pkg/api/helpers.go:47-60 | after any history, the law for ordinary names fails for a claim if and only if the latest record is a claim by the marked name |
| OwnerTraces.MarkedIndexSharesSlot | pkg/adaptation/plugin.go:173-185 | plugins with indices "-1" and "1" are both granted the same slot, without a clear |
| ListMerge.MergeAcceptedIff | pkg/adaptation/result.go:315-378 | a reply is accepted if and only if its settings are distinct and each key is free, cleared by the plugin, or taken over by its own removal |
| ListMerge.RunCoherent | pkg/adaptation/result.go:315-378 | after any accepted replies: what the reply removes and sets, what the view lacks and holds, and the records of owners fit together |
| ListMerge.ReplyMeansView | pkg/adaptation/result.go:315-436 | the effect of the collected reply on the original is the view if and only if no original key is lost |
| ListMerge.NothingLostWhenRecorded | pkg/adaptation/result.go:366-372 | passing on lone removals loses nothing unless a key carries two markers |
| ListMerge.NothingLostWhenPaired | pkg/adaptation/result.go:400-435 | without passing them on, nothing is lost if every removal comes with a setting |
| ListMerge.UnpairedRemovalIsLost | pkg/adaptation/result.go:424-435 | a lone removal of a variable is accepted and lost |
| ListMerge.DoubleMarkerIsLost | pkg/adaptation/result.go:335-372 | "-/a" then "--/a" are accepted and lose "/a" |
| ListMerge.ReplyProvenance | pkg/adaptation/result.go:335-365 | every collected setting is the value its recorded owner supplied |
| ListMerge.ViewHoldsReply | pkg/adaptation/result.go:315-378 | the view holds every collected setting |
| EnvMerge.RunEnvParsed | pkg/adaptation/result.go:578-637 | folding environment strings is folding the variables they parse to, for any number of replies |
| EnvMerge.ReplyOnlySets | pkg/adaptation/result.go:608-629 | the collected environment holds settings only |
| NamespaceMerge.RunNamespacesCoherent | pkg/adaptation/result.go:438-469 | each type is touched at most once over all replies, and the touched types make the difference between original and view |
| MountOrder.SortedIsOrdered | pkg/runtime-tools/generate/generate.go:637-655 | sorting gives an ordered permutation |
| MountOrder.OrdinaryIsClean | pkg/runtime-tools/generate/generate.go:681-683 | a path of ordinary elements is clean, and an absolute one has as many parts as elements |
| MountOrder.CleaningRules | pkg/runtime-tools/generate/generate.go:681-683 | cleaning does not see empty and "." elements, an element taken back by "..", nor ".." at the root |
| MountOrder.LexIsFirstDifference | pkg/runtime-tools/generate/generate.go:664-674 | destinations compare at the first character in which they differ, the shorter one first if there is none |
| MountOrder.LessOrder | pkg/runtime-tools/generate/generate.go:664-674 | the comparison is a strict total order on destinations |
| MountOrder.OneOrder | pkg/runtime-tools/generate/generate.go:637-655 | two ordered permutations of distinct destinations are equal |
| MountOrder.ParentsFirst | pkg/runtime-tools/generate/generate.go:664-683 | a mount precedes a mount below it exactly unless it is the root, the other has one element, and the spelling says otherwise |
| MountOrder.ParentsFirstWhenClean | pkg/runtime-tools/generate/generate.go:637-683 | for clean destinations every mount comes after all mounts on directories above it, the root included |
| MountOrder.UncleanRootComesLast | pkg/runtime-tools/generate/generate.go:664-683 | "/." sorts after "/!" |
| SpecEdits.ReplayedMap | pkg/runtime-tools/generate/generate.go:594-625 | replaying edits one by one has the effect of the edits on the map |
| SpecEdits.AdjustedMountsMap | pkg/runtime-tools/generate/generate.go:594-634 | replaying and sorting keeps destinations distinct, orders them, and has that effect |
| SpecEdits.AdjustedEnvMap | pkg/runtime-tools/generate/generate.go:206-243 | the two passes over the environment override exactly the collected variables |
| SpecEdits.AdjustedNamespacesMap | pkg/runtime-tools/generate/generate.go:489-505 | applying namespaces fails exactly at an unknown type, and otherwise has the effect of the edits |
| SpecApplier.Generator.RemoveMount | pkg/runtime-tools/generate/generate.go:598-606 | removes the first mount with the destination |
| SpecApplier.Generator.AdjustMounts | pkg/runtime-tools/generate/generate.go:594-634 | in place: replays removals and settings in order, then sorts; nothing happens to mounts when nothing was collected |
| SpecApplier.Generator.AdjustDevices | pkg/runtime-tools/generate/generate.go:535-546 | in place: replays the collected devices in order |
| SpecApplier.Generator.AdjustEnv | pkg/runtime-tools/generate/generate.go:206-243 | in place: first pass over the old environment, second over the new variables |
| SpecApplier.Generator.ModifyExisting | pkg/runtime-tools/generate/generate.go:214-232 | the first pass drops, overrides or keeps each old variable and returns the ones not found |
| SpecApplier.Generator.AdjustNamespaces | pkg/runtime-tools/generate/generate.go:489-505 | in place: fails at the first unknown type |
| SpecApplier.Generator.Adjust | pkg/runtime-tools/generate/generate.go:152-203 | the kinds in the order of the code; an unknown namespace leaves the mounts alone |
| Resources.ClaimAllIff | pkg/api/owners.go:451-467 | a list of claims is granted if and only if its keys are distinct and none of them is taken |
| Resources.ClaimAllStops | pkg/api/owners.go:451-467 | claims are made up to the first that is taken, by an earlier record or by the list itself; those made stand and nothing else changes |
| Resources.AdjustedValue | pkg/adaptation/result.go:719-937 | after an edit every key holds the edit's value if it has one, else its old value |
| Resources.ClaimsWhatItSets | pkg/adaptation/result.go:719-937 | an edit claims a key if and only if it gives a value for it |
| Resources.SameValues | pkg/adaptation/result.go:719-937 | resources with equal values key by key are equal but for the order of lists |
| ResourceRuns.RunTraced | pkg/adaptation/result.go:719-937 | any sequence is accepted if and only if all its claims are distinct; then a key has an owner if and only if it was claimed, reply and view hold the owner's value, and all else is as it was |
| ResourceRuns.OrderDoesNotMatter | pkg/adaptation/result.go:719-937 | every permutation of the plugins is accepted or none, with the same values and owners |
| ResourceRuns.OrderKeepsResources | pkg/adaptation/result.go:719-937 | the same for whole resources, hugepage limits compared by size |
| ResourceObjects.LinuxResources.Copy | pkg/api/resources.go:153-212 | a copy has the same value and shares no object with the original |
| CreateRuns.KindsAreIndependent | pkg/adaptation/result.go:201-264 | the fold of a creation falls apart into the folds of the kinds, which carries what is proved of each kind over to creations; that the code's pass over shared objects is this fold is what Result.Adjust states |
| CreationOrder.CreationAcceptedIff | pkg/adaptation/result.go:201-264 | if nobody else touches what a plugin removes, a creation is accepted if and only if no mount, variable, device or field of the resources is set twice and no namespace type is touched twice |
| CreationOrder.OrderOfPluginsDoesNotMatter | pkg/adaptation/result.go:201-264 | if nobody else touches what a plugin removes, every permutation of the plugins is accepted or none, with the same owners and the same entries, removals included, under every key in reply and view |
| CreationOrder.RemovalMakesOrderMatter | pkg/adaptation/result.go:380-436 | otherwise it matters: a plugin that removes what another sets can take it over, and is in its way if it comes first |
| CreationOrder.RunReaches | pkg/adaptation/result.go:315-378 | for one kind of list: accepted if and only if all settings are distinct; the reply is then what the plugins add, the owners are those who set, and the view is the original less what is removed with what is set |
| CreationOrder.NamespaceRunReaches | pkg/adaptation/result.go:438-469 | for namespaces, removals are claims like settings: accepted if and only if no type is touched twice, by whichever plugins |
| CreationContents.CreationHolds | pkg/adaptation/result.go:201-264 | what an accepted creation holds of the replies, in terms of their entries: every mount, variable and device that no later reply touches is in reply and view with its value and recorded as its plugin's, every such removal has its effect, what nobody touches is as it was, and nothing else is collected; every namespace entry and every field of the resources, device rules included, stands with its owner |
| CreationContents.RunDecided | pkg/adaptation/result.go:315-378 | the same for one kind of list and any replies: the last reply that touches a key decides |
| CreationContents.RunStrings | pkg/adaptation/result.go:578-637 | the environment strings of the view are those set and left alone later, those of the original that nobody touches, and no other |
| CreationContents.RunNamespacesStand | pkg/adaptation/result.go:438-469 | every namespace entry of every reply is collected, with its effect on the view and its plugin as owner; the rest is as it was |
| CreationContents.RunResourcesDecided | pkg/adaptation/result.go:719-937 | each field of the resources is what the one reply that gives it says, or as it was; limits, rules and unified settings are those of all replies in order |
| ListOps.Split | pkg/adaptation/result.go:322-333 | the loop separates removals from settings |
| ListOps.ClearCollected | pkg/adaptation/result.go:335-344 | the loop drops removed entries of the reply and leaves a clear on each of their records, touching no other |
| ListOps.ClaimCollected | pkg/adaptation/result.go:359-365 | the loop claims and collects setting by setting up to the first conflict |
| MergeResult.Result.AdjustMounts | pkg/adaptation/result.go:315-378 | in place: records, reply and view become those of the fold; refused exactly when the fold refuses |
| MergeResult.Result.AdjustDevices | pkg/adaptation/result.go:380-436 | the same for devices |
| MergeResult.Result.AdjustEnv | pkg/adaptation/result.go:578-637 | the same for the environment |
| MergeResult.Result.AdjustNamespaces | pkg/adaptation/result.go:438-469 | the same for namespaces, through a map by type |
| MergeResult.AdjustMemoryResource | pkg/adaptation/result.go:719-798 | claims and sets field by field in the order of the code, in the view and in the reply |
| MergeResult.AdjustCPUResource | pkg/adaptation/result.go:800-870 | the same for CPU fields |
| MergeResult.AdjustHugepages | pkg/adaptation/result.go:889-895 | claims each page size and appends the limit |
| MergeResult.AdjustUnified | pkg/adaptation/result.go:902-910 | claims each unified key and sets it |
| MergeResult.Result.AdjustResources | pkg/adaptation/result.go:872-937 | reply and view resources become those of the fold; refused exactly when a claim is |
| MergeResult.Result.Adjust | pkg/adaptation/result.go:201-264 | one plugin's adjustment is accepted if and only if the fold accepts it, and leaves its outcome in place; what that holds of the adjustment is CreationContents.CreationHolds |
| MergeResult.Result.GetContainerUpdate | pkg/adaptation/result.go:1144-1179 | finds or creates the entry; none for the container under creation; failures may be ignored only if all its updates say so |
| MergeResult.Result.UpdateResources | pkg/adaptation/result.go:1071-1142 | on success the entry and, for the requested container, the request hold the updated resources; on failure neither object has changed, only earlier claims remain |
| MergeResult.Result.UpdateOne | pkg/adaptation/result.go:266-278 | one update, as the fold has it; it ends the request if and only if its failure may not be ignored (UpdateRuns.RequestGoesOnIff) |
| MergeResult.Result.UpdateAll | pkg/adaptation/result.go:266-278 | the updates of a reply up to the first failure that may not be ignored, as the fold has it |
| MergeResult.Result.Apply | pkg/adaptation/result.go:168-199 | a whole reply: adjustment, then updates; the adjustment and the updates share no object |
| MergeResult.Result.UpdateContainerResponse | pkg/adaptation/result.go:155-160 | the pending updates as listed, then the one for the requested container, which is missing exactly if there is none |
| UpdateRuns.FailureKeepsResources | pkg/adaptation/result.go:266-278 | in the fold, a failed update changes no resources, neither pending nor shown; that the objects behave like this is what Result.UpdateResources states |
| UpdateRuns.PendingFoldsSuccesses | pkg/adaptation/result.go:1071-1142 | after any updates, pending resources are the fold of the successful ones only, and once one for the requested container has succeeded the view equals what is pending |
| UpdateRuns.ResponseIsShaped | pkg/adaptation/result.go:1144-1179 | each container is listed once and only if mentioned, the requested one not among the others, the one under creation never; failures are ignored if and only if all updates for the container say so |
| UpdateRuns.NoFieldUpdatedTwice | pkg/adaptation/result.go:1071-1142 | no two successful updates of a container claim the same field |
| UpdateRuns.AllSucceedIff | pkg/adaptation/result.go:1071-1142 | in a request that goes on to the end, all updates of a container succeed if and only if their claims are distinct, the pids limit counted for each update if the container has one; its records are then exactly these claims, each by the plugin that made it |
| UpdateRuns.AllGrantedIff | pkg/adaptation/result.go:266-278 | all updates of a request are granted if and only if none is of the container under creation and no container has a field claimed twice |
| UpdateRuns.RequestGoesOnIff | pkg/adaptation/result.go:266-278 | for any list of updates: the request goes on to the end if and only if none is of the container under creation and every one whose failure may not be ignored gives no resources or claims only distinct fields that are free by then |
| UpdateRuns.IgnoredFailuresGoOn | pkg/adaptation/result.go:266-278 | from any state, if all failures may be ignored, only an update of the container under creation ends the request |
| UpdateRuns.RecordsAreAsked | pkg/api/owners.go:451-467 | every record of an updated container is of a plugin that asked for the field |
| UpdateContents.UpdatesShow | pkg/adaptation/result.go:1071-1142 | field by field, what is pending for a container and what the request shows is what the one successful update that gives the field says, or as it was; limits and unified settings are those of all successful updates |
| UpdateContents.SuccessfulAre | pkg/adaptation/result.go:1071-1142 | the successful updates of a container are, in order, those that give resources and find all they claim free |
| UpdateRuns.RequestGoesThroughIff | pkg/adaptation/result.go:266-278 | if no failure may be ignored, that is exactly when the updates do not fail the request |
| UpdateRuns.DisjointUpdatesSucceedIff | pkg/adaptation/result.go:1125-1132 | updates of a container that touch different fields all succeed if and only if it has no pids limit or there is at most one of them |
| UpdateRuns.TwoUpdates | pkg/adaptation/result.go:1125-1132 | two updates with no field in common are both granted if and only if the container has no pids limit |
| UpdateRuns.PidsNeverChange | pkg/adaptation/result.go:1125-1132 | updates never change a pids limit |
| UpdateRuns.PidsAllowOneUpdate | pkg/adaptation/result.go:1125-1132 | in particular, with a pids limit at most one update of the container succeeds, whatever else the request holds |
| CreationRequests.RepliesSplit | pkg/adaptation/result.go:168-199 | a request is accepted if and only if all adjustments and all updates are, each as one sequence |
| CreationRequests.AdjustmentsAre | pkg/adaptation/result.go:168-199 | the adjustments merged are those of the replies that have one, in order, each with its plugin |
| CreationRequests.AllAskedAre | pkg/adaptation/result.go:168-199 | the updates merged are all updates of all replies, in order, each with its plugin |
| CreationRequests.UpdatesIgnoreCreating | pkg/adaptation/result.go:1144-1149 | updates neither depend on nor touch the records of the container under creation |
| Coherence.MountsCoherent | pkg/runtime-tools/generate/generate.go:594-634 | the Spec's mounts are those of the view if and only if no original mount is lost; destinations distinct and ordered |
| Coherence.MountsCoherentWithoutDoubleMarkers | pkg/runtime-tools/generate/generate.go:594-634 | they always are if no plugin uses two markers |
| Coherence.EnvCoherent | pkg/runtime-tools/generate/generate.go:206-243 | the Spec's variables are those of the view if and only if no original variable is lost |
| Coherence.EnvCoherentWhenPaired | pkg/runtime-tools/generate/generate.go:206-243 | they are if every removal is paired with a setting |
| Coherence.DevicesCoherent | pkg/runtime-tools/generate/generate.go:535-546 | the same if and only if for devices |
| Coherence.NamespacesAgree | pkg/runtime-tools/generate/generate.go:489-505 | each type touched once; applying succeeds if and only if all types are known, and then gives the view |
| Coherence.CreationProvenance | pkg/adaptation/result.go:335-365 | in every accepted creation resources and mounts are traced to the plugin recorded as owner, and the view holds them |
| Adaptation.Plugin.Relay | pkg/adaptation/plugin.go:600-643 | a plugin that is not subscribed or dies has no reply, and is closed in the latter case; any other failure is an error; an answer is handed on as it is |
| Adaptation.Plugin.ValidateContainerAdjustment | pkg/adaptation/plugin.go:711-729 | passes if and only if the plugin does not validate or explicitly accepts; a validator that dies is closed and does not pass |
| Adaptation.ActiveKeepsOrder | pkg/adaptation/adaptation.go:517-529 | dropping closed plugins keeps the others and their order |
| Adaptation.Adaptation.RemoveClosedPlugins | pkg/adaptation/adaptation.go:517-540 | the lists become the open plugins and the validating ones among them, and stay settled |
| Adaptation.Adaptation.SortPlugins | pkg/adaptation/adaptation.go:670-677 | from any lists: both are in order and validators are exactly the validating plugins |
| Adaptation.Adaptation.Join | pkg/adaptation/adaptation.go:600-607 | a joining plugin leaves the lists settled with exactly the open plugins and itself |
| Adaptation.Adaptation.StartPlugins | pkg/adaptation/adaptation.go:429-455 | the pre-installed plugins that could be synchronized are put in order with their validators; closed ones are dropped |
| Adaptation.AcceptedStops | pkg/adaptation/adaptation.go:275-289 | a failure or a conflict is final whatever the later plugins would answer |
| Adaptation.PassedIff | pkg/adaptation/adaptation.go:416-420 | the validation passes if and only if every validating plugin has explicitly accepted |
| Adaptation.FailureRefuses | pkg/adaptation/adaptation.go:277-289 | a request is accepted only if no subscribed plugin fails |
| Adaptation.RepliesAre | pkg/adaptation/adaptation.go:277-289 | the replies merged are exactly the answers of the subscribed plugins, in order and by name, and there are some unless a subscribed plugin fails |
| Adaptation.AskedForAre | pkg/adaptation/adaptation.go:313-331 | the updates merged are exactly those in the answers of the subscribed plugins, in order and by name, unless a subscribed plugin fails |
| Adaptation.Adaptation.CollectReplies | pkg/adaptation/adaptation.go:277-289 | the loop over plugins ends with what all accepted replies come to, or with nothing; it closes exactly those that die among the plugins asked, which are those up to the first that is not accepted |
| Adaptation.Adaptation.ValidateContainerAdjustment | pkg/adaptation/adaptation.go:395-426 | every validator is asked; passes if and only if every validating plugin explicitly accepts; exactly those that die are closed |
| Adaptation.Adaptation.CreateContainer | pkg/adaptation/adaptation.go:260-292 | a response if and only if every reply merges and every validating plugin explicitly accepts; none if a subscribed plugin fails; it holds the merged replies; exactly the plugins that die on being asked are closed; closed plugins are gone and the lists settled, on success and failure |
| Adaptation.Adaptation.UpdateContainer | pkg/adaptation/adaptation.go:313-331 | a response if and only if no plugin fails and no update ends the request; it lists what is pending after all updates asked for, shaped as ResponseIsShaped has it, and the request shows the same; exactly the plugins that die on being asked are closed |
| EndToEnd.ResponseIsFold | pkg/adaptation/adaptation.go:260-292 | a response means all validators passed and the adjustments and updates were accepted as two sequences |
| EndToEnd.CollectedFields | pkg/adaptation/result.go:148-153 | the objects of the response hold the collected reply, and those of the request the view, kind by kind |
| EndToEnd.CollectedOwners | pkg/adaptation/adaptation.go:260-292 | the table of owners handed out with the response has the records of the merge, kind by kind |
| EndToEnd.CollectedUpdates | pkg/adaptation/result.go:148-153 | the updates in the response are those pending, as listed |
| EndToEnd.CreateAndApply | pkg/runtime-tools/generate/generate.go:152-203 | succeeds if and only if there is a response and all namespace types in it are known; then, for a well-formed original, the mounts, variables, devices and namespaces of the Spec are those of the container as the last plugin was shown it if and only if nothing is lost, and the mounts are distinct and, if any were collected, in order |
| EndToEnd.CarefulPluginsLoseNothing | pkg/adaptation/result.go:315-436 | nothing is lost if no mount has two markers and every variable or device removed is also set |
| SplitSync.Stub.Synchronize | pkg/stub/stub.go:679-690 | collects, delivers or echoes as the protocol's receiver does |
| SplitSync.Stub.CollectSync | pkg/stub/stub.go:692-707 | appends a chunk to what was collected |
| SplitSync.Stub.DeliverSync | pkg/stub/stub.go:709-730 | runs the handler once on everything collected and starts afresh |
| SplitSync.Stub.Start | pkg/stub/stub.go:365-457 | a stub that is not started is started if it comes up (connects, registers and is configured), and else stays as it was; a started one cannot be started again |
| SplitSync.Stub.Close | pkg/stub/stub.go:481-505 | a started stub forgets what was collected; one that was not started does nothing |
| SplitSync.Plugin.Synchronize | pkg/adaptation/plugin.go:498-556 | the loop is the protocol's sender, slice by slice; what it returns is the answer of the message that ends it (SplitSync.OutcomeIsAnswer); the plugin is closed exactly on errors |
| SplitSync.RecalcShrinks | pkg/adaptation/plugin.go:558-597 | an accepted recalculation asks for at least 8 objects, for fewer than before, and for no more of either kind unless it falls back |
| SplitSync.RecalcGivesUpIff | pkg/adaptation/plugin.go:558-581 | a rejection is the end if and only if at most 8 objects were sent, a length is missing, or the message was not too long |
| SplitSync.FallsBackIff | pkg/adaptation/plugin.go:583-594 | it falls back to 4 and 4 if and only if no 8 objects fit |
| SplitSync.RecalcAsksForWhatFits | pkg/adaptation/plugin.go:580-589 | unless it falls back, each count is the largest that fits by the allowed share of the rejected message and is at most nine tenths of the old one |
| SplitSync.RecalcStaysWithin | pkg/adaptation/plugin.go:588-594 | it asks for more than is left if and only if it falls back with fewer than 4 of a kind left |
| SplitSync.DeliveredExactly | pkg/adaptation/plugin.go:498-556 | on success the handler ran exactly once, on exactly the pods and containers in order, whatever was rejected and whatever lies behind the slices |
| SplitSync.SessionsAreSeparate | pkg/stub/stub.go:481-505 | over any sequence of attempts to connect, those that do not come up and those whose synchronization fails included, nothing of one session gets into another |
| SplitSync.RunsAtMostOnce | pkg/stub/stub.go:692-730 | a synchronization never runs the handler twice, and not at all if it times out between messages |
| SplitSync.OutcomeIsAnswer | pkg/adaptation/plugin.go:514-556 | on success the updates returned are those the handler gave on the message that ended the run, the only one on which it ran; without a handler there are none |
| SplitSync.EndsIff | pkg/adaptation/plugin.go:514-556 | a run is refused if and only if some message sent gets a verdict that refuses it, and succeeds if and only if one that takes all that is left is answered |
| SplitSync.PanicsIffTrips | pkg/adaptation/plugin.go:514-594 | for every sender and script: the run panics if and only if one of its rejections falls back with fewer than 4 of a kind left and there is no room for 4 of each or the next message is acknowledged |
| SplitSync.SecondRejectionPanics | pkg/adaptation/plugin.go:588-594 | 4 pods and 200 containers, rejected, acknowledged and rejected again |
| SplitSync.PanicNeedsMisfit | pkg/adaptation/plugin.go:520-521 | in short, a run in which every message fits what is left does not panic |
| SplitSync.FallingBackPanics | pkg/adaptation/plugin.go:588-594 | the instance of PanicsIffTrips in which the first message is rejected and the second acknowledged |
| SplitSync.StepShrinks | pkg/adaptation/plugin.go:514-556 | every message that does not end the loop makes the measure smaller, unless the sender is stuck |
| SplitSync.LongRunsAreStuck | pkg/adaptation/plugin.go:514-556 | a synchronization of n objects that goes beyond 2n messages is sending empty chunks |
| SplitSync.StuckStays | pkg/adaptation/plugin.go:527-544 | a stuck sender stays stuck as long as chunks are acknowledged |
| SplitSync.DrainsUnlessStarved | pkg/adaptation/plugin.go:514-556 | once nothing is rejected any more, everything is sent if and only if no count is 0 for a list that is not empty |
| SplitSync.OneRejectionStarves | pkg/adaptation/plugin.go:588-589 | one pod beside a hundred containers, rejected once, leaves the pod unsent |
| Framing.Uint32RoundTrip | pkg/net/multiplex/mux.go:252-253 | the big-endian header fields read back |
| Framing.HeaderLayout | pkg/net/multiplex/mux.go:252-253 | a header is the identifier and then the size, both most significant byte first |
| Framing.ChunksPartition | pkg/net/multiplex/mux.go:247-282 | chunks put together are the buffer, none is larger than the maximum, all but the last are full, and one suffices exactly for buffers up to it |
| Framing.StreamRoundTrip | pkg/net/multiplex/mux.go:287-341 | any sequence of frames printed is parsed back, with nothing left |
| Framing.ParseConcat | pkg/net/multiplex/mux.go:307-341 | a stream parses the same in whichever pieces it arrives |
| Framing.SentWhole | pkg/net/multiplex/mux.go:236-285 | a write without error puts exactly its frames on the trunk |
| Framing.FirstFailureDecides | pkg/net/multiplex/mux.go:255-273 | a write of a buffer has no error if and only if none of the writes to the trunk it takes fails; else the first failing one decides the error and whether the multiplexer is shut down |
| Framing.SentUpToFailure | pkg/net/multiplex/mux.go:255-273 | whatever fails, the trunk gets the beginning of the frames up to the first failing write, and of that as much as got through |
| Framing.FailureKeepsFraming | pkg/net/multiplex/mux.go:255-273 | when nothing of the first write to the trunk that fails gets through, the multiplexer stays open, and the framing is kept if and only if that write is of a header (has an even number) or the buffer is empty |
| Framing.BareHeaderStays | pkg/net/multiplex/mux.go:255-273 | one byte whose payload is refused: a bare header stays on the trunk |
| MuxRuns.OnlyItsOwnCloseUnregisters | pkg/net/multiplex/mux.go:420-427 | over all runs a connection stays registered if and only if it is not closed itself; a stale one never unregisters a later one of the same identifier |
| MuxRuns.Demultiplexed | pkg/net/multiplex/mux.go:287-358 | for every interleaving, what was read, queued, held and is on the trunk for an open connection is what was there at first and then exactly what was written to it, chunk by chunk |
| MuxRuns.ReadsWhatWasWritten | pkg/net/multiplex/mux.go:287-405 | a connection yields in order the bytes written to it and nothing else, all of them once drained; writes up to the maximum arrive as whole buffers |
| MuxRuns.ReadsReturnTaken | pkg/net/multiplex/mux.go:380-405 | in every run, the reads of a connection return one by one the payloads taken from it, each whole or, exactly if the buffer is too small, not at all |
| MuxSafety.NeverMoreThanWritten | pkg/net/multiplex/mux.go:287-405 | from any state with a framed trunk and in every run, closes and overflows included: what a connection has read and queued is a prefix of what was on its way to it and of what was then written to its identifier |
| MuxSafety.ReadsContiguousPart | pkg/net/multiplex/mux.go:287-405 | in every run from the start, every connection has read and queued a contiguous part of what was written to its identifier |
| MuxSafety.ReturnsContiguousPart | pkg/net/multiplex/mux.go:287-405 | in every run from the start, what the reads of a connection return is, one by one, a contiguous part of the payloads written to its identifier; a buffer of the maximum payload size is never too small |
| MuxSafety.BufferIsQueued | pkg/net/multiplex/mux.go:287-358 | with an idle reader, an empty trunk and room in the queue, a connection gets all that is written to it, and nothing else changes |
| MuxSafety.BlockedUntilUnblocked | pkg/net/multiplex/mux.go:296 | a multiplexer that starts blocked is unblocked exactly by unblocking it; until then nothing is queued and no read yields anything |
| MuxRuns.ErrorIsFixed | pkg/net/multiplex/mux.go:360-373 | the error of the multiplexer is fixed at most once over any run |
| MuxRuns.FailingReadsAgree | pkg/net/multiplex/mux.go:380-396 | any two reads, on any connections, that fail through the multiplexer return the same error |
| MuxRuns.ShutDownClosesAll | pkg/net/multiplex/mux.go:208-220 | exactly an explicit close, the end of the trunk, an overflow and a partial write shut down; all registered connections are closed and, but for the explicit close, the error is fixed |
| MuxRuns.ErrorOfShutDown | pkg/net/multiplex/mux.go:360-373 | in every run from the start, reads after a shutdown (other than an explicit close) fail with the error of the shutdown if no read has failed before it, and with the end of file otherwise |
| MuxRuns.OverflowErrorIff | pkg/net/multiplex/mux.go:44-48 | after an overflow, failing reads return the overflow if and only if no read has failed before it |
| MuxRuns.TruncatedFrameFails | pkg/net/multiplex/mux.go:305-341 | which error a frame cut short ends with: an end of file if none of it or just the header has arrived, else one for the header or the payload |
| MuxRuns.EarlyReadFixesError | pkg/net/multiplex/mux.go:366-373 | a read from a connection closed itself fixes the end of file while the multiplexer is open |
| MuxRuns.ClosedConnFails | pkg/net/multiplex/mux.go:380-396 | ever after, a closed connection can fail, and must once its queue is empty |
| MuxRuns.ClosedIffItself | pkg/net/multiplex/mux.go:420-434 | in every run, until a shutdown, a connection is closed if and only if it was closed itself; one that is not registered is closed |
| MuxRuns.ClosedAfterShutDown | pkg/net/multiplex/mux.go:186-220 | in every run with a shutdown, a connection is closed afterwards if and only if it was opened before the shutdown, stale or not, or is closed itself |
| MuxRuns.LateConnectionHangs | pkg/net/multiplex/mux.go:186-220 | reads from a connection opened after shutdown, with no frame for it in the reader's hand, never yield anything, and fail if and only if it has been closed itself |
| MuxRuns.LateConnectionGetsFrame | pkg/net/multiplex/mux.go:298-350 | a frame read in full before the shutdown is handed to a connection opened after it, if it is looked up only then |
| Mux.Conn.Read | pkg/net/multiplex/mux.go:380-405 | returns the payload at the head of the queue whole, with its length, or out of memory exactly if the buffer is smaller, and takes it either way; fails with the error of the multiplexer, fixing the end of file if there is none; which bytes of the caller's buffer change |
| Mux.Conn.Write | pkg/net/multiplex/mux.go:407-417 | no error if and only if the connection is open and no write to the trunk fails, and then exactly the frames of the buffer are added; else which error, and whether the multiplexer is shut down |
| Mux.Conn.Close | pkg/net/multiplex/mux.go:420-434 | is the close step; unregisters only itself |
| Mux.Mux.Open | pkg/net/multiplex/mux.go:186-206 | is the open step; the connection returned is the registered one |
| Mux.Mux.Close | pkg/net/multiplex/mux.go:208-220 | closes every registered connection and no other |
| Mux.Mux.Unblock | pkg/net/multiplex/mux.go:180-184 | lets the reader start; unblocking again changes nothing |
| Mux.Mux.SetError | pkg/net/multiplex/mux.go:360-364 | fixes the error unless it is fixed |
| Mux.Mux.Error | pkg/net/multiplex/mux.go:366-373 | fixes the end-of-file error if none is fixed, and returns the fixed one |
| Mux.Mux.WriteFrames | pkg/net/multiplex/mux.go:236-285 | the loop sends chunk by chunk up to the first failing write to the trunk |
| Mux.Mux.Check | pkg/net/multiplex/mux.go:298-303 | an iteration begins by testing that the multiplexer is open |
| Mux.Mux.Take | pkg/net/multiplex/mux.go:305-327 | a complete frame is taken off the trunk, unless that was closed while the reader waited |
| Mux.Mux.Find | pkg/net/multiplex/mux.go:345-347 | the connection of the frame in hand is looked up, whether or not the multiplexer is still open |
| Mux.Mux.Queue | pkg/net/multiplex/mux.go:348-356 | the payload is queued, dropped if no connection was found, or overflows and shuts down |
| Mux.Mux.End | pkg/net/multiplex/mux.go:306-341 | the end of the trunk, or its being closed, while the reader waits shuts down with the error it stands for |
| Mux.Mux.Reader | pkg/net/multiplex/mux.go:287-358 | the loop works off what has arrived by steps of the state machine and ends with the multiplexer closed |
| Registration.LockingStep | pkg/adaptation/adaptation.go:696-722 | in every interleaving the reader count is the number of blocks in place, and they exclude the writer |
| Registration.RunInv | pkg/adaptation/adaptation.go:572-616 | the invariant of locks, lists, snapshots and relayed changes holds in every reachable state |
| Registration.RegisteredIff | pkg/adaptation/adaptation.go:572-616 | in every run the registered plugins are exactly those that were there or joined, and have not gone since |
| Registration.ConnectingRegisters | pkg/adaptation/adaptation.go:572-616 | whatever happened before, a new plugin that connects while no request is in the way ends up registered, synchronized with the world as it is, and the accepting goroutine and its locks are as before |
| Registration.ChangeIsMade | pkg/adaptation/adaptation.go:696-722 | whatever happened before, a new block can be put in place unless a plugin waits for or has the lock, and a change made under it is relayed to every registered plugin |
| Registration.FailuresLetGo | pkg/adaptation/adaptation.go:594-612 | a failed synchronization registers nobody and lets go of the lock, and a relay that is cut short drops only those that have gone |
| Registration.NoJoinUnderBlock | pkg/adaptation/adaptation.go:594-612 | no plugin is synchronized or joins while a block is in place |
| Registration.SeenExactlyOnce | pkg/adaptation/adaptation.go:572-616 | a change committed and relayed under one block is, for every registered plugin, either in its synchronization or relayed to it, and never both |
| Registration.SeenAtMostOnce | pkg/adaptation/adaptation.go:572-616 | no change made under a block is ever seen twice |
| Registration.ReleasedOnce | pkg/adaptation/adaptation.go:710-722 | a block that is released is no longer in place, so releasing it again changes nothing; that a release finds a reader to take off is the count that RunInv keeps |

## Left out

- Annotations, arguments, hooks, rlimits, CDI and net devices, sysctl, RDT, cgroups path, OOM score, I/O priority, seccomp and scheduler adjustments: they repeat the patterns modelled, or do not do what they mean to (hook owners, sysctl, lone removals of annotations and net devices).
- References inside the table of owners, and the maps of unified settings and namespaces: held as values in fields that are reassigned.
- Memory and CPU objects hold their fields as one record, and the blocks of code for the single fields are a loop over the list of fields in their order.
- Normalisation of missing parts of a request: requests are modelled with all parts present.
- ResourceRuns.OrderDoesNotMatter: values are compared key by key, so the order of hugepage limits and of device rules, which are appended as in the code, is not part of it.
- Requests to stop a container and relayed state changes: the loop of Adaptation.Adaptation.UpdateContainer without a request to keep up to date, or without replies.
- SpecApplier.Generator.AdjustNamespaces: the generator underneath is modelled by what its calls do (removing the first mount, setting a variable, replacing a namespace, failing on unknown types), its own code is not part of this model.
- SpecApplier.Generator.AdjustMounts: does not model the propagation checks, which look at the host, nor the root propagation they set.
- SpecApplier.Generator.AdjustDevices: does not model the device rule added to the resources of the Spec, which the generator underneath does.
- SpecApplier.Generator.Adjust: covers environment, devices, namespaces and mounts out of the kinds that are applied.
- MergeResult.Result.Adjust: covers the kinds modelled; the others listed above are left out.
- MergeResult.Result.Apply: covers replies to creation requests; those to update requests are lists of updates and go to UpdateAll directly.
- EndToEnd.CreateAndApply: resources are not applied to the Spec; what the reply and the view hold of them is ResourceRuns.RunTraced.
- CreationOrder.OrderOfPluginsDoesNotMatter: compares lists as maps, and not the order of hugepage limits and device rules.
- Adaptation.Adaptation.StartPlugins: begins with the plugins that could be started and synchronized.
- Sorting is a function with the contract of the sort library; its algorithm is not modelled.
- SplitSync.RecalcShrinks: the factor is an exact fraction cut off towards zero, not a floating-point number.
- SplitSync.Plugin.Synchronize: transport and timeouts are verdicts on messages; that a message rejected as oversized does not reach the plugin is taken from the transport.
- MuxRuns.Demultiplexed: the trunk delivers what was written to it, in order, possibly in pieces; queues hold at least one payload (a queue of length 0 would hand payloads over directly).
- MuxRuns.ReadsWhatWasWritten: counts payloads taken off the queue; what the reads return of them, and when a buffer is too small, is MuxRuns.ReadsReturnTaken and MuxSafety.ReturnsContiguousPart.
- SplitSync.SessionsAreSeparate: takes it that chunks reach a stub only once it is started, so that closing drops them; the plugin side of a failed start is the parameter of SplitSync.Stub.Start.
- Mux.Mux.Reader: runs without other steps in between; the interleavings are those of the state machine, whose steps it is made of.
- Registration.SeenExactlyOnce: changes made or relayed without a block, and plugins that have been closed since, are outside its claim; go routines, sockets, listeners and process launch are not part of this model.
- Adaptation.Adaptation.ValidateContainerAdjustment: what validators are shown (the original container, the response and the owners) is not part of this model.
- Concurrent validators are asked one after the other: none depends on another.
- Liveness of the locks and wall-clock timeouts.
