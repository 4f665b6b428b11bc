# Verified model of the Technitium operator

A Dafny model of the protocols inside the Technitium DNS Kubernetes operator,
with proofs of what they guarantee over whole runs. The operator drives objects
it does not control: a StatefulSet controller that reports late, pods that
change address, DNS servers whose calls may fail before or after taking effect,
garbage collection, and its own crashes. The model makes each of these explicit
and the main theorems quantify over all of them.

`dafny verify dfyconfig.toml` checks the whole project.

## Layout

| file | subject |
|---|---|
| `Text.dfy`, `Sorting.dfy` | strings, numerals, splitting, ordering, sorting |
| `Version.dfy` | Technitium versions: parse, print, find in an image reference, compare |
| `Members.dfy` | how calls end; finding one node's entry in another node's member list |
| `Rollout.dfy` | writing the StatefulSet, the downgrade guard, the gate, the rollout walk |
| `RolloutLaws.dfy` | what one walk and sequences of walks guarantee |
| `RolloutSystem.dfy` | the upgrade as a transition system; order and freshness over every run |
| `RolloutPaths.dfy`, `RolloutWitnesses.dfy` | which worlds lead to which; runs that show exactly where freshness ends |
| `RolloutFinish.dfy` | from every reachable world the upgrade can be finished |
| `Clustering.dfy`, `ClusteringLaws.dfy` | init, join and address repair; init before join over every run |
| `IpRepair.dfy` | address repair converges although pushes get lost |
| `ClusteringProgress.dfy` | which calls a pass sends, that everyone joins, when it reports success and failure |
| `Records.dfy`, `RecordRuns.dfy` | record reconciliation call by call; interleavings, crashes, CNAME |
| `Translate.dfy`, `Plan.dfy`, `PlanLaws.dfy` | ExternalDNS endpoints to Records; plans, their meaning, safety and retry |
| `EndpointList.dfy`, `Webhook.dfy` | listing inverts creating; apply followed by list |
| `Annotations.dfy` | ownership of annotations shared with other controllers |
| `Overrides.dfy` | allowed and blocked domain sets under retries |
| `AdminSecret.dfy` | survival of the generated admin Secret |

Loops and objects of the original are methods and classes here, each proved
equal to a function of the old state; the theorems are about those functions. A
server call has one of three ends (`Calls.Call`): it succeeds, fails without
effect, or takes effect and still reports failure.

## Where the code falls short of the obvious claim

Each has a concrete witness and a statement of exactly when the claim holds.

- A pass can lower the partition and report Stalled at once. It does exactly when
  its second clock reading is more than the timeout past the whole second of the
  first (`StalledReleaseExactly`). With one clock reading there is such a pass
  exactly for timeouts below a second less a nanosecond (`StalledReleaseTimeouts`).
- A Connected entry left by a previous pod can release the next node. For a pod
  with given creation and ready times some run does this exactly if the pod was
  created after the whole second its ready time is stored as: created at 1.4s,
  Ready at 1.5s, stored as 1s, the previous pod last heard at 1.3s
  (`StaleReleaseExactly`; on the level of the gate `StaleEntryExactly`).
- A heartbeat from before the pod became Ready can release the next node: created
  at 0.5s, heard at 1.2s, Ready at 1.5s, stored as 1s. Some run does this exactly
  if the pod did not become Ready on a whole second (`EarlyReleaseExactly`,
  `EarlyEntryExactly`).
- `normalizeName` is not idempotent: `"a ."` becomes `"a "`, then `"a"`. It is
  exactly on names that, with surrounding space and then trailing dots taken off,
  do not end in space (`NormalizeNotIdempotent`, `NormalizeIdempotentExactly`).
- The encoding hashed into a Record name determines the fields exactly if none of
  them holds a NUL (`EncodeExactly`); a NUL in a target or set identifier makes
  another endpoint share the object name (`NameCollides`).
- Records that share a name can undo each other. They always converge exactly if
  none has to remove a value another desires (`ConvergeExactly`); a Record is
  always served exactly if, besides, no Record that desires something else has to
  remove the value it is served by (`ServedExactly`). Two Records that swap their
  values are the smallest failing case (`SwapLosesValue`).
- Editing a Blocklist while an attempt is half done can lose and leak domains
  (`EditMidwayFails`). A domain dropped and put back is deleted and never added
  again, because status still lists it; a domain added and dropped again stays on
  the server, because status never listed it. `EditMidwayExactly` says when the
  edit ends well, given how far the attempt got, and `SafeEditExactly` which edits
  end well wherever it stopped. With edits only after a success all of them do
  (`OverridesConverge`).

## Model

| member | source | states |
|---|---|---|
| `Versions.ParseVersion` | internal/technitium/version.go:26-45 | the index scan and array fill compute `Parsed`, rejecting exactly what the source rejects |
| `Versions.ParsePrinted` | internal/technitium/version.go:26-45 | parsing a printed version returns it, with or without "v" and with any suffix starting with neither digit nor dot |
| `Versions.ParsedIsCanonical` | internal/technitium/version.go:81-83 | printing a parsed version and parsing again changes nothing |
| `Versions.ParsePrintedImage` | internal/technitium/version.go:51-65 | the version is found in any image reference with registry port, path, tag suffix and digest |
| `Versions.ParsedExactly` | internal/technitium/version.go:26-45 | a string parses exactly if, trimmed and without "v", it is one to three numerals with dots between them, perhaps one more dot, and then something else |
| `Versions.ReadsAsParses` | internal/technitium/version.go:26-45 | and then as the values of those numerals, missing ones being 0 |
| `Versions.ParseShort` | internal/technitium/version.go:26-45 | versions of one and two components |
| `Versions.ImageExactly` | internal/technitium/version.go:51-65 | an image has a version exactly if it has a tag that parses, between path and digest, and it is the tag's |
| `Versions.Compare` | internal/technitium/version.go:68-78 | on 64-bit wrapping subtraction, the sign is the lexicographic order both ways and 0 only for equal versions |
| `Members.MemberMatch` | internal/controller/technitiumcluster_controller.go:1648-1656 | a member name matches ordinal i exactly if it is ordinal i's: 1 is never taken for 10 |
| `Members.FindMemberExact` | internal/controller/technitiumcluster_controller.go:1648-1656 | in a list of the cluster's nodes the search finds an entry of ordinal i itself, and none only if i is not listed |
| `StatefulSets.Workload.ReconcileStatefulSet` | internal/controller/technitiumcluster_controller.go:1249-1314 | guard, template hash and partition choice give the new StatefulSet |
| `StatefulSets.RefusedExactly` | internal/controller/technitiumcluster_rollout.go:86-110 | the image asked for is kept out exactly if there is no opt-in, both versions are known (the deployed one from the template, else from the status), and it is older; everything else is let through |
| `StatefulSets.WriteMeans` | internal/controller/technitiumcluster_controller.go:1275-1304 | template, replicas and hash are written; a changed template holds back every ordinal, otherwise those held back stay the same |
| `StatefulSets.OneStepKeepsVersion` | internal/controller/technitiumcluster_rollout.go:86-110 | one reconcile of a parseable image without the opt-in does not lower the version in the template |
| `StatefulSets.NoSilentDowngrade` | internal/controller/technitiumcluster_rollout.go:86-110 | over any run of such reconciles the template's version never decreases |
| `StatefulSets.WriteSettles` | internal/controller/technitiumcluster_controller.go:1286-1304 | every write leaves hash and partition consistent with template and replicas |
| `StatefulSets.RefusalIsInert` | internal/controller/technitiumcluster_controller.go:1255-1304 | a refused downgrade with nothing else changed leaves template, hash, partition and generation, so no rollout starts |
| `Rollout.Gate.Primary` | internal/controller/technitiumcluster_rollout.go:145-157 | the Primary's view, read apart from the version of its node and fetched at most once per pass |
| `Rollout.Gate.Check` | internal/controller/technitiumcluster_rollout.go:167-216 | the verdict on an ordinal, with at most one fetch of the Primary's view |
| `Rollout.CheckReleased` | internal/controller/technitiumcluster_rollout.go:303-314 | the arrays hold every released ordinal's verdict and the count of those that pass |
| `Rollout.FirstUngated` | internal/controller/technitiumcluster_rollout.go:315-321 | the lowest released ordinal that fails, none only if all pass |
| `Rollout.WalkRollout` | internal/controller/technitiumcluster_rollout.go:237-370 | the loops, the release and the stall clock compute `Walk` and leave the StatefulSet it says |
| `RolloutLaws.GateMeaning` | internal/controller/technitiumcluster_rollout.go:167-216 | passing the gate is exactly: update revision, Ready, target version, and (Secondaries of a cluster) freshly connected |
| `RolloutLaws.ReasonIsTrue` | internal/controller/technitiumcluster_rollout.go:167-216 | the reason given for a node that does not pass is true of it |
| `RolloutLaws.WaitingReport` | internal/controller/technitiumcluster_rollout.go:303-369 | a waiting pass changes nothing, names the lowest unfinished node and since when, and reports Stalled and Degraded exactly if that is longer than the timeout |
| `RolloutLaws.FinishedReport` | internal/controller/technitiumcluster_rollout.go:334-347 | with every released node finished a pass releases the next and starts its clock, or reports the end |
| `RolloutLaws.UnlookedReport` | internal/controller/technitiumcluster_rollout.go:263-296 | what passes report that do not get to look at nodes: nothing going on, a status not yet current, or nothing readable |
| `RolloutLaws.StallIsReported` | internal/controller/technitiumcluster_rollout.go:348-369 | once the clock is past the stored start by more than the timeout, every pass on that node reports it stalled |
| `RolloutLaws.ReleaseOnEvidence` | internal/controller/technitiumcluster_rollout.go:303-343 | the partition drops by exactly one, on a current status, with every ordinal above finished in that pass; otherwise nothing changes |
| `RolloutLaws.FinishIsHonest` | internal/controller/technitiumcluster_rollout.go:345-347 | Upgrading goes from True to False only in a pass where every ordinal passes |
| `RolloutLaws.StalledReleaseExactly` | internal/controller/technitiumcluster_rollout.go:333-369 | when a releasing pass reports Stalled, exactly |
| `RolloutLaws.StalledReleasesNothing` | internal/controller/technitiumcluster_rollout.go:333-369 | with one clock reading and a timeout of a second less a nanosecond, or more, a Stalled pass changes nothing |
| `RolloutLaws.StalledReleaseTimeouts` | internal/controller/technitiumcluster_rollout.go:333-369 | for every timeout: with one clock reading some pass releases and reports Stalled exactly if it is shorter than that |
| `RolloutLaws.PendingKeepsBookmark` | internal/controller/technitiumcluster_rollout.go:348-353 | one pass on the same pending node keeps its start time through the status write |
| `RolloutLaws.StartTimeConstant` | internal/controller/technitiumcluster_controller.go:1598-1610 | over any number of passes, failed status writes and restarts the start time stays while the node is pending |
| `RolloutLaws.StartTimeWhole` | internal/controller/technitiumcluster_rollout.go:333-333 | start times are whole seconds, so the status holds just what the last written pass reported |
| `RolloutLaws.PartitionSteps` | internal/controller/technitiumcluster_rollout.go:334-343 | a pass leaves the partition or lowers it by one |
| `RolloutLaws.Progress` | internal/controller/technitiumcluster_rollout.go:305-352 | n clear passes take the partition from n to 0 and the next reports UpToDate |
| `RolloutSystem.StepKeepsOrder` | internal/controller/technitiumcluster_controller.go:1286-1304 | every step keeps the revision invariant, with the controller acting on a spec before it reports it, and all steps also between the write, the reads and the patch of one pass |
| `RolloutSystem.StepKeepsTime` | internal/controller/technitiumcluster_rollout.go:201-212 | what the Primary heard from an earlier pod predates the pod now running |
| `RolloutSystem.RunInvariant` | internal/controller/technitiumcluster_rollout.go:280-343 | both invariants hold in every state of every run |
| `RolloutSystem.RolloutOrder` | internal/controller/technitiumcluster_rollout.go:280-343 | in every reachable state pods above the partition are new, those below are old, only the one at it may be either |
| `RolloutSystem.ReleaseIsFresh` | internal/controller/technitiumcluster_rollout.go:192-212 | a releasing pass has read of every higher ordinal: a Ready pod on the new revision, connected at its address, seen after the stored ready time; hence after the real one if that is a whole second, and by that very pod unless it was created after the stored one |
| `RolloutSystem.EntryPasses` | internal/controller/technitiumcluster_rollout.go:195-212 | which entry of the Primary passes the gate, exactly |
| `RolloutSystem.StaleEntryExactly` | internal/controller/technitiumcluster_rollout.go:201-212 | an entry of an earlier pod can pass for a Ready pod exactly if that pod was created after its stored ready time |
| `RolloutSystem.EarlyEntryExactly` | internal/controller/technitiumcluster_rollout.go:201-212 | passing means heard from since readiness, for every entry, exactly if the pod became Ready on a whole second |
| `RolloutPaths.ReachableByRun` | internal/controller/technitiumcluster_rollout.go:280-343 | the reachable worlds the rows below speak of are those at the end of runs from a settled cluster |
| `RolloutWitnesses.StaleReleaseExactly` | internal/controller/technitiumcluster_rollout.go:201-212 | for every upgrade and all times of a pod: a run releasing on an earlier pod's entry exists exactly if the pod was created after its stored ready time |
| `RolloutWitnesses.EarlyReleaseExactly` | internal/controller/technitiumcluster_rollout.go:201-212 | a run releasing on a heartbeat from before readiness exists exactly if the pod did not become Ready on a whole second |
| `RolloutSystem.EveryReleaseIsFresh` | internal/controller/technitiumcluster_rollout.go:303-343 | every drop of the partition in every run is by one and rests on such evidence, read earlier in the same pass |
| `RolloutSystem.PartitionFalls` | internal/controller/technitiumcluster_controller.go:1289-1296 | after the template change the partition never rises and falls by at most one per step |
| `RolloutFinish.AlwaysFinishable` | internal/controller/technitiumcluster_rollout.go:303-352 | from every reachable world some steps lead to one with every pod on the new revision and a pass that finds every node finished and reports UpToDate |
| `Clustering.Operator.RefreshNodeIp` | internal/controller/technitiumcluster_controller.go:960-989 | updates exactly when the node's own or the Primary's record lacks the pod IP |
| `Clustering.Operator.JoinSecondary` | internal/controller/technitiumcluster_controller.go:863-917 | one turn of the loop over Secondaries; "already initialized" counts as joined, an unanswered call as a failure |
| `Clustering.Operator.RepairAndJoin` | internal/controller/technitiumcluster_controller.go:839-944 | repair, the loop over Secondaries, and convergence on the Primary's final view |
| `Clustering.Operator.ReconcileClustering` | internal/controller/technitiumcluster_controller.go:786-944 | a whole pass, with deferrals, failures and races |
| `ClusteringLaws.SecondarySafe` | internal/controller/technitiumcluster_controller.go:863-917 | one turn of the loop keeps init before join and sends only proper calls |
| `ClusteringLaws.PassSafe` | internal/controller/technitiumcluster_controller.go:786-944 | so does a pass, wherever it stops |
| `ClusteringLaws.InitBeforeJoin` | internal/controller/technitiumcluster_controller.go:786-944 | over every run no Secondary is a member before the Primary is initialized, not even between two calls; init and join go only to nodes that reported no cluster |
| `ClusteringLaws.ConvergedMeansListed` | internal/controller/technitiumcluster_controller.go:926-943 | clustered is reported only if the Primary's final view lists every ordinal 1..n-1 as joined |
| `ClusteringProgress.PassJoins` | internal/controller/technitiumcluster_controller.go:786-944 | the calls of an undisturbed pass, in order and with their arguments: init, the Primary's address, then joins and address updates; afterwards every node is a member, those that joined are listed under their address, and the result is whether all are joined |
| `ClusteringProgress.TurnCalls` | internal/controller/technitiumcluster_controller.go:863-917 | the call one Secondary is due: a join with its own address and the Primary's name and address, an address update, or none |
| `ClusteringProgress.ListedConverges` | internal/controller/technitiumcluster_controller.go:926-943 | with everyone listed, a pass by whose end the Primary is connected to all returns true |
| `ClusteringProgress.TwoPassesConverge` | internal/controller/technitiumcluster_controller.go:786-944 | from nodes without a cluster, one undisturbed pass and one such pass suffice |
| `ClusteringProgress.PassEndsAs` | internal/controller/technitiumcluster_controller.go:786-944 | a pass stops at the first call that fails and returns an error; it returns true only if every pod was Ready and every node answered |
| `IpRepair.NoDoubleMatch` | internal/controller/technitiumcluster_controller.go:1648-1656 | no node name can be taken for two ordinals |
| `IpRepair.UpdateSecondary` | internal/controller/technitiumcluster_controller.go:882-888 | an update corrects a Secondary's own record, the Primary's if the push arrives, and nobody else's |
| `IpRepair.UpdatePrimary` | internal/controller/technitiumcluster_controller.go:839-846 | an update of the Primary corrects its own record and leaves its list of Secondaries |
| `IpRepair.PassRepairs` | internal/controller/technitiumcluster_controller.go:960-989 | a pass sends exactly the updates owed, in ordinal order; afterwards only lost pushes are still wrong |
| `IpRepair.RepairProgress` | internal/controller/technitiumcluster_controller.go:960-989 | after m passes the Primary is wrong about a node exactly if it was at first and no push got through |
| `IpRepair.RepairConverges` | internal/controller/technitiumcluster_controller.go:960-989 | once every push was delivered all records are right and later passes send nothing |
| `Records.Server.DeleteStaleRecord` | internal/controller/record_controller.go:249-269 | the step that removes the record still carrying the applied data, never the current one |
| `Records.Server.ReconcileRecord` | internal/controller/record_controller.go:188-238 | an attempt is the step machine run to its end, whichever call fails |
| `RecordRuns.FindMeans` | internal/controller/record_controller.go:277-287 | the search finds a record exactly if the wanted value is there, and finds that value |
| `RecordRuns.SpecRequest` | internal/controller/record_controller.go:343-368 | a request built from a spec addresses exactly the wanted value |
| `RecordRuns.CurrentRequest` | internal/controller/record_controller.go:384-398 | a delete built from a server record addresses exactly that value |
| `RecordRuns.OwnStep` | internal/controller/record_controller.go:188-269 | each call of an attempt adds at most the desired value and removes at most the leftover one, whatever others did in between |
| `RecordRuns.NextKeeps` | internal/controller/record_controller.go:188-238 | every call or crash of any Record keeps the desired value of one past its write, if nobody has to remove that value |
| `RecordRuns.NextClears` | internal/controller/record_controller.go:249-269 | every call or crash keeps a removed leftover value away, if nobody desires it |
| `RecordRuns.AlwaysServed` | internal/controller/record_controller.go:197-269 | in every interleaving a sheltered, served Record has its applied or its desired value there at all times, and the desired one once it has succeeded |
| `RecordRuns.ServedExactly` | internal/controller/record_controller.go:197-269 | a Record is served in all runs from all initial records that serve it exactly if it is sheltered |
| `RecordRuns.AllConverge` | internal/controller/record_controller.go:405-439 | once every one of a set of compatible Records has succeeded the values are exactly the foreign ones plus all desired ones |
| `RecordRuns.ConvergeExactly` | internal/controller/record_controller.go:188-269 | Records converge in all runs from all initial records exactly if none has to remove what another desires |
| `RecordRuns.ConflictLosesValue` | internal/controller/record_controller.go:249-269 | for every violating pair and all initial records, a run without failures ends with all done and the value gone |
| `RecordRuns.CrashSafeChange` | internal/controller/record_controller.go:188-300 | after any failures and crashes, the first success leaves the initial values minus the applied one plus the desired one |
| `RecordRuns.AttemptIsRun` | internal/controller/record_controller.go:188-238 | what an attempt does is a run of the interleaved system |
| `RecordRuns.UndisturbedAttempt` | internal/controller/record_controller.go:188-238 | for other types an attempt in which nothing fails succeeds, and trades the leftover value for the desired one |
| `RecordRuns.QuietPass` | internal/controller/record_controller.go:224-238 | with value and TTL in place and recorded, a pass changes nothing |
| `RecordRuns.SuccessIsStable` | internal/controller/record_controller.go:188-238 | a success with an explicit TTL is followed by passes that change nothing |
| `RecordRuns.SwapLosesValue` | internal/controller/record_controller.go:249-269 | the smallest case: two Records that swap their values |
| `RecordRuns.CnameConverges` | internal/controller/record_controller.go:213-222 | an attempt keeps other types and at most one CNAME; a success leaves exactly the desired one |
| `RecordRuns.CnameSucceeds` | internal/controller/record_controller.go:188-238 | an attempt in which nothing fails succeeds: the desired CNAME is there, alone, and other types are untouched |
| `RecordRuns.CnameGetsTtl` | internal/controller/record_controller.go:224-233 | with an explicit TTL the CNAME then carries it |
| `RecordRuns.CnameStable` | internal/controller/record_controller.go:188-238 | and later passes change nothing |
| `Translate.NormalizeNotIdempotent` | internal/externaldns/types.go:51-53 | a name that takes two passes to normalize |
| `Translate.NormalizeMeans` | internal/externaldns/types.go:51-53 | a normalized name is the lower-case core of the name: what is between space in front, and trailing dots and space behind |
| `Translate.NormalizeIdempotentExactly` | internal/externaldns/types.go:51-53 | the names on which normalizing twice is normalizing once, by a test on the name itself |
| `Translate.EncodeInjective` | internal/externaldns/translate.go:52-59 | the NUL-terminated encoding of NUL-free fields is that of no other fields |
| `Translate.EncodeCollides` | internal/externaldns/translate.go:52-59 | fields with a NUL in one of them share their encoding with other fields |
| `Translate.EncodeExactly` | internal/externaldns/translate.go:52-59 | the encoding determines the fields exactly if none holds a NUL |
| `Translate.ZoneFor` | internal/externaldns/translate.go:63-73 | the loop finds the longest configured zone containing the name, "" exactly if there is none |
| `Translate.ZoneOrderIrrelevant` | internal/externaldns/translate.go:63-73 | the zone does not depend on the order or repetition of the configured ones |
| `Translate.ParsePrintedMX` | internal/externaldns/translate.go:76-86 | a canonical MX target parses back to its preference and host |
| `Translate.ParseMXExactly` | internal/externaldns/translate.go:76-86 | an MX target parses exactly if it is a numeral of at most 65535 and a host with space between, and as those |
| `Plans.DesiredDepends` | internal/externaldns/translate.go:89-126 | endpoints that agree on key and TTL ask for the same Records under the same names |
| `PlanLaws.BuiltExactly` | internal/externaldns/translate.go:89-117 | which endpoints and targets get a Record, and which error the others |
| `PlanLaws.BuiltMeans` | internal/externaldns/translate.go:89-126 | what the Record says: server, longest zone containing the name, name, type, data, priority, set identifier, owner, clamped TTL |
| `PlanLaws.CaseIgnored` | internal/externaldns/translate.go:89-126 | upper and lower case of name and type make no difference |
| `Plans.BuildPlan` | internal/externaldns/translate.go:192-262 | the loops compute `PlanOf`, and the request is rejected exactly if some wanted Record cannot be built |
| `Plans.UpdateOne` | internal/externaldns/translate.go:219-247 | one updated endpoint: creates for new targets, patches for a changed TTL, deletes for dropped ones |
| `Plans.RecordStore.Apply` | internal/externaldns/server.go:103-126 | creates, patches, deletes in order; on failure exactly a prefix has taken effect |
| `PlanLaws.PlanMeans` | internal/externaldns/translate.go:192-262 | what is in each part of a plan, in terms of the request alone |
| `PlanLaws.PlanMeaning` | internal/externaldns/translate.go:188-262 | running the plan leaves every wanted Record, none of the dropped ones, and everything else as it was |
| `PlanLaws.DeletesOnce` | internal/externaldns/translate.go:195-201 | a plan deletes no object twice |
| `PlanLaws.PrefixSafe` | internal/externaldns/server.go:101-126 | after any number of operations nothing is gone while a write is outstanding, and kept targets are never absent |
| `PlanLaws.PlanRetry` | internal/externaldns/server.go:101-138 | stopping anywhere and running the plan again ends in the same store |
| `PlanLaws.AnyRetries` | internal/externaldns/server.go:101-138 | so does any number of runs that stop anywhere, followed by one that goes through |
| `PlanLaws.RetriesRun` | internal/externaldns/server.go:101-138 | and every operation of that run finds what it needs, so it fails only if a call does |
| `PlanLaws.NameInjective` | internal/externaldns/translate.go:52-59 | an object name made from NUL-free fields is that of no other owner, key and target |
| `PlanLaws.NameCollides` | internal/externaldns/translate.go:52-59 | with a NUL in target or set identifier another endpoint has the same object name, whatever the digest |
| `PlanLaws.TranslatorIsFaithful` | internal/externaldns/translate.go:52-126 | the operator's translator meets what the plan laws ask of a builder |
| `PlanLaws.OtherOwnersUntouched` | internal/externaldns/translate.go:49-59 | Records of another owner ID are unchanged by any request |
| `EndpointList.ListEndpoints` | internal/externaldns/translate.go:135-171 | the grouping loop and the sorts compute `EndpointsOf` |
| `EndpointList.ListingMeans` | internal/externaldns/translate.go:135-171 | whatever the Records: one endpoint per key, sorted by key, with their targets in order and as often as they occur, and the TTL of the first |
| `EndpointList.RoundTrip` | internal/externaldns/translate.go:135-171 | listing the Records of endpoints, in any order, returns those endpoints strictly sorted by key |
| `EndpointList.DesiredShows` | internal/externaldns/translate.go:89-126 | a Record built for a canonical endpoint shows its key, target and TTL |
| `EndpointList.EndpointRoundTrip` | internal/externaldns/translate.go:89-171 | creating canonical endpoints and listing returns them |
| `Webhook.ApplyChanges` | internal/externaldns/server.go:83-99 | a request that cannot be planned changes nothing; success leaves the intended store, failure a prefix of the plan |
| `Webhook.OwnedAfterwards` | internal/externaldns/server.go:64-99 | after a request this owner's objects are exactly those of the endpoints it left alone and of those it asked for |
| `Webhook.OwnedIsListed` | internal/externaldns/server.go:64-73 | listing by the owner label returns the endpoints whose Records the owner has |
| `Webhook.AppliedIsListed` | internal/externaldns/server.go:64-99 | applying a request and listing afterwards returns what it left alone and what it asked for |
| `Webhook.SessionIsListed` | internal/externaldns/server.go:64-99 | so after any sequence of requests, each about what the ones before it came to |
| `Webhook.SessionIsPlaced` | internal/externaldns/translate.go:89-126 | after any session every object of this owner is on its server, in the longest configured zone that contains its name |
| `Annotations.ListedBook` | internal/controller/technitiumcluster_services.go:115-128 | the bookkeeping annotation reads back as the keys it was written for |
| `Annotations.Object.ApplyManagedAnnotations` | internal/controller/technitiumcluster_services.go:110-132 | the annotations after an apply |
| `Annotations.RunRefines` | internal/controller/technitiumcluster_services.go:104-132 | over any interleaving with foreign writes the flat map behaves as two separate layers |
| `Annotations.OwnershipHolds` | internal/controller/technitiumcluster_services.go:104-132 | after every apply managed keys equal the latest desired map, foreign keys are as their owners left them, and the bookkeeping annotation lists the managed keys in order, or is absent if there are none |
| `Annotations.ApplyTwice` | internal/controller/technitiumcluster_services.go:104-132 | applying again changes nothing, on any object |
| `Overrides.OverrideZone.ReconcileDomainSet` | internal/controller/blocklist_controller.go:238-265 | adds first, then deletes, one call per domain not in the other list; stops at the first failed call, which is that of a certain add or delete |
| `Overrides.Blocklist.Reconcile` | internal/controller/blocklist_controller.go:196-207 | the blocked set only after the allowed one, status only after both; success exactly if every call made and the status write succeed |
| `Overrides.CommitExactly` | internal/controller/blocklist_controller.go:238-265 | when a completed attempt leaves (start minus applied) plus desired, exactly |
| `Overrides.ZoneInvariant` | internal/controller/blocklist_controller.go:231-265 | in every state of every history a zone is settled, or pending towards the list last tried |
| `Overrides.OverridesConverge` | internal/controller/blocklist_controller.go:231-265 | after any history the server holds the latest desired domains and the other domains no spec ever listed |
| `Overrides.OneSpecConverges` | internal/controller/blocklist_controller.go:346-363 | aborted attempts and then a success leave (initial minus applied) plus desired, and status advances with that success only |
| `Overrides.EditMidwayExactly` | internal/controller/blocklist_controller.go:238-265 | after an attempt that got any given way and an edit, a success leaves the intended set exactly if nothing wanted was deleted and nothing new and unwanted was added |
| `Overrides.EditIsSteps` | internal/controller/blocklist_controller.go:238-265 | those two attempts are steps of the histories above |
| `Overrides.SafeEditExactly` | internal/controller/blocklist_controller.go:238-265 | the edits that end well wherever the attempt stopped, by the two lists, the applied one and the server's set |
| `Overrides.EditMidwayFails` | internal/controller/blocklist_controller.go:238-265 | a domain lost and a domain leaked by an edit in mid-attempt |
| `AdminSecret.TakeoverMeans` | internal/controller/technitiumcluster_controller.go:1176-1211 | taking a Secret over keeps its password, or sets the generated one if it has none, and leaves no other cluster in control |
| `AdminSecret.Namespace.ReconcileAdminSecret` | internal/controller/technitiumcluster_controller.go:1176-1211 | the Secret afterwards, and when the takeover is refused |
| `AdminSecret.Namespace.ReleaseAdminSecret` | internal/controller/technitiumcluster_controller.go:553-588 | under Retain exactly this cluster's references go; otherwise nothing changes |
| `AdminSecret.ReleaseMeans` | internal/controller/technitiumcluster_controller.go:553-588 | which references go, and when the finalizer may go on |
| `AdminSecret.PassTakesOver` | internal/controller/technitiumcluster_controller.go:325-337 | with no call failing a pass leaves the cluster finalized and in control of a Secret with a password |
| `AdminSecret.FinalizerLetsGo` | internal/controller/technitiumcluster_controller.go:418-451 | with no call failing a finalizer attempt lets the cluster go and leaves the Secret behind without owners |
| `AdminSecret.Namespace.FinalizeCluster` | internal/controller/technitiumcluster_controller.go:418-451 | the finalizer goes only after release and volume step succeeded |
| `AdminSecret.StepKeepsInv` | internal/controller/technitiumcluster_controller.go:299-337 | every step keeps: a cluster reference on the Secret is to the living cluster, held by its finalizer |
| `AdminSecret.CollectableExactly` | internal/controller/technitiumcluster_controller.go:545-552 | the collector can take the Secret exactly if all its owners are foreign and gone |
| `AdminSecret.CredentialsRetained` | internal/controller/technitiumcluster_controller.go:418-451 | under Retain, over every run, the Secret once there stays with its password |
| `AdminSecret.OnlyOperatorOwns` | internal/controller/technitiumcluster_controller.go:1008-1015 | from an empty namespace the Secret is never collectable and always has a password |
| `AdminSecret.DeleteCollects` | internal/controller/technitiumcluster_controller.go:556-558 | under Delete the Secret becomes collectable once the finalizer is gone |

## Assumptions

- The digest of a Record name is an arbitrary function; the laws about names take
  it to be injective. The pod template and its hash are opaque, the hash telling
  the two templates of an upgrade apart.
- Times are integers in nanoseconds; Kubernetes timestamps keep whole seconds. The
  clocks of the kubelet (ready times), the Primary (last seen) and the operator
  agree.
- The reads of the rollout walk (pods and nodes) are one step of a pass; the
  StatefulSet write before and the patch after them are steps of their own.
  Elsewhere the reads of the API server within one pass are atomic. Every write may fail before
  or after taking effect.
- The API server stores a TTL of 3600 for a Record created without one, bumps a
  StatefulSet's generation exactly when its spec changes, and removes a deleted
  object once its last finalizer goes.
- The StatefulSet controller creates pod i on the revision of the template it last
  saw if i is at least the partition it saw with it, on the current revision
  otherwise. It reports the generation it saw at some later time.
- Technitium refuses to add a value that exists and to init or join a node that
  is in a cluster; record deletes and override adds and deletes are idempotent.
- `SetControllerReference` refuses an object whose controller is of another kind
  and otherwise replaces the reference to the cluster of that name.
- Between clustering passes nobody else joins a Secondary or dissolves the
  Primary's cluster; within a pass someone else may initialize a node first.

## Left out

- RecordRuns.AlwaysServed: for MX, preferences set and not 0; a delete for preference 0 is sent without it, so what it removes is the server's choice. The same holds for CrashSafeChange and AllConverge.
- RecordRuns.QuietPass: takes the desired value to carry the desired TTL already; a TTL left to the server's default is corrected by one more pass.
- RecordRuns.CnameConverges: one Record per name, attempt by attempt; Records that fight over one CNAME name have no law.
- ClusteringLaws.SecondarySafe: a Primary's address update is also pushed to every Secondary; that push is not modelled.
- Translate.NormalizeIdempotentExactly: upper and lower case cover ASCII only.
- Editing or deleting a Record while a data change is half applied: status remembers one earlier value only.
- Record data the server rewrites into another spelling.
- Schema validation by the API server, and finalizers that delay the removal of Record objects in a plan.
- Endpoint labels and provider-specific properties, which no Record carries; `Adjust`.
- How a refused downgrade is reported on top of the state of the walk.
- Log and condition message texts, and `classifyStatus`, which matches substrings of server messages.
- A change to one replica or none during a rollout, which is a plain replace without a gate.
- Best-effort teardown inside Technitium, foreground deletion, and the volume claims themselves.
- An admin Secret given owner references by someone else, beyond saying exactly when it can be collected.
- DHCP reservations, which repeat the override sets with hardware addresses as keys.
- Block list URLs and settings, which precede the override sets in a reconcile; a failure there is an attempt that changes neither set.
- Pod specs, probes, Services, disruption budgets: field-by-field construction.
- HTTP, JSON, flags, metrics, wiring; admission webhooks, DNSSEC, DNSApp and Zone reconcilers; chart generation.
