# A verified model of machine teardown and BMC discovery

Two controllers are modelled.

**talos-machine-teardown** (`internal/teardown`) holds a pre-terminate hook on Cluster API
Machines, takes a deleting control-plane node out of etcd, resets the node, and only then lets
the machine be powered off. All it remembers is four annotations on the Machine. The model is a
labelled transition system whose steps are single API and Talos calls, each of which may fail,
succeed, or report an error after taking effect; a reconcile may stop at any of them. In between,
time passes, clusters start deleting, other controllers write the machine, members come and go
in etcd, and other reconciles run. Its credential cache is a second transition system.

**tinkerbell-bmc-discovery-controller** (`internal/sync`, `internal/controller`,
`internal/inventory`) turns a verified BMC into a Secret, a BMC Machine and a Hardware object. The
model is a third transition system: any number of syncs do Get, guard, then Create or conditional
Apply against a server with other writers, with reads as stale as can be.

A step that is not enabled changes nothing, so every sequence of labels is a run and a theorem
about all runs is a statement about all sequences. `Runs` holds what the three systems share:
what each step keeps, every run keeps; a system whose steps are steps of another goes through
the other's states.

The reconciler, the syncer and the cache are written twice: as transition systems, about which
the theorems are proved, and as classes with the source's methods, loops and in-place updates,
whose contracts say that whatever they do, interleaved with anything, is a run of their system.

| module | what it holds |
|---|---|
| `Machines`, `Etcd`, `Peers`, `Ordering` | the Machine object and its predicates, victim matching, peer order |
| `Protocol` | the teardown transition system |
| `PowerOff`, `Always`, `Agreement`, `Conclusions`, `Observed`, `Exclusion`, `ExclusionTie`, `Overtaking`, `Membership`, `Script`, `Earned`, `History`, `Trace`, `Termination`, `Liveness`, `Hold` | its theorems |
| `Reconciler` | the reconciler's methods, refining `Protocol` |
| `Credentials`, `CacheSafety`, `Collection`, `CredentialCache` | the cache: system, theorems, methods |
| `Names`, `Inventory`, `Template`, `Defaults`, `Text` | the string cores |
| `Desired`, `Sync`, `Stored`, `Linearization`, `Preservation`, `Syncer` | what a sync asserts; system, theorems, methods |
| `Pivot` | the credential pivot of the worker |

## Model

| member | source | states |
|---|---|---|
| PowerOff.TeardownBeforePowerOff | internal/teardown/reconciler.go:115-163 | In every run, with arbitrarily stale reads, crashes and ambiguous calls: a machine hooked when its deletion began passes the machine controller's gate only with a reset conclusion persisted, and a control-plane one only after an earlier version carried the etcd conclusion without the reset one. |
| PowerOff.ReplyInv | internal/teardown/reconciler.go:206-259 | Every answer to every call keeps the invariant behind it, although the reconcile may be working on an old copy. |
| Always.RunInv | internal/teardown/reconciler.go:115-163 | In every run, whatever is read: conclusions are drawn only of deleting machines, a control-plane machine seen with the hook keeps it until its etcd conclusion, and only hooked or concluded control-plane machines ever get a turn. |
| Agreement.RunInv | internal/teardown/reconciler.go:233-259 | When the versions read carry the four annotations this controller owns as the object does, stale in everything else or not, a running reconcile's copy agrees with the object on them through every patch, failed patch and foreign write. |
| Conclusions.PresenceIsFinal | internal/teardown/reconciler.go:249-259 | A persisted conclusion stays on the object in every continuation, from any state and under any reads. |
| Conclusions.ValueIsFinal | internal/teardown/reconciler.go:266-289 | After any run, whatever was read in it, it keeps its value from any state with no harmful reconcile of the machine under way, as long as none gets to the gate with a version that lacks it; the versions may be stale in everything else. |
| Conclusions.RedoneExactly | internal/teardown/reconciler.go:266-289 | That condition is exact: from any reachable state, with stale reads before it, the reconcile that reads a given version can replace the value if and only if that version is at the gate and lacks the conclusion (and, for the etcd phase, is a control-plane machine's). |
| Conclusions.WorkersRun | internal/teardown/reconciler.go:270-284 | A worker's etcd conclusion is `skipped-cluster-delete` in every run, whatever is read. |
| Conclusions.StaleVersionServed | internal/teardown/reconciler.go:526-556 | For every configuration and machine name a run leads to a persisted reset conclusion with such a version still to be served. |
| Exclusion.ExactlyOnePasses | internal/teardown/reconciler.go:294-310 | In any snapshot exactly one of the deleting, hooked machines passes the (deletion time, name) test. |
| Exclusion.MutualExclusion | internal/teardown/reconciler.go:294-349 | Over every concurrent run in which a machine of the cluster that has its etcd phase to do is held back by its list while another is ahead, and joins the line behind those whose turn it is: at most one of them is between passing the test and its etcd conclusion. They may read any version of themselves, and other clusters may do anything. |
| Exclusion.CompleteHoldsBack | internal/teardown/reconciler.go:299-308 | A list with the current version of every sibling holds a machine back while another is ahead. |
| Overtaking.OrderIsExact | internal/teardown/reconciler.go:294-310 | That condition is exact, list and joining both: after any orderly run, a step keeps every orderly continuation to one holder if and only if it is orderly itself; otherwise another machine can always take its turn too, once those ahead of it that are concluded have gone. |
| ExclusionTie.SameSecondDeletion | internal/teardown/reconciler.go:299-308 | Why that condition is needed: a run with current, complete reads and hooks stamped early in which two machines deleted in the same second both hold the turn. |
| Membership.ListDecides | internal/teardown/etcd.go:20-66 | A truthful member list in which the victim's names match its own member only decides membership, and leads to that member. |
| Membership.ConclusionIsSound | internal/teardown/reconciler.go:367-398 | A persisted `not-member`, `left` or `removed` means that no member of the cluster is the victim's, then and in every later state, under stale reads, retries and outside leaves, if the lists the victim's own reconciles got decide and a deleting machine's node does not join etcd again. |
| Membership.WrongExactly | internal/teardown/reconciler.go:367-398 | That condition is exact: after such a run, a reconcile that gets a given list can persist that the victim is gone while it is not, if and only if the list leads to no member although the victim has one, or leaves one out. |
| Membership.OnlyOwnMembers | internal/teardown/reconciler.go:484-516 | Over every run in which the lists a machine's own reconciles get lead to no other machine's member, no step of them takes another machine's member out; its own member may go by any name. |
| Membership.NoOtherMatches | internal/teardown/etcd.go:54-66 | It is enough that no other machine's member in the list matches the victim's names. |
| Membership.MisledExactly | internal/teardown/reconciler.go:367-398 | That condition is exact: a reconcile that gets a given list can take another machine's member out if and only if the first listed member that matches the victim's names is there and another machine's. |
| History.CallsFollowSnapshot | internal/teardown/reconciler.go:115-163 | In every run, whatever is read: every call to a node follows, in its reconcile, a read of a deleting machine whose first true Deleting condition waits for the pre-terminate hook, with no pre-terminate key of another owner, hooked as read or by a stamp of that reconcile. |
| History.TimeoutsAreEarned | internal/teardown/reconciler.go:329-349 | In every run, whatever is read: `orphaned` and `skipped-timeout` are stamped only after a failed attempt and a clock strictly past the recorded second plus the configured timeout, in nanoseconds, in that same reconcile. |
| Earned.EveryCallIsLed | internal/teardown/reconciler.go:56-596 | In every run, whatever is read: each call of a reconcile is led to by the answer just before it, as a table of all calls says in terms of what the machine and the answer hold. |
| Earned.EveryEndHasAReason | internal/teardown/reconciler.go:56-596 | In every run, whatever is read: a reconcile that was not cut short ended because the version read asks for nothing, a patch or read failed, a sibling goes first, a deadline is not reached, or the release was sent. |
| Earned.ResetIsEarned | internal/teardown/reconciler.go:560-596 | A reset conclusion on the object was stamped right after the answer it stands for: `done` after a reset call that succeeded, `skipped-no-address` after the address was found missing, `skipped-timeout` past the deadline. |
| Earned.DoneMeansReset | internal/teardown/reconciler.go:583-595 | `done` on the object means that a reset call to the node succeeded. |
| Earned.EtcdIsEarned | internal/teardown/reconciler.go:266-398 | The same of the etcd conclusion: no listed member matched, the leave or the removal succeeded, the deadline passed, or the cluster was found to be deleting. |
| Earned.NotDueEnds | internal/teardown/reconciler.go:331-335 | A failed attempt whose clock is not past the deadline makes no further call and stamps nothing. |
| Earned.DeletingClusterSkipsEtcd | internal/teardown/reconciler.go:266-289 | Once its cluster is found to be deleting, a machine without an etcd conclusion has its etcd phase skipped, control plane or not. |
| Earned.HookIsStamped | internal/teardown/reconciler.go:64-112 | From any state: a reconcile that reads a version of ours without the hook, not deleting or deleting but neither concluded nor past the gate, stamps the hook and sweeps the leftovers, whatever happens before its patch takes effect. |
| Earned.OnlyOwnKeys | internal/teardown/reconciler.go:230-247 | A step of a machine's own reconcile changes nothing but that machine's annotations, and no key of theirs but the four this controller owns and the leftovers it read. |
| Trace.NoCallOnceConcluded | internal/teardown/reconciler.go:266-289 | No call of a phase is made once its conclusion is persisted, over every run in which no reconcile of the machine then gets to the gate with a version that lacks the conclusion. |
| Trace.SilentAfterRelease | internal/teardown/reconciler.go:115-135 | After the release no reconcile calls or writes anything, over every run in which the versions read of the machine after it show the release. |
| Observed.ObservedAtIsFinal | internal/teardown/reconciler.go:167-181 | From any state that records a second, with no reconcile under way that would observe the machine anew, it is never replaced, as long as none gets to the gate with a version that lacks it. |
| Observed.RestartProofDeadlines | internal/teardown/reconciler.go:167-181 | All reconciles of a machine, across any crashes, count from the same second, the one the object records, over every run in which none of them, once a timestamp is there, gets to the gate with a version that lacks it. |
| Observed.ReobservedExactly | internal/teardown/reconciler.go:167-181 | That condition is exact: the reconcile that reads a given version can replace the recorded second if and only if that version is at the gate and carries no timestamp. |
| Termination.EveryReconcileEnds | internal/teardown/reconciler.go:56-163 | In every endless run in which a reconcile's calls keep being answered it comes to rest, whatever the answers and however many peers it is told to try. |
| Liveness.ReleaseOpensGate | internal/teardown/reconciler.go:208-228 | The release patch takes off the last pre-terminate key of a machine without foreign hooks, legacy keys included. |
| Liveness.RoundReleases | internal/teardown/reconciler.go:141-163 | One fair round past the deadlines strictly shrinks the line, whatever the Talos nodes answer: each waiting machine gets one whole reconcile without a crash for which the API server works, nobody joins in front, and parked machines are read as they are and left parked; crashes, failed calls and newcomers behind the line are otherwise free. |
| Liveness.FailOpen | internal/teardown/reconciler.go:329-349 | After any run, whatever was read in it: N machines of a cluster that wait at the gate past their deadlines with nobody in front of them are all released within N such rounds, with no pre-terminate key left on any. |
| Hold.NoDeadlineOnHold | internal/teardown/reconciler.go:294-310 | The hold has no deadline: as long as an older sibling keeps its hook and shows in its lists, a control-plane machine behind it gets no etcd conclusion and is not released, however late it is and whatever else is read; so the theorem above needs nobody in front. |
| Hold.SomeoneIsHeld | internal/teardown/reconciler.go:294-310 | For any two names such a hold is reachable. |
| Machines.FindDeletingReason | internal/teardown/qualify.go:30-37 | The loop finds the reason of the first true Deleting condition, or none. |
| Machines.ScanForeignHooks | internal/teardown/qualify.go:73-87 | The scan, in any map order, finds whether another controller holds a pre-terminate hook. |
| Machines.CollectLegacyHooks | internal/teardown/qualify.go:92-103 | The scan collects exactly the leftover keys that carry this controller's value. |
| Machines.ReadyExactly | internal/teardown/qualify.go:54-87 | Waiting at the gate, being past it, and being held by others are what the conditions and the annotations show. |
| Etcd.ListHostnames | internal/teardown/etcd.go:20-35 | The loop lists exactly the non-empty ones of these: the first HostName address or else the node's name, the infrastructure object's name, the machine's. |
| Etcd.SearchCandidates | internal/teardown/etcd.go:42-51 | The search decides whether some candidate bears the same name before its first dot as the hostname, whatever the case. |
| Etcd.DomainsDoNotMatter | internal/teardown/etcd.go:42-51 | A name with any domain matches another name with any domain exactly when the names differ in case only. |
| Etcd.SearchMembers | internal/teardown/etcd.go:54-66 | The nested search finds the first matching member over all messages, if any. |
| Etcd.FirstMatchSpec | internal/teardown/etcd.go:54-66 | That member matches, none before it does, and there is one exactly when some member matches. |
| Peers.OrderPeersSpec | internal/teardown/reconciler.go:461-479 | Exactly the machines other than the victim that are neither deleting nor leaving etcd, those with a NodeRef strictly before the others, each group by creation time, then name. |
| Ordering.LessExactly | internal/teardown/setup.go:105-112 | Names are ordered lexicographically. |
| Peers.OrderPeersDeterministic | internal/teardown/reconciler.go:461-479 | Every permutation of the same machines gives the same order. |
| Peers.SortByAge | internal/teardown/setup.go:105-112 | The in-place sort leaves the array as the insertion of its elements one by one does. |
| Peers.SortAscends | internal/teardown/setup.go:105-112 | Sorting ascends by creation time, then name, and permutes. |
| Peers.ChoosePeers | internal/teardown/reconciler.go:461-479 | The two-slice pass computes that order. |
| Reconciler.Controller.PatchAnnotations | internal/teardown/reconciler.go:233-247 | A mutation that changes nothing sends nothing; otherwise the copy is mutated whether or not the patch succeeds, and the object gets a merge of the changed keys. |
| Reconciler.Controller.StampPhase | internal/teardown/reconciler.go:251-259 | Afterwards the copy carries the value; nothing is sent if it did before, and it moves on only if the patch succeeded. |
| Reconciler.Controller.EnsureHook | internal/teardown/reconciler.go:95-112 | Nothing happens to a hooked machine or one past the gate; else the hook goes on and the leftover keys go off in one patch. |
| Reconciler.Controller.EnsureObservedAt | internal/teardown/reconciler.go:167-181 | Returns the recorded second and touches nothing if there is one, else records the second of the clock it read. |
| Reconciler.Controller.SerializeControlPlane | internal/teardown/reconciler.go:294-310 | Proceeds exactly when the list call answered and no machine of its answer goes before. |
| Reconciler.Controller.ProbePeer | internal/teardown/reconciler.go:423-451 | One probe of the first peer of the queue; a client stays open only if the peer was dialed, proved healthy and listed its members. |
| Reconciler.Controller.FindHealthyPeer | internal/teardown/reconciler.go:406-418 | The calls made are the list and then probes of the first peers of the order of what was listed, one by one up to the first that lists its members; that peer's client is open and every other one is closed again. |
| Reconciler.Controller.LeaveViaVictim | internal/teardown/reconciler.go:484-516 | Leads to the leave conclusion or to the removal by id, and closes its client. |
| Reconciler.Controller.TryEtcdRemoval | internal/teardown/reconciler.go:367-398 | The outcome is the one the protocol stamps next; no client stays open. |
| Reconciler.Controller.EnsureEtcdRemoved | internal/teardown/reconciler.go:329-349 | Ends with a persisted conclusion or with nothing left to call. |
| Reconciler.Controller.EtcdPhase | internal/teardown/reconciler.go:266-289 | Goes on to the reset phase exactly as the protocol does. |
| Reconciler.Controller.TryReset | internal/teardown/reconciler.go:560-596 | The outcome is the one the protocol stamps next; no client stays open. |
| Reconciler.Controller.ResetPhase | internal/teardown/reconciler.go:526-556 | Goes on to the release exactly as the protocol does. |
| Reconciler.Controller.ReleaseHook | internal/teardown/reconciler.go:208-228 | Nothing happens to a machine without the hook; else the hook and the leftover keys come off in one patch. |
| Reconciler.Controller.ReconcileDeleting | internal/teardown/reconciler.go:115-163 | Follows the protocol from the decision to its end. |
| Reconciler.Controller.ReconcileNormal | internal/teardown/reconciler.go:72-77 | A live machine is hooked and its credentials are refreshed. |
| Reconciler.Controller.Reconcile | internal/teardown/reconciler.go:56-77 | Whatever it does, interleaved with anything, is a run: it reads a version, makes calls until the protocol has none left, and closes every client; if it went well and the version was to be hooked, a stamp of the hook that succeeded is among its calls. |
| CacheSafety.CollisionExact | internal/teardown/credentials.go:42-44 | Two clusters share a cache name exactly when they are equal or one's namespace is the other's with a dash and the beginning of its name shifted in. |
| CacheSafety.DashCollision | internal/teardown/credentials.go:42-44 | Namespace `a-b`, name `c` and namespace `a`, name `b-c` share one. |
| CacheSafety.AgreementExactly | internal/teardown/credentials.go:49-104 | Over all runs, `Config` returns only bytes that the cluster's own source once held, if and only if no two clusters in play collide. |
| CacheSafety.TagTells | internal/teardown/credentials.go:77-83 | In every run in which nobody's name collides with the cluster's, a copy tagged with a source version holds that version's bytes, so skipping the write loses nothing. |
| CacheSafety.EnsuredConfig | internal/teardown/credentials.go:49-104 | In every run in which nobody's name collides with the cluster's: when a refresh succeeds, `Config` reads the bytes it found whether the source is still live at that version or is deleted just then. |
| Collection.TakesOnlyTheGone | internal/teardown/credentials.go:108-159 | In every run in which the informer cache that serves a collection is at most some number of moments behind: it deletes a copy only if, from that many moments before it began to check it, there was a moment without the Cluster and a moment without any qualifying Machine. |
| Collection.TakesExactly | internal/teardown/credentials.go:139-159 | That condition is exact: some answers from such a cache make a collection delete the copy it is about to check if and only if that window holds such moments. |
| Collection.StaleScene | internal/teardown/credentials.go:139-159 | For every cluster there is a run in which a lagging cache costs it its copy although the Cluster is there throughout the check. |
| CredentialCache.Cache.EnsureCopy | internal/teardown/credentials.go:49-86 | Whatever it does is a run; a write reported is the last write there was and left the source's bytes under its version, and without one an undisturbed refresh leaves the cache as it was. |
| CredentialCache.Cache.Send | internal/teardown/credentials.go:77-86 | An accepted create or update leaves the source's bytes under its version. |
| CredentialCache.Cache.ReadConfig | internal/teardown/credentials.go:90-104 | The live bytes parsed; if there were none, the copy's bytes as of a later moment, with anything in between. |
| CredentialCache.Cache.AnyQualifies | internal/teardown/credentials.go:153-157 | The loop decides whether a qualifying Machine of the cluster is listed. |
| CredentialCache.Cache.ClusterGone | internal/teardown/credentials.go:139-159 | Undisturbed, it decides that neither the Cluster nor a qualifying Machine is there. |
| CredentialCache.Cache.GC | internal/teardown/credentials.go:108-135 | Whatever it does is a run; an error-free pass nobody disturbs leaves exactly the copies whose clusters are not gone. |
| Linearization.WritesReplaceWhatTheyRead | internal/sync/syncer.go:108-154 | In every run, every version discovery wrote was computed from the very version it replaced, or from absence; and what it replaced carried the managed-by label. |
| Linearization.Refines | internal/sync/syncer.go:108-154 | The server goes, in every run, through the states it goes through when each upsert is one atomic step. |
| Preservation.UnmanagedUntouched | internal/sync/syncer.go:128-135 | From any reachable state, an object without the label stays exactly as it is until somebody else writes it. |
| Preservation.OwnsOnlyItsContract | internal/sync/syncer.go:136-153 | In every run discovery owns only paths of its contract, and each write changes only paths it owned before or owns after. |
| Preservation.ForeignPathsSurvive | internal/sync/syncer.go:136-153 | A path outside the contract keeps the value others gave it over any stretch of any run. |
| Preservation.NetbootKeptExactly | internal/sync/syncer.go:77-97 | An apply leaves the live netboot as it was, whatever the server does with paths no longer asserted, if and only if the inventory has a MAC or discovery does not own the interfaces. |
| Preservation.DropsNetboot | internal/sync/mapping.go:136-141 | Without a MAC the apply may take the interfaces off. |
| Preservation.NetbootStays | internal/sync/syncer.go:77-97 | If every sync of the object carries a MAC, the netboot somebody set on it stays over whole runs, whatever is synced beside it. |
| Preservation.ReferenceOrder | internal/sync/syncer.go:48-97 | At every point of every run, wherever syncs fail or stop: a Machine discovery wrote names a Secret, a Hardware it wrote names a Machine, and what it names exists unless that very object was deleted. |
| Syncer.DesiredObject.StampOwnership | internal/sync/syncer.go:174-190 | Four keys are overwritten and nothing else. |
| Syncer.DesiredObject.CarryNetboot | internal/sync/syncer.go:86-92 | The live netboot goes into the first asserted interface. |
| Syncer.Worker.ApplyManaged | internal/sync/syncer.go:108-154 | Creates, skips or applies as the transition system does; success means the object was written with the desired fields, or is somebody else's. |
| Syncer.Worker.Sync | internal/sync/syncer.go:48-97 | Without inventory nothing happens; otherwise whatever it does is a run holding one whole sync, and success means that each of the three objects was written as the request says, or is somebody else's. |
| Desired.PlanIsWellFormed | internal/sync/mapping.go:49-156 | The three payloads assert only contract paths, carry the label, and each refers to the one before. |
| Stored.StoredAsRequested | internal/sync/mapping.go:49-156 | In every run, a write that takes effect leaves on the server, under the name of the request, an object that holds what the request says, field by field: user name and password, host, port and TLS flag, references, agent and instance id from the primary MAC or the serial, hostname, facility, disks, label and annotations. |
| Stored.CreatedInterface | internal/sync/mapping.go:136-168 | A Hardware created for a device with a MAC has that one interface, armed for netboot and workflows. |
| Stored.DrivesInOrder | internal/sync/mapping.go:142-146 | The disks are the names of the drives that have one, in order. |
| Inventory.ListInbandMacs | internal/sync/mapping.go:180-200 | The nested loops list the first occurrence of each valid MAC. |
| Inventory.DistinctSpec | internal/sync/mapping.go:180-200 | Exactly the valid MACs, each once. |
| Inventory.PrimaryMacSpec | internal/sync/mapping.go:171-176 | The first valid MAC reported, missing exactly when none is valid. |
| Inventory.MacExactly | internal/sync/mapping.go:180-200 | A valid MAC is six lower-case hex pairs joined by colons. |
| Inventory.PrimaryMacExactly | internal/sync/mapping.go:171-200 | The primary MAC is what the first port with a valid MAC reports, in lower case, and missing exactly when no port has one. |
| Names.SanitizeName | internal/sync/names.go:55-73 | The one-pass loop equals lower, replace, collapse, trim, truncate, trim. |
| Names.SanitizedIsLabel | internal/sync/names.go:52-73 | The result is empty or a label of section 2.1 of RFC 1123 within 63 octets, and empty exactly when no alphanumeric is left. |
| Names.SanitizedWords | internal/sync/names.go:55-73 | A name becomes its words in lower case, joined by single dashes, cut after 63 characters and not left with a dash at the end. |
| Names.EveryTextWeaves | internal/sync/names.go:55-73 | Every text is words with gaps around them, so that says what every name becomes. |
| Names.SanitizeIdempotent | internal/sync/names.go:55-73 | Sanitizing twice changes nothing more. |
| Names.ResourceNameSpec | internal/sync/names.go:81-90 | The part of the hostname before the first dot names the endpoint if it holds a letter or digit, else the instance if it does, else the address. |
| Names.ResourceNameIsLabel | internal/sync/names.go:81-90 | The name is a valid label exactly when hostname, instance or address holds a letter or digit (for any address text of at most 59 characters; none prints longer than 45). |
| Names.UnspecifiedAddress | internal/sync/names.go:89-89 | The address `::` would leave `bmc-`, which is no label; the browser keeps IPv4 addresses only (internal/mdns/browser.go:161-171), so it does not get here. |
| Names.IPv4NameIsLabel | internal/sync/names.go:81-90 | Every IPv4 endpoint gets a valid label. |
| Template.TokensCover | internal/sync/names.go:14-15 | Splitting a template into literals and references concatenates back to it. |
| Template.TokensComplete | internal/sync/names.go:14-15 | Every place where a reference stands is found as one. |
| Template.RefsDoNotOverlap | internal/sync/names.go:14-15 | No reference begins inside another, so there is one way to split. |
| Template.RefExactly | internal/sync/names.go:14-15 | Exactly `${`, letters or underscores, at least one, and `}` are a reference. |
| Template.VarsExactly | internal/sync/names.go:28-37 | The six variables and their values. |
| Template.TemplateNameSpec | internal/sync/names.go:24-50 | Empty exactly when the template is empty, a reference is unknown or empty, or nothing survives sanitizing; otherwise a valid label, the sanitized substitution. |
| Template.ValuesVerbatim | internal/sync/names.go:38-45 | Inserted values are not rescanned. |
| Template.LiteralsVerbatim | internal/sync/names.go:38-45 | The template's own text stays as it is. |
| Template.Render | internal/sync/names.go:24-50 | The loop with its flag computes the template name. |
| Template.SyncNameIsLabel | internal/sync/syncer.go:52-59 | Whatever the template, an IPv4 endpoint's resources get a valid label for a name. |
| Defaults.AcceptsExactly | internal/inventory/defaults.go:17-34 | A comma-separated list is accepted exactly when each entry is written `service=username:password` with no field empty, as the table of those entries; an error names the first that is not. |
| Defaults.EntryExactly | internal/inventory/defaults.go:23-31 | An entry is read as a service, a user name and a password exactly when it is written so, only the password being free to hold the separators. |
| Defaults.TableLast | internal/inventory/defaults.go:31-31 | A service maps to the credentials of its last entry. |
| Defaults.ParseDefaults | internal/inventory/defaults.go:17-34 | The loop with its early returns computes that. |
| Defaults.RoundTrip | helm/tinkerbell-bmc-discovery-controller/templates/deployment.yaml:52-56 | Parsing what the chart prints for a list of entries gives the table of the list, for passwords with colons and equals signs. |
| Defaults.ChartRoundTrip | helm/tinkerbell-bmc-discovery-controller/templates/deployment.yaml:52-56 | Parsing what the chart prints for a map gives the map back, in whatever order it walks the services. |
| Defaults.PrintOfParsed | internal/inventory/defaults.go:17-34 | An accepted text is what the chart would print for its entries. |
| Pivot.CandidatesSpec | internal/controller/worker.go:176-215 | The chain is duplicate-free, in the order secret, service, wildcard, holds every pair on offer, each under its first origin. |
| Pivot.CandidatesExactly | internal/controller/worker.go:190-213 | Exactly these are tried: the secret's pair if neither half is empty, the default of the service unless it is that pair, the default of `*` unless it is one of them. |
| Pivot.CredentialCandidates | internal/controller/worker.go:179-215 | The growing slice ends as that chain. |
| Pivot.FindVerified | internal/controller/worker.go:143-160 | The loop stops at the first pair that authenticates, after all earlier ones failed. |
| Pivot.Handler.Handle | internal/controller/worker.go:121-168 | Either no candidate authenticates and nothing is written, or one sync takes place, with the first pair that authenticated and what it collected, and on success the objects hold them. |

## Left out

- Address resolution (`internal/teardown/address.go`): a node's address is an arbitrary answer, found, failed or known to be missing.
- Service states (`etcdHealthy`, `etcdNotFinished`): whether a peer is healthy and whether a victim still runs etcd are arbitrary answers.
- Talos, BMC and mDNS libraries: their calls answer anything; a leave or removal reported as successful did happen, and one that timed out took effect before the caller heard of it or not at all.
- Annotation texts: keys and values are classified by what the controller can tell apart; timestamps are whole seconds, so the text form of section 5.6 of RFC 3339 is not modelled.
- The patch helper is not part of this model: a patch is a merge of the changed keys that fails on no concurrent change, as the documentation has it (docs/talos-machine-teardown.md:59); the comment at internal/teardown/reconciler.go:230-232 calls it optimistic.
- The answer to a patch does not refresh the reconcile's copy; the copy is the one the method itself mutated.
- Namespaces of Machines in the teardown system: one namespace; the credential cache has them.
- A deleting machine's node does not join etcd again, and member ids are not reused: what the etcd theorems say of later states rests on both.
- A leave dialed at the victim's address reaches the victim's own node: it takes out the victim's members by construction.
- Removal of Machine objects: they stay, and their names are not used again.
- One reconcile per machine at a time and one leader: taken from the work queue and leader election, which are not modelled.
- Reconciler.Controller.EnsureCredentials: the refresh is one call that works or fails; the cache has its own system.
- Secrets in the cache's namespace that carry its labels are all its own.
- A server-side apply's removal of paths no longer asserted: the server may remove, disown or keep each, since that turns on co-owners this model does not keep; defaulting and admission count as foreign writes, and an apply that changes nothing still gets a new version.
- Whether an empty agent id or manufacturer slug is left out of the payload, as enrollment is when it is off: both are asserted.
- Case folding beyond ASCII, and addresses other than in their printed form.
- Status and creation timestamp stripping (`applyConfigurationFor`): payloads are the asserted paths to begin with.
- The `known` map's mutex, browsing, resync, queues and backoff in `internal/controller`; events, metrics and logs everywhere.
