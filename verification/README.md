# Verified model of the cluster scripts

This project models the parts of the HPC cluster stack whose correctness does not show in any single function
body, and proves what those parts promise over every input, every run and every crash.

| module | what it models |
|---|---|
| `PoolWorld`, `RemovalRuns`, `PoolProgress` | the cloud, the removal journal and every event that changes them; runs with a crash between any two effects |
| `RemovalJournal`, `RemovalFinalization`, `ResizeMain` | the journal functions of `bin/resize.py` and its mode dispatch, as methods over that world |
| `DestroyLock`, `DestroyDoor` | the lock file and destroy marker shared by `bin/resize.py` and `bin/delete_cluster.sh` |
| `NodeDns` | the two DNS names of a node and the address index shared with `locals.tf` |
| `InventoryFile`, `HostLine`, `PrepareInventory` | reading, writing and rewriting the Ansible inventory |
| `ScopeIdentity`, `ScopeRegistry`, `TopicCleanup` | notification scopes, the registry that remembers them, and the topic cleanup of a destroy |
| `JsonText`, `JsonString`, `TextWords`, `DisplayTable`, `MailBody`, `TableReading`, `NotificationMessage`, `AgeOrder`, `NotifyWorker` | the notification producer and the spool worker |
| `EvenDistribution` | `maxNodesEvenDistributed` |

## How the removal journal is modelled

`PoolWorld.World` holds the instances with their scratch attachments, the volumes, the pool's members, size and state,
the DNS names, Terraform's two node counts and the journal. An `Event` is one atomic effect: of the service (an
instance terminates, a member leaves, a new one arrives, an attachment drops), or of the script (a record is written,
a detach or a new pool size is requested). `ScriptEnabled` says what the script allows itself. A run is any sequence
of enabled events; the event `Start` - a new process, which remembers nothing of the one before - may follow anything,
so a crash may fall between any two effects. The theorems of `RemovalRuns` are about all such runs.
`RemovalJournal.Site` and the two modules above it contain the functions of the script statement by statement; their
only way to change the world is an enabled event, so every behaviour of the script, cut short anywhere, is one of the
runs. The service may act before every remote call.

A pool is scaling from the moment a new size is accepted until its members match it: instances arrive, or are
withdrawn, one by one, whatever becomes of the process that asked. Only then is its state RUNNING again, which is what
`get_summary` and `wait_for_running_status` insist on.

A 404 means that the thing is gone, and TERMINATED is permanent. Identifiers are never reused. Nobody else changes the
pool's membership or size, its volumes or the journal. Names, the cluster tag of an instance and the name and tags
that a record is matched against may be changed by anybody, and the world remembers which instances were; the tags
that make an attached volume one the cluster manages are taken to stay, and `NoOrphanEver` depends on that. A cluster
has one instance pool. A detach call that succeeds has waited for the member to leave. A journal file is replaced in
one step.

## What was found

- **The destroy marker does not always stand.** `GuardedExactly`: it guards every destroy throughout a run exactly
  when it is never removed while another destroy relies on it, and never written where the directory is gone. Both
  happen. `rm currently_destroying` in `bin/delete_cluster.sh` does not ask whose marker it is, so a failed FORCE
  delete takes it from under another destroy (`ForceOpensTheDoor`). And a destroy that succeeds removes the directory
  without the lock: a delete that had the lock file open still locks it, finds no marker, cannot write its own, and
  goes on (`LateDeletesMeet`). Once a destroy runs without its marker the door is open: `DoorExactly` says when a
  plain delete or a plain resize can still get in beside it, and `TheftOpens` that a stolen marker in an existing
  directory always suffices.
- **The lock file can be replaced.** The same removal unlinks the lock file. `OneLockExactly`: all processes meet at
  one lock file exactly when nobody opens a new one while an old one is still open; `ClashExactly`: otherwise, and
  only then, two processes can come to be past the lock at once. `ResizeExclusion`: no plain resize works under the
  marker exactly when no marker is written beside one, which takes a second lock file; `ReplacedLockBreaksExclusion`
  is such a run.
- With one lock file and a marker that stands, plain destroys exclude each other (`PlainDestroysExclude`) and no plain
  resize works beside any destroy (`NoResizeDuringDestroy`), whatever FORCE deletes do. Nothing guards the removal of
  the directory itself, which follows the destroy proper: Terraform is done by then.
- **A registry that was only ever disabled cannot be loaded.** `disable_registry` on an empty registry leaves a file
  without a deployment id, and `load_cleanup_metadata` then fails (`DisabledFirstFails`). `NoScopeForgotten` proves
  this to be the only case. `playbooks/roles/slurm/tasks/notifications.yml` disables a registry only when the file
  exists.
- **Python and Terraform number hosts alike only in ordinary subnets.** `TerraformAgrees`: exactly for prefixes up to
  /30 and for hosts that share their upper 16 bits with the network address. Both hold from /16 to /30.
  `NumberedTwice` gives a host of a /31 and one of a /15 with two numbers.
- **Terraform's node count is not part of the settlement of a permanent cluster.** `updateTFState` does nothing for
  `/etc/ansible/hosts`; `Settled` asks for the count only where `Setup.autoscaling` holds.
- **A file without a final newline may lose a section.** Written back, an unterminated last line that continues a
  section other than the one opened last is followed by that one's header on the same line. `LostExactly` proves this
  to be the only way a file changes by being read and written back; `ReturningIsLost` and `SuchAFile` give such files.
- **A killed worker's attempt is not counted.** An attempt is recorded before the message is updated, so each kill in
  between allows one try more. `AnyLife` bounds them; ten a minute holds regardless, although a kill may leave the
  lock file empty.
- **A region may end in a newline.** The worker's `^[a-z0-9-]+$` is used with `match`, and `$` also matches before a
  final newline. The model keeps that.

## Model

| member | source | states |
|---|---|---|
| PoolWorld.KeepsInv | bin/resize.py:1622-1664 | every effect of the script and of the cloud keeps: no orphaned volume, a loadable journal of this cluster's records, attachments that are never gained, a size equal to the number of members unless the pool is scaling, an empty journal while it is, and a pool that has shrunk or is about to for every record |
| PoolWorld.KeepsNoOrphan | bin/resize.py:1645-1659 | an explicit volume that was attached when its instance's removal was first asked for stays in the journal as long as it exists |
| PoolWorld.KeepsSize | bin/resize.py:1549-1555 | no effect lets the pool exceed the size noted in a record, and once the record's member has left it is strictly below |
| PoolWorld.MembersAfter | bin/resize.py:1058-1068 | only a completed detach takes a member and lowers the size, by one; members come and go otherwise only while the pool scales, and a size is asked for only with an empty journal |
| PoolWorld.KeepsScale | bin/resize.py:2019-2029 | no effect leaves a record in the journal while a size change is under way |
| PoolWorld.WithoutKeepsOrder | bin/resize.py:1585-1594 | a journal from which finished records were dropped can be loaded again |
| RemovalRuns.NoOrphanEver | bin/resize.py:1622-1664 | in every run, once the detachment or termination of an instance holding an explicit volume was requested, at every later moment the volume is gone or in the journal |
| RemovalRuns.RecordComesFirst | bin/resize.py:1643-1657 | the record is written before anything is requested of the instance |
| RemovalRuns.RecordLeavesSettled | bin/resize.py:1514-1595 | a record that is in the journal at one moment and not at a later one was dropped by a finalization that found instance and volume gone, both DNS names deleted and Terraform's count adjusted |
| RemovalRuns.RemovalIsVetted | bin/resize.py:1397-1403 | nothing is asked of an instance that the same process has not found to belong to its cluster |
| RemovalRuns.VolumeIsDeletedLast | bin/resize.py:1384-1449 | a volume deletion is requested only when the record was written before and is still there, the same process has matched it against the volume, and the instance is over and out of the pool |
| RemovalRuns.PoolNeverGrowsWhilePending | bin/resize.py:1963-2072 | while the journal is non-empty the pool is not scaling, the members only become fewer, and the size falls by exactly one for each: no size accepted earlier, by whatever process, brings a node in between |
| RemovalRuns.GrowthEndsBeforeRemoval | bin/resize.py:2306-2320 | after a size was accepted no removal is recorded before the pool has reached it, crash or not, and the size a record notes then counts exactly the members |
| RemovalRuns.SizeIsAccounted | bin/resize.py:2306-2320 | over a whole run the members are the initial ones plus arrivals minus departures minus withdrawals, and the size is their number whenever the pool is not scaling |
| RemovalRuns.LeavesOnce | bin/resize.py:1058-1080 | a member leaves, and decrements the pool, at most once, and only after the script asked for its removal |
| RemovalRuns.SizeTestPasses | bin/resize.py:1549-1555 | the test against the noted size holds for every record whose instance is over, in every run |
| PoolProgress.KeptAfter | bin/resize.py:1071-1080 | within one process, and unless the pool is scaling, nothing that is over comes back, attachments and DNS names are only lost, names change only where somebody changed them, and only members asked to leave do |
| PoolProgress.FreshVictim | bin/resize.py:1627-1651 | a node seen with an explicit volume that has no record is still in the pool, so the size read for its record does not yet count its removal |
| RemovalJournal.LoadDeletions | bin/resize.py:1242-1265 | accepts a file exactly when every record is valid and no volume occurs twice, and returns the records unchanged |
| RemovalJournal.Site.Load | bin/resize.py:1242-1265 | whatever the history, a journal the script wrote can be loaded |
| RemovalJournal.Site.GetSummary | bin/resize.py:882-930 | finds the pool only when it is not scaling; the size then is the number of members |
| RemovalJournal.Site.WaitForRunning | bin/resize.py:148-181 | on return the pool is not scaling and has the expected number of members |
| RemovalJournal.Site.DetachIfNeeded | bin/resize.py:1058-1080 | on return, and on a 404, the instance is no member; at most one request; none for an instance that is not a member; no other instance is touched |
| RemovalJournal.Site.TerminateInstance | bin/resize.py:1160-1193 | on return the instance is terminated or gone; nothing is requested for one that already is; no other instance is touched |
| RemovalJournal.Site.DeleteVolume | bin/resize.py:1132-1158 | on return the volume is gone; at most one accepted request, none for a volume that is already gone; needs a journaled, matched record whose instance is over |
| RemovalJournal.Site.RememberPending | bin/resize.py:1313-1322 | the record is in the journal afterwards; nothing else changes; the same record is not written twice and a different one for the same volume stops the process |
| RemovalJournal.Site.BuildRecord | bin/resize.py:1342-1382 | a record that is valid, this cluster's, matched against its volume, with the name its instance answered with and a size between the pool's current one and the one at that answer |
| RemovalJournal.Site.RecordVictim | bin/resize.py:1627-1656 | requests nothing; on return an explicit volume of the node is in the journal or gone |
| RemovalJournal.Site.RemoveMember | bin/resize.py:1622-1664 | the node is over and out of the pool, its explicit volume gone and its record still in the journal; no other node is touched and at most one record, for this node and address, is added; a 404 means that the node has gone, left, or lost its volume |
| RemovalJournal.Site.RetryPending | bin/resize.py:1384-1449 | the ready list is the whole journal in order, which is unchanged; every instance and volume in it is over; nobody is detached without resume; only journaled nodes are touched; nothing is requested when all was over before; it stops only where a call fails, an instance or a volume is not what its record says, or a node is still in the pool and it was not told to resume |
| RemovalFinalization.CollectNames | bin/resize.py:1568-1580 | succeeds exactly when every record has its two names and none is in use by an active node, and yields exactly those names |
| RemovalFinalization.DeleteNames | bin/resize.py:1581-1582 | on success all the names are gone; wherever it stops, no other name is |
| RemovalFinalization.UpdateTerraform | bin/resize.py:932-1028 | both counts become the given size; where the process stops in between, Terraform's state is pushed before the variables change; nothing happens for the permanent inventory |
| RemovalFinalization.CheckReady | bin/resize.py:1525-1555 | finalization may begin exactly when every record is valid, this cluster's, unchanged in the journal, of the current pool and noted at a larger size |
| RemovalFinalization.ReadyIsSettled | bin/resize.py:1582-1594 | after the names and the count, every record about to be dropped is settled in every respect |
| RemovalFinalization.Finalize | bin/resize.py:1514-1595 | a refusal leaves everything as it was and comes only from a test that fails; success drops exactly the ready records, deletes their names and sets the count; it is interrupted only by a failing call; wherever it ends, only names of ready records are gone, after all conflict checks, and the journal changes last |
| RemovalFinalization.CleanupDns | bin/resize.py:1478-1512 | if the zone is found, every name of every ready record is gone and no other; without a zone DNS is untouched; journal and count stay; it stops only where a call fails, a record is not the journal's, or has no names |
| RemovalFinalization.FinalizationSparesLiveNodes | bin/resize.py:1556-1582 | a deleted name belongs to an active node exactly when one of the two nodes is called what the other's Slurm name is |
| ResizeMain.ProcessPending | bin/resize.py:1597-1620 | as RetryPending; detaches nobody unless the caller named every pending node or the cluster is being destroyed, and with that authority does not stop at a node that is still in the pool |
| ResizeMain.ListNodes | bin/resize.py:183-217 | members with their names and addresses; one that does not answer is left out |
| ResizeMain.ActiveIdentities | bin/resize.py:219-229 | no member is left out, the members are as many as expected, and no two share a name or an address; it fails only where a call does, or one of these is not so |
| ResizeMain.FinalizeReplayed | bin/resize.py:2031-2060 | success empties the journal, with every record's names gone and both counts set; it is never refused because of a size read after the replay; no member loses a name except to a host name spelled like a Slurm name; short of a failing call it ends otherwise only for the reasons listed in `NotFinalizable` |
| ResizeMain.FindByName | bin/resize.py:1030-1048 | the one active instance of this cluster with that name, or none; two stop the process |
| ResizeMain.RemoveVictim | bin/resize.py:2171-2223 | no member of that name that nobody renamed is left, except one that answered 404, and that one has gone, left, or lost its volume; what was removed is over, out of the pool, and recorded or without its names; nothing else is touched |
| ResizeMain.RemoveVictims | bin/resize.py:2171-2223 | the same for every name when the loop ends; the journal only gains records of listed nodes with their listed addresses |
| ResizeMain.DeleteVictimNames | bin/resize.py:2199-2208 | of a node without a record exactly its host name and the Slurm name of its listed address are deleted |
| ResizeMain.SettleRemovals | bin/resize.py:2224-2267 | on success the journal is empty, the names of every record are gone and both counts lie between the current size and the size before; nobody is detached |
| ResizeMain.RemoveNodes | bin/resize.py:2156-2268 | loop and settlement together: every node found is over, out of the pool and without its names, nobody of these names is left |
| ResizeMain.GrowPool | bin/resize.py:2273-2345 | on success the pool reached exactly the size asked for, exactly the number of new nodes asked for arrived, all of them have both DNS names and both counts are set; nothing becomes pending, whatever fails |
| ResizeMain.Resize | bin/resize.py:1963-2345 | one process: a normal end leaves no removal pending and no explicit volume of any node ever removed, except before a destroy, which keeps the journal; of the nodes a removal was asked for, what was found is over, out of the pool and without its names; nobody is detached unless authorised or asked for; a removal requested while others are pending touches only those; the cleanup before a destroy leaves every pending removal over and, with a zone, without its names, and fails only for a failing call, a renamed node or volume, or a node without names; only `add` brings members, and when it completes the size was reached, the number asked for arrived, with both names each, and both counts are set |
| ResizeMain.AnyHistory | bin/resize.py:1850-1852 | any number of processes, each cut short anywhere, keep the invariant |
| ResizeMain.ReplayTwice | bin/resize.py:1384-1449 | replaying a replayed journal requests nothing and reports the same records |
| DestroyLock.OneLockExactly | bin/delete_cluster.sh:26-27 | every process has the same lock file open, throughout a run, exactly when nobody makes a new one while an old one is open |
| DestroyLock.ResizeExclusion | bin/resize.py:35-69 | no plain resize is ever past its check while the marker exists exactly when no marker is written beside one; while all meet at one lock file that never happens, and at most one process holds the lock |
| DestroyDoor.ClashExactly | bin/delete_cluster.sh:149 | two processes can come to be past the lock at once, without a further lock file, exactly when they no longer have the same one open |
| DestroyLock.GuardedExactly | bin/delete_cluster.sh:39 | the marker stands throughout a run while any destroy relies on it exactly when nobody removes it while another destroy does and nobody writes it where the directory is gone |
| DestroyLock.PlainDestroysExclude | bin/delete_cluster.sh:26-41 | at most one destroy without FORCE is under way, whatever FORCE deletes do, exactly when none finds the marker missing beside another; that never happens with one lock file and a marker that stands |
| DestroyLock.NoResizeDuringDestroy | bin/resize.py:60-69 | no plain resize works while any destroy is under way exactly when neither passes its check beside the other; that never happens under the same condition |
| DestroyDoor.DoorExactly | bin/delete_cluster.sh:26-41 | a continuation without a further unsafe step lets a plain delete, or resize, in beside a destroy whenever a destroy runs without its marker and the directory exists or a process has the lock file open and has not looked yet; with one lock file only then |
| DestroyDoor.TheftOpens | bin/delete_cluster.sh:149-153 | after any removal of a marker another destroy relies on, by a destroy that failed or one that succeeded, while the directory exists, a plain delete and a plain resize can get in |
| DestroyDoor.ForceOpensTheDoor | bin/delete_cluster.sh:153 | the smallest such run: a failed FORCE delete lets a second plain delete, or a plain resize, in beside a running destroy |
| DestroyDoor.LateDeletesMeet | bin/delete_cluster.sh:149 | without any theft: a destroy succeeds while two others have the lock file open, and a second plain delete, or a plain resize, works beside the first |
| DestroyDoor.ReplacedLockBreaksExclusion | bin/delete_cluster.sh:149 | a run in which the lock file is replaced, two processes hold a lock, and a plain resize works under the marker |
| NodeDns.TerraformAgrees | locals.tf:88-90 | the two index formulas agree on a host exactly for prefixes up to /30 and equal upper 16 bits |
| NodeDns.NumberedTwice | locals.tf:88-90 | a host of a /31 and one of a /15 whose two numbers differ |
| NodeDns.TerraformAgreesFrom16To30 | locals.tf:88-90 | they agree on every host of a /16 to /30 subnet |
| NodeDns.IndexIsInjective | bin/resize.py:1466-1472 | different hosts have different indexes |
| NodeDns.SharedDomain | bin/resize.py:1463-1476 | two nodes share a DNS name exactly when they share a name or an address, or one is called what the other's Slurm name is |
| NodeDns.SlurmNameInjective | bin/resize.py:1475-1475 | different indexes give different Slurm names |
| InventoryFile.ParseInventory | bin/resize.py:369-385 | reads the file as the fold `Parse` of its lines |
| InventoryFile.WriteInventory | bin/resize.py:387-393 | writes the pieces of `Print` in order |
| InventoryFile.RoundTrip | bin/resize.py:369-393 | a written inventory is read back, in order, exactly when no line but the last written lacks its newline |
| InventoryFile.ParseShape | bin/resize.py:375-383 | whatever the file: distinct section names without brackets or newlines, lines that are no headers |
| InventoryFile.ParseMeans | bin/resize.py:375-383 | whatever the file: the sections are the headers' names in order of first appearance, each with exactly the lines under headers of its name, in order |
| InventoryFile.HeaderExactly | bin/resize.py:377 | a line is a header exactly when, blanks around it aside, it is enclosed in square brackets |
| InventoryFile.NameExactly | bin/resize.py:378 | the section's name is what stands between the brackets |
| InventoryFile.NothingLost | bin/resize.py:369-393 | nothing read from a file that ends with a newline is lost by writing it back |
| InventoryFile.LostExactly | bin/resize.py:369-393 | a file is changed by reading and writing it back exactly when its last line lacks the newline and continues a section other than the one opened last |
| InventoryFile.ReturningIsLost | bin/resize.py:369-393 | what becomes of every such file with two sections: the second section's header joins the first one's last line |
| InventoryFile.SuchAFile | bin/resize.py:369-393 | a smallest such file, for any two letters |
| HostLine.SplitOfFormat | bin/resize.py:419-430 | a printed host is read back: indentation, tokens and comment |
| HostLine.SplitIsGood | bin/resize.py:419-430 | whatever the line: non-empty tokens without white space of which none starts a comment, and a comment that starts with its mark |
| HostLine.SplitMeans | bin/resize.py:419-430 | whatever the line, it consists of the indentation, the words, the comment behind the first white space before a mark, and white space |
| HostLine.SplitsExactly | bin/resize.py:422-424 | a line has no host exactly when it is blank or a comment |
| HostLine.TokenSplits | bin/resize.py:439-444 | a variable's token splits at its first equals sign into the key and the value it was made from |
| HostLine.RewriteLine | bin/resize.py:432-448 | computes `Rewrite`, about which `RewriteKeeps` and `RewriteTwice` are |
| HostLine.RewriteKeeps | bin/resize.py:432-448 | a rewritten line has the same indentation and comment, every other token in order, then exactly the new variables |
| HostLine.RewriteTwice | bin/resize.py:432-448 | rewriting with one set of values and then another is rewriting with the other alone |
| PrepareInventory.Prepare | bin/resize.py:465-523 | succeeds exactly when both compute sections are there and the cloud answers for every host in them under its name; then every compute host line carries its own tokens and the variables answered for it, every NFS line of a compute host those of the host's last compute line, and every other line and section is as it was |
| PrepareInventory.OwnVariablesAreGood | bin/resize.py:490-507 | what the script writes for a node is read back as managed variables |
| PrepareInventory.HostStays | bin/resize.py:450-463 | rewriting changes neither the name nor the instance of a host |
| PrepareInventory.PrepareTwice | bin/resize.py:465-523 | preparing an inventory twice is preparing it once |
| PrepareInventory.PrepareLeaves | bin/resize.py:473-522 | every section but the compute and NFS ones is left as it was |
| ScopeIdentity.ParseOfPrint | locals.tf:112 | a printed scope id parses to its identity, for every cluster name, exactly when the identity is printable |
| ScopeIdentity.PrintOfParse | playbooks/roles/slurm/files/slurm_oci_notification_cleanup.py:102-113 | whatever the parser accepts is a printed id |
| ScopeRegistry.CleanupScopeHistory | playbooks/roles/slurm/files/slurm_notification_registry_seed.py:28-46 | the whole scopes of the list, each once, or an error exactly when an entry is not one |
| ScopeRegistry.RegistryFile.MergeRegistry | playbooks/roles/slurm/files/slurm_notification_registry_seed.py:83-137 | refused, without a trace, exactly for another deployment's registry or one whose scopes cannot be read; otherwise the configuration is the new one, every scope known before is on record once, and of the users only Terraform's entry changes |
| ScopeRegistry.RegistryFile.DisableRegistry | playbooks/roles/slurm/files/slurm_notification_registry_seed.py:140-153 | disabling loses nothing: a destroy loads the same scopes and the same topics afterwards |
| ScopeRegistry.SeedRuns | playbooks/roles/slurm/files/slurm_notification_registry_seed.py:83-153 | any sequence of seed runs on one file leaves the registry the scope theorems are about |
| ScopeRegistry.SeedThenLoad | playbooks/roles/slurm/files/slurm_oci_notification_cleanup.py:137-197 | seed and cleanup as they follow one another: the scopes loaded from that file are all that were ever current, without duplicates |
| ScopeRegistry.MergeKeeps | playbooks/roles/slurm/files/slurm_notification_registry_seed.py:102-124 | a merge within a deployment succeeds, keeps the history and moves the replaced scope into it |
| ScopeRegistry.UpdatesKeep | playbooks/roles/slurm/files/slurm_notification_registry_seed.py:83-153 | after any updates every scope that was ever current is the current one or in the history, once |
| ScopeRegistry.NoScopeForgotten | playbooks/roles/slurm/files/slurm_oci_notification_cleanup.py:137-197 | cleanup loads every scope that was ever current, without duplicates; loading fails exactly for a registry that was only ever disabled |
| ScopeRegistry.ScopesExactly | playbooks/roles/slurm/files/slurm_oci_notification_cleanup.py:137-197 | any registry: loaded exactly when it and every scope in it are this deployment's; then exactly the destroy's own scope, the registered and the recorded ones, each once |
| ScopeRegistry.KnownTopicsExactly | playbooks/roles/slurm/files/slurm_oci_notification_cleanup.py:116-227 | the registered topics are exactly those of cluster-cli's entries that Terraform does not own; any senseless entry is refused |
| ScopeRegistry.DisabledFirstFails | playbooks/roles/slurm/files/slurm_notification_registry_seed.py:140-160 | the file of a registry that was disabled before it was ever merged cannot be loaded |
| TopicCleanup.OwnedMayBeDeleted | playbooks/roles/slurm/files/slurm_oci_notification_cleanup.py:329-431 | a topic judged as owned is not protected, not tagged for another deployment, and named after a scope of this one and its user |
| TopicCleanup.VerdictExactly | playbooks/roles/slurm/files/slurm_oci_notification_cleanup.py:329-431 | owned is exactly what this deployment made, by its id or a known scope's tags, and does not protect; foreign exactly what is protected or claims nothing of it; anything else ends the run |
| TopicCleanup.TaggedTopicIsOwned | playbooks/roles/slurm/files/slurm_oci_notification_cleanup.py:360-396 | a well-formed topic with this deployment's id is owned, whatever the registry says |
| TopicCleanup.LegacyTopicIsOwned | playbooks/roles/slurm/files/slurm_oci_notification_cleanup.py:372-389 | a well-formed untagged topic of a known scope is judged as owned |
| TopicCleanup.PastTopicIsFound | playbooks/roles/slurm/files/slurm_oci_notification_cleanup.py:137-197 | seed and cleanup together: an untagged topic of any name the deployment ever had is judged as owned |
| TopicCleanup.OwnedTopicIds | playbooks/roles/slurm/files/slurm_oci_notification_cleanup.py:329-431 | fails exactly when a listed topic contradicts itself; otherwise the ids to delete in order and the ids to wait for |
| TopicCleanup.CheckListing | playbooks/roles/slurm/files/slurm_oci_notification_cleanup.py:284-306 | a listing is used exactly when shape, ownership, names, states and registered topics all pass |
| TopicCleanup.DeleteTopics | playbooks/roles/slurm/files/slurm_oci_notification_cleanup.py:479-484 | requests each id that was not requested before, once, and stops at the first refusal |
| TopicCleanup.LoadCleanupMetadata | playbooks/roles/slurm/files/slurm_oci_notification_cleanup.py:137-227 | the judgement and the registered topics of a run, or nothing |
| TopicCleanup.RemainingMeans | playbooks/roles/slurm/files/slurm_oci_notification_cleanup.py:488-501 | a topic ever owned is still waited for, or was absent from a later listing |
| TopicCleanup.AbsenceConfirmed | playbooks/roles/slurm/files/slurm_oci_notification_cleanup.py:486-510 | when nothing remains, the last listing shows no owned topic and every topic ever owned was absent from a later listing |
| TopicCleanup.CleanupLoop | playbooks/roles/slurm/files/slurm_oci_notification_cleanup.py:462-510 | against every sequence of listings: each request follows a listing that passed every check and showed the topic as owned, no id is requested twice, at most one listing more than the poll attempts; success counts the distinct owned topics, all requested and confirmed absent |
| TopicCleanup.CleanupTopics | playbooks/roles/slurm/files/slurm_oci_notification_cleanup.py:462-510 | from configuration and registry: the above, every requested topic may be deleted, and after success every topic of this deployment seen in any listing had its deletion requested, or was under way, and was absent from a later one |
| TopicCleanup.PastTopicIsGone | playbooks/roles/slurm/files/slurm_oci_notification_cleanup.py:462-510 | after success an untagged topic of any past cluster name that was seen had its deletion requested, or was under way, and was absent from a later listing |
| TopicCleanup.TaggedTopicIsGone | playbooks/roles/slurm/files/slurm_oci_notification_cleanup.py:462-510 | the same for a topic with this deployment's id, with any registry that can be loaded or none |
| JsonText.CutKeepsLongestPrefix | playbooks/roles/slurm/files/slurm_oci_mailprog.py:65-72 | decoding UTF-8 (section 3 of RFC 3629) cut to a byte limit gives the longest prefix of the text within the limit |
| JsonText.JsonWithinSixfold | playbooks/roles/slurm/files/slurm_oci_mailprog.py:84-86 | a text takes at most six times its UTF-8 bytes as JSON |
| JsonString.PayloadIsDumped | playbooks/roles/slurm/files/slurm_oci_mailprog.py:84-86 | the payload size is the length of the JSON text of title and body |
| JsonString.UnescapeOfEscape | playbooks/roles/slurm/files/slurm_oci_mailprog.py:84-86 | a text escaped as a JSON string (section 7 of RFC 8259) is read back |
| TextWords.SplitOfJoin | playbooks/roles/slurm/files/slurm_oci_mailprog.py:137-151 | joining words with spaces and splitting again gives the words |
| DisplayTable.SplitDisplayChunks | playbooks/roles/slurm/files/slurm_oci_mailprog.py:162-176 | the one-pass loop computes the greedy chunks of every prefix |
| DisplayTable.ChunksSpellValue | playbooks/roles/slurm/files/slurm_oci_mailprog.py:162-176 | the chunks concatenate to the value and none is wider than the limit |
| DisplayTable.GreedyStaysAhead | playbooks/roles/slurm/files/slurm_oci_mailprog.py:162-176 | no division of the value into parts of that width has fewer parts |
| DisplayTable.ChunksOfPrefix | playbooks/roles/slurm/files/slurm_oci_mailprog.py:162-176 | the chunks of a prefix are those of the value, except that the last may have grown |
| DisplayTable.RowWidth | playbooks/roles/slurm/files/slurm_oci_mailprog.py:219-248 | every row is 77 columns wide |
| MailBody.ValueHasNoBar | playbooks/roles/slurm/files/slurm_oci_mailprog.py:137-151 | a normalised value contains no column separator |
| MailBody.OrdinaryStays | playbooks/roles/slurm/files/slurm_oci_mailprog.py:137-151 | a printable value with single blanks and without a separator is shown as it is |
| TableReading.PadFollows | playbooks/roles/slurm/files/slurm_oci_mailprog.py:183-184 | a padded value starts with the value and goes on with blanks |
| TableReading.BodyIsRead | playbooks/roles/slurm/files/slurm_oci_mailprog.py:211-265 | reading a body, cut or not, finds title line, heading, every label with its value, in order, and the cluster's name |
| MailBody.BuildNotificationBody | playbooks/roles/slurm/files/slurm_oci_mailprog.py:211-258 | renders the table of the limited values |
| MailBody.TableIsAligned | playbooks/roles/slurm/files/slurm_oci_mailprog.py:211-258 | every table line of the fifteen fields has display width 77, whatever the values |
| MailBody.CandidateMonotone | playbooks/roles/slurm/files/slurm_oci_mailprog.py:154-184 | the JSON size of the body never falls as the per-value limit grows |
| MailBody.SmallestFits | playbooks/roles/slurm/files/slurm_oci_mailprog.py:279-303 | with a title of at most 512 bytes the limit of one character always fits |
| MailBody.BuildForPublish | playbooks/roles/slurm/files/slurm_oci_mailprog.py:261-306 | the whole table if it fits 60 KiB, otherwise the table at the largest limit that does; the fallback behind the search is never reached |
| MailBody.FitBodyToPublishLimit | playbooks/roles/slurm/files/slurm_oci_mailprog.py:89-104 | the longest prefix that fits together with the suffix, or the suffix alone |
| MailBody.SanitizeTitle | playbooks/roles/slurm/files/slurm_oci_mailprog.py:65-72 | the longest code-point prefix of the collapsed title within 512 UTF-8 bytes |
| NotificationMessage.ComposeMessage | playbooks/roles/slurm/files/slurm_oci_mailprog.py:309-352 | title, job and event are the event's; the body is the whole table of the normalised fields or the largest cut of it that fits, and whoever reads it finds every label with its value; the worker accepts the message exactly when region, topic and clock are valid |
| NotificationMessage.RetriesStayAcceptable | playbooks/roles/slurm/files/slurm_oci_notify_worker.py:167-182 | an accepted message stays accepted through any number of failed deliveries |
| NotificationMessage.DelayDoubles | playbooks/roles/slurm/files/slurm_oci_notify_worker.py:177 | the wait after a failure starts at a minute and doubles up to an hour |
| NotificationMessage.RetriesWait | playbooks/roles/slurm/files/slurm_oci_notify_worker.py:167-179 | after any number of failures a message is due the wait of that many after the last one, and is otherwise unchanged |
| NotificationMessage.SevenAttempts | playbooks/roles/slurm/files/slurm_oci_notify_worker.py:167-182 | at most seven attempts fit into a message's lifetime, and seven do |
| AgeOrder.SortedNames | playbooks/roles/slurm/files/slurm_oci_notify_worker.py:235-244 | every file once, in order of modification time, then name |
| AgeOrder.OrderIsUnique | playbooks/roles/slurm/files/slurm_oci_notify_worker.py:238-244 | the directory determines that order |
| NotifyWorker.PublishesAreFirstDue | playbooks/roles/slurm/files/slurm_oci_notify_worker.py:265-300 | each publish of a run belongs to a valid message that is due, unexpired and whose user still has its topic, in queue order; such a message is passed over only after ten earlier ones |
| NotifyWorker.AtMostTenPerMinute | playbooks/roles/slurm/files/slurm_oci_notify_worker.py:203-232 | attempts 6.1 s apart: any 60 seconds see at most ten |
| NotifyWorker.EighthTryIsExpired | playbooks/roles/slurm/files/slurm_oci_notify_worker.py:167-182 | a message that has been tried seven times is not due before it expires |
| NotifyWorker.ProgressStep | playbooks/roles/slurm/files/slurm_oci_notify_worker.py:247-340 | one file further, the attempts are still the first ten due files in order and every file passed is where its fate puts it |
| NotifyWorker.Spool.WaitForPublishSlot | playbooks/roles/slurm/files/slurm_oci_notify_worker.py:214-224 | afterwards at least 6.1 s have passed since the last recorded attempt |
| NotifyWorker.Spool.TryPublish | playbooks/roles/slurm/files/slurm_oci_notify_worker.py:291-296 | exactly one attempt is recorded, and the history keeps its distances |
| NotifyWorker.Spool.MarkRetry | playbooks/roles/slurm/files/slurm_oci_notify_worker.py:167-182 | an expired message moves to failed/, any other is rewritten with its count and back-off |
| NotifyWorker.Spool.QueueMessage | playbooks/roles/slurm/files/slurm_oci_mailprog.py:309-372 | queues exactly when the user is registered and there is room, a message to the user's topic that tells of the event as ComposeMessage says; nothing else in the spool changes |
| NotifyWorker.Spool.ProcessQueue | playbooks/roles/slurm/files/slurm_oci_notify_worker.py:247-340 | no file is lost or duplicated; with a fixed time or a running clock, read once or twice for each file and never backwards, the publishes are the first ten due files in queue order; a file stays exactly when it waits or is due and not come to, is discarded exactly when its user is gone, fails exactly when it is spent, garbled or refused too late, is delivered exactly when accepted, and is rewritten otherwise; the count is that of the files changed |
| NotifyWorker.Spool.KilledRun | playbooks/roles/slurm/files/slurm_oci_notify_worker.py:247-340 | a run killed at any point leaves what it dealt with as a whole run would and the rest untouched, and at most one attempt uncounted |
| NotifyWorker.AnyLife | playbooks/roles/slurm/files/slurm_oci_notify_worker.py:247-340 | over any sequence of reports, worker runs and killed runs no message is attempted more often than seven times and once for each killed run, and no 60 seconds see more than ten attempts |
| EvenDistribution.ScanIsOptimal | scripts/max_nodes_partition.py:186-198 | the largest (i + 1) * sorted[i] is the largest product of size and minimum over all non-empty sub-multisets of the sizes |
| EvenDistribution.Partition.MaxNodesEvenDistributed | scripts/max_nodes_partition.py:186-198 | returns that optimum, 0 for no clusters, and leaves the list in descending order |

## Left out

- Compute clusters: their nodes are removed without a journal and grown one launch at a time; the model covers instance pools and cluster networks.
- Volumes created at launch: they go with their instance and are never journaled; a node that holds one is removed without a record.
- The choice of nodes to remove and of the members the service withdraws when a size is lowered by a rollback; what the service does with the volumes of nodes it withdraws.
- GrowPool: the wait for the new nodes' volumes is a step that may fail, and the crash that loses a rollback is covered, but not what an operator does then.
- UpdateTerraform: the serial number and the text of the two files are not modelled.
- DestroyLock: `create_cluster.sh`, which makes the directory and removes it when it fails, and a new cluster of the same name in place of a removed one. A delete lists the directory in one step, and its other files are left out.
- ProcessQueue: file operations succeed, so a spool that cannot be written is not covered.
- QueueMessage: a subject with a lone surrogate, on which encoding the title raises and nothing is queued, lies outside the model's characters.
- Playbook runs, Slurm reconfiguration, `getreachable` and the substring edits of inventories around them.
- Calls of the cloud SDK, the OCI command line, Terraform and DNS are atomic steps that may fail; `fsync`, ownership and temporary files are not modelled.
- IPv6 subnets: an address is a 32-bit number, and the check that a listed address is one is left out.
- WriteInventory: text is what Python's universal newlines deliver, so a carriage return inside a line is not covered, and the file is written in one step.
- Prepare: what an instance answers is a function of its id, and the lookup of the cluster name and the checks of attachments are part of that answer.
- Rewriting with values that contain white space, for which the laws of rewriting do not hold; mount points are validated to contain none.
- White space in inventory headers and topic ids is ASCII's; elsewhere it is a parameter.
- Terraform's `substr` counts grapheme clusters, Python's slices code points; the model uses code points.
- Unicode's width and category tables and SHA-256 are parameters with the few facts that are needed.
- ComposeMessage: mapping Slurm's environment to the fifteen field values, event aliases included, is not modelled; the values are arbitrary.
- Spool.WaitForPublishSlot: an unreadable lock file reads as no last attempt; after it was emptied the time is written in one step.
- CleanupLoop: each listing is whatever the service returns; the sleep between listings is left out.
- Health checks, log collectors, dashboards, validation scripts and the `cluster` command: output scraping and user interface.
