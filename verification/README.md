# Verification model of the Galera backup runner

This project models the behaviour of the `galera_backup` package - the runner that backs up a MariaDB Galera cluster to S3,
to a mounted filesystem or to an SMB share, and restores it - together with two helpers that do CIDR arithmetic, and proves
properties of that model with Dafny. `dafny verify dfyconfig.toml` checks all of it.

## What is modelled

- **The object store protocol** (`Objects`, `Publisher`, `PublishRun`, `Pruner`, `Fetcher`, `S3World`, `S3Survival`,
  `S3Race`, `S3Restore`, `Retention`, `RetentionResume`, `S3Backend`, `S3Sequential`). A bucket is a map of objects. Publication,
  retention and fetch are step machines, one step per call; each call works, raises without effect, raises after taking
  effect, or stores other bytes than it was given. A process that is never scheduled again has crashed. `S3World` interleaves
  any number of such processes; `S3Backend` has the methods as the program has them, over one mutable store with a fault
  schedule, proved against the machine (publication) or against the declarative reading (retention, fetch).
- **The filesystem backend** (`Filesystem`, `FilesystemBackend`, `FilesystemCatalogue`; `FilesystemWorld`, `FilesystemRace`,
  `FilesystemWindow`, `FilesystemSequential` for publishers and pruners interleaved call by call). System calls with the same kinds of
  faults; every state the disk goes through is recorded, so statements about the record are statements about a crash at any
  point. Both backends are read as one abstract catalogue of entries (`Objects.Catalogue`) with the same three statements:
  publication adds at most one verified entry, retention leaves exactly the recent ones, fetch returns a newest one.
- **The backup run** as a step machine, one step per call that leaves the process (`RunMachine`); what the order of its
  calls guarantees (`RunOrder`), what its `try` part is left with (`RunTry`), what a failed run raises and shows (`RunOutcome`), which answers are raised over
  and with which error, read off the answers (`RunVerdicts`), what stays true after success and what is given back
  (`RunAftermath`); the program itself, with nested methods and exceptions, in step with the machine at every call
  (`BackupRun`); **election** (`Election`) and a **round of the fleet** (`Fleet`). A schedule answers call number `t` with a
  reply that may depend on the call; nothing is assumed of it. The event log is assumed to work.
- **The encrypted container** (`Container`, `Crypto`), over an abstract authenticated cipher in counter mode with the
  interface of NIST SP 800-38D; the input file may change between two reads.
- **The restore** (`RestoreChecks`, `RestoreRun`), **secret redaction and the argv guard** (`Redactor`, `RedactorExact`),
  **the lock** (`Locking`), **the SMB share** (`Smb`), **address blocks** (`Cidr`, `AccountHosts`, `AdminIsolation`).

## Where the code does not do what one might expect

Each of these is proved, with the condition under which the expectation does hold.

- Desync is not always undone: the server is left desynced when the ON command raises although the server obeyed, since no
  OFF follows, and when the OFF raises without effect; in no other case (`RunOrder.DesyncIsUndoneUnless`).
- A failed backup is not always recorded: `remove_tree_or_raise` may raise a plain OSError when it looks whether the path is
  there; the handler catches only a BackupError, so this error replaces the failure and neither state nor metric is written.
  In every other case the error with which the `try` part was left is raised under its own code, and both are written or an
  event says why not (`RunOutcome.FailureIsKeptAndShown`). A failed restore has the same
  gap.
- Interrupted retention resumes to the same store exactly when the metadata is listed last or the later objects are dated
  and old enough (`RetentionResume.ResumeIffSafe`).
- A publication that takes longer than the retention window loses an object to a pruner that listed it before its commit
  marker, even when the publication returns normally. Retention spares a publication in every interleaving exactly if the
  cutoff is neither after its first call nor after its time stamp (`S3Race.KeepsIffInWindow`). On the filesystem it is the making of the partial directory that counts
  (`FilesystemWindow.KeepsIffInWindow`).
- Retention of cluster "a" also ages the backups of a cluster "a-b" in the same bucket, by its own window
  (`Retention.NamesakesAreAged`).
- A mount command that raises after mounting leaves the share mounted without a report, because the backend's own flag is
  set only afterwards; this is the only way (`Smb.SMBBackend.Preflight`, `Smb.SilentMount`). A credential file that could be
  neither written nor removed is reported, but a later close does not know of it.
- `clear_datadir` is documented to refuse system directories one level below the protected roots, `/var/lib` first of all.
  Its ancestor test adds nothing to the list (`RestoreChecks.ProtectedIsExactlyTheList`); what protects `/var/lib` is the
  contents guard (`RestoreChecks.DeepPathsByContentsOnly`).
- `contract_is_expressible` documents "not expressible exactly when a whole application network lies in the administration
  networks". It compares with each administration network separately, so several that cover an application network together
  escape it (`AdminIsolation.HalvesAreMissed`). The verdict is right exactly if one application network lies in a single
  administration network or none is covered by several (`AdminIsolation.VerdictIsRightIff`); for the reading that takes all
  application networks together see `AdminIsolation.VerdictIsRightForAllIff`.
- A failed restore, unlike a failed backup, writes no metric when its error is E_STATE, and does not guard the state file:
  its error is lost exactly if the removal of the work directory escapes or one of the three state-file calls of the handler
  raises (`RestoreRun.ErrorIsLostIff`).
- Redaction can create a secret that overlaps the marker (`Redactor.ClashingSecretAppears`); for one secret
  `RedactorExact.SingleSecretExact` says exactly when.

## Model

| member | source | states |
|---|---|---|
| `Publisher.SafeStep` | roles/galera_backup/files/galera_backup/storage/s3.py:115-314 | every step of a publisher, whatever its call does, keeps: no metadata object before the payload was read back and matched, none but its own afterwards, and it removes only keys of its own directory |
| `Publisher.SafeUnderRemovals` | roles/galera_backup/files/galera_backup/storage/s3.py:375-431 | that invariant tolerates other processes removing objects of the directory at any moment |
| `Publisher.SoundStep` | roles/galera_backup/files/galera_backup/storage/s3.py:115-314 | a publisher step keeps the whole bucket sound: payload and metadata together imply a matching size and SHA |
| `Publisher.StepFrame` | roles/galera_backup/files/galera_backup/storage/s3.py:115-314 | a publisher step changes nothing outside its directory, and nothing at all before the refusal checks are passed |
| `PublishRun.RunKeeps` | roles/galera_backup/files/galera_backup/storage/s3.py:115-322 | at every call of an undisturbed publication, for every fault schedule, the exact contents of the directory, the invariant and the frame |
| `PublishRun.PublishOutcome` | roles/galera_backup/files/galera_backup/storage/s3.py:115-322 | how a publication can end, said on keys and bytes: it refuses with E_STORAGE exactly if the listing raised or some key begins with the prefix, with E_INTEGRITY only if the local metadata says no size, digest or usable time, and then leaves the bucket identical; a success leaves exactly the three objects, the payload of the size and with the digest that it returns, the metadata its own and saying the same; a failure either reports residue, which it does if and only if the directory is not empty, or reports that it could not look; nothing outside the prefix changes |
| `PublishRun.WrongReadbackFails` | roles/galera_backup/files/galera_backup/storage/s3.py:160-205 | if the listing, both uploads and the readback file return and the stored payload is of another size or of another digest than the metadata says, the run ends in E_INTEGRITY, whatever the later calls do |
| `PublishRun.AtomicPublish` | roles/galera_backup/files/galera_backup/storage/s3.py:115-322 | on any bucket, after any number of calls, hence after a crash anywhere, the catalogue of any cluster is the old one or the old one with one verified entry more |
| `PublishRun.PublishedIsListed` | roles/galera_backup/files/galera_backup/storage/s3.py:316-322 | a normal return means that the cluster's catalogue has gained exactly this entry |
| `PublishRun.PrimaryCodeKept` | roles/galera_backup/files/galera_backup/storage/s3.py:229-314 | once a call of the `try` part has failed, the error finally raised has the code of that failure, whatever the clean-up meets |
| `PublishRun.PublishSucceeds` | roles/galera_backup/files/galera_backup/storage/s3.py:115-322 | seven working calls on a free prefix, with a payload of the size and digest that its metadata names, publish it: the bucket has gained exactly the three files under their keys, each with its own bytes |
| `PublishRun.CleanUpWorks` | roles/galera_backup/files/galera_backup/storage/s3.py:258-314 | a clean-up whose store calls work empties the directory, including objects put by calls that raised, and adds nothing to the error |
| `PublishRun.PublishKeepsMarkers` | roles/galera_backup/files/galera_backup/storage/s3.py:436-458 | publication never touches the owner marker or any cluster's drill marker |
| `S3Backend.Backend.Publish` | roles/galera_backup/files/galera_backup/storage/s3.py:115-322 | the method, loops and journal of uploaded keys included, ends with the bucket and the result of the step machine on the same calls, so all statements about runs hold of it; it ends as `PublishRun.PublishOutcome` says, and a payload stored wrongly is E_INTEGRITY |
| `S3World.NoTornBackup` | roles/galera_backup/files/galera_backup/storage/s3.py:115-431 | in every reachable state of any number of publishers of distinct names, pruners and fetchers, with failing calls, puts that raise after taking effect and processes that stop for good, no directory has both payload and metadata without the payload being of the size and the digest that the metadata names |
| `S3Survival.YoungBackupsSurvive` | roles/galera_backup/files/galera_backup/storage/s3.py:375-431 | in every interleaving, a directory that no publisher owns and that is young for every pruner at the start keeps all its objects, unchanged |
| `S3Survival.PublishIsUndisturbed` | roles/galera_backup/files/galera_backup/storage/s3.py:375-431 | pruners with a cutoff not after the publisher's own first call and not after its time stamp never take an object away from a publication in progress |
| `S3Survival.PublishedStaysComplete` | roles/galera_backup/files/galera_backup/storage/s3.py:115-431 | a publication that has returned normally is complete and verified at the end of every such interleaving |
| `S3Race.KeepsIffInWindow` | roles/galera_backup/files/galera_backup/storage/s3.py:375-431 | over all interleavings of any number of processes, faults included, every publication that returned normally stays complete and verified if and only if the pruners' cutoff is neither after its first call nor after the time stamp in its metadata |
| `S3Race.SlowUploadLoses` | roles/galera_backup/files/galera_backup/storage/s3.py:392-418 | the interleaving for a cutoff after the first call: listed before the commit, judged an expired orphan, published, and then robbed of an object |
| `S3Race.OldStampLoses` | roles/galera_backup/files/galera_backup/storage/s3.py:419-431 | the interleaving for a time stamp before the cutoff: published, then removed by what its metadata says |
| `S3Restore.FetchedIsVerified` | roles/galera_backup/files/galera_backup/storage/s3.py:324-373 | in every interleaving a fetch that returns normally has a payload of the size and the digest that the metadata it returns names |
| `Pruner.FreshGroup` | roles/galera_backup/files/galera_backup/storage/s3.py:381-387 | a group of a fresh listing is exactly the objects of one directory under the cluster prefix |
| `Retention.PlanIsDoom` | roles/galera_backup/files/galera_backup/storage/s3.py:392-431 | the removals of a run are exactly the objects of expired directories: by metadata time where there is metadata, by the newest upload where there is none |
| `Retention.PrunedCatalogue` | roles/galera_backup/files/galera_backup/storage/s3.py:392-431 | a complete run takes exactly the entries older than the cutoff out of the catalogue |
| `Retention.NamesakesAreAged` | roles/galera_backup/files/galera_backup/storage/s3.py:375-431 | the names of cluster a-b begin like those of cluster a: retention of a with its window does to the catalogue of a-b what retention of a-b with that window would do |
| `Retention.MarkersKept` | roles/galera_backup/files/galera_backup/storage/s3.py:433-437 | retention leaves the drill marker of every cluster and the owner marker alone, even for a cluster whose listing shows the owner marker |
| `RetentionResume.ResumeIffSafe` | roles/galera_backup/files/galera_backup/storage/s3.py:392-431 | interrupting retention after any number of removals and running it again at a later cutoff always gives the result of one run at that cutoff if and only if, in every expired group of the first listing, the metadata is listed last or what is listed after it is dated and old enough for the rerun |
| `RetentionResume.StandardLayoutResumes` | roles/galera_backup/files/galera_backup/storage/s3.py:392-431 | the three-object layout in key order always meets that condition |
| `RetentionResume.UnsafeResume` | roles/galera_backup/files/galera_backup/storage/s3.py:392-431 | where the condition fails, a concrete interruption after which the rerun leaves a different bucket |
| `S3Backend.Backend.Prune` | roles/galera_backup/files/galera_backup/storage/s3.py:375-431 | in days: after a normal return an object is there if and only if its directory is not older than the window, `now - created <= days * 86400`, or without metadata by its newest dated object, undated ones staying; an interrupted run has removed only such objects, a prefix of the plan; what stays is unchanged; the directories are counted; unreadable metadata is an error, and an error means that or that the last call raised, with its code; a non-positive retention is refused |
| `S3Backend.Backend.PruneGroup` | roles/galera_backup/files/galera_backup/storage/s3.py:392-429 | one group's turn advances the plan by exactly that group or stops inside it |
| `S3Backend.Backend.FetchLatest` | roles/galera_backup/files/galera_backup/storage/s3.py:324-373 | the result is a newest entry of the catalogue with the stored bytes, and no complete directory with unreadable metadata was passed over; with working calls and a tidy listing it fails only on an empty catalogue; that, and unreadable metadata, is E_STORAGE; a normal return means that every call returned |
| `S3Backend.LatestIsNewest` | roles/galera_backup/files/galera_backup/storage/s3.py:352-373 | that result is the newest entry in the sense shared with the filesystem backend |
| `S3Sequential.PruneRunDoes` | roles/galera_backup/files/galera_backup/storage/s3.py:375-431 | the retention machine of the interleaved runs, undisturbed, does what the method does, at every step and for every fault schedule, with the same errors |
| `S3Sequential.FetchRunDoes` | roles/galera_backup/files/galera_backup/storage/s3.py:324-373 | the same for the fetch machine |
| `Filesystem.FileStore.RemoveTree` | roles/galera_backup/files/galera_backup/fsutil.py:49-69 | every state on the way only lacks files of that tree; a normal return means that the tree is gone, and happens exactly if every unlink returns and the last call works |
| `FilesystemBackend.Backend.CopyAndRename` | roles/galera_backup/files/galera_backup/storage/filesystem.py:171-211 | the `try` part: only the partial directory differs until one rename turns a checked copy into the backup; it complains exactly of what `TryFailure` names: the first copy, reading, mismatch, exchanged mount or rename in order |
| `FilesystemBackend.Backend.Publish` | roles/galera_backup/files/galera_backup/storage/filesystem.py:150-228 | every state the disk has been in differs from the old one in the partial directory alone, or has the complete verified backup and no partial directory; success exactly if the directory can be made and the `try` part has nothing to complain of, and then the three files lie there as their copies landed, the payload of the size and with the digest returned, every call has returned, and the mount was the same at the start, before the rename and at the end; a payload that landed with another size or digest is E_INTEGRITY; an existing backup is refused; a failure is that of the `try` part, with a note exactly if the last call, of the removal, raised; a directory made by this call and left is always noted |
| `FilesystemBackend.Backend.PublishSucceeds` | roles/galera_backup/files/galera_backup/storage/filesystem.py:150-211 | with working calls a payload of the size and digest that its metadata names is published under a free name, also over a stale partial directory |
| `FilesystemCatalogue.AtomicPublish` | roles/galera_backup/files/galera_backup/storage/filesystem.py:150-228 | each of those states, hence a crash anywhere, has the old catalogue or the old one with one verified entry more |
| `FilesystemCatalogue.CatalogueIs` | roles/galera_backup/files/galera_backup/storage/filesystem.py:237-252 | an entry of the catalogue is exactly a directory under the cluster prefix with the three files, whose metadata names the cluster, a supported format and a non-negative integer time |
| `FilesystemCatalogue.PublishedIsListed` | roles/galera_backup/files/galera_backup/storage/filesystem.py:205-211 | a normal return means the entry is in the catalogue |
| `FilesystemCatalogue.PublicationIsSpared` | roles/galera_backup/files/galera_backup/storage/filesystem.py:291-315 | no state of a publication that began at or after the cutoff has a directory of it that retention would remove |
| `FilesystemWorld.NoTornBackup` | roles/galera_backup/files/galera_backup/storage/filesystem.py:150-336 | in every interleaving of the system calls of any number of publishers and pruners, faults and crashes included, no finished directory shows metadata and a payload of another size or digest than the metadata names |
| `FilesystemRace.PublishIsUndisturbed` | roles/galera_backup/files/galera_backup/storage/filesystem.py:278-336 | in every such interleaving a publication whose directory is made, and whose time stamp lies, not before any pruner's cutoff keeps all its files, before the rename and after it |
| `FilesystemWindow.KeepsIffInWindow` | roles/galera_backup/files/galera_backup/storage/filesystem.py:278-336 | over all such interleavings every publication that returned normally stays complete and verified if and only if the pruners' cutoff is neither after the making of its directory nor after the time stamp in its metadata |
| `FilesystemWindow.SlowCopyLoses` | roles/galera_backup/files/galera_backup/storage/filesystem.py:291-315 | the interleaving for a later cutoff: the directory is judged abandoned while the payload is copied, and the payload is unlinked between the check of the copy and the rename, which works |
| `FilesystemWindow.OldStampLoses` | roles/galera_backup/files/galera_backup/storage/filesystem.py:317-336 | the interleaving for a time stamp before the cutoff: published, then removed by what its metadata says |
| `FilesystemSequential.PubRunPasses` | roles/galera_backup/files/galera_backup/storage/filesystem.py:150-228 | the publication machine of the interleaved runs, undisturbed, goes through states that are stated of the method, and ends with the backup in place where it returns normally |
| `FilesystemSequential.PubRunSucceeds` | roles/galera_backup/files/galera_backup/storage/filesystem.py:150-211 | eleven working calls of that machine publish a described payload under a new name: the disk has gained one directory with exactly the artifact's three files |
| `FilesystemSequential.FailureTidies` | roles/galera_backup/files/galera_backup/storage/filesystem.py:212-228 | and where it fails once its directory is made, working calls remove the directory and touch nothing else |
| `FilesystemSequential.PruneRunPasses` | roles/galera_backup/files/galera_backup/storage/filesystem.py:278-336 | the retention machine, undisturbed, goes through states that are stated of the method; a normal end has removed exactly what had expired |
| `FilesystemSequential.PruneRunSucceeds` | roles/galera_backup/files/galera_backup/storage/filesystem.py:278-336 | with working calls and readable metadata the retention machine never stops short: when it is done it has ended normally |
| `FilesystemBackend.Backend.Prune` | roles/galera_backup/files/galera_backup/storage/filesystem.py:278-336 | in days, for every order in which the directory is read: every state leaves a child that is not older than the window as it was, a partial directory by its youngest file and itself, a finished one by `now - created > days * 86400`; after a normal return exactly the older ones are gone, their number is returned and there was no unreadable metadata; an error means unreadable metadata or that the last call raised |
| `FilesystemCatalogue.PruneIsMonotone` | roles/galera_backup/files/galera_backup/storage/filesystem.py:278-336 | at every point of retention the catalogue lies between what it will leave and what it found |
| `FilesystemCatalogue.PrunedCatalogue` | roles/galera_backup/files/galera_backup/storage/filesystem.py:278-336 | a complete run takes exactly the entries older than the cutoff out of the catalogue |
| `FilesystemCatalogue.OthersKept` | roles/galera_backup/files/galera_backup/storage/filesystem.py:317-324 | drill marker, owner marker, other plain files and finished directories without metadata are never touched |
| `FilesystemBackend.Backend.FetchLatest` | roles/galera_backup/files/galera_backup/storage/filesystem.py:230-276 | the result is a newest entry of the catalogue with the stored bytes; a complete backup with unreadable metadata is an error, not skipped; a normal return means that every call worked, the check of the mount included |
| `Election.DonorIsCandidate` | roles/galera_backup/files/galera_backup/backup.py:281-297 | the elected node is an ONLINE node of this cluster, the preferred one whenever that is ONLINE, else the least |
| `Election.ElectIff` | roles/galera_backup/files/galera_backup/backup.py:246-297 | election, both ways, on the rows as they come: an address is elected if and only if settings and credentials are there, the query worked and it is the preferred node shown ONLINE or, where that is not shown, the first of those that are; each failure has its code |
| `Strings.StripIs` | roles/galera_backup/files/galera_backup/backup.py:180-216 | what is left of a row lies between its first and its last character that is no white space, and nothing in front or behind is kept |
| `Election.ElectionFailsOnlyOnEmptyView` | roles/galera_backup/files/galera_backup/backup.py:246-294 | with settings and credentials election fails if and only if the query failed or showed no node of the cluster |
| `Election.ElectionIgnoresPresentation` | roles/galera_backup/files/galera_backup/backup.py:281-297 | order, duplicates, blanks and rows of other tenants do not change the choice |
| `Election.ExactlyOneProceeds` | roles/galera_backup/files/galera_backup/backup.py:517-541 | from one shared view at most one node proceeds, and one does if and only if the elected address is in the fleet |
| `Election.PreferredProceeds` | roles/galera_backup/files/galera_backup/backup.py:296-297 | the preferred node is the one that proceeds when it is healthy |
| `Election.GuardPassesIff` | roles/galera_backup/files/galera_backup/backup.py:177-223 | on the rows as the query returns them, the writer guard passes if and only if its settings are there, the query worked and exactly one row is not blank, and that row, stripped, is a node of this cluster that is this node under neither of its names; the writer itself is E_WRITER, each other failure has its code |
| `Election.GuardIgnoresPresentation` | roles/galera_backup/files/galera_backup/backup.py:177-223 | two query results that show every address equally often get the same verdict and the same error, whatever order, padding and blank rows |
| `Election.DonorIsNotWriter` | roles/galera_backup/files/galera_backup/backup.py:227-297 | with disjoint hostgroups the donor is not the writer and gets past the guard, unless its host name is the writer's address |
| `Election.WriterIsStopped` | roles/galera_backup/files/galera_backup/backup.py:207-223 | the active writer never gets past the guard, whatever was elected |
| `RunOrder.PublishedAfterEveryGate` | roles/galera_backup/files/galera_backup/backup.py:568-741 | in every run for every schedule a backup is published at most once, and the calls before it worked and showed: a readable state file, this node elected, one writer that is another node, preflight, comment Synced, status Primary, ready and connected ON, the expected size, 500 MiB of space, a private staging directory; a worked dump, and for a node seen in state 4 a worked ON before it, a worked OFF after it and then a poll that said Synced; the archive; and last a flow-control counter that exceeds that of the health query by the threshold at most |
| `RunOrder.DesyncIsUndoneUnless` | roles/galera_backup/files/galera_backup/backup.py:70-106 | at most one ON, only from state 4, and at most one OFF, only after a worked ON and the dump; a worked ON is always followed by dump and OFF; at the end the server is left desynced in exactly two cases: the ON raised although the server obeyed, or the ON worked and the OFF raised without effect |
| `RunOrder.OnlyTheChosenActs` | roles/galera_backup/files/galera_backup/backup.py:517-568 | a run that asks for the writers, opens a backend, switches the node, dumps or publishes has been elected by what ProxySQL showed to it |
| `RunOrder.JournalIsTrue` | roles/galera_backup/files/galera_backup/backup.py:429-897 | the journal of a run holds every call it made, in order, each with the answer that the schedule gives to that call at that place |
| `RunTry.TryStep` | roles/galera_backup/files/galera_backup/backup.py:568-839 | every step of the `try` part goes on with nothing to raise over, or leaves it with what its calls say: what the last call complains of, or the dump's own failure once the node is seen Synced again |
| `RunOutcome.FailureIsKeptAndShown` | roles/galera_backup/files/galera_backup/backup.py:840-886 | a failed run raises the error with which its `try` part was left, under the code of that error and with a note for every clean-up call that raised; no earlier call was anything to raise over but a dump before its OFF and polls that were not the last; from there on the calls are exactly close, removal, read and write of the state file, its reading, the metric; both show the failure or an event says why not; a work directory is left exactly if its removal raised; only a removal that raises no BackupError escapes: exactly then the error is replaced and nothing recorded; a run that found the lock taken keeps the last success and raises E_LOCKED unless the unguarded metric write raises |
| `RunVerdicts.StopIsRaised` | roles/galera_backup/files/galera_backup/backup.py:568-839 | a call of the `try` part that raised, or returned what is not good enough, makes the run raise this very error with the notes of the clean-up: a damaged state file, missing settings, no ONLINE node, a guard that stops the writer, an unhealthy cluster, less than 500 MiB, fifteen minutes of polls without Synced, a flow-control difference above the threshold (E_FLOW_CONTROL), each with its code; only a removal of the work directory that escapes can replace it |
| `RunVerdicts.PollsOn` | roles/galera_backup/files/galera_backup/backup.py:109-126 | a node that is not yet Synced is polled again as long as fifteen minutes have not passed |
| `RunAftermath.SuccessIsFinal` | roles/galera_backup/files/galera_backup/backup.py:747-838 | once state file and metric say success, nothing that fails in retention, drill bridge, close or work-directory removal changes either of them or the result |
| `RunAftermath.TimesAreKept` | roles/galera_backup/files/galera_backup/state.py:55-78 | for every schedule and after any number of calls: the time of the last success in the state file has changed only if a publication worked, success leaves the time of the last failure, and the time that is recorded lies within the run |
| `RunAftermath.FinishedHasPublished` | roles/galera_backup/files/galera_backup/backup.py:568-755 | a run that finishes has published by a call that worked, after every gate |
| `RunAftermath.EverythingGivenBack` | roles/galera_backup/files/galera_backup/backup.py:830-886 | at the end of every run every backend that was built has been closed once and the removal of every work directory that was made has been tried once |
| `RunAftermath.MetricIsTheDonors` | roles/galera_backup/files/galera_backup/backup.py:542-566 | if the calls on lock, state file and metric files work, a finished run has left a backup metric on the node exactly if the node does not decline, whatever was there before and whatever else fails; a node that declines has no drill-bridge file |
| `BackupRun.Runner.RunBackup` | roles/galera_backup/files/galera_backup/backup.py:429-897 | the program as it is, nested methods and exceptions included, makes the calls of the machine and ends with its result, files and events, for every schedule, so all statements about runs hold of it; the lock is released; a run that finishes has published by a call that worked, after every gate, and state file and metric say so; whatever a call of the `try` part raised, or returned that is not good enough, is what is raised, a flow-control difference above the threshold as E_FLOW_CONTROL; the time of the last success moves only with a publication |
| `Fleet.OthersDecline` | roles/galera_backup/files/galera_backup/backup.py:517-541 | in a fleet with one view every node but the elected one declines |
| `Fleet.Round` | roles/galera_backup/files/galera_backup/backup.py:517-566 | one round on every node with one view, from any contents of the metric files: at most one node acts on cluster or store, whatever fails; if the calls on lock, state and metric files work and the elected address is in the fleet, exactly the donor ends with a backup metric and nobody else with a drill-bridge file, whatever other calls fail |
| `Container.CtrSplit` | roles/galera_backup/files/galera_backup/crypto.py:139-140 | the transform of two stretches in a row, the second from its own position in the key stream, is that of the whole, so the result does not depend on the chunk size |
| `Container.CtrAt` | roles/galera_backup/files/galera_backup/crypto.py:139-140 | byte i of the transform is byte i of the data combined with byte `pos + i` of the key stream, and the length stays |
| `Container.SealedParts` | roles/galera_backup/files/galera_backup/crypto.py:104-117 | the header, ciphertext and tag offsets take a sealed file apart exactly where it was put together |
| `Container.SealedBytes` | roles/galera_backup/files/galera_backup/crypto.py:104-168 | a sealed file byte by byte: GB3G, salt, nonce, the plaintext combined with the key stream from its first byte on, and the tag over the header and that |
| `Container.OpenedBytes` | roles/galera_backup/files/galera_backup/crypto.py:94-148 | an accepted file byte by byte: long enough, with the tag at its end, and byte i of the result is byte 32 + i of the file combined with byte i of the key stream |
| `Container.RoundTrip` | roles/galera_backup/files/galera_backup/crypto.py:94-168 | decryption of an encrypted plaintext is the plaintext, recognised as v3 |
| `Container.AcceptedIsSealed` | roles/galera_backup/files/galera_backup/crypto.py:119-148 | whatever is accepted stands for something that was sealed in its own format, with the same key, nonce, ciphertext and plaintext; in v3 it is that container byte for byte |
| `Container.WrongKeyRefused` | roles/galera_backup/files/galera_backup/crypto.py:119-148 | a key that derives differently opens nothing |
| `Container.DowngradeRefused` | roles/galera_backup/files/galera_backup/crypto.py:181-199 | a file under the magic of v2 is refused, whatever was sealed in v3, unless a v2 file was sealed with the same key and nonce |
| `Container.RelabelledRefused` | roles/galera_backup/files/galera_backup/crypto.py:181-199 | so a v3 container relabelled as v2 is refused, although v2 does not authenticate the header, as long as its nonce was not used in v2 under its key |
| `Crypto.Crypto.EncryptChunks` | roles/galera_backup/files/galera_backup/crypto.py:161-168 | for every chunk size of at least one, the loop writes the one-shot transform of exactly what it read, all of it, each byte at its own position in the key stream |
| `Crypto.Crypto.EncryptPayload` | roles/galera_backup/files/galera_backup/crypto.py:151-168 | the target becomes, in one step, the header, the plaintext combined byte by byte with the key stream, and the tag, or keeps its bytes; after a failure nothing is left unless the last call was the removal of the temporary file and raised |
| `Crypto.Crypto.DecryptGcm` | roles/galera_backup/files/galera_backup/crypto.py:94-148 | the target changes only if the tag verifies what was read, to the decryption of it; for a file that does not change meanwhile the answer is exactly whether size, magic and tag are right; after a refusal no temporary file remains unless its removal raised |
| `Crypto.Crypto.DecryptPayload` | roles/galera_backup/files/galera_backup/crypto.py:171-217 | the format follows the magic; on success under a GCM magic byte i of the target is byte 32 + i of the file combined with byte i of the key stream; the result is that of the one-shot specification; on every failure the target keeps its bytes |
| `Redactor.RedactedHasNoSecret` | roles/galera_backup/files/galera_backup/runner.py:18-29 | if no secret overlaps the marker in any alignment, redacted text contains no secret |
| `Redactor.CleanTextUnchanged` | roles/galera_backup/files/galera_backup/runner.py:22-29 | text without secrets is unchanged |
| `Redactor.ReplaceFirst` | roles/galera_backup/files/galera_backup/runner.py:28 | one replacement on the text: what stands before the first occurrence is kept, that occurrence becomes [REDACTED], and so on behind it |
| `Redactor.RedactionIsIdempotent` | roles/galera_backup/files/galera_backup/runner.py:22-29 | under the same condition redaction is idempotent |
| `Redactor.SecretVanishesWhole` | roles/galera_backup/files/galera_backup/runner.py:20 | longest first makes a secret disappear as a whole even if it contains a shorter one |
| `Redactor.SortedIsStable` | roles/galera_backup/files/galera_backup/runner.py:20 | secrets of one length are replaced in the order in which they came |
| `Redactor.ClashingSecretAppears` | roles/galera_backup/files/galera_backup/runner.py:22-29 | without the condition: two secrets and a text where redaction creates a secret that was not there |
| `RedactorExact.SingleSecretExact` | roles/galera_backup/files/galera_backup/runner.py:22-29 | with one secret, exactly when some text leaves it in the result: when it agrees with the marker from inside the marker on, or into it unless the greedy replacement would have matched earlier |
| `RedactorExact.ShapeIsClash` | roles/galera_backup/files/galera_backup/runner.py:22-29 | that exact condition is a special case of overlapping the marker |
| `RedactorExact.NotEveryClashLeaks` | roles/galera_backup/files/galera_backup/runner.py:22-29 | and a proper one: a secret that overlaps the marker and is never left |
| `Redactor.SecretRedactor.RedactText` | roles/galera_backup/files/galera_backup/runner.py:22-29 | the loop computes the sequential replacement and so leaves no secret |
| `Redactor.ArgvRejected` | roles/galera_backup/files/galera_backup/runner.py:52-60 | a command is rejected if and only if some argument contains some non-empty secret |
| `Locking.MutualExclusion` | roles/galera_backup/files/galera_backup/locking.py:22-53 | in every interleaving of acquires, releases, failing calls and crashes of any number of processes at most one has the lock |
| `Locking.PathKept` | roles/galera_backup/files/galera_backup/locking.py:42-47 | the path never changes its inode |
| `Locking.FreeLockIsTaken` | roles/galera_backup/files/galera_backup/locking.py:22-39 | a lock nobody has is obtained by the next acquire |
| `Locking.UnlinkBreaksExclusion` | roles/galera_backup/files/galera_backup/locking.py:42-47 | with an unlinking release two processes come to hold the lock |
| `Locking.UnlinkScenarioIsReached` | roles/galera_backup/files/galera_backup/locking.py:42-47 | the state in which that happens is reached in four steps |
| `Locking.LockManager.Acquire` | roles/galera_backup/files/galera_backup/locking.py:22-39 | success if and only if every call works and nobody holds the inode; otherwise E_LOCKED with the descriptor closed |
| `Locking.LockManager.Release` | roles/galera_backup/files/galera_backup/locking.py:41-53 | the descriptor is forgotten whatever the kernel says, the lock file stays, and a worked unlock frees the lock |
| `Smb.SMBBackend.Cleanup` | roles/galera_backup/files/galera_backup/storage/filesystem.py:535-563 | runs exactly the commands for what is left; success if and only if those work, and then nothing that the backend knows of is left |
| `Smb.SMBBackend.ReraiseAfterCleanup` | roles/galera_backup/files/galera_backup/storage/filesystem.py:565-579 | the error unchanged if and only if everything was cleaned up, else with its own code and a report |
| `Smb.SMBBackend.Preflight` | roles/galera_backup/files/galera_backup/storage/filesystem.py:602-661 | success exactly if nothing stands in its way, else the first thing that does, with a report exactly if something it knows of is left; nothing is written before the observed mount was accepted; the share is left mounted without its knowledge if and only if the mount command raised after mounting; the commands run are exactly mount and what undoes it |
| `Smb.SilentMount` | roles/galera_backup/files/galera_backup/storage/filesystem.py:649-656 | at that input: the error is the command's own without a report, and closing the backend reports success while the share stays mounted |
| `Smb.SMBBackend.Operate` | roles/galera_backup/files/galera_backup/storage/filesystem.py:663-692 | fails exactly if the operation raises, with the operation's own error, with a report if and only if the clean-up leaves something |
| `Smb.SMBBackend.Close` | roles/galera_backup/files/galera_backup/storage/filesystem.py:694-695 | retries exactly what is left, and runs nothing when nothing is |
| `RestoreChecks.SafeMemberStaysInside` | roles/galera_backup/files/galera_backup/restore_helpers.py:38-57 | an accepted archive member ends inside the extraction directory and is no link |
| `RestoreChecks.SafeMemberIff` | roles/galera_backup/files/galera_backup/restore_helpers.py:38-57 | on the characters: a member is accepted if and only if it is a regular file or a directory and its name is not empty, does not begin with a slash and has no `..` between slashes or a slash and an end |
| `RestoreChecks.ClearDatadir` | roles/galera_backup/files/galera_backup/restore_helpers.py:72-117 | a refused directory is untouched; otherwise everything is removed, or an entry could not be and the error says so |
| `RestoreChecks.ProtectedIsExactlyTheList` | roles/galera_backup/files/galera_backup/restore_helpers.py:74-91 | the ancestor test adds nothing to the list of protected roots |
| `RestoreChecks.MayClearIff` | roles/galera_backup/files/galera_backup/restore_helpers.py:72-105 | a data directory may be cleared if and only if its path is none of the twenty listed and it is absent, empty or has an entry with one of the five marker names |
| `RestoreChecks.DeepPathsByContentsOnly` | roles/galera_backup/files/galera_backup/restore_helpers.py:84-105 | so no path of two or more parts, `/var/lib` included, which the comment names as protected, is protected by its path: it may be cleared if and only if it is absent, empty or has an entry named like a marker |
| `RestoreChecks.VerifyRestoredDatabase` | roles/galera_backup/files/galera_backup/restore_helpers.py:120-194 | succeeds if and only if check, listings and counts all work and there is a user database with a table; returns the totals over all user databases |
| `RestoreChecks.VerifiedIff` | roles/galera_backup/files/galera_backup/restore_helpers.py:120-194 | on the rows: the user databases are exactly the lines, stripped, that are neither blank nor one of the server's own four; totals exist if and only if every listing of tables and every count of them works; there is a table if and only if some listing shows one |
| `RestoreChecks.TotalAdd` | roles/galera_backup/files/galera_backup/restore_helpers.py:150-194 | the totals of two lists of databases add up, so each is counted as often as it is listed |
| `RestoreRun.Restore.CheckBackup` | roles/galera_backup/files/galera_backup/restore.py:154-227 | a normal return means, and with working calls is, that the metadata is of a supported format, this cluster and no newer version, size and digest are right, decryption by the magic gives a plaintext of the right digest, and every member of its archive is harmless by its characters; each failure has its code |
| `RestoreRun.Restore.WaitForServer` | roles/galera_backup/files/galera_backup/restore.py:286-302 | the server is polled for thirty seconds by the clock, each poll begun before they are over; a poll that raises ends the wait with its error, one that answers ends it well, and after the time the log is read and the error is E_INTEGRITY |
| `RestoreRun.Restore.StopServer` | roles/galera_backup/files/galera_backup/restore_helpers.py:197-235 | only a server that was started is stopped; an exit code other than 0 and that of SIGTERM, or a stop that raises, is one event and never an error |
| `RestoreRun.ComplaintCodes` | roles/galera_backup/files/galera_backup/restore.py:115-395 | a call that returned is raised over only as E_INTEGRITY, but for a state file that cannot be read (E_STATE), metadata or an archive that does not parse, and a version 1 file that the external tool refuses |
| `RestoreRun.Restore.RunRestore` | roles/galera_backup/files/galera_backup/restore.py:115-455 | the data directory is changed only with a backup proved sound, spelled out from its metadata and bytes; success only after every call was made without complaint and the database was counted; lock released and a started server told to stop on every path; an error is that of the first call there was anything to complain of, as `Final` hands it on; decrypted staging that is left is in an event or among the clean-up failures; a taken lock leaves everything but the state file alone and raises E_LOCKED unless that file raises |
| `RestoreRun.SurvivingErrorKeepsCode` | roles/galera_backup/files/galera_backup/restore.py:396-448 | an error that is not lost leaves with its own code and exactly one note for each of the two clean-up calls that raised |
| `RestoreRun.ErrorIsLostIff` | roles/galera_backup/files/galera_backup/restore.py:396-448 | the error of a failed restore is lost, so that every other would have ended alike, if and only if the removal of the work directory raises something that is no BackupError or one of the three state-file calls of the handler raises |
| `RestoreRun.StateFileHidesTheCause` | roles/galera_backup/files/galera_backup/restore.py:427-430 | at such an input: an integrity failure leaves the run as the bare error of the state file's write |
| `RestoreRun.Restore.HandleFailure` | roles/galera_backup/files/galera_backup/restore.py:396-448 | the error is exactly `Final` of the replies; with E_STATE neither state nor metric changes, otherwise the state file says so if it could be read and written, and without a state failure an event and the metric, or an event that it could not be written |
| `Errors.CleanUpKeepsCode` | roles/galera_backup/files/galera_backup/errors.py:11-27 | after any number of clean-up failures a coded error has its code and one more note for each, an uncoded one the default code; it is the original error only if there were none |
| `Objects.CatalogueFrame` | roles/galera_backup/files/galera_backup/storage/s3.py:333-350 | a change inside one directory changes at most that entry of the catalogue |
| `Objects.CatalogueIs` | roles/galera_backup/files/galera_backup/storage/s3.py:333-350 | an entry of the catalogue is exactly a slash-free prefix of the cluster with the three objects, whose metadata names the cluster, a supported format and a non-negative integer time |
| `Cidr.AndNetmask` | playbooks/filter_plugins/mariadb_accounts.py:37-40 | address and netmask combined bit by bit give the base of the block |
| `Cidr.MaskMatchesBlock` | playbooks/filter_plugins/mariadb_accounts.py:37-40 | the base/netmask form matches exactly the addresses of the block |
| `Cidr.NetOfIff` | playbooks/filter_plugins/mariadb_accounts.py:30-36 | an entry is refused strictly if and only if it is malformed or its address has bits below the prefix; its block is exactly the addresses that agree with it in the leading bits |
| `Cidr.NestedOrDisjoint` | tests/lab/probe-admin-isolation.py:58-63 | aligned blocks are nested or disjoint |
| `Cidr.SubnetIffContained` | tests/lab/probe-admin-isolation.py:58-63 | the comparison of bases and last addresses is containment |
| `AccountHosts.AccountHostPatterns` | playbooks/filter_plugins/mariadb_accounts.py:23-48 | all or nothing, no duplicates: accepted if and only if no entry is malformed, has host bits or is an IPv6 network wider than one address; and an address is admitted if and only if it agrees with some entry in its leading prefix bits |
| `AdminIsolation.SwallowedIsWhollyAdministrative` | tests/lab/probe-admin-isolation.py:52-71 | a verdict of swallowed means that every address of some application network may administer |
| `AdminIsolation.WhollyAdministrativeIff` | tests/lab/probe-admin-isolation.py:38-71 | a network is wholly administrative if and only if one administration network contains it or several smaller ones cover it |
| `AdminIsolation.CoveredIff` | tests/lab/probe-admin-isolation.py:38-71 | a network is wholly administrative if and only if one administration network contains it or its two halves are covered, each in the same sense |
| `AdminIsolation.VerdictIsRightIff` | tests/lab/probe-admin-isolation.py:38-71 | the verdict is right, that is, it says inexpressible exactly when some application network is wholly administrative, if and only if one application network lies in a single administration network or none is covered by several; both are read off the declarations |
| `AdminIsolation.VerdictIsRightForAllIff` | tests/lab/probe-admin-isolation.py:38-71 | for the other reading, that all application networks together are administrative, the verdict is right if and only if some network lies in a single administration network exactly when all are covered |
| `AdminIsolation.HalvesAreMissed` | tests/lab/probe-admin-isolation.py:42-45 | where that condition fails: an application network declared administrative by its two halves is called expressible, against the function's own documentation |
| `AdminIsolation.HostIsAdministrativeIff` | tests/lab/probe-admin-isolation.py:73-86 | on the entries: true if and only if some entry has the address in its leading bits and none before it is malformed, an error if and only if a malformed one comes first |
| `AdminIsolation.VerdictMeans` | tests/lab/probe-admin-isolation.py:38-71 | the verdict on the entries: undeclared if a list is empty, an error for malformed entries or two IP versions, swallowed if and only if all addresses of one application entry are addresses of one administration entry |

## Left out

- Subprocesses, mariadb-backup, tar, openssl, the MinIO SDK, mount, findmnt, signals and sockets: each is a call whose answer the schedule gives.
- AES, GHASH, PBKDF2 and SHA-256: function parameters. The refusal of forged files is stated for files whose tag does not verify by accident (`Container.NotForged`).
- Failures of the event log, and signals that arrive between two statements: with a failing log the handlers promise less.
- Assumptions on the store: a put takes effect during its call or never, objects are replaced as a whole, listings are consistent and lexicographic, each backup name is published at most once, and small metadata files and downloads arrive as stored when the call returns (the payload is not trusted: it is read back).
- The clean-up's refusal of a listed key outside its prefix is not modelled: the listing of a prefix returns only keys under it. A local metadata file that cannot be opened is treated like one that does not parse.
- The checksum object is not read back by the source, so its bytes are not part of what a verified backup promises.
- What happens when the mount under the filesystem backend is exchanged between two identity checks; the checks themselves are calls that may fail. Nested directories inside a backup directory, symlinks, modes and SELinux contexts.
- A rerun after an interrupted removal of a filesystem tree: a directory that has lost its metadata is deliberately never removed by retention.
- Donor uniqueness when nodes see different ProxySQL views: the code does not promise it.
- Failures before the lock is requested (configuration, secrets, lock directory): best-effort records without further state.
- `BackupRun.Runner.RunBackup`: archiving, hashing, encryption and metadata are one call there (`Pack`); the encryption is `Crypto`.
- `RestoreRun.Restore.RunRestore`: the steps of the verification queries are one call in the schedule; what they ask is `RestoreChecks.VerifyRestoredDatabase`.
- A state file that is not valid UTF-8: its read raises an error without a code, which is not E_STATE; unreadable state files are E_STATE in the model of both runs.
- The removal of a tree is by path: that an open directory can be emptied after it was renamed is not modelled, nor directories inside a backup directory.
- `Redactor.RedactedHasNoSecret`: for several secrets the condition is sufficient, not necessary; the exact condition is proved for one secret (`RedactorExact.SingleSecretExact`), where some that overlap the marker, such as `[x[`, never reappear.
- `Crypto.Crypto.DecryptPayload`: for the oldest format the external program decides alone; its tag-free mode is not modelled.
- `Locking.LockManager.Acquire`: states one process's acquire on an idle manager; the source would overwrite a held descriptor, which no caller does.
- `Smb.SMBBackend.Preflight`: starts from a backend that has not been used, as every caller does.
- `RestoreRun.Restore.StopServer`: a kill that fails after the timeout is not told apart from the timeout itself; the source emits a second event.
- CIDR text parsing: entries come as an address with a prefix length, or as malformed.
- Restore steps after the data directory is cleared: copy-back, ownership and server start are calls; version text is parsed by a parameter.
- Drill-marker field checks, metric text, name truncation, configuration and secret file parsing, the CLI, Ansible, Terraform, dashboards and lab scripts other than the CIDR functions: reporting, or members that would only be easy.
