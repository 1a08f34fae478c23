# DFSha, verified model

DFSha is a distributed file system: control nodes keep metadata and hand out grants, DataNodes keep encrypted
blocks, clients move the bytes. This project models its three connected machines in Dafny and proves what they keep.

- **The access machine** (`Tables`, `Steps`, `Progress`, `Leases`, `Handles`, `Commits`, `Writes`, `Prepare`, `Blocks`,
  `Manifest`, `Uploads`, `Staging`, `Publishing`, `Maintenance`, `Runs`, `Commands`, `Files`). A `Transaction` holds the metadata
  tables; each command is a method on it and one atomic step. One invariant, `Tables.Inv`, holds in every reachable
  state; `Tables.Evolves` says what no step undoes; `Commands.History` draws from both what holds over every sequence of
  commands, performed on a new file system. The centre is the clause `WriteOk`: as long as the handle and the
  locks of a prepared write are live, the file still is what the write was prepared on. Every publication is shown to
  respect it (`Steps.Respects`), so the base and size checks of `CommitWrite` are dead code under live fences, and what
  `CommitWrite` publishes is the current content with the delta spliced in.
- **The metadata store** (`Pages`, `Unit`, `Publication`, `Leadership`, `Keys`, `Retention`, `Ledger`). Byte strings
  become trees of content-addressed pages; a unit of work overlays a root of shards and flushes its changes into pages;
  many writers publish roots over a network that delivers any request any number of times while leases run out at any
  step; leaders install generations; an offline sweep deletes unreachable pages; retried requests are answered from a
  ledger.
- **The block data path** (`Bytes`, `Layout`, `Splitting`, `Patch`, `Reading`, `Container`, `Storage`). The streaming
  loops of client and DataNode equal slices and splices, and a DataNode's reservations bound its inventory.

Where a check of the source is proved never to fail, the model's method has `assert false` in that branch.

Three properties hold only under a condition, which is proved in both directions:

- A commit that was applied can be reported as `VERSION_CONFLICT`: its marker lives by the gate lease, so the verdict
  is right exactly as long as that lease lives (`Publication.VerdictOnApplied`; `Publication.FalseConflict` is such a run).
- A deposed maintenance owner can still publish. The guard that `tick` requires and the one that `lease_live` sets when
  a unit consults the maintenance record are on the same key, and the second overwrites the first. So a unit gets
  through under the record's owner if it has consulted the record, and under its runner if it has not
  (`Leadership.GetsThroughExactly`). A deposed owner's unit gets through exactly if it has consulted the record of the
  owner that leads now (`Leadership.DeposedPublishesExactly`; `Leadership.DeposedPublishes` is such a run); its tasks then
  bear that owner's generation. Installs, and units that never consult the record, are never a deposed owner's.
- A DataNode keeps within its capacity over a crash if no object was abandoned, that is, if no object was stored whose
  inventory transaction failed and whose reservation was given back. Recovery takes such an object in later, and the
  node then is within capacity exactly if the inventory and the readable unlisted objects fit
  (`Storage.DataNode.CrashAndRecover`; `Storage.Overcommit` is a run with real objects in which they do not).

Idealisations: hashing is injective, so a digest is written as what it was taken of (`BlockRef.plain`, `Pages.Page`,
`Unit.Blob`); sealing opens only what was sealed, where it was sealed; encodings are injective; `uid()` never repeats,
so it is a counter; etcd is one linearizable key-value store with revisions and leases; a SQLite transaction is one
step; one monotone clock serves all leases of the access machine. Products and quotients by a block size are written
`Mul`, `Div`, `Mod` and tied to the operators by `Bytes.DivIs`.

## Model

| member | source | states |
|---|---|---|
| Layout.PatchIsSplice | src/dfsha/control/access.py:340-369 | replacing the touched blocks of a well formed manifest gives a well formed manifest whose bytes are the old bytes with the delta at its offset |
| Layout.ContentBlock | src/dfsha/control/monolith.py:277-283 | a well formed manifest spells exactly total bytes, its sizes add up to it, and block i spells the bytes from i times the block size on |
| Layout.ContentAt | src/dfsha/control/access.py:50-60 | byte k of the file is byte k mod size of block k div size |
| Bytes.DivIs | src/dfsha/control/access.py:233-236 | the counting quotient and remainder are the source's // and % |
| Splitting.SplitDelta | src/dfsha/client/access.py:120-130 | the client's loop cuts a payload into exactly the parts the range shares with each block |
| Splitting.CheckParts | src/dfsha/control/access.py:230-238 | the control accepts a list of parts iff it is that one partition and has at most five parts |
| Patch.CollectDelta | src/dfsha/datanode/patch.py:62-68 | the delta is accepted iff the frames spell the announced bytes in order |
| Patch.ClientFrames | src/dfsha/client/access.py:143-146 | the client's frames of a piece spell it, so the node accepts them |
| Patch.ResultChunks | src/dfsha/datanode/patch.py:75-101 | for every cutting of the base, the stream fails iff some byte of the result would come from nowhere, and otherwise is the delta laid over the base, cut at full chunks |
| Patch.AuthorizedSize | src/dfsha/datanode/patch.py:88-98 | for the size the control authorizes and an offset inside the base, the overlay is the plain splice, so the sparse check never fires and no padding is left |
| Reading.ResolveBlocks | src/dfsha/control/access.py:42-68 | each page of a plan is the next slice of the grants that the range needs; the cursor and limit checks are exact |
| Reading.GetBlock | src/dfsha/datanode/service.py:299-328 | however the stored records cut a block, the frames sent are exactly the asked slice |
| Reading.ResumeGrant | src/dfsha/client/access.py:101-108 | after a break in mid-stream, the fresh plan is one grant of the same block for exactly the missing bytes |
| Reading.ReadGrant | src/dfsha/client/access.py:67-110 | a grant is read to its end iff its streams break at most twice, each time with an error that is retried, a node left and bytes still missing; the bytes yielded are its slice, and otherwise a prefix |
| Reading.IterRead | src/dfsha/client/access.py:58-113 | a read succeeds iff range and limit are sound and every grant is read to its end, in particular if no stream breaks; it then has yielded exactly the bytes of the range, for any page limit and any cutting into records; one that fails has yielded a prefix |
| Files.Read | src/dfsha/control/access.py:14-68 | a read through a live readable handle succeeds iff range and limit are sound and every block of the range can be reached through its breaks; it then has yielded the bytes of the handle's own snapshot in the range, cut at the end of the file |
| Files.Reached | src/dfsha/client/access.py:58-113 | every read of a live handle whose streams do not break gets through |
| Container.Put | src/dfsha/datanode/blocks.py:85-125 | a block is stored iff its chunks spell the announced bytes; the object's size is the block's, the header's and one frame for each chunk |
| Container.FullChunksFit | src/dfsha/control/distributed.py:16-17 | with full chunks the object fits the reserved cost iff its header has at most 4084 bytes |
| Container.MadeFits | src/dfsha/datanode/blocks.py:85-125 | every object that put makes of a full-chunk stream fits the storage cost of its block |
| Container.ReadVerified | src/dfsha/datanode/blocks.py:132-175 | plaintext is released iff every record opens in its place and all of them are the asked block |
| Container.PutThenRead | src/dfsha/datanode/blocks.py:85-175 | what put seals opens again, record by record, as the same chunks |
| Storage.DataNode.Reserve | src/dfsha/datanode/service.py:231-236 | a write is let in iff nobody reads or writes the block, used, reserved and its cost fit the capacity, and the disk has room to spare; inventory and outstanding reservations stay within capacity |
| Storage.DataNode.PinReader | src/dfsha/datanode/blocks.py:69-83 | a reader gets its pin iff no write is at work on the block |
| Storage.DataNode.Persist | src/dfsha/datanode/service.py:266-275 | an object reaches the disk iff the frames are full chunks that spell the block and there is no object yet; it is the object that put makes, and is covered by its reservation |
| Storage.DataNode.Place | src/dfsha/datanode/blocks.py:109-112 | so is a copy, whose object its source node made |
| Storage.DataNode.Record | src/dfsha/datanode/service.py:281-283 | counting an object in the inventory instead of as a reservation keeps the bound |
| Storage.DataNode.Finish | src/dfsha/datanode/service.py:285-287 | the reservation is given back however far the write came, and the bound holds |
| Storage.DataNode.DeleteRetired | src/dfsha/datanode/service.py:495-508 | a retired block is deleted iff nobody reads or writes it and its recorded receipt, if any, is the expected one |
| Storage.DataNode.SetAside | src/dfsha/datanode/service.py:384-394 | a quarantined copy leaves the inventory but its bytes still count |
| Storage.DataNode.CrashAndRecover | src/dfsha/datanode/service.py:84-128 | recovery takes in every readable unlisted object; the node stays within capacity if no object was abandoned, and in general iff the inventory and those objects fit |
| Storage.Overcommit | src/dfsha/datanode/service.py:264-287 | a run with objects that put makes, in which a failed inventory transaction and a crash leave more bytes inventoried than the capacity |
| Tables.EvolvesTransitive | src/dfsha/control/replication.py:199-204 | what steps never undo is not undone by runs: tombstones, receipts, recorded blocks, snapshots, identifiers |
| Steps.LeaseStep | src/dfsha/control/leases.py:36-66 | time, expiry, renewal and new locks that fit keep the invariant |
| Steps.PublishStep | src/dfsha/control/access.py:365-374 | publishing a well formed snapshot that no fenced write is in the way of keeps the invariant |
| Steps.CreateStep | src/dfsha/control/commands.py:254-266 | publishing the first snapshot of a new file keeps the invariant |
| Steps.RemoveStep | src/dfsha/control/commands.py:51-57 | removing a file with no prepared write left keeps the invariant |
| Progress.EnterStep | src/dfsha/control/access.py:321-326 | recording an operation on held locks keeps the invariant |
| Progress.StoreStep | src/dfsha/control/patch_authority.py:70-72 | recording a stored block and its receipt keeps the invariant |
| Progress.RetireStep | src/dfsha/control/replication.py:309-311 | retiring blocks that nothing can reach keeps the invariant |
| Leases.FenceFault | src/dfsha/control/leases.py:74-85 | a fence is accepted iff it still is its lock, of this session, and the lock is live |
| Leases.Acquire | src/dfsha/control/leases.py:48-66 | a lock is granted iff no live lock of another owner on the file clashes with it, under a new identifier and generation |
| Leases.GrantedLock | src/dfsha/control/leases.py:58-66 | a granted lock is live, as wide as was asked for, and of a generation of its own; nothing else changes |
| Leases.ReleaseOperation | src/dfsha/control/leases.py:87-99 | the operation leaves each lock that lists it, its automatic ones go and its handle is free; every other lock and handle is as it was |
| Leases.Transaction.Tick | src/dfsha/control/leases.py:36-37 | time passing keeps the invariant |
| Leases.Transaction.Restart | src/dfsha/control/leases.py:19-34 | a restart starts a new epoch with no lock, no live handle and no prepared operation |
| Publishing.LiveLocksApart | src/dfsha/control/leases.py:48-57 | in every reachable state live locks of different owners on one file do not clash |
| Handles.WritableHandle | src/dfsha/control/access.py:14-33 | a live handle's snapshot is always there, and a writable handle's file has only grown since, in the same block size and epoch |
| Handles.Open | src/dfsha/control/access.py:104-156 | open succeeds iff the quotas, the mode, the name, the policy and the file's locks allow it; the new handle can be used at once in its mode, and stands for the file's current snapshot, found, emptied in the next content epoch, or made under the configured policy; nothing else changes |
| Handles.Truncate | src/dfsha/control/access.py:126-143 | truncation is published iff no live lock is on the file, and leaves no lock behind |
| Handles.TruncationFences | src/dfsha/control/access.py:26-33 | no handle opened before a truncation can write any more |
| Handles.RenewHandle | src/dfsha/control/access.py:158-166 | exactly a live handle is renewed, up to its maximum |
| Handles.Close | src/dfsha/control/access.py:168-179 | a free handle closes and exactly its locks go; closing again changes nothing |
| Handles.LockFile | src/dfsha/control/access.py:181-194 | an explicit lock is granted iff the handle can write, is free, the range is sound and no other owner's live lock clashes; it is live, on the whole file with its size or on just the blocks that share a byte with the range, and nothing else changes |
| Handles.TouchedBlocks | src/dfsha/control/access.py:189-192 | a range lock names exactly the blocks that share a byte with the range |
| Handles.RenewLock | src/dfsha/control/access.py:196-201 | exactly a held lock of a writable handle is renewed |
| Handles.Unlock | src/dfsha/control/access.py:203-207 | a held lock goes iff no operation relies on it |
| Prepare.CheckBegin | src/dfsha/control/access.py:220-250 | the checks of BeginWrite but for the locks, exactly |
| Prepare.AddExplicit | src/dfsha/control/access.py:251-257 | the handle's live explicit locks count even if their fences were not sent |
| Prepare.CoverAll | src/dfsha/control/access.py:258-261 | one automatic lock covers exactly what is lacking, and is granted iff it clashes with no other owner |
| Prepare.BeginWrite | src/dfsha/control/access.py:220-332 | a write begins iff every check passes, its missing locks can be had and its replacements are placed; it then is fenced on every block it touches and on the size if it grows the file, and passes every check that its reports and its commit make of it; a write of nothing is finished at once |
| Blocks.NoHole | src/dfsha/control/access.py:226-236 | a part of a prepared write starts inside its base or right behind it |
| Blocks.PatchBlock | src/dfsha/datanode/patch.py:75-109 | the patched block is the base with the share of the delta written over it, for any records |
| Blocks.VersionOwner | src/dfsha/control/patch_authority.py:8-20 | a reported replacement is what every prepared operation waiting for that version wants |
| Blocks.ReportPatch | src/dfsha/control/patch_authority.py:45-74 | a patched block is recorded iff the write still is fenced and its base was read undamaged; it then is located at the node and has its receipt, and nothing else changes |
| Commits.FencedWriteCannotConflict | src/dfsha/control/access.py:334-364 | while its fences are live, nobody has changed a write's blocks, its content epoch or, if it grows the file, the size |
| Commits.RivalsApart | src/dfsha/control/access.py:258-261 | two fenced writes on one file touch different blocks, and at most one of them grows it |
| Commits.ReadySnapshot | src/dfsha/control/access.py:363-370 | the next snapshot is well formed and spells the current content with the delta spliced in |
| Commits.ReadyPublishable | src/dfsha/control/replication.py:211-227 | its blocks are all recorded and as durable as the policy asks |
| Commits.ReadyRespects | src/dfsha/control/access.py:340-374 | publishing it leaves every other fenced write uncontested |
| Writes.ValidateFences | src/dfsha/control/access.py:216-217 | the fences are accepted iff all of them are held |
| Writes.ApplyChanges | src/dfsha/control/access.py:340-362 | the commit loop accepts iff each change is the stored, durable replacement, never finds a replaced base, and yields the current blocks with the changes put in |
| Writes.CommitWrite | src/dfsha/control/access.py:334-380 | a write commits iff MayCommit, which has no base or size condition; the file then shows a new snapshot that spells the current content with the delta spliced in, even if the handle's base is older; the handle stands for that snapshot, one revision on, and is free; the operation is committed and has let go of its locks; nothing else changes |
| Writes.AbortWrite | src/dfsha/control/access.py:382-390 | an unpublished write is aborted and has let go of its locks and its handle; nothing else changes |
| Runs.BothSurvive | src/dfsha/control/access.py:220-380 | of two fenced writes begun from whatever snapshots, publishing one and then the other leaves both deltas in the file |
| Runs.BlocksApartBytesApart | src/dfsha/control/access.py:230-238 | writes that touch no common block touch no common byte |
| Runs.RetiredUnreachable | src/dfsha/control/monolith.py:388-407 | no live file, live handle or prepared operation can reach a retired block, and no location of it is known |
| Runs.TombstonesAreFinal | src/dfsha/control/replication.py:199-204 | over every run a retired block never is recorded, located or published again |
| Runs.SnapshotsStay | src/dfsha/control/access.py:365-370 | over every run a kept snapshot spells the bytes it always spelled |
| Runs.HandlesRead | src/dfsha/control/monolith.py:388-400 | a live handle's snapshot is kept, well formed, and all of its blocks are recorded |
| Runs.DurabilityLasts | src/dfsha/control/replication.py:186-216 | over every run, each block of a file's current snapshot keeps receipts in as many failure domains as the file's first policy asks, whatever policies follow; no receipt is lost |
| Commands.PerformAll | src/dfsha/control/access.py:81-445 | any commands, in any order and with any arguments, make a run: each state keeps the invariant and evolves from the one before |
| Commands.History | src/dfsha/control/monolith.py:367-408 | over every sequence of commands on a new file system, tombstones are final, kept snapshots spell the same bytes, blocks stay as durable as first asked, and live locks never clash |
| Manifest.Assemble | src/dfsha/control/monolith.py:277-283 | the right number of staged pages always assembles into exactly the allocated blocks in order; the length, sum and index checks cannot fail |
| Uploads.BeginUpload | src/dfsha/control/access.py:392-404 | an upload begins iff quotas, size, name, expected snapshot, policy and locks allow it; it is recorded on the file as it is, holding the whole file alone, and a new file gets the configured policy |
| Publishing.BegunUploadGoesOn | src/dfsha/control/commands.py:177-192 | an upload may go on as soon as it is begun, and its policy stands |
| Staging.UploadFault | src/dfsha/control/commands.py:177-192 | an upload may go on iff it is this session's, prepared and not past its deadline, the file still shows the snapshot it is to replace, and its whole-file fence is held |
| Staging.HeldUpload | src/dfsha/control/access.py:406-411 | an upload that may go on holds a live lock on its whole file |
| Staging.AllocateBlocks | src/dfsha/control/commands.py:200-220 | blocks are allocated iff all announcements fit the file and agree with each other and with earlier ones; repeating one gives the same version |
| Staging.ReportPut | src/dfsha/control/distributed.py:339-370 | an allocated block is recorded iff the upload may go on and the block has the announced length; it then is located at the node and has its receipt, and nothing else changes |
| Staging.StagePage | src/dfsha/control/commands.py:222-235 | a page is staged iff it is complete and lists allocated, stored blocks in order; the upload then has it, and nothing else changes |
| Staging.SealManifest | src/dfsha/control/commands.py:237-247 | a manifest is sealed iff all of its pages are staged, the client's counts and its listing are the control's, and the content was verified |
| Publishing.CommitUpload | src/dfsha/control/access.py:421-433 | an upload is published iff MayPublish; the file then shows a new snapshot of the announced size, whose i-th block is the i-th announced one; the upload is committed and its lock gone; nothing else changes |
| Publishing.UploadedContent | src/dfsha/control/commands.py:249-272 | the published snapshot is well formed, of the announced size, and its i-th block is the i-th announced one |
| Publishing.UploadRespects | src/dfsha/control/access.py:406-411 | no fenced write is on the file of an upload that may go on |
| Publishing.AbortUpload | src/dfsha/control/access.py:435-438 | an unpublished upload or write is aborted and has let go of its locks and its handle; nothing else changes |
| Publishing.RenewUpload | src/dfsha/control/access.py:413-419 | exactly an upload that may go on is kept alive |
| Maintenance.EndAll | src/dfsha/control/distributed.py:240-245 | prepared operations are aborted in bulk, and nothing else changes |
| Maintenance.ReleaseAll | src/dfsha/control/access.py:440-445 | releasing operations one by one is releasing them all at once |
| Maintenance.Remove | src/dfsha/control/commands.py:41-58 | removal marks the file as gone, aborts what is prepared for it and lets what is over go of its locks; snapshots, blocks and everything else stay for open handles |
| Maintenance.Promote | src/dfsha/control/replication.py:101-116 | a promotion asks for three copies, two durable, under the next revision, and aborts what was prepared under the old one; repeating it changes nothing unless it is stuck |
| Maintenance.SettlePromotion | src/dfsha/control/replication.py:425-432 | only the barrier of the policy changes |
| Maintenance.ConfirmCopy | src/dfsha/control/replication.py:199-204 | a copy is recorded iff its block is known and not retired; the block then is located at the node and has its receipt, and nothing else changes |
| Maintenance.Collect | src/dfsha/control/monolith.py:367-408 | a prepared operation expires iff it is not live; a live one stays as it is, with every lock that lists it, its handle and its blocks, and so does a live handle with its snapshot; dead handles close; what is left of snapshots and blocks is exactly what these, live files, retained snapshots and copy tasks need |
| Maintenance.CollectIsExact | src/dfsha/control/monolith.py:388-407 | what is left are exactly the pinned or retained snapshots and the blocks that these, a prepared operation or a copy task need; every operation still prepared is live |
| Pages.TreeSpells | src/dfsha/control/etcd_metadata.py:148-154 | the tree of a byte string of any length spells it |
| Pages.TreeInjective | src/dfsha/control/etcd_metadata.py:117-119 | equal bytes have equal digests, and only those |
| Pages.TreeBounded | src/dfsha/control/etcd_metadata.py:117-118 | every page fits the page limit and no inner page has more than 64 children |
| Pages.GroupsShrink | src/dfsha/control/etcd_metadata.py:152-153 | grouping shrinks a level, so the loop ends |
| Pages.PageStore.CachePut | src/dfsha/control/etcd_metadata.py:107-115 | the entry becomes the newest and the oldest go, as many as have to; the cache holds stored pages only, and its counter is the sum of its entries |
| Pages.PageStore.Evict | src/dfsha/control/etcd_metadata.py:113-115 | one entry goes, and the counter with it |
| Pages.PageStore.PutPage | src/dfsha/control/etcd_metadata.py:117-130 | a cached page needs no writing and any other joins the unit, iff it is not too long and the unit is not once it has joined |
| Pages.PageStore.Blob | src/dfsha/control/etcd_metadata.py:148-154 | the result is the tree of the bytes, and the unit takes in exactly those of its pages that are not cached; it fails iff the unit's bytes then exceed the limit |
| Pages.PageStore.Persist | src/dfsha/control/etcd_metadata.py:132-146 | if every batch gets through, every page of the unit is stored, and there are at most as many batches as pages; in any case nothing stored is damaged |
| Pages.PageStore.PutBatch | src/dfsha/control/etcd_metadata.py:134-139 | a batch has at most 32 pages and 524288 bytes |
| Pages.PageStore.ReadBlob | src/dfsha/control/etcd_metadata.py:156-170 | reading succeeds iff every page of the tree is stored unaltered, and then spells it |
| Pages.PageStore.SaveAndLoad | src/dfsha/control/etcd_metadata.py:148-170 | reading undoes blob for every byte string; it fails only if the unit has no room for the tree or the store cannot be reached |
| Unit.EtcdUnit.Get | src/dfsha/control/etcd_metadata.py:282-288 | get sees pending changes over the root |
| Unit.EtcdUnit.All | src/dfsha/control/etcd_metadata.py:290-298 | all gives exactly the records of the kind that the unit sees |
| Unit.EtcdUnit.Put | src/dfsha/control/etcd_metadata.py:303-323 | a put is pending, in a write unit only |
| Unit.EtcdUnit.Delete | src/dfsha/control/etcd_metadata.py:328-334 | a delete is pending, in a write unit only |
| Unit.EtcdUnit.Flush | src/dfsha/control/etcd_metadata.py:336-350 | the new root is the old one with exactly the changed buckets put in: it holds the old map overridden by the pending changes, each identity in the shard of its hash, and changes that change nothing leave it as it was; the unit takes in exactly the flush's pages that are not cached, and it fails iff these are too many |
| Unit.FlushedLookup | src/dfsha/control/etcd_metadata.py:336-350 | the flushed root holds the base's map, overridden by the changes |
| Unit.FlushedReach | src/dfsha/control/etcd_metadata.py:336-350 | it reaches nothing but what the base's buckets reached and what the flush puts |
| Unit.EtcdUnit.FlushIsAccounted | src/dfsha/control/etcd_metadata.py:224-226 | so what a unit flushes is what publication lets it commit |
| Unit.EtcdUnit.Save | src/dfsha/control/etcd_metadata.py:132-146 | if the store has everything that the old root reaches and every batch gets through, it has everything that the new root reaches; in any case it keeps what it had; it fails only for want of room or of the store |
| Unit.EtcdUnit.constructor | src/dfsha/control/etcd_metadata.py:219-220 | a unit starts with the guards that its process requires |
| Unit.EtcdUnit.LeaseLive | src/dfsha/control/etcd_metadata.py:175-191 | a lease counts as live iff the unit puts it for this owner or read it as held by this owner; in the second case the owner becomes the guard on its key, in place of a required one |
| Publication.StepKeeps | src/dfsha/control/etcd_metadata.py:193-264 | every step of every writer, of the network and of expiry keeps the invariant |
| Publication.PublishedChain | src/dfsha/control/etcd_metadata.py:218-243 | the published roots are one chain: each is exactly its unit's changes applied to the root just before it |
| Publication.AdvancesOnce | src/dfsha/common/failover.py:17-54 | however often its commit is delivered, a unit advances the root at most once |
| Publication.NormalReturnMeansApplied | src/dfsha/control/etcd_metadata.py:242-249 | a unit that returns normally was applied, by the answer or by its marker |
| Publication.VerdictOnApplied | src/dfsha/control/etcd_metadata.py:243-247 | an applied unit's marker is recognised iff its gate lease still lives |
| Publication.VerdictOnRefused | src/dfsha/control/etcd_metadata.py:243-247 | a unit that was not applied never is taken for one that was |
| Publication.VerdictExactly | src/dfsha/control/etcd_metadata.py:243-249 | a unit that looks for its marker returns success iff it was applied and its gate lease lives |
| Publication.AnswerExactly | src/dfsha/control/etcd_metadata.py:242-249 | an answered unit returns success iff its commit went through, and looks for its marker otherwise |
| Publication.FalseConflict | src/dfsha/control/etcd_metadata.py:243-247 | a run in which an applied unit reports a conflict |
| Publication.FencesHeldThroughout | src/dfsha/control/etcd_metadata.py:175-191 | every lease that a unit finds live is held by the same owner, under the same lease, at every instant from then until its commit goes through |
| Publication.HeldSince | src/dfsha/control/etcd_metadata.py:313-319 | a lease key that bears a token which it could have had at an earlier instant has borne it ever since |
| Publication.CommitEffects | src/dfsha/control/etcd_metadata.py:231-242 | a commit that goes through puts and deletes exactly the lease keys that its unit put and deleted, publishes the root, leaves the marker, removes the previous one and frees the gate |
| Publication.ExpiryEffects | src/dfsha/control/etcd_metadata.py:227-236 | a lease that runs out takes with it exactly the keys that live by it |
| Publication.KeysChangeExactly | src/dfsha/control/etcd_metadata.py:231-242 | a lease key changes only by a commit that puts or deletes it, or by the end of its lease |
| Publication.LeaseIsRelied | src/dfsha/control/etcd_metadata.py:175-191 | a run in which one unit's commit puts a lease key, and another finds it held, relies on it and is published |
| Publication.PublishedPagesStored | src/dfsha/control/etcd_metadata.py:224-243 | over every run, every page that the current root or any published root reaches is stored, though a unit writes only pages that neither its base reaches nor its cache holds |
| Leadership.StepKeeps | src/dfsha/control/ha.py:128-177 | elections, expiries, and units that open, read lease keys and commit at any time keep the invariant; in it, the guard on the leader key is the runner's until consulting the record overwrites it |
| Leadership.GenerationsIdentifyOwners | src/dfsha/control/ha.py:147-165 | generations rise by one per new owner, each belongs to one owner and each owner to one |
| Leadership.TasksBearOneGeneration | src/dfsha/control/ha.py:95-105 | the records that published tasks bear agree on the owner exactly if they agree on the generation |
| Leadership.GetsThroughExactly | src/dfsha/control/ha.py:167-177 | a unit is published iff its root is current, its other guards hold and the leader key has the value of the record's owner, if the unit has consulted the record, and of its runner, if not |
| Leadership.InstallsLead | src/dfsha/control/ha.py:147-165 | each generation is installed by the owner that leads at that very instant |
| Leadership.DeposedPublishesExactly | src/dfsha/control/etcd_metadata.py:175-191 | from the instant its lease has run out, an owner's unit is published iff it has consulted the record of the owner that leads now; never a generation, never a unit that has not consulted the record |
| Leadership.DeposedPublishes | src/dfsha/control/ha.py:115-126 | a run in which a deposed owner's unit is published under its successor's generation |
| Keys.PrefixEnd | src/dfsha/common/etcd_probe_client.py:25-29 | the range from a prefix to its end holds exactly the keys with the prefix, also if the prefix is all 255 or empty |
| Keys.Successor | scripts/metadata_retention.py:105 | the cursor after a key skips that key and no other |
| Keys.Range | scripts/metadata_retention.py:92-95 | a limited range request gives the first keys of the range |
| Pages.IntactIsNodes | scripts/metadata_retention.py:64-75 | a tree is intact iff all of its pages are |
| Retention.Collector.Mark | scripts/metadata_retention.py:64-75 | marking adds exactly the pages of the tree and returns what it spells |
| Retention.Collector.MarkRoot | scripts/metadata_retention.py:82-87 | marking a root adds exactly the pages that reading any of its records can need; it gives up only if one of them is lost or too many are marked |
| Retention.Collector.ReachIsPublished | scripts/metadata_retention.py:82-87 | what marking follows from a root's digest are exactly the pages that publication counts as reached by it |
| Retention.Collector.Sweep | scripts/metadata_retention.py:88-107 | only unmarked page keys are deleted, even if the sweep stops; completed, none is left; it stops only if there are too many page keys or its transactions are refused |
| Retention.Collector.CollectPages | scripts/metadata_retention.py:42-110 | nothing that a root reaches is deleted, completed or not; completed, every page key left belongs to a reachable page; it stops only if a reachable page is lost, there are too many pages, or its transactions are refused |
| Ledger.Control.UnaryOnce | src/dfsha/control/monolith.py:189-228 | a known request is answered from the ledger and changes nothing; any other is executed and remembered at once, or leaves no trace |
| Ledger.Control.Serve | src/dfsha/control/monolith.py:91-111 | every attempt is answered as the ledger, the command and its luck at that instant say; over any attempts all answers to one identifier agree, and the tables are those of executing each request that took effect once |

## Left out

- Transport, TLS, certificates, startup, command line, telemetry, deployment and measurement scripts: plumbing without a property of its own.
- Identity, passwords, access lists, sessions' own expiry and rate limits: the methods model calls whose caller is permitted; a refused caller changes nothing.
- Directories, names and paths: a method takes the file that a path leads to, and whether a name is reserved or taken, as parameters; directory commands are not modelled.
- BeginRead and EndRead: a read's occupation of its handle is not modelled, so a handle is busy with writes only.
- Placement of replacements and copies: which nodes are chosen, their capacity at the control, copy tasks and their retries are one parameter saying whether a place was found; node health is a set of nodes given to each commit.
- Wall-clock deadlines of uploads, migration pins and blocks in use by copy tasks are parameters of the commands that look at them.
- Receipts' own fields: a receipt is its node; that the client sends back the recorded receipt is not compared.
- Skew between the clocks of several controls: the access machine has one clock, so exclusion of locks under skew is not claimed.
- The write-side limits of 48 guards and 262144 request bytes: a unit that exceeds them is refused before anything is sent.
- Publication does not need the gate for safety, so its model lets a unit read the root without holding it; fairness and waiting times are not modelled.
- Files.Read: the handle's occupation and the capability of each grant are not part of the contract, and the tables stay as they are while it reads.
- Reading.ReadGrant: a stream that breaks is given by the bytes that came through, not by the frames that carried them.
- Unit.EtcdUnit.Get: reading a bucket or a record does not fail here; that the pages are stored is Publication.PublishedPagesStored, that stored pages read back is Pages.PageStore.ReadBlob.
- Unit.EtcdUnit.All: does not state the order of the list, which is by identity.
- Unit.EtcdUnit.Put: does not model the granting of leases inside put, whose keys are effects of the commit in Publication.
- Maintenance.SettlePromotion: takes whether every useful block has its copies as a parameter.
- Staging.UploadFault: the parent directory, the reference that the client echoes and the fence that it sends along are not compared.
- Blocks.ReportPatch: which node a replacement was assigned to, and the sizes and digests of the stored object, are not compared.
- Handles.Open: the counts behind the quotas are a parameter, because users are not modelled.
- Uploads.BeginUpload: the same holds for its quotas; the parent directory is part of the name.
- Leases.Transaction.Restart: the collection that a restart runs beside it is Maintenance.Collect.
- Retention.Collector.CollectPages: the check that all processes are stopped and the renewal of the gate lease are not modelled; a lost gate is a transaction that fails.
