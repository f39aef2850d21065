# OpenVTL in Dafny

A model of six parts of `openvtld`, the daemon that runs virtual tape libraries, and
proofs about them. Outside tools (the bucket, targetcli, mtx and vtlcmd, SQLite, the
file system) are plain state changed by single effects; any effect may fail, most may
be the last before a crash. A crash is simply no further effect, so "every state of
every run" is "every crash point". Nothing was executed.

* **Export, evict, import** - `Names`, `Tar`, `Chunking`, `Manifests`, `ChunkStream`,
  `Pipeline`, `ChunkSizes`, `Runner`, `Chunker`, `Export`, `Evict`, `Import`, `Worker`.
  `Pipeline` is the durable state of one cart (directory, bucket, job rows with their
  chunk ledgers, catalog cache, the daemon's chunk size) and its twenty effects, each
  enabled by what the code has checked when it performs it. The other files are the
  program: methods and classes that may only commit enabled effects. Recoverability and
  resume correctness are proved over every run in which no change of the chunk size does
  harm - so over every run with one size - and carried to any life of the worker
  (`Workers.AnyLife`).
* **FC targets** - `Luns`, `Discovery`, `Fabric`, `Serving`: the LUN table, verification
  with its hard and soft verdict, additive repair, rebuild and ACL reconciliation, one
  targetcli command and one configfs read at a time.
* **device.conf** - `Text`, `ConfLines`, `ConfPatterns`, `DeviceConf`, `ConfEdits`, `LibraryPrinter`,
  `LibraryEdits`, `Sorting`, `Declarations`, `Allocation`, `LibraryConf`: printer,
  line parser, block-wise remover and allocator, all on text.
* **Changer** - `Changer`, `Contents`, `Shelves`, `CartOps`, `Labels`: where carts are,
  whose slot is whose home, the port transit, deletion, and the contents file.
* **Catalog** - `Keys`, `Catalog`: key printing and listing, and the cache rebuild.
* **Update** - `Update`: the updater's files at every crash point of an update and of
  its rollbacks.

`Options` holds the option type they share.

Classes keep the state the source updates in place; a `hist` field keeps every durable
state so far. A `faults` counter counts failures that come from outside
the program, so a contract can say both what holds whatever fails and that, with
nothing failing, the operation succeeds (and often exactly when). `Fabric` counts apart,
as `misreads`, the reads whose error the code drops and whose answer was wrong.

Where the code does not do what its comments or documentation promise, the code is
modelled and the exact condition is proved:

* a resumed export never compares the recorded chunk size with `-chunk-bytes`: when the
  published manifest still decodes to the tar (`Exports.RunExport`, for more than one
  change `Exports.Attempts`, `Chunking.ResumedStreamIntact`), when runs stay recoverable
  (`Pipeline.Recoverability`), and a run that loses the media
  (`ChunkSizes.CarelessRunLosesMedia`). Starting over is not enough by itself: a retry
  that clears its ledger overwrites the objects of a manifest an earlier attempt of the
  same job published (`Pipeline.PutChunkStep` says when that is harmless);
* an attempt that fails after its stream completed is never resumed
  (`Exports.RunExport`);
* a declared serial that starts with a zero is not always recognised
  (`Discovery.SerialExact`);
* a skipped configfs read makes a healthy port look wrong, and costs a rebuild
  (`Fabrics.Fabric.VerifyPort`, `Fabrics.Fabric.Ensure`, `Fabrics.LostLunInput`);
* the epoch stamp is written best effort, and truncated first, so a rebuild whose ports
  are all right can still be followed by a hard verdict: exactly when a stale stamp was
  left in place or the write was cut off (`Fabrics.Fabric.RebuildThenVerify`,
  `Fabrics.OldStampInput`);
* a failed additive repair is not reported: OK, which after a rebuild means that the
  configuration is saved too, then means it only if nothing failed
  (`Fabrics.Fabric.Ensure`);
* a drive block whose library is not declared is invisible to the allocator
  (`Allocation.CreateKeepsApart`), and the remover compares ids as text where the parser
  compares numbers (`ConfEdits.RemoveCommutes`, `ConfEdits.LeadingZeroSurvives`);
* unvaulting and loading from an I/E element can cost a cart its line in the contents
  file (`Shelves.UnvaultedListed`, `Shelves.LoadedListed`, with `Shelves.UnvaultInput` and
  `Shelves.LoadInput`), and a mint that fails after `load map`, or the transfer after it,
  took effect leaves a cart without media in the port, or in its slot (`CartOps.LiveLibrary.MintCart`, `CartOps.HalfMintInput`,
  `CartOps.CleanUpHalfMint`);
* the cache's primary key leaves the library out (`Catalogs.RebuildAgrees`,
  `Catalogs.SharedKey`);
* an update that stops after its backup, or whose best-effort last-good record is not
  written, leaves a rollback to the wrong pair (`Updates.UpdateThenRollback`,
  `Updates.AfterSaved`, with `Updates.EarlyStopInput` and `Updates.UnwrittenInput`); a failed
  restart with the old process still answering passes for a revert
  (`Updates.Disk.Settle`, `Updates.DeafRestartInput`); the removal of the database's log
  after a restore is not checked, and the pair is back whole exactly when the log did not
  survive (`Updates.Disk.Rollback`, `Updates.RollbackUntilDone`,
  `Updates.SurvivingLogInput`).

`dafny verify dfyconfig.toml` checks the whole project.

## Model

| member | source | states |
|---|---|---|
| Pipeline.Recoverability | openvtld/internal/export/evict.go:39-119 | Over every run of single effects of export, evict and import jobs and of restarts with any chunk size in which no change of that size does harm, from a cart with its media and nothing exported: every state reached - so every state a crash leaves - has the original files complete in place or a bucket manifest whose chunks decode and unpack to exactly those files |
| Pipeline.LedgerIsPrefix | openvtld/internal/export/export.go:115-245 | In every state of such a run each job's ledger is an exact prefix of the partition of the tar by the size its generation was cut with, every object it names present with its window's content, and every bucket manifest lists exactly the whole of its partition, whatever number of attempts was cut off wherever |
| Pipeline.OneSizeIsCareful | openvtld/internal/export/export.go:115-140 | A run during which -chunk-bytes never changes is one of those runs, so both theorems hold of every run of such a daemon |
| ChunkSizes.CarelessRunLosesMedia | openvtld/internal/export/export.go:122-140 | For every cart with a media file there is a run of enabled effects - one chunk of size 1 recorded, a restart with another size, the rest sent and the manifest published, the eviction gate passed, the media deleted - after which nothing can restore the files |
| Pipeline.InvPreserved | openvtld/internal/export/export.go:89-261 | Each of the twenty effects, performed when the code's own checks for it have passed and no recorded chunk is overwritten by one of another size, keeps the pipeline invariant (local media, chunk objects, ledgers, manifests, cache) |
| Pipeline.GoodManifestRestores | openvtld/internal/export/import.go:136-206 | Round trip: the chunks a finished manifest lists decode to the exported tar, which unpacks to the same names, metadata and bytes and passes the import's comparison |
| Pipeline.UpsertAppends | openvtld/internal/store/jobs.go:277-287 | Recording a chunk with a higher index appends its row to the ledger and leaves the other rows alone |
| Pipeline.UpsertPuts | openvtld/internal/store/jobs.go:277-287 | Recording any chunk puts its row in order, in the place of one of the same index if there was one, and keeps the others |
| Pipeline.RecordStep | openvtld/internal/store/jobs.go:277-313 | Recording the next chunk keeps the pipeline invariant and extends the ledger by exactly that row |
| Pipeline.PutChunkStep | openvtld/internal/export/export.go:155-168 | Uploading a chunk under a generation cut with the same size, or under one nothing is recorded of, leaves every ledger, manifest and cached manifest backed by the objects it names |
| Pipeline.PutManifestStep | openvtld/internal/export/export.go:227-250 | Uploading the manifest last, after the verify pass, adds only a manifest that lists the whole of its generation's partition |
| Pipeline.SwapStep | openvtld/internal/export/import.go:208-226 | Renaming the old directory aside, the verified one in, or the old one back keeps the pipeline invariant |
| Pipeline.ExtractedUnique | openvtld/internal/export/import.go:188-206 | A directory that was extracted from a good manifest's checked chunks and passed the comparison is the original media, hash collisions notwithstanding |
| Runners.Runner.Commit | openvtld/internal/export/runner.go:190-197 | One effect: applied whole or not at all, reported or not; a failure report may follow an applied effect; the history stays a run, and a sound state stays sound when the effect is harmless |
| Runners.Runner.Transition | openvtld/internal/store/jobs.go:206-231 | A job transition changes that job's state and nothing else, and touches neither the cart's directory nor the bucket |
| Chunking.CountBounds | openvtld/internal/export/export.go:137 | The chunk total is the rounded-up quotient: i is a chunk index exactly when its window starts inside the stream |
| Chunking.GlueAll | openvtld/internal/export/tarchunk.go:196-237 | The windows 0..n-1 glued together are the stream: nothing lost, nothing repeated |
| Chunking.ResumedStreamIntact | openvtld/internal/export/export.go:115-140 | A resume across a restart with another -chunk-bytes (never compared with the ledger), whatever is recorded, yields the original stream if and only if nothing was recorded, the size is unchanged, or both sizes cut the stream into just the chunks recorded; with more rows than new chunks it is refused |
| Chunking.ResumedStreamLosesBytes | openvtld/internal/export/export.go:123-129 | A five-byte stream with one two-byte chunk recorded, resumed with size three, decodes with a byte missing |
| Chunking.PiecesIntact | openvtld/internal/export/export.go:115-140 | Chunks cut with any number of sizes, as many as the last size makes: glued together they are the stream when every chunk starts where the one before it ended and the last ends it - and only then, if the size only ever went up or only ever down |
| Chunking.UpAndDown | openvtld/internal/export/export.go:122-140 | A size that went up and down: the seams do not fit, six equal bytes come out right and six different ones do not |
| Chunkers.Upload.Accept | openvtld/internal/export/export.go:151-178 | The sink uploads one chunk and then records it; on success the ledger is longer by exactly that row, on failure it is the old one or that; with nothing failing it succeeds |
| Chunkers.Chunker.constructor | openvtld/internal/export/tarchunk.go:144-146 | A new chunker, of any stream, any size and any skip count, has seen nothing and starts at chunk 0 |
| Chunkers.Chunker.CloseChunk | openvtld/internal/export/tarchunk.go:178-194 | Closing makes the result for the sink - current index, encoded frame, raw size, hash - and leaves no staging file open |
| Chunkers.Chunker.Take | openvtld/internal/export/tarchunk.go:207-237 | One turn of the write loop: bytes that fit the window are counted, and encoded when the chunk is not skipped; a full window is closed and handed out unless skipped, and the next starts empty; the state stays a function of the bytes seen |
| Chunkers.Chunker.Finish | openvtld/internal/export/tarchunk.go:240-255 | At the end of the stream exactly the chunks from the skip count on have been handed out, in order, and idx plus the open chunk is the stream's chunk count |
| Chunkers.CutStream | openvtld/internal/export/tarchunk.go:144-255 | Any stream in any pieces, cut with any size c and any skip count k, gives the sink exactly the chunks k, k+1, ... to the end: chunk i is the encoded window of c bytes from byte i*c on, the last one cut short; none when there are fewer; the loop terminates |
| Chunkers.ChunksAre | openvtld/internal/export/tarchunk.go:178-237 | Chunk i is the encoded bytes from i times the size on, a whole size of them or the rest, with their number and the hash of the encoded form |
| Chunkers.Write | openvtld/internal/export/tarchunk.go:196-237 | With the upload sink: after a successful write of any piece of the tar every finished chunk from the resume point on is uploaded and recorded; whatever happens the ledger only grows and the cart's directory is not touched |
| Chunkers.Close | openvtld/internal/export/tarchunk.go:240-255 | At the end of the tar the ledger has as many rows as the tar has chunks, or as many as it had if that is more |
| Tar.UnpackPack | openvtld/internal/export/tarchunk.go:71-110 | Unpacking a packed directory gives back its files in order, and reads to the last byte of the trailer |
| Tar.PackAligned | openvtld/internal/export/tarchunk.go:71-110 | The stream is a multiple of 512 bytes long: every member and the trailer fill whole blocks |
| Tar.UnpackTar | openvtld/internal/export/tarchunk.go:71-110 | The same for the tar of a whole cart directory |
| Tar.StagedAll | openvtld/internal/export/import.go:136-186 | Extracting all members leaves exactly the original files on disk |
| Tar.DrainsUnpacks | openvtld/internal/export/import.go:136-186 | A stream whose member loop ends at the end of the input unpacks without error |
| Names.List | openvtld/internal/export/tarchunk.go:30-51 | The file listing is the directory's names, ascending, each once |
| Names.AscendingUnique | openvtld/internal/export/tarchunk.go:30-51 | A set of names has only one ascending listing, so every attempt regenerates the same tar |
| Names.BeforeIs | openvtld/internal/export/tarchunk.go:45-49 | The order is byte order: the first difference decides, and a beginning comes first |
| Manifests.CompleteDecodes | openvtld/internal/export/import.go:275-359 | A complete row list over intact objects decodes to the whole stream and every object's hash checks |
| Manifests.MixedDecodes | openvtld/internal/export/import.go:275-359 | Rows cut with any sizes, their objects in place, decode to exactly those pieces of the stream, every hash checking |
| Manifests.StoredIs | openvtld/internal/export/export.go:210-225 | The stored total is the length of the objects behind the rows |
| Manifests.TwoSizesDecode | openvtld/internal/export/import.go:275-359 | With two sizes that is the resumed stream, and the tar if and only if the seam fits |
| Exports.StreamedTotalForcesRestart | openvtld/internal/export/export.go:115-140 | The total recorded before streaming (file bytes) is always smaller than the one recorded after it (tar bytes); `Exports.RunExport` draws the consequence |
| Exports.ComputeSum | openvtld/internal/export/export.go:103-106 | sumBytes is the sum of the listed sizes |
| Exports.MediaBytesIs | openvtld/internal/export/export.go:103-106 | The total asked for at a resume counts every file's size once: one file more adds exactly its size |
| Exports.StampsApart | openvtld/internal/catalog/manifest.go:94-100 | A job without a generation gets the same name from two clocks exactly when they agree; one that has a generation keeps it |
| Exports.ResumePoint | openvtld/internal/export/export.go:122-129 | skipUntil is the length of the longest run of rows 0,1,2,... |
| Exports.EnsureGeneration | openvtld/internal/export/export.go:108-113 | A generation is chosen once, named by the clock, and kept by every later attempt |
| Exports.EnsureLedger | openvtld/internal/export/export.go:115-140 | The ledger is kept, or cleared when the recorded total is not the file total; the skip count is its length afterwards |
| Exports.OpenMedia | openvtld/internal/export/export.go:89-102 | With nothing failing it succeeds exactly for an unmarked, non-empty cart directory, and lists it |
| Exports.Prepare | openvtld/internal/export/export.go:89-149 | The part before the first chunk: succeeds, nothing failing, exactly for resident non-empty media, and leaves the ledger at the resume point |
| Exports.CopyContent | openvtld/internal/export/tarchunk.go:88-98 | A file's content reaches the chunker whole and in order, in pieces of any size |
| Exports.WriteMember | openvtld/internal/export/tarchunk.go:71-110 | One file becomes header, content and padding at its place in the stream |
| Exports.WriteCartTar | openvtld/internal/export/tarchunk.go:71-110 | The whole tar is written and the manifest's file entries list every file with its size, mode, time and hash |
| Exports.Stream | openvtld/internal/export/export.go:180-197 | Regenerating the tar and uploading the missing chunks: the chunk total is the whole partition's, the rows kept stay cut with the old size and the rows added are cut with the present one |
| Exports.VerifyObjects | openvtld/internal/export/export.go:210-225 | The verify pass succeeds, nothing failing, exactly when every row's object is in the bucket at its recorded size, and then its sum is the length of those objects together |
| Exports.Seal | openvtld/internal/export/export.go:194-225 | Recorded total, ledger length and objects are checked before a manifest is written |
| Exports.Announce | openvtld/internal/export/export.go:243-261 | Manifest, then cache row, then cart row; on success all three are this manifest's |
| Exports.Publish | openvtld/internal/export/export.go:199-273 | A published export has its manifest, listing the ledger and the original files, in bucket and cache, the cart resident at that generation and the job done; nothing failing, it succeeds exactly when the ledger has as many rows as the stream had chunks |
| Exports.KeptRows | openvtld/internal/export/export.go:115-140 | On a sound history the rows an attempt resumes after are the first chunks of the tar by one size, their objects in place |
| Exports.Attempt | openvtld/internal/export/export.go:151-273 | From the resume point on, whatever sizes the rows kept were cut with: the published manifest decodes to the pieces those sizes and the present one make; with nothing failing it succeeds exactly when no more chunks are recorded than the present size makes |
| Exports.AnyExport | openvtld/internal/export/export.go:67-278 | One attempt on a ledger cut with any sizes, careful history or not: consecutive chunks from the resume point, the rows kept or all gone, the new ones cut with the present size; a ledger recorded under today's file total is kept and continued with the next window, any other cleared and the stream sent from its first; its manifest decodes to just those pieces; exact success condition |
| Exports.RunExport | openvtld/internal/export/export.go:67-278 | On a history without harm, whatever -chunk-bytes was before: consecutive chunks from the resume point, all the missing ones when it succeeds, and the ledger never shortened except to restart; its manifest decodes to the tar if and only if nothing was kept, the size is unchanged or both sizes make just the chunks kept; a fitting attempt keeps the history so; the manifest lists every file with its name, size, mode, time and hash, in byte order, and totals that are those of the tar, the decoded chunks and the objects; the job's states come in order; once the tar's total is recorded the next attempt starts over; nothing failing, it succeeds exactly for resident, non-empty media with no more chunks recorded than the present size makes |
| Exports.Attempts | openvtld/internal/export/export.go:115-278 | Any number of attempts of one job, each after a restart with another size: the published manifest's chunks are cut with sizes among those, and decode to the tar when every seam fits - and only then, if the size only ever went one way |
| Exports.AnnouncedAccounted | openvtld/internal/export/export.go:227-250 | An announced manifest is of version 2, lists one entry per file in byte order with that file's size, mode, time and hash, and its totals are the tar's length, the number of chunks and the length of their objects; the raw sizes add up to the decoded bytes |
| Exports.LedgerStored | openvtld/internal/export/export.go:207-225 | On a sound history the verify pass never fails by itself: what the ledger names is in the bucket at the recorded size |
| Evictions.ChooseGeneration | openvtld/internal/export/evict.go:42-57 | The job's generation, else the last exported one; nothing failing, it fails only when there is neither |
| Evictions.SizesAgree | openvtld/internal/export/evict.go:89-98 | True exactly when every listed file has the manifest's size, a missing one counting as size 0 |
| Evictions.Gate | openvtld/internal/export/evict.go:59-98 | The gate opens, nothing failing, exactly when the manifest decodes, all its objects are present at size, and the resident files have its sizes; an open one means version 2, at least one chunk, every object and every listed file at its size |
| Evictions.Pass | openvtld/internal/export/evict.go:59-98 | On a sound history an open gate means that generation restores the original media |
| Evictions.DeleteMedia | openvtld/internal/export/evict.go:107-116 | Exactly the data.*, indx.* and meta.* files go, one at a time, under the marker; at every point nothing else of the cart is missing or changed |
| Evictions.StubKeepsMam | openvtld/internal/export/evict.go:107-116 | The mam file is never among the deleted, every data., indx. and meta. file is |
| Evictions.RunEvict | openvtld/internal/export/evict.go:26-127 | The directory is never touched unless some bucket manifest restores the original files; at every point on the way only files called data.*, indx.* or meta.* are missing, the marker there and the rest unchanged; a finished eviction has kept a file exactly when it has none of those prefixes, and is of the job's generation, else the last exported one; nothing failing, it succeeds exactly for resident media and a generation the bucket holds |
| Evictions.BackedUp | openvtld/internal/export/evict.go:59-98 | On a sound history a manifest in the bucket restores the original files |
| Imports.FetchManifest | openvtld/internal/export/import.go:44-76 | Cache first, for this system's exports the bucket as fallback; nothing failing, it returns exactly the decodable manifest that rule picks, and caches it exactly when it came from the bucket |
| Imports.TakeMember | openvtld/internal/export/import.go:153-174 | One tar member read whole; on intact chunks with nothing failing it errs only where the archive is malformed |
| Imports.ExtractOne | openvtld/internal/export/import.go:153-182 | A member is staged under its own name with its bytes, and its size and hash are noted; a name with a slash or a non-file is refused |
| Imports.ExtractMembers | openvtld/internal/export/import.go:152-183 | The loop ends with the staging directory holding what the stream unpacks to |
| Imports.ExtractAll | openvtld/internal/export/import.go:127-186 | Extraction succeeds only after every chunk was opened and hash-checked; on intact chunks with nothing failing it does succeed |
| Imports.Verify | openvtld/internal/export/import.go:188-206 | True exactly when there are as many files as entries and every entry's file is there with its size and its hash |
| Imports.MatchesExactly | openvtld/internal/export/import.go:188-206 | With distinct names in the manifest, passing the comparison means the staged names are exactly the manifest's |
| Imports.MoveAside | openvtld/internal/export/import.go:208-216 | The old directory moves out of the way whole, or stays |
| Imports.Swap | openvtld/internal/export/import.go:208-226 | At every point of the renames the cart's path is the old directory in full, absent, or the verified new one; nothing failing, it ends as the new one |
| Imports.Admit | openvtld/internal/export/import.go:44-117 | The guards: the manifest is for this cart and comes from where its kind of import may take it, and no resident data is in the way unless the import was sent to a chosen library |
| Imports.FetchAndVerify | openvtld/internal/export/import.go:28-206 | What reaches the swap was extracted from the manifest's checked chunks and matches its names, sizes and hashes, whatever the bucket holds; an import that must be refused never gets there |
| Imports.RunImport | openvtld/internal/export/import.go:28-270 | For any bucket contents: whatever directory appears at the cart's path, at any point and at the end, is unmarked and holds exactly as many files as the manifest lists, each under its name, a plain one, with its size and hash; an import without generation or manifest, of another version or cart, over resident media, with a missing or spoilt chunk, or whose chunks unpack to a file of another size or hash does not end done and never touches the path; on a sound history a finished one is exactly the original media; the cart row gets the job's own generation, the states come in order, and nothing failing no leftovers stay and every import that can succeed does |
| Imports.NotRefused | openvtld/internal/export/import.go:28-206 | An admitted manifest whose chunks extract to its files is none of the refused: the guards let nothing of that list through |
| Imports.Bring | openvtld/internal/export/import.go:28-268 | Fetch, verify, swap, record: at every point the cart's path is the old directory in full, absent, or the verified new one |
| Tar.UnpackedPlain | openvtld/internal/export/import.go:153-174 | Whatever the stream, only regular files with plain names are taken, each with as much content as its header says |
| Imports.GoodImportable | openvtld/internal/export/import.go:28-206 | On a sound history every generation in the bucket can be imported |
| Imports.RestoredIsOriginal | openvtld/internal/export/import.go:188-226 | On a sound history a restored directory is the original media, unmarked |
| ChunkStreams.ChunkStream.DeliveredIsPrefix | openvtld/internal/export/import.go:275-347 | At any time the bytes delivered are a prefix of the concatenated decoded chunks |
| ChunkStreams.ChunkStream.Advance | openvtld/internal/export/import.go:288-309 | Opens the next chunk; end of stream exactly when none is left |
| ChunkStreams.ChunkStream.EndChunk | openvtld/internal/export/import.go:311-325 | Closes a chunk only after its whole object hashed to the manifest's value |
| ChunkStreams.ChunkStream.Read | openvtld/internal/export/import.go:327-347 | End of file comes only after every chunk was opened, decoded and hash-checked in order; the loop terminates; on intact chunks with nothing failing it never errs |
| ChunkStreams.ChunkStream.Finish | openvtld/internal/export/import.go:349-359 | Succeeds only when all chunks were opened and checked |
| ChunkStreams.TarReader.Next | openvtld/internal/export/import.go:142-150 | The next header is the one the remaining stream starts with after the padding owed; an end of input inside the padding is the end of the archive |
| Workers.RunJob | openvtld/internal/export/runner.go:135-186 | Finished jobs are left alone and touch nothing; a job ends done only with its work done - manifest announced, original media back, or stub left - and else failed or cancelled; with nothing failing it ends, and ends done when what it needs is in place; a safe one keeps the history sound |
| Workers.IsSafe | openvtld/internal/export/export.go:115-140 | Decides from what is on disk whether an export under the present -chunk-bytes fits what its generation was cut with; every other job is safe |
| Workers.Retry | openvtld/internal/api/jobs.go:265-306 | Only failed and cancelled jobs are requeued - an export as detected, the others as queued - with generation, total and ledger kept |
| Workers.Create | openvtld/internal/store/jobs.go:57-80 | A new job starts with no total and an empty ledger |
| Workers.AnyLife | openvtld/internal/export/runner.go:124-186 | Creates, retries, restarts with any chunk size and runs of all three kinds in any order, unsafe exports put off, each effect failing or the last before a crash: every durable state is recoverable and its ledgers and manifests exact |
| Discovery.SerialMatches | openvtld/internal/inventory/scsi.go:74-89 | Computes the matching relation on serials |
| Discovery.SerialExact | openvtld/internal/inventory/scsi.go:63-89 | The relation accepts exactly the documented presentations (zero padding in front, four digits behind) of a declared serial if and only if the serial does not itself start with a zero |
| Discovery.Expected | openvtld/internal/orchestrate/fc.go:179-227 | No declared library: an empty table without discovery; otherwise it is an error exactly when discovery failed, no declared library is live, or a live one lacks a drive; else every live library's changer and then each of its drives, in declaration order, each on the last discovered device of its type that answers with its serial, and nothing else |
| Discovery.ResolveIs | openvtld/internal/orchestrate/fc.go:196-212 | The device picked is a discovered one of that type that answers with the serial, and no later one does; none is picked exactly when none answers |
| Discovery.AnswersExact | openvtld/internal/inventory/scsi.go:63-89 | For a serial that does not start with a zero a device answers exactly when it is of the type and presents the serial in one of the documented forms |
| Discovery.LayoutLaid | openvtld/internal/orchestrate/fc.go:191-220 | The layout is an error exactly when a live library lacks a drive; otherwise it is complete and in declaration order: changer, then every drive, library after library, no other LUN |
| Discovery.HalfLibrary | openvtld/internal/orchestrate/fc.go:195-215 | A live library with a missing drive makes the whole table an error |
| Discovery.LayoutPlaced | openvtld/internal/orchestrate/fc.go:179-227 | Every LUN is on a discovered device of the right type that presents the serial declared for its place, and backstore names never repeat |
| Serving.EnsureDeclared | openvtld/internal/orchestrate/fc.go:179-227 | Discovery and reconciler together, written out: with nothing failing or misread it succeeds whenever there is a live library and none of the live ones lacks a drive, and then every serving port has exactly the LUNs of the live libraries in order, each on a device that presents the serial declared for that changer or drive, and every registered initiator is there exactly on its ports and sees exactly its libraries' LUNs; even misread, no such LUN or view is missing |
| Luns.MappedLuns | openvtld/internal/orchestrate/fc.go:231-239 | An initiator's mapped LUNs are exactly its libraries' LUNs - all of them without a scope - ascending |
| Luns.LiveMappedLuns | openvtld/internal/orchestrate/fc.go:333-344 | The live list is the directory's entries, ascending |
| Luns.SameLuns | openvtld/internal/orchestrate/fc.go:346-356 | Comparing the two lists compares the sets of LUNs |
| Luns.SameTable | openvtld/internal/orchestrate/fc.go:490-524 | Checking every expected LUN and then only the count compares the whole tables |
| Fabrics.Fabric.Tc | openvtld/internal/orchestrate/fc.go:70-76 | One targetcli command: its effect or none when it fails |
| Fabrics.Fabric.BuildAcl | openvtld/internal/orchestrate/fc.go:382-391 | A new ACL maps exactly the wanted LUNs; on failure it maps no others |
| Fabrics.Fabric.ReconcileRow | openvtld/internal/orchestrate/fc.go:377-417 | One registered initiator, its ACL read right, ends with its mapped LUNs; whichever command fails and whatever is misread it never gains a LUN outside its library scope; an ACL already right costs no command if and only if it was read right |
| Fabrics.Fabric.ReconcileAcls | openvtld/internal/orchestrate/fc.go:363-419 | With nothing misread all registered initiators end right, and nothing to do means no command; in any case unregistered ACLs are unchanged, and stopped at any command none has gained a LUN outside its scope |
| Fabrics.Fabric.VerifyAcls | openvtld/internal/orchestrate/fc.go:422-440 | Read right, it reports nothing exactly when every in-scope initiator has exactly its mapped LUNs; right views are reported exactly when misread; no report means every initiator in scope has at least its LUNs |
| Fabrics.Fabric.ReadLuns | openvtld/internal/orchestrate/fc.go:242-265 | The table read is part of the real one, a LUN whose link or device file cannot be read being skipped; it is the whole exactly when none was |
| Fabrics.Fabric.TableMatches | openvtld/internal/orchestrate/fc.go:500-516 | Read right, true exactly when the port carries the expected LUN table; a right table matches if and only if it was read right |
| Fabrics.Fabric.VerifyPort | openvtld/internal/orchestrate/fc.go:490-520 | One port: wrong beyond additive repair only for a wrong or a misread table; an exact port passes if and only if nothing failed or was misread |
| Fabrics.Fabric.Verify | openvtld/internal/orchestrate/fc.go:490-524 | OK means every port shows every initiator its LUNs, and with nothing misread that every port is exact on a fresh epoch; hard means a stale epoch, an existing port with a wrong table, or a misread; a healthy configuration passes if and only if nothing failed or was misread |
| Fabrics.LostLunInput | openvtld/internal/orchestrate/fc.go:242-265 | One port in order, its only LUN skipped by the reader: what was read is not the expected table, so the verdict is hard |
| Fabrics.Fabric.CreateFcTarget | openvtld/internal/orchestrate/fc.go:455-467 | A new target carries the whole table and no ACL, its attributes having been set |
| Fabrics.Fabric.LiveBackstores | openvtld/internal/orchestrate/fc.go:528-539 | Maps each backed device that can be read to a backstore on it |
| Fabrics.Fabric.EnsureStores | openvtld/internal/orchestrate/fc.go:549-559 | Every binding ends with a backstore on its device, reusing a live one under whatever name |
| Fabrics.Fabric.RepairPort | openvtld/internal/orchestrate/fc.go:560-570 | One port repaired; with nothing misread a port that exists with right ACLs costs no command |
| Fabrics.Fabric.StampEpoch | openvtld/internal/orchestrate/fc.go:305-311 | The stamp is the old one, the present epoch, or - the file being truncated before it is written - a beginning of it, and then stale |
| Fabrics.Fabric.EpochStale | openvtld/internal/orchestrate/fc.go:296-303 | An unreadable daemon epoch never reads as stale, an unreadable stamp always does; otherwise stale means a missing or another stamp |
| Fabrics.Fabric.RepairPorts | openvtld/internal/orchestrate/fc.go:560-570 | All ports repaired; with nothing misread healthy ones are untouched |
| Fabrics.Fabric.EnsureAdditive | openvtld/internal/orchestrate/fc.go:544-578 | Additive repair: never a clearconfig; with nothing misread no command to a healthy port, and on success every port without a wrong table before is exact |
| Fabrics.Fabric.Clear | openvtld/internal/orchestrate/fc.go:618-636 | One to three attempts: it stops at the first success, which leaves no target and no backstore, and fails only after three failures |
| Fabrics.Fabric.BuildPorts | openvtld/internal/orchestrate/fc.go:641-653 | One dead port does not stop the others: every port ends exact or, once swept, absent |
| Fabrics.Fabric.CreateStores | openvtld/internal/orchestrate/fc.go:638-642 | Every expected backstore exists on its device |
| Fabrics.Fabric.BuildPort | openvtld/internal/orchestrate/fc.go:644-654 | A port is built exactly or swept away |
| Fabrics.Fabric.Rebuild | openvtld/internal/orchestrate/fc.go:602-663 | When clearing and backstores succeed and each failed port is swept, every port ends exact or absent, so no table is wrong; the stamp is then stale exactly when it was cut off while written or a stale one was left in place; with nothing failing every port ends exact on a fresh epoch, every attribute set and the configuration saved last |
| Fabrics.Fabric.RebuildThenVerify | openvtld/internal/orchestrate/fc.go:490-663 | A rebuild whose ports were all built or swept and the verification after it, nothing misread: the verdict is hard if and only if the stamp was cut off while written or a stale one was left in place; so after a fresh stamp only a cut-off write makes it hard, and with nothing failing it is OK |
| Fabrics.OldStampInput | openvtld/internal/orchestrate/fc.go:288-311 | A port exact after a rebuild whose stamp could not be written: the older stamp makes the next verdict hard; so does a fresh stamp cut off while written again |
| Fabrics.Fabric.Ensure | openvtld/internal/orchestrate/fc.go:681-738 | Soundness: OK means every serving port shows every initiator its LUNs on the right devices, and read right that it is exact. Convergence: nothing failing or misread, one Ensure from any configuration ends OK. Least disruption: unless the epoch was stale, an existing port had a wrong table or something was misread, no clearconfig and no command to a healthy port; with all ports healthy and no command failing, nothing is sent if and only if nothing is misread; after a rebuild OK means saved too, after an additive repair only when nothing failed |
| Fabrics.SameIntent | openvtld/internal/orchestrate/fc.go:550-559 | Replacing backstore names by the live ones changes neither the table nor any initiator's LUNs |
| ConfLines.HeaderPrinted | openvtld/internal/inventory/mhvtlconf.go:38-39 | A printed block header matches its regular expression and gives back the id |
| ConfLines.TargetPrinted | openvtld/internal/inventory/mhvtlconf.go:40 | The printed TARGET is the one the target expression finds |
| ConfLines.FieldPrinted | openvtld/internal/inventory/mhvtlconf.go:41 | A printed field line gives back key and value |
| ConfLines.LibSlotPrinted | openvtld/internal/inventory/mhvtlconf.go:43-45 | A printed "Library ID" value gives back id and slot |
| ConfPatterns.HeaderIs | openvtld/internal/inventory/mhvtlconf.go:38-39 | A block header gives id d exactly when the line is the tag, blanks, d, and another blank |
| ConfPatterns.TargetAtIs | openvtld/internal/inventory/mhvtlconf.go:40 | The target expression matches at a place exactly when no word character stands before it and TARGET:, blanks and the digits follow |
| ConfPatterns.TargetFrom | openvtld/internal/inventory/mhvtlconf.go:40 | The target found is that of the leftmost place that matches |
| ConfPatterns.FieldIs | openvtld/internal/inventory/mhvtlconf.go:41 | A field line gives key and value exactly when it is blanks, a key of letters and spaces, a colon and a value; the key comes without trailing blanks |
| ConfPatterns.ValueIs | openvtld/internal/inventory/mhvtlconf.go:41 | The value is what stands between the blanks behind the colon; of nothing but blanks, the last one |
| ConfPatterns.LibSlotIs | openvtld/internal/inventory/mhvtlconf.go:43-45 | A "Library ID" value gives id and slot exactly when it is digits, blanks, Slot:, blanks and digits |
| Text.JoinSplit | openvtld/internal/inventory/libremove.go:73-100 | Splitting a file into lines and joining them is the identity, final newline or not |
| DeviceConf.RemoveBlocks | openvtld/internal/inventory/libremove.go:61-97 | The line loop with its buffer and flags computes the block filter |
| DeviceConf.ParseDevices | openvtld/internal/inventory/mhvtlconf.go:60-108 | The scanner loop with its two lists and cursor computes the block reading |
| DeviceConf.CarriageReturns | openvtld/internal/inventory/mhvtlconf.go:60-63 | A file with carriage returns at its line ends reads as the file without them |
| DeviceConf.Store | openvtld/internal/inventory/mhvtlconf.go:91-107 | One field changes at most the field it names of the block being read |
| ConfEdits.ScanBlock | openvtld/internal/inventory/mhvtlconf.go:63-108 | A block in front of another parses to its device, then the rest |
| ConfEdits.RemoveCommutes | openvtld/internal/inventory/libremove.go:61-97 | Editing commutes with parsing - parsing what the remover leaves gives the old parse without that library and its drives, in order, everything else intact - if and only if in every block the id's digits appear as the library's own or in a reference exactly when the block's number is that id; for any file without carriage returns |
| ConfEdits.OwnerIs | openvtld/internal/inventory/mhvtlconf.go:63-108 | What the parser makes of a block's owner: the header's number for a library, the last reference's for a drive |
| ConfEdits.ParseAfterRemove | openvtld/internal/inventory/libremove.go:73-97 | Well-formed files are of that kind, whatever the id |
| ConfEdits.RemoveWellFormed | openvtld/internal/inventory/libremove.go:73-97 | The remover leaves a well-formed file well-formed |
| ConfEdits.LeadingZeroSurvives | openvtld/internal/inventory/libremove.go:64-79 | A file that is not: library 010 parses as 10, and removing 10 leaves it |
| LibraryPrinter.HeaderReads | openvtld/internal/inventory/libcreate.go:137 | A printed header reads back as its own tag and id, and as no other |
| LibraryPrinter.LibraryBlockReads | openvtld/internal/inventory/libcreate.go:136-145 | The printed library block parses to exactly the new library |
| LibraryPrinter.DriveBlockReads | openvtld/internal/inventory/libcreate.go:147-163 | The printed drive block parses to exactly the new drive, attached to the library at its slot |
| LibraryEdits.ParseAfterCreate | openvtld/internal/inventory/libcreate.go:136-181 | For any file at all, parsing after a create gives the old blocks and then the new library and its drives in slot order |
| LibraryEdits.RemoveAfterCreate | openvtld/internal/inventory/libremove.go:61-97 | For any file, removing a just-created library takes exactly what the removal would have taken before |
| LibraryEdits.RemoveWhole | openvtld/internal/inventory/libremove.go:61-97 | The remover changes nothing exactly when no line mentions the id |
| LibraryEdits.RemoveUndoesCreate | openvtld/internal/inventory/libremove.go:61-105 | Create then remove gives the original text byte for byte if and only if no line of it mentions the new id, with or without a final newline |
| LibraryEdits.RemoveUndoesFreshCreate | openvtld/internal/inventory/libcreate.go:101-181 | On a well-formed file: if and only if no library or drive of it is the new id's |
| LibraryEdits.CreateWellFormed | openvtld/internal/inventory/libcreate.go:136-181 | A create leaves a well-formed file well-formed |
| Sorting.SortSorts | openvtld/internal/inventory/mhvtlconf.go:123-138 | Sorting rearranges and orders |
| Sorting.FilterSort | openvtld/internal/inventory/mhvtlconf.go:123-138 | Leaving elements out before or after the sort comes to the same |
| Sorting.SortStable | openvtld/internal/inventory/mhvtlconf.go:123-138 | Elements of one key keep their order |
| Declarations.AttachDrives | openvtld/internal/inventory/mhvtlconf.go:116-138 | The result is the declared libraries by ascending id, each with exactly the drives naming it, as often as declared, by ascending slot; equal ids and equal slots stay in file order |
| Declarations.ParseMhvtlConf | openvtld/internal/inventory/mhvtlconf.go:51-140 | The whole parse, on the blocks read: every declared library, ids ascending, each with exactly the drives whose block names it, slots ascending |
| Declarations.AssembleIn | openvtld/internal/inventory/mhvtlconf.go:116-123 | A library is listed with exactly the drives that name it |
| Declarations.AssembleCreate | openvtld/internal/inventory/mhvtlconf.go:116-139 | The parse after a create is the old one plus the new library with its drives in slot order |
| Declarations.AssembleRemove | openvtld/internal/inventory/mhvtlconf.go:116-139 | The parse after a remove is the old one without that id |
| Allocation.Allocate | openvtld/internal/inventory/libcreate.go:101-122 | The id is the least positive multiple of ten above every library and queue id in use, the target the least above every target in use; both also written out on the parsed libraries and drives |
| Allocation.CreateKeepsApart | openvtld/internal/inventory/libcreate.go:90-122 | Ids and targets stay pairwise distinct after a create if and only if no drive without a declared library sits in the new range |
| Allocation.StrayDriveClashes | openvtld/internal/inventory/libcreate.go:103-120 | One such drive is enough: its queue id is issued again |
| Allocation.CreateAllocOk | openvtld/internal/inventory/libcreate.go:101-152 | A create keeps ids and targets distinct and every drive housed, and its id was nobody's |
| Allocation.RemoveAllocOk | openvtld/internal/inventory/libremove.go:73-97 | So does a remove |
| LibraryConfs.CreateGood | openvtld/internal/inventory/libcreate.go:86-180 | One create keeps the file good, and removing the library again gives the file back |
| LibraryConfs.ParseCreated | openvtld/internal/inventory/libcreate.go:86-180 | On a good file: the old libraries, then the new one with its drives in slot order |
| LibraryConfs.ParseRemoved | openvtld/internal/inventory/libremove.go:61-105 | On a well-formed file: the old libraries without that one |
| LibraryConfs.EveryEditGood | openvtld/internal/inventory/libcreate.go:101-152 | Allocation safety over all runs: after any sequence of creates and removes all ids and all targets are pairwise distinct, every drive names a declared library, and the file is well-formed |
| LibraryConfs.LibraryLinesAre | openvtld/internal/inventory/libcreate.go:137-145 | The Fprintf calls of the library block are these nine lines, and they print the header and fields the parser theorems are about |
| LibraryConfs.DriveLinesAre | openvtld/internal/inventory/libcreate.go:152-162 | Those of a drive block are these ten lines, and print theirs |
| LibraryConfs.PrintBlocks | openvtld/internal/inventory/libcreate.go:136-163 | The builder ends up holding a newline and then exactly the new lines, whatever the values printed |
| LibraryConfs.LibraryConf.CreateLibrary | openvtld/internal/inventory/libcreate.go:64-226 | Each refusal, the serial's included, happens exactly in its own case and changes nothing; otherwise the text is the old one with the new blocks, under an id past every declared one and a serial, if one was asked for, that no declared library has; a failure after the rename leaves the library declared |
| LibraryConfs.LibraryConf.Declare | openvtld/internal/inventory/libcreate.go:86-205 | From the readable file on: allocate, settle the serial, print, append; the file changes only when the replacement succeeds |
| LibraryConfs.LibraryConf.RemoveLibrary | openvtld/internal/inventory/libremove.go:32-120 | An undeclared id is refused and changes nothing; otherwise the text is filtered, and the instances named are exactly the library's drives |
| LibraryConfs.QueuesOf | openvtld/internal/inventory/libremove.go:38-50 | Found exactly when declared; the queue ids are exactly its drives' |
| Changer.TransferKeeps | openvtld/internal/inventory/scsi.go:136-143 | Moving a cart keeps every cart in one place and every loaded cart's home free if and only if the destination is an I/E element or nobody's home |
| Changer.LoadKeeps | openvtld/internal/api/drives.go:50-90 | Loading keeps it if and only if the cart comes from a storage slot |
| Changer.UnloadKeeps | openvtld/internal/api/drives.go:111-137 | Unloading to the cart's home, or to a slot that is nobody's, keeps it |
| Changer.EnterKeeps | openvtld/internal/inventory/adopt.go:106-112 | A new cart entering an empty I/E element keeps it |
| Contents.ReadContents | openvtld/internal/inventory/mhvtlconf.go:127-136 | The contents scanner reads the labels of the slot lines in order |
| Contents.Survey | openvtld/internal/inventory/mint.go:174-193 | The slot-to-label map, the storage numbers and the port count are those of the live status, loaded carts at their home slots |
| Contents.Render | openvtld/internal/inventory/mint.go:195-211 | The builder prints the contents file whose lines `Shelves.RewriteIs` describes |
| Contents.RewriteReadsBack | openvtld/internal/inventory/mint.go:158-217 | The slot lines read back, numbers and labels, are those of the storage slots in order; the parser's labels are the ones among them |
| Contents.ShelfIs | openvtld/internal/inventory/mhvtlconf.go:42 | The slot expression takes a line exactly when it is Slot, blanks, a number, a colon: the number is its digits, the rest its label's place |
| Contents.LabelIs | openvtld/internal/inventory/mhvtlconf.go:42 | The label is the first word behind the colon, and there is none exactly when nothing but blanks follows |
| Contents.TrimIs | openvtld/internal/inventory/mhvtlconf.go:130-131 | Trimming takes off exactly the blanks at both ends |
| Shelves.ListedAt | openvtld/internal/inventory/mint.go:174-192 | A label is listed at a slot exactly when it is stored there or loaded from there |
| Shelves.RewriteIs | openvtld/internal/inventory/mint.go:158-217 | The rewritten file, line by line: version, one line per drive, the picker, one line per I/E element, then exactly one line for each storage slot's number in ascending order, with label l exactly when l is stored there or loaded from there, and blank when nobody's; no other slot line |
| Shelves.NoCartLost | openvtld/internal/inventory/mint.go:158-217 | The rewrite lists every stored or loaded cart, each once, and nothing else |
| Shelves.UnvaultedListed | openvtld/internal/export/runner.go:287-311 | A cart unvaulted into the first empty slot is listed by the next rewrite if and only if that slot was nobody's home |
| Shelves.UnvaultInput | openvtld/internal/export/runner.go:287-311 | A changer in which a cart unvaulted into a loaded cart's home has no line in the next contents file |
| Shelves.LoadedListed | openvtld/internal/inventory/mint.go:158-217 | A cart loaded into a drive is listed by the next rewrite if and only if it did not come from an I/E element |
| Shelves.LoadInput | openvtld/internal/api/drives.go:50-90 | A changer in which a cart loaded from the port has none |
| CartOps.FindFreeSlot | openvtld/internal/inventory/adopt.go:59-86 | Refused exactly when the label is anywhere in the library; otherwise the first empty storage slot that is nobody's home, or none exists |
| CartOps.ScanElements | openvtld/internal/inventory/delete.go:59-71 | Refuses exactly when another cart sits in an I/E element; otherwise finds the cart and an empty element |
| CartOps.EmptyMapTakesOne | openvtld/internal/inventory/delete.go:86-100 | Emptying the map takes exactly the named cart when it is alone in the port |
| CartOps.LiveLibrary.FindInPort | openvtld/internal/inventory/adopt.go:114-126 | The poll finds the cart exactly when an I/E element shows it |
| CartOps.LiveLibrary.ParkMappedMedia | openvtld/internal/inventory/adopt.go:92-147 | Parks the cart in the chosen slot and changes nothing else; a failure leaves it out of the library, in one I/E element, or - the transfer having moved it all the same - in the slot |
| CartOps.LiveLibrary.MintCart | openvtld/internal/inventory/mint.go:117-150 | Each refusal exactly in its case; nothing failing, it succeeds exactly for a label that is new, without media, with a free slot and a free I/E element; a refused or failed mint leaves the media directories as they were; after a failure every cart the changer shows has its media if and only if no command took effect, and a stored cart has lost them if and only if the transfer moved it and still failed |
| CartOps.HalfMintInput | openvtld/internal/inventory/mint.go:143-147 | A sound library with one empty slot and one empty I/E element in which a mint can fail that way, leaving a cart without media in the port or in the slot |
| CartOps.CleanUpHalfMint | openvtld/internal/inventory/delete.go:27-153 | Such a cart can be neither minted again nor adopted; a delete cleans up, nothing failing, exactly when no other cart sits in the port and the cart is there or has room to go there |
| CartOps.LiveLibrary.AdoptCart | openvtld/internal/inventory/adopt.go:153-171 | Like a mint, for media already there and never dropped; each refusal exactly in its case |
| CartOps.LiveLibrary.TakeOut | openvtld/internal/inventory/delete.go:50-103 | The inventory half of a deletion, each command possibly failing after its effect: out of the changer, or back where it was, or left in the port, and no other cart moved |
| CartOps.LiveLibrary.ClearPort | openvtld/internal/inventory/delete.go:80-98 | Emptying the map with the cart alone in the port, and after a failure putting it back: out of the changer, where it was, or in the port |
| CartOps.LiveLibrary.DropMedia | openvtld/internal/inventory/delete.go:127-142 | The media directory goes only if it looks like mhVTL media |
| CartOps.LiveLibrary.DeleteCart | openvtld/internal/inventory/delete.go:27-153 | A successful delete removes exactly the named cart from changer and disk, every other element staying as it was; no other cart or media is ever touched; each refusal exactly in its case; nothing failing, it succeeds exactly when its guards hold |
| CartOps.LiveLibrary.LoadDrive | openvtld/internal/api/drives.go:50-90 | Loads a cart from any slot or I/E element and remembers the element; nothing failing, exactly when the drive is empty and an element holds the cart; a failed load may have loaded it; the changer invariant holds afterwards exactly when no cart left an I/E element |
| CartOps.LiveLibrary.UnloadDrive | openvtld/internal/api/drives.go:92-138 | Always goes to the cart's home slot, reported done or not: with the invariant the fallback is never reached |
| CartOps.AnyDay | openvtld/internal/inventory/mint.go:158-217 | Over any run of mint, adopt, delete, load and unload steps with any failures, carts in the port never being loaded, the contents file rewritten afterwards lists every stored or loaded cart exactly once, on the line of the slot it is stored in or was loaded from, one line per storage slot in ascending order behind the drives' and I/E elements' lines |
| Labels.TopIsHighest | openvtld/internal/inventory/mint.go:40-49 | The highest number the scan finds bounds every known label of this prefix and suffix, and is one of them unless it is 0 |
| Labels.NumberedIs | openvtld/internal/inventory/mint.go:33 | A label has number n exactly when it is three upper-case letters or digits, the three digits of n, and one of the eleven media suffixes |
| Labels.NextLabel | openvtld/internal/inventory/mint.go:39-57 | The proposal is unused and has the first free number above the highest known one; none is made only when no number below 1000 is free there |
| Labels.NextIsHighestPlusOne | openvtld/internal/inventory/mint.go:31-57 | For a proper prefix and suffix nothing above the highest is taken, so there is no proposal exactly when 999 is, however many lower numbers are free |
| Keys.NormPrefixStable | openvtld/internal/s3/client.go:48-54 | Normalising a prefix twice changes nothing and leaves no leading slash |
| Keys.NormPrefixIs | openvtld/internal/s3/client.go:48-54 | It takes all slashes off both ends, and puts one behind what is left, if anything is |
| Keys.KeysAre | openvtld/internal/catalog/manifest.go:104-133 | The four kinds of key written out, segment by segment |
| Keys.EntryIs | openvtld/internal/s3/client.go:168-183 | A listed key is an entry exactly when it is four non-empty slash-free segments and a rest, and gives exactly those |
| Keys.KeyListed | openvtld/internal/s3/client.go:161-177 | A key with non-empty slash-free coordinates lists as those coordinates and that file |
| Keys.ChunkNameReads | openvtld/internal/catalog/manifest.go:104-119 | A chunk's name gives back its number, in five digits if and only if it is below 100000 |
| Keys.KeysInjective | openvtld/internal/catalog/manifest.go:104-119 | No two generations share a manifest key, no two chunks a chunk key, and no chunk key is a manifest key |
| Keys.MarkerSkipped | openvtld/internal/catalog/manifest.go:131-133 | System markers are skipped by the listing |
| Keys.TopologySkipped | openvtld/internal/catalog/topology.go:32-34 | Topology objects are skipped by the listing |
| Catalogs.ListGenerations | openvtld/internal/s3/client.go:161-201 | Each generation with an object is listed once, with a manifest exactly when it has one, by system, library, label and generation in order |
| Catalogs.ListingUnique | openvtld/internal/s3/client.go:161-201 | The keys leave no choice: two listings of that kind are equal |
| Catalogs.CachedIs | openvtld/internal/catalog/rebuild.go:44-72 | A manifest yields a row exactly when the object under the generation's key decodes, is of version 2 with at least one chunk and names just that label, generation, system and library; the row is its own |
| Catalogs.Store.ClearCatalog | openvtld/internal/store/catalog.go:88-92 | Only this remote's rows go |
| Catalogs.Store.Rebuild | openvtld/internal/catalog/rebuild.go:29-77 | A finished rebuild caches a row for every fetched, decodable manifest that names its own key's coordinates, and only such rows, keyed by remote, system, label and generation; it counts exactly those, reports exactly the manifest-less generations and exactly the rejected or unfetched ones; other remotes are untouched; an aborted one leaves part of the truth and nothing else |
| Catalogs.BuiltStep | openvtld/internal/export/export.go:155-261 | Chunk, manifest, marker and topology uploads and cache writes keep the bucket one that exports built |
| Catalogs.AlwaysBuilt | openvtld/internal/export/export.go:155-261 | So does any interleaving of exports cut off anywhere, retries that write the manifest again, and housekeeping |
| Catalogs.RebuildAgrees | openvtld/internal/catalog/rebuild.go:29-77 | For a bucket built by exports the rebuilt keys are exactly the finished generations', the count is their number, the incomplete list exactly the unfinished, no errors; every finished generation has its own row, with its manifest's totals, if and only if none shares system, label and generation with another library's |
| Catalogs.SharedKey | openvtld/internal/store/catalog.go:25-45 | Two exports that do, from an empty bucket: a bucket built by exports in which two finished generations have one cache key |
| Catalogs.RebuildRestoresCache | openvtld/internal/catalog/rebuild.go:26-77 | When every finished manifest was cached by its export, the rebuilt cache is the one already there |
| Updates.Disk.WriteFile | openvtld/internal/update/paths.go:79-96 | A plain write cut off by a failure or crash leaves the old file or a beginning of the content, and touches only its file |
| Updates.Disk.CopyIn | openvtld/internal/update/paths.go:141-171 | At every point the copy's target is the old file or the whole new one |
| Updates.Disk.CopyFile | openvtld/internal/update/paths.go:141-171 | The same, from a source file |
| Updates.Disk.SnapshotDB | openvtld/internal/update/paths.go:175-186 | Whatever lay at its path, the snapshot file then holds a standalone copy of the live database, log included |
| Updates.Disk.WriteMarker | openvtld/internal/update/paths.go:79-96 | On success the marker holds the record, its shell twin the same for the watchdog, and the attempt counter is zero; cut off, the marker holds a beginning of the record |
| Updates.Disk.ClearMarker | openvtld/internal/update/paths.go:113-117 | Nothing failing, the marker, its twin and the counter are gone; nothing else is touched |
| Updates.Disk.RestoreDB | openvtld/internal/update/paths.go:190-200 | The database is the snapshot, and whether the log is gone is left unchecked by the code; nothing failing, both its side files are |
| Updates.Disk.Restart | openvtld/internal/update/apply.go:147-150 | A restart whose error is only logged: the binary on disk runs, or the process from before still answers, or none |
| Updates.Disk.RollbackNow | openvtld/internal/update/apply.go:227-247 | Every state on the way keeps the records and the saved pair; at the restart the pair is back, whole if and only if the abandoned log did not survive; any answering process passes for success, the old binary when the restart took effect |
| Updates.Disk.Rollback | openvtld/internal/update/apply.go:251-268 | It follows the marker, else the last-good record; up to the restart every crash point still anchors the pair or has it back, and with the last-good record written every crash point can be rolled back again; a finished one had brought back the recorded binary and snapshot, whole if and only if the abandoned log did not survive |
| Updates.RollbackUntilDone | openvtld/internal/update/apply.go:227-268 | Rollbacks cut off anywhere and rerun any number of times end, once one finishes, in that pair: the binary and the database file are back, and the pair is whole if and only if there was no database to restore, the abandoned log was gone when the last attempt began, or that attempt removed it |
| Updates.Disk.Backup | openvtld/internal/update/apply.go:89-107 | The previous binary is the live one and the snapshot the live database |
| Updates.TwinReads | openvtld/internal/update/paths.go:87-95 | What the watchdog gets by sourcing the twin is what the updater meant: the live and the previous binary, the database, the record's own snapshot, and a budget of three starts |
| Updates.Disk.CountStart | packaging/systemd/openvtld-update-watchdog.sh:29-64 | One run of the script: without marker and twin nothing; otherwise the start is counted, and exactly past the third one the pair the twin names is copied back and the marker removed |
| Updates.Disk.Watchdog | packaging/systemd/openvtld-update-watchdog.sh:29-64 | The starts of a binary that does not come up, the script before each: nothing failing it counts them and reverts at the fourth, no sooner and no later, the pair then being back whole and the old binary running; whatever fails, the records a rollback needs are kept |
| Updates.Disk.Launch | openvtld/internal/update/apply.go:145-167 | A restart and what systemd makes of it: nothing failing, the old pair is back whole exactly when four starts were made, and never after a start that came up |
| Updates.Disk.Settle | openvtld/internal/update/apply.go:147-175 | Confirmed only when a process of the new version answers, which is the new binary unless the old one or the one still running reports the same version; an answer of the old version passes for the watchdog's revert, and then - the versions being different - the old binary is back on disk if the restart took effect and the new one is still there if it did not |
| Updates.Disk.Apply | openvtld/internal/update/apply.go:89-175 | With no update pending: stopped at the backup nothing changed at any point but perhaps the previous binary; stopped at the swap the live pair is saved and each record is untouched or a beginning of the new one; past the swap, at every crash point the live binary is the old one or, while the marker is there, a record names the old binary and the pre-restart snapshot - with the last-good record written, at every crash point without exception; nothing failing but the new binary, it is confirmed when healthy and reverted when not |
| Updates.AfterSaved | openvtld/internal/update/apply.go:133-144 | Once the pair is saved a rollback follows the new record if the marker or the last-good file holds it whole, else the older one if that was not touched, else none; it is anchored to the older pair only if that pair's binary is the one saved |
| Updates.UpdateThenRollback | openvtld/internal/update/apply.go:59-268 | An update and then a rollback: stopped at its backup or staging, the update leaves the older pair to go back to - at every point on the way, and for the rollback - if and only if the previous binary was not replaced or was its own; past the swap with the marker gone the pair just replaced comes back if and only if the last-good record was written whole or the older one reads the same, and where the older one stayed its database comes back under the newer binary; what comes back is that pair's binary with its snapshot over the database file; whichever comes back is whole if and only if the abandoned log did not survive, and then the pair just replaced shows the database as it was before the update |
| Updates.EarlyStopInput | openvtld/internal/update/apply.go:93-107 | A disk on which the backup alone turns the rollback's pair into the live binary and the older database |
| Updates.UnwrittenInput | openvtld/internal/update/apply.go:139-140 | A disk after an update whose last-good write failed: the saved pair is there, the record followed names the older database |
| Updates.DeafRestartInput | openvtld/internal/update/apply.go:145-167 | A disk after a failed restart taken for a revert, the last-good record unwritten: the new binary is live and no record names the pair it replaced |
| Updates.SurvivingLogInput | openvtld/internal/update/paths.go:190-200 | A rollback that could not remove the log: binary and database file are back, and SQLite replays the abandoned rows over the file |

## Left out

- zstd, SHA-256, JSON and tar internals: parameters with only their round-trip laws (`Streams.Codec`, `Tar.Framing`, `Catalogs.Json`, `Updates.Json`); hashes are not assumed injective.
- Pipeline.Recoverability: runs in which a chunk of another size goes over recorded ones, or a manifest lists such a mixture, are outside, because it is false of them (`ChunkSizes.CarelessRunLosesMedia`).
- Pipeline.LedgerIsPrefix: likewise; what a mixed ledger decodes to is `Manifests.MixedDecodes`.
- Exports.Attempts: for a size that goes up and down a misfit is not always visible in the bytes (`Chunking.UpAndDown`), so only the seams' fitting is shown to suffice; the attempts follow each other, with no other job of the cart between them.
- Runners.Runner.Transition: the uploading and chunking states that alternate with every chunk are set by `Chunkers.Upload.Mark` and are not part of the recorded order of states.
- Workers.AnyLife: exports that are not safe under the present chunk size are put off, for the same reason.
- Media the host changes between attempts: the code's change tests compare sizes only, so the pipeline theorems are about one fixed set of original files.
- More than one cart, remote or system at a time in the pipeline; operator deletion of bucket prefixes.
- Imports.RunImport: another system's export and an import into a chosen library are flags of the job (`Pipeline.Way`); either way the media lands in the one directory modelled, and AdoptCart is a step that may fail.
- File ownership, modes and times on import: restored best effort by the code; the model restores the header's metadata.
- The markers and topology objects an export writes on the side, progress counters, events and log lines.
- The ten-second modification-time check, cancellation, and every I/O error: outcomes counted in `faults`, without saying when they occur.
- Fabrics.Fabric.Ensure: ReconcileAccess, SetPortServing, DeleteFCTarget and WaitDiscovery are not modelled, nor is the effect of generate_node_acls; what targetcli and the kernel do with a command is the model's `Possible` and `Run`.
- Fabrics.Fabric.EnsureAdditive: that a fresh stamp stays fresh, when the check for a stamp was misread and the write that followed was cut off; the source then truncates a fresh stamp file.
- Fabrics.Fabric.ReconcileAcls: a crash between two commands is not a separate outcome; a failing command may have had no effect, which leaves the same states.
- LibraryConfs.LibraryConf.CreateLibrary: the printed values (home directory, an adopted serial) are single lines without blanks at the ends wherever parsing them back is claimed; the source checks neither.
- LibraryConfs.LibraryConf.CreateLibrary: serial numbers drawn at random are inputs, and their uniqueness is not proved, because the source's last resort does not check it.
- The empty library_contents file and the systemd drop-ins written beside device.conf; the `.bak-openvtl` copies.
- ConfEdits.RemoveCommutes: files without carriage returns, which the parser's scanner strips and the remover keeps.
- Fabrics.Fabric.Verify: reads fail one by one as the code drops them; a symlink that resolves to another device, and entries with odd names, are not modelled.
- Numbers of any size: the source's Atoi fails above 64 bits, and its line scanner stops at 64 KB lines.
- Sorting: sort.Slice is modelled as insertion sort, which it is for the short lists here; equal keys keep their order.
- White space is ASCII in `Text` and `Contents`, and a vertical tab is none.
- Changer status comes from mtx as data: the parsing of its output is not modelled, nor are host moves between a status poll and the next command. A command that reports success has had its effect; one that reports failure may have had it.
- CartOps.AnyDay: loads from an I/E element are outside the run theorem, because they break its invariant (`Changer.LoadKeeps`).
- CartOps.LiveLibrary.MintCart: the removal of the media after a failed park, whose error the source ignores, is taken to succeed, and a failed mktape to leave nothing.
- CartOps.LiveLibrary.DeleteCart: the in-memory snapshot's cart list (forgetCart) and the polling loop that confirms the removal are not modelled.
- Shelves.UnvaultedListed: unvaulting is outside the run theorem `CartOps.AnyDay`, because it can take a loaded cart's home.
- mktape's density and capacity choice, PurgeMedia, RemoveLibraryContents.
- Catalogs.Store.Rebuild: row sync times; the bucket does not change during a rebuild.
- Object keys in the pipeline are structured; `Keys.KeysInjective` is what makes that harmless.
- Updates.Disk.Apply: starts after signature check and preflight; the marker's deadline, an attempt limit other than the default, the paths a record could name other than the configured ones, ConfirmWhenHealthy, and overlapping runs are not modelled. The snapshot's name is a plain path in the backups directory, as a version without blanks or shell characters makes it: the twin is sourced unquoted. A binary's version is a function of its content, a binary copied in part does not come up, and no proper beginning of a record's JSON decodes.
- Updates.Disk.Apply: writes of the running daemon between snapshot and restart; a rollback loses them.
- Web UI, HTTP handlers, authentication, TLS, metrics, support bundles, ZFS devices, sysfs and journal parsing, timeouts.
