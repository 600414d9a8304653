# Verification model

A Dafny model of the parts of this repository where most can go wrong at once: uploading to the Bulletin chain, reading
back from untrusted hosts, and commit-reveal registration with a resumable record. `dafny verify dfyconfig.toml` checks all of it.

| file | what it models |
|---|---|
| `Prelude.dfy`, `Chunking.dfy` | shared vocabulary; CIDs, DAG-PB nodes, and the plain sequential chunking every uploader is compared with |
| `AdaptiveWindow.dfy`, `Waves.dfy`, `Nonces.dfy` | the window, wave selection and in-wave retries, nonce discipline |
| `UploadManifest.dfy` | completed blocks, deduplication, normalisation, the manifest store |
| `UploadState.dfy`, `ChunkedUpload.dfy` | the invariant of the chunked uploader and what each step does to it; the uploader itself |
| `UploadRetry.dfy` | the outer retry loop that resumes from the manifest |
| `DirectoryUpload.dfy` | the directory uploader's deduplication, waves and per-wave retries |
| `HostReader.dfy`, `PreimageLookup.dfy` | the content-addressed reader and its one-shot lookup |
| `BrowserUpload.dfy` | the browser's chunked upload with its resume state, and the round trip through the reader |
| `Labels.dfy`, `Registration.dfy` | label rules and record ids; registration, resume, retry and clear against a chain clock and a local cache |
| `Preview.dfy`, `Currency.dfy` | preview links; wei, native units and payments |

Code that changes state step by step is a class or a method with loops, proved against functions and predicates on values;
the lemmas about those carry the properties over whole runs.

## How the outside world appears

- A digest is an abstract function assumed injective, and DAG-PB and UnixFS decoding undo encoding, only where a lemma says so
  (`Injective`, `RoundTrips`). Decryption undoes encryption under the same credential and refuses any other (`Crypto.Valid`).
- The network, the disk and the clock are scripts that every theorem quantifies over: what each submission, fetch and write answers,
  which submissions of a timed-out wave are retried or complete late, how much time passes. A script that ends stands for a process that is killed.
  An upload error is reduced to the four answers the message classifiers give about it.
- In `Registration.dfy` every step may pass, throw or kill the process, its effect may land although the client saw no success, a write may
  leave a torn file, and others may register or transfer names meanwhile. Time passes as the environment says, and never runs backwards;
  no step is assumed to take any particular time. The wall clock is only written into records, which it orders. Where a theorem says what happens if no step fails, it means the steps the command
  takes: they pass, and nobody transfers a name in them. A clock is brisk if from each of those steps on it gains the minimum age within
  the polls of one wait.
- A chunk read fills its buffer except at the end of the file, and reading does not fail. The declared file size is a separate input:
  the theorems say what follows when it disagrees with the file.
- Amounts are unsigned. Texts are sequences of Unicode scalar values, so lone surrogates do not occur.

## Where the code falls short of what it promises

The model follows the code in each case.

- A comment promises a buffer of 10 percent over the charge, but `PAYMENT_BUFFER_PERCENT` is 100: no buffer at all (`Currency.CliPaymentCovers`).
- The browser resumes a saved state without checking its entries against the file. The root is right exactly if they were good
  (`BrowserUpload.ResumedRootExact`), and file keys do not ensure that (`BrowserUpload.StaleResumeBreaksRoot`).
- A record that waits for its reveal can go for none of the intended reasons: when the record of a newer commitment for the same name could
  not be written (`Registration.WaitingRecordIsLost`); when its owner is the zero address, which is also what a failed or empty ownership
  read returns (`Registration.ZeroOwnerRecordIsLost`); and when the process dies while it rewrites the record file in place, unlike the
  upload manifest, which is written beside the old one and renamed (`Registration.TornSaveLosesRecord`). Otherwise it does not
  (`Registration.WholeSavesLoseNothing`).
- Once the record is deleted, retries cannot finish a registration whose last steps failed: the name is no longer available, even to its
  new owner (`Registration.Client.RetryOnce`).

## Model

| member | source | states |
|---|---|---|
| `ChunkedUpload.StoreChunkedFileToBulletin` | packages/cli/src/bulletin/store.ts:640-952 | One whole call, for every file, chunk size, concurrency, resumed map, manifest and environment: a normal return yields the root of plain sequential chunking whenever the declared size has as many chunks as the file, and every chunk was accepted or its resumed entry was true; a missing chunk is reported only if the declared size has more; every other failure is a write that failed, a nonce that could not be fetched, an answer to a submission that is not retried in its wave or came in the last round, or what the last of five root attempts met; an environment that gives nothing of the kind that cannot be recovered from, and leaves one wave per chunk without trouble that the wave does not mend itself, makes the call return; nonces are disciplined and never given to a chunk resumed correctly, and without trouble the root gets the one after those of the chunks not skipped; the manifest is removed, left as found, or records every such chunk; waves never outnumber chunks plus troubled waves |
| `ChunkedUpload.Uploader.Run` | packages/cli/src/bulletin/store.ts:665-942 | The same of the run: what it can fail with, what it leaves, and when it must return; an interrupted run is in a state satisfying the scheduler invariant |
| `ChunkedUpload.Uploader.PushChunkFromStream` | packages/cli/src/bulletin/store.ts:702-726 | Reads one chunk and keeps a resumed entry exactly when its CID and length are those of the chunk; otherwise drops the entry and queues the chunk; keeps the invariant |
| `ChunkedUpload.Uploader.FillQueue` | packages/cli/src/bulletin/store.ts:731-735 | Tops the queue up to the window limit or the end of the file |
| `ChunkedUpload.Uploader.LaunchWave` | packages/cli/src/bulletin/store.ts:741-759 | A wave is a non-empty prefix of min(window, queue) chunks within 8 MiB, so neither budget error can be raised, and its chunks get the next nonces in order |
| `ChunkedUpload.Uploader.SettleWave` | packages/cli/src/bulletin/store.ts:761-790 | Exactly the chunks the chain accepted are recorded, whether the wave succeeds or not; it succeeds if and only if no failure among its submissions is final, and then all of it is recorded; an error is one that is final by the rules of the wave |
| `ChunkedUpload.Uploader.TimeOutWave` | packages/cli/src/bulletin/store.ts:792-796 | A timed-out wave is not cancelled: some chunks are recorded now, the others live on, and together they are the wave, nothing lost or doubled; the submissions made in time, the whole first round and perhaps retries, are on the trace under the nonces assigned |
| `ChunkedUpload.Uploader.CompleteLate` | packages/cli/src/bulletin/store.ts:781-787 | What timed-out waves retry later is submitted under the nonces assigned before, and what completes later writes its entries; the invariant holds |
| `ChunkedUpload.Uploader.RecoverWave` | packages/cli/src/bulletin/store.ts:834-880 | A stall, nonce error or lost connection halves the window, refetches the nonce and puts the unconfirmed chunks back in front of the queue; anything else, or a failed refetch, is thrown |
| `ChunkedUpload.Uploader.CompleteWave` | packages/cli/src/bulletin/store.ts:798-833 | Persists and adapts the window; a failure to persist is treated like a failed wave |
| `ChunkedUpload.Uploader.RunTurn` | packages/cli/src/bulletin/store.ts:741-884 | One pass of the main loop keeps the invariant, counts one wave, and throws only a final answer that cannot be recovered from, or a failure to write or to fetch a nonce |
| `ChunkedUpload.Uploader.RunWaves` | packages/cli/src/bulletin/store.ts:731-884 | The loop ends with the stream read and the queue empty, unless an error is thrown or the process is killed with chunks still queued; failed waves are at most the troubled ones |
| `ChunkedUpload.Uploader.Finish` | packages/cli/src/bulletin/store.ts:886-942 | With the stream read and nothing due, the root is the one over the chunks in order, every chunk was accepted or checked, and a normal return leaves no manifest or, if it cannot be removed, one that records every chunk correctly |
| `ChunkedUpload.Uploader.StoreRoot` | packages/cli/src/bulletin/store.ts:908-934 | The first attempt uses the next nonce; the root is stored exactly if one of five attempts succeeds; otherwise what is thrown is what the fifth met: the failure of its nonce fetch, or else of its submission |
| `ChunkedUpload.Uploader.Start` | packages/cli/src/bulletin/store.ts:656-689 | Persists the resumed state, then fetches the starting nonce; the invariant holds from then on |
| `ChunkedUpload.BuildOrderedStoredChunks` | packages/cli/src/bulletin/store.ts:267-282 | Returns the entries of all indices in order, or the least index that has none |
| `ChunkedUpload.StreamFileChunks` | packages/cli/src/bulletin/store.ts:240-265 | Reading chunk by chunk yields exactly the chunks of plain chunking, each with its CID |
| `UploadState.AllCompleted` | packages/cli/src/bulletin/store.ts:886-904 | When the stream has ended and nothing is due, every chunk has its true entry, so the ordered list cannot have a gap |
| `UploadState.QueueKeepsCore` | packages/cli/src/bulletin/store.ts:723-724 | Dropping an unverified entry and queueing its chunk loses nothing |
| `UploadState.StoresKeepCore` | packages/cli/src/bulletin/store.ts:781-787 | Recording chunks, in time or late, keeps the invariant: no entry below the stream position is ever untrue |
| `UploadState.RequeueKeepsBooks` | packages/cli/src/bulletin/store.ts:846-849 | Putting unconfirmed chunks back keeps every streamed chunk completed or due, once and in stream order |
| `UploadState.FailedWaveKeepsCore` | packages/cli/src/bulletin/store.ts:840-850 | A failed wave keeps the invariant, the nonce discipline and the wave count |
| `UploadState.DoneWaveKeepsCore` | packages/cli/src/bulletin/store.ts:823-833 | A wave that succeeds retires at least one chunk for good |
| `UploadState.WholeWindowFits` | packages/cli/src/bulletin/store.ts:284-313 | With at most four chunks of at most 2 MiB the byte budget never cuts a wave short |
| `UploadState.CoreBoundsWaves` | packages/cli/src/bulletin/store.ts:749-749 | Waves are at most chunks plus failed waves |
| `UploadState.LogUsesNonces` | packages/cli/src/bulletin/store.ts:766-779 | First submissions and retries alike use their chunk's own nonce |
| `Nonces.AssignedRunIsContiguous` | packages/cli/src/bulletin/store.ts:755-759 | Between two nonce fetches the assigned nonces are the fetched one and its successors, without gap or repetition |
| `Nonces.RootFollowsAssigned` | packages/cli/src/bulletin/store.ts:908-926 | The root's nonce follows the last one assigned since the fetch |
| `Waves.SelectWaveChunks` | packages/cli/src/bulletin/store.ts:284-313 | Takes the longest prefix within window and budget; fails exactly when it reaches a chunk larger than the whole budget |
| `Waves.RunWaveWithRetries` | packages/cli/src/bulletin/store.ts:353-422 | Performs exactly the submissions of the specification; returns with the counters of that log if nothing in it is final, else throws the first final failure |
| `Waves.WaveMeetsContract` | packages/cli/src/bulletin/store.ts:353-422 | For every wave and every network: at most maxRetries + 1 rounds; on return each chunk was stored exactly once and never submitted after that, attempts = wave size + retries and retries = retryable failures; on a throw some failure was not retryable or came in the last round |
| `Waves.FailuresAreAnswers` | packages/cli/src/bulletin/store.ts:372-388 | Every failure on record is an answer the network gave in that round |
| `AdaptiveWindow.WindowStaysInBounds` | packages/cli/src/bulletin/store.ts:315-351 | Whatever the waves do, 1 <= window <= limit |
| `AdaptiveWindow.CleanWavesClosedForm` | packages/cli/src/bulletin/store.ts:315-351 | k clean waves from window w and streak s give min(limit, w + floor((s+k)/2)) |
| `AdaptiveWindow.BadWavesClosedForm` | packages/cli/src/bulletin/store.ts:330-336 | k bad waves give max(1, floor(w / 2^k)) |
| `AdaptiveWindow.ClampIsNearestAllowed` | packages/cli/src/bulletin/store.ts:166-174 | The chunk size is the allowed one nearest to the request |
| `AdaptiveWindow.SanitizeIsNearestAllowed` | packages/cli/src/bulletin/store.ts:176-183 | The window limit is the value in 1..4 nearest to the request |
| `Chunking.ChunksCoverFile` | packages/cli/src/bulletin/store.ts:240-265 | Chunks concatenate to the file and block sizes sum to its size |
| `Chunking.RootDeterminesChunks` | packages/cli/src/bulletin/store.ts:886-904 | A root determines its ordered list of CIDs and lengths |
| `UploadManifest.ManifestRoundTrip` | packages/cli/src/bulletin/uploadManifest.ts:24-50 | Saving and reloading any completed map with natural indices and lengths, filed under their own index, gives it back |
| `UploadManifest.DedupeCompletedBlocks` | packages/cli/src/bulletin/uploadManifest.ts:106-117 | Yields the strictly sorted listing of what deduplication keeps |
| `UploadManifest.DedupeKeepsLastLongest` | packages/cli/src/bulletin/uploadManifest.ts:106-117 | For each index the last entry of maximal length survives, and only that |
| `UploadManifest.DedupeIdempotent` | packages/cli/src/bulletin/uploadManifest.ts:106-117 | Deduplicating again changes nothing |
| `UploadManifest.NormalizeYieldsNaturals` | packages/cli/src/bulletin/uploadManifest.ts:24-91 | Whatever a file says, loading yields natural indices and lengths, in index order |
| `UploadManifest.PersistedBlocks` | packages/cli/src/bulletin/store.ts:185-206 | The list written lists the completed map, and reads back as it |
| `UploadManifest.LoadFindsOwnManifestOnly` | packages/cli/src/bulletin/uploadManifest.ts:119-181 | A saved manifest is found again under its identity, and never by another upload, although ids are only a prefix of the fingerprint |
| `UploadRetry.UploadChunkedBlocks` | packages/cli/src/commands/bulletin.ts:821-925 | From any map of completed blocks: at most maxRetries + 1 <= 21 attempts, the first from the manifest there was, each from what the one before left, stopping at the first success or non-retryable error; an attempt in an environment as above succeeds and is the last; the root is that of plain chunking. From a map filed under the blocks' own indices no attempt sends or loses what a readable manifest records |
| `UploadRetry.PutAllEntries` | packages/cli/src/commands/bulletin.ts:146-168 | Merged into a map filed under the blocks' own indices, the manifest overrides it index by index, and the result is filed so too |
| `UploadRetry.MisfiledBlockHidesManifest` | packages/cli/src/commands/bulletin.ts:154-165 | Merged into a map that is not, it may not: a block of index 0 under key 1 hides what the manifest says about chunk 0 |
| `UploadRetry.NeverSentAgain` | packages/cli/src/commands/bulletin.ts:838-911 | A chunk recorded correctly in the manifest one attempt leaves is sent by no later attempt while the manifest stays readable |
| `UploadRetry.RunAttempt` | packages/cli/src/commands/bulletin.ts:862-890 | One attempt sends no chunk it was resumed with correctly and keeps its record on disk if it fails |
| `UploadRetry.RetriesAreTheNearestAllowed` | packages/cli/src/bulletin/uploadRetry.ts:88-105 | Exactly the numbers and texts of at least 0 are accepted, NaN, infinities and other texts are not; the result is the allowed count nearest to the one asked for, and five if none is |
| `DirectoryUpload.MerkleizeAndUploadDirectory` | packages/cli/src/commands/bulletin.ts:218-415 | On return the stored blocks are the distinct blocks put, each exactly once, in waves no larger than the concurrency and in the order of the puts, and the totals are theirs; an error is a nonce that could not be fetched, or an answer that is not retryable or came in a fourth round, so retryable failures in the first three rounds never fail the upload |
| `DirectoryUpload.FirstPutsAreDistinct` | packages/cli/src/commands/bulletin.ts:357-374 | A CID is among the blocks uploaded exactly if it was put, and then once |
| `DirectoryUpload.ExecuteWave` | packages/cli/src/commands/bulletin.ts:265-355 | Performs the submissions of the specification under its nonces, cut short only by a failed nonce fetch; counts exactly what was stored; the next wave starts after the last nonce; a throw is a final failure or a missing nonce |
| `DirectoryUpload.NoncesAreConsecutive` | packages/cli/src/commands/bulletin.ts:272-285 | Each round numbers its blocks one after the other from the nonce it starts with: the wave's own, or the one fetched for that round |
| `DirectoryUpload.Uploader.RunWave` | packages/cli/src/commands/bulletin.ts:265-355 | A wave starts with the nonce the one before it left, or the first one fetched, and stores each of its blocks once, or ends with a missing nonce or a final failure |
| `DirectoryUpload.WaveStoresEachBlockOnce` | packages/cli/src/commands/bulletin.ts:265-355 | A wave that throws nothing stores each block once, in at most four rounds, and stores none again |
| `DirectoryUpload.CutWaves` | packages/cli/src/commands/bulletin.ts:257-263 | The buffer is cut into consecutive waves, all full but the last |
| `DirectoryUpload.Uploader.PutBlock` | packages/cli/src/commands/bulletin.ts:357-374 | A CID put before is ignored; otherwise the block is buffered and the buffer flushed when full |
| `DirectoryUpload.Uploader.RunNext` | packages/cli/src/commands/bulletin.ts:257-263 | The chain runs its first wave; after a failed wave none runs |
| `DirectoryUpload.TotalBytesOfMultiset` | packages/cli/src/commands/bulletin.ts:307-329 | Byte totals do not depend on the order in which blocks were stored |
| `HostReader.BlockMatchesCid` | packages/ui/src/lib/hostPreimage.ts:51-66 | True exactly if the digests are equal |
| `HostReader.ConcatBytes` | packages/ui/src/lib/hostPreimage.ts:150-159 | The buffer holds the parts end to end |
| `HostReader.ResolveFindsTree` | packages/ui/src/lib/hostPreimage.ts:196-245 | Whatever the host answers, a walk that returns has found a tree the CID commits to and returns its leaves from left to right |
| `HostReader.TreeIsUnique` | packages/ui/src/lib/hostPreimage.ts:119-129 | A CID commits to at most one tree |
| `HostReader.HostsCannotDisagree` | packages/ui/src/lib/hostPreimage.ts:189-245 | No two hosts can make the reader return different bytes for one CID |
| `HostReader.ResultWithinCap` | packages/ui/src/lib/hostPreimage.ts:171-187 | The result never exceeds maxBytes |
| `HostReader.ResolveExact` | packages/ui/src/lib/hostPreimage.ts:196-245 | On a host that holds the blocks a read succeeds exactly if the tree is at most 32 deep and its real and declared sizes are within the cap |
| `PreimageLookup.LookupPreimage` | packages/ui/src/lib/hostPreimage.ts:68-117 | Settles at most once, exactly when a terminal event occurs, with the answer of the first; one subscription is opened and it is closed once; an aborted caller gets null and none is opened |
| `PreimageLookup.FirstTerminalDecides` | packages/ui/src/lib/hostPreimage.ts:79-110 | The answer is the first non-null preimage seen before timeout or abort, else null |
| `BrowserUpload.Uploader.UploadFile` | packages/ui/src/store/useBulletinStore.ts:401-448 | Every upload that returns can be fetched back as the file, if the saved state resumed from was good or absent; it returns exactly if every block not resumed, and the last, is accepted in four tries; a good state stays good however the upload ends, and when only the last block fails the state of all chunks is left |
| `BrowserUpload.Uploader.UploadChunkedFile` | packages/ui/src/store/useBulletinStore.ts:450-516 | The root is built over the resumed entries and the true entries of all other chunks, in order; from a good state it is the plain one and the host holds every block; when only the root fails, the state left is the one saved last |
| `BrowserUpload.Uploader.UploadSingleBlock` | packages/ui/src/store/useBulletinStore.ts:431-448 | A small file is one raw block, and is fetched back whole |
| `BrowserUpload.Uploader.StoreWithRetries` | packages/ui/src/store/useBulletinStore.ts:312-325 | Succeeds exactly if one of four submissions is accepted after retryable failures only; the host gains the block exactly if some submission lands, even one that failed for the client |
| `BrowserUpload.FetchReturnsUpload` | packages/ui/src/store/useBulletinStore.ts:450-516 | Upload then fetch is the identity for every file and positive chunk size; only a cap below the file size stops it |
| `BrowserUpload.GoodResumeGivesPlain` | packages/ui/src/store/useBulletinStore.ts:496-500 | Resumed and added entries, sorted, are the plain list without gap or duplicate |
| `BrowserUpload.ResumedRootExact` | packages/ui/src/store/useBulletinStore.ts:459-500 | The root is the plain one if and only if every resumed entry is the true one of its chunk and none occurs twice |
| `BrowserUpload.StaleResumeBreaksRoot` | packages/ui/src/store/useBulletinStore.ts:459-470 | The state saved for one file, of a size the browser splits, is resumed for another of the same name, size and date, and the root is wrong |
| `BrowserUpload.StaleUpload` | packages/ui/src/store/useBulletinStore.ts:450-516 | The same by two uploads on one browser: the first fails only in its root, the second, of the other file, returns the wrong root |
| `BrowserUpload.LastChunkSavesAll` | packages/ui/src/store/useBulletinStore.ts:484-494 | The state saved with the last chunk lists every chunk, in order |
| `BrowserUpload.SavedStateIsOk` | packages/ui/src/store/useBulletinStore.ts:484-494 | A state saved in the middle of an upload can be resumed from |
| `BrowserUpload.UploadTreeIsRepresented` | packages/ui/src/lib/bulletinUpload.ts:79-98 | The tree the reader finds is the one the root builder made |
| `Registration.ResumeRebuildsPreimage` | packages/cli/src/cli/commands/register.ts:642-647 | The tuple rebuilt from a record is the tuple hashed at commit time, under the credential it was saved with and no other |
| `Registration.Client.Register` | packages/cli/src/cli/commands/register.ts:493-619 | If no step fails but, perhaps, the save, a valid and free name is registered if and only if the commitment ages in time; then its owner has it and no record is left. An owned name is never registered. Tells exactly when an older record is deleted, or lost to a torn save, instead |
| `Registration.Client.Resume` | packages/cli/src/cli/commands/register.ts:626-711 | Under a wrong credential nothing happens. If no step fails, the record is settled if and only if the name is its owner's already or the commitment, made anew if absent or too old, ages in time. No other record is touched |
| `Registration.Client.RetryOnce` | packages/cli/src/cli/commands/register.ts:185-196 | If no step fails and the clock is brisk, a retry passes unless the name has an owner and no record is left; in that case it never does |
| `Registration.Client.RegisterWithRetries` | packages/cli/src/cli/commands/register.ts:162-201 | Under a brisk clock a valid request fails only if more steps failed than there are retries, or the name has an owner |
| `Registration.Client.Retry` | packages/cli/src/cli/commands/register.ts:726-751 | Takes the record of the name given, or else the newest one; without one throws and changes nothing, otherwise resumes it, with everything that says |
| `Registration.Client.Clear` | packages/cli/src/cli/commands/register.ts:782-866 | Records only go; a discard that passes leaves none in its scope, nor does a resume in which no step fails |
| `Registration.Client.RunAll` | packages/cli/src/cli/commands/register.ts:162-866 | Any sequence of commands, with failures, crashes and torn files in any step, keeps the invariant |
| `Registration.Client.WaitForMinimumCommitmentAge` | packages/cli/src/commands/register.ts:219-268 | Returns only when the chain's clock puts the commitment at the minimum age; and, if no step fails, if and only if the clock gets there by one of the polls |
| `Registration.Client.LastPollDecides` | packages/cli/src/commands/register.ts:249-263 | The clock never runs backwards, so it gets there by some poll if and only if it is there at the last |
| `Registration.Client.Reveal` | packages/cli/src/cli/commands/register.ts:468-491 | Nothing but a commitment of the minimum age is revealed |
| `Registration.Client.IsRegisteredTo` | packages/cli/src/cli/commands/register.ts:621-624 | If the chain gives an owner, the answer is whether that is the record's; if none is found, or the read fails, it is whether the record's owner is the zero address; a positive answer is the latest read of the name |
| `Registration.Client.PersistCommitment` | packages/cli/src/cli/commands/register.ts:369-398 | The file holds the record, is as it was, or, rewritten in place, is torn; a failure the client sees is on record |
| `Registration.Client.ForgetCommitment` | packages/cli/src/cli/commands/register.ts:400-408 | Deletes a record for a reason on record, or leaves it |
| `Registration.DeletionsAreJustified` | packages/cli/src/cli/commands/register.ts:586-608 | Over every run: what is deleted is the cached record, and only after its own reveal succeeded, the chain reported its owner at the latest read of the name, or the user discarded it; or its owner is the zero address and that read found no owner; or a later commitment of its id that could not be saved was revealed |
| `Registration.DeletionsHaveOwnReason` | packages/cli/src/cli/commands/register.ts:649-696 | If no save for its id failed and its owner is not the zero address, a record is deleted for one of the first three reasons |
| `Registration.OwnReasonsExact` | packages/cli/src/cli/commands/register.ts:621-624 | When no save fails, every deletion of a record has one of those three reasons if and only if its owner is not the zero address |
| `Registration.ZeroOwnerRecordIsLost` | packages/cli/src/commands/register.ts:270-282 | A retry deletes the record of the zero address although nobody owns its name |
| `Registration.WaitingRecordIsLost` | packages/cli/src/cli/commands/register.ts:389-398 | A waiting record is deleted after the reveal of a newer commitment whose record could not be saved |
| `Registration.RevealsAreOldEnough` | packages/cli/src/commands/register.ts:247-263 | Every reveal is sent when its commitment has the minimum age |
| `Registration.RecordsGoOnlyForAReason` | packages/cli/src/commands/registrationManifest.ts:96-199 | From whatever point on a record is cached, it stays until it is deleted with a reason, replaced by a newer record of its id, or lost to a torn save under that id |
| `Registration.WholeSavesLoseNothing` | packages/cli/src/commands/registrationManifest.ts:96-199 | When saves are whole and succeed and the owner is not the zero address, it stays until it is deleted for a reason of its own or replaced |
| `Registration.TornSaveLosesRecord` | packages/cli/src/commands/registrationManifest.ts:124-130 | A crash while the file is rewritten loses the waiting record without any deletion |
| `Registration.RecordsComeOnlyBySaving` | packages/cli/src/commands/registrationManifest.ts:96-131 | What is cached was there at the start or was saved since |
| `Registration.FindReturnsOwnRecord` | packages/cli/src/commands/registrationManifest.ts:157-175 | What is found is filed for this environment and caller, and for this label up to case |
| `Registration.Client.LoadRecords` | packages/cli/src/commands/registrationManifest.ts:133-155 | Returns exactly the records of this environment and caller, newest first |
| `Labels.ValidLabelIsNormal` | packages/cli/src/utils/validation.ts:24-28 | Normalising is the identity on every valid label |
| `Labels.CountTrailingDigits` | packages/cli/src/utils/validation.ts:4-16 | Counts the digits at the end |
| `Labels.RecordIdInjective` | packages/cli/src/commands/registrationManifest.ts:62-65 | Two ids are equal if and only if the environments are, and callers and labels are up to case; environments and callers have no underscore, labels may be anything |
| `Labels.EnvironmentsHaveNoUnderscore` | packages/cli/src/utils/constants.ts:146 | The environments there are have no underscore |
| `Labels.RecordIdDeterminesLabel` | packages/cli/src/commands/registrationManifest.ts:63-65 | Within one environment and caller the id determines the label up to case, and a valid label exactly |
| `Preview.PreviewRoundTrip` | packages/ui/src/lib/preview.ts:1-11 | Every text `btoa` accepts decodes to itself from a URL-safe link without padding; nothing but Latin-1 is accepted |
| `Preview.CliLinkRoundTrip` | packages/cli/src/bulletin/cidHistory.ts:105-108 | A CLI link decodes to its text if and only if the text is ASCII, and then is the very link the UI writes |
| `Preview.LinkDecodes` | packages/ui/src/lib/preview.ts:6-11 | The padding formula puts back exactly what was dropped |
| `Preview.LinksAreTheCanonicalTexts` | packages/ui/src/lib/preview.ts:1-11 | A text without + and / is a link exactly if it has no lone digit at the end and no spare bits set |
| `Currency.CeilIsLeastCover` | packages/ui/src/lib/currency.ts:41-43 | The ceiling is the least native amount that covers a fee, and overpays by less than a unit |
| `Currency.FloorIsGreatest` | packages/ui/src/lib/currency.ts:29-31 | The floor is the greatest native amount worth at most a given wei amount |
| `Currency.NativeRoundTrip` | packages/ui/src/lib/currency.ts:29-53 | Both conversions undo the conversion to wei |
| `Currency.RatioScalesWholeTokens` | packages/cli/src/utils/formatting.ts:4-20 | A whole token is worth one ether whatever its decimals; the default ratio is the UI's |
| `Currency.UiPaymentCovers` | packages/ui/src/store/useDomainStore.ts:129-135 | The UI pays enough if and only if the charge is whole or its fraction and a tenth of it make a unit, so for every charge of ten units or more; and never over 110 percent |
| `Currency.UiPaymentCoversRise` | packages/ui/src/store/useDomainStore.ts:129-135 | Exactly which later charges a payment still covers |
| `Currency.CliPaymentCovers` | packages/cli/src/commands/register.ts:46-56 | The CLI pays enough if and only if the ratio divides the charge, and never covers a rise |
| `Currency.SmallChargeUnderpaid` | packages/cli/src/commands/register.ts:424-433 | One wei over a unit is underpaid by both |

## Left out

- The text of error messages and the marker lists that classify it, progress events, delays and jitter: only the resulting kind of error and the wave duration remain.
- RPC and wallet clients, signing, extrinsics, gateway verification, peer-to-peer fetching, root caching and CID verification after an upload.
- `getUploadApprovalPlan`, the balance formatters, label-store paging, escrow and transfer-fee quotes: they would only add easy members.
- Sizes of numbers: JavaScript numbers that are exact integers are unbounded here. Chunk-size, window and retry options are modelled with NaN, infinities and fractions.
- The progress counter: nothing is claimed about an upper bound of `completedChunks`, which can count a chunk twice after a timed-out wave.
- UploadManifest.ManifestRoundTrip: the JSON text itself is not modelled, only the fields of its objects, each of which may be missing or of a wrong type.
- UploadManifest.LoadFindsOwnManifestOnly: the search for other manifests of the same path is not part of the model, nor is the clean-up of old ones.
- DirectoryUpload.MerkleizeAndUploadDirectory: the importer that produces the puts is an arbitrary sequence of events; a concurrency of 0, with which the source never finishes cutting its buffer, is excluded.
- HostReader.ResolveExact: subtrees are fetched concurrently by the source; of several failures the model reports the leftmost.
- BrowserUpload.Uploader.UploadFile: clearing session storage is assumed to work; the worker that hashes a chunk either prepares it or fails.
- Registration.Client.WaitForMinimumCommitmentAge: the fallback to the wall clock on chains without a timestamp pallet is not modelled; the poll deadline is a number of polls.
- Registration.Client.Resume: a reveal for a name that somebody else took meanwhile reverts; that is one of the ways a step may throw, not a consequence of the owners on record.
- Registration.Client.Reveal: a transaction that reverts because the payment is too small is one of the ways a step may throw; the amounts are modelled in `Currency.dfy` alone.
- Labels.ValidLabelIsNormal: lower-casing and trimming outside ASCII are not modelled; valid labels are ASCII.
- Classes of names, price rules, escrow and every other rule of the contracts: only the commitment age and the owner a successful reveal sets are assumed.
