/** Whole-upload retries around the chunked uploader, resuming each time from the manifest on disk. */
module UploadRetry {
  import opened Prelude
  import opened Chunking
  import opened AdaptiveWindow
  import opened Waves
  import opened UploadManifest
  import opened Nonces
  import opened ChunkedUpload

  const DEFAULT_UPLOAD_MAX_RETRIES: nat := 5
  const MAX_UPLOAD_MAX_RETRIES: nat := 20

  /** `number | string | undefined`; a text carries what `parseInt` makes of it. */
  datatype RetryOption = Unset | Number(value: JsNumber) | Text(parsed: Option<int>)

  function ParsedRetries(option: RetryOption): Option<int>
  {
    match option
    case Unset => Some(DEFAULT_UPLOAD_MAX_RETRIES)
    case Number(Finite(v)) => Some(v.Floor)
    case Number(_) => None
    case Text(parsed) => parsed
  }

  /** Fails on anything that is not a whole number from 0 up; caps what is left at 20. */
  function NormalizeUploadMaxRetries(option: RetryOption): (r: Option<nat>)
    ensures r.Some? ==> r.value <= MAX_UPLOAD_MAX_RETRIES
  {
    match ParsedRetries(option)
    case None => None
    case Some(parsed) => if parsed < 0 then None else Some(Min(parsed, MAX_UPLOAD_MAX_RETRIES))
  }

  /** Exactly the numbers and texts that are at least 0 are accepted, rounded down and capped; nothing else is, neither NaN
      nor an infinity nor a text that is no number; and no option at all means five. */
  lemma RetriesAreTheNearestAllowed(x: real, parsed: int, allowed: nat)
    requires allowed <= MAX_UPLOAD_MAX_RETRIES
    ensures NormalizeUploadMaxRetries(Unset) == Some(5)
    ensures NormalizeUploadMaxRetries(Number(Finite(x))).Some? <==> x >= 0.0
    ensures NormalizeUploadMaxRetries(Text(Some(parsed))).Some? <==> parsed >= 0
    ensures NormalizeUploadMaxRetries(Number(NonFinite)).None? && NormalizeUploadMaxRetries(Text(None)).None?
    ensures x >= 0.0 ==>
              var r := NormalizeUploadMaxRetries(Number(Finite(x))).value;
              r <= MAX_UPLOAD_MAX_RETRIES && r as real <= x && Distance(r, x.Floor) <= Distance(allowed, x.Floor)
    ensures parsed >= 0 ==>
              Distance(NormalizeUploadMaxRetries(Text(Some(parsed))).value, parsed) <= Distance(allowed, parsed)
  {
    assert x < 0.0 ==> x.Floor < 0;
  }

  /** What the environment does to one attempt. */
  datatype Attempt = Attempt(script: Script, manifestReadable: bool)

  /** What is left of one attempt. */
  datatype Record = Record(
    outcome: Outcome,
    manifestReadable: bool,
    diskBefore: Option<seq<StoredChunk>>,
    diskAfter: Option<seq<StoredChunk>>,
    trace: Trace)

  datatype UploadResult = Uploaded(root: Cid) | Rejected | GaveUp(failure: Failure) | Killed

  /** `isRetryableUploadError`; the uploader's own message carries none of the markers. */
  predicate RetriesUpload(f: Failure)
  {
    f.Environment? && f.error.retryable
  }

  /** Chunk `i` of the file is recorded correctly in a manifest file. */
  predicate OnDisk(codec: Codec, file: Bytes, chunkSize: nat, disk: Option<seq<StoredChunk>>, i: int)
    requires 0 < chunkSize
  {
    disk.Some? && Recorded(codec, file, chunkSize, EntriesByIndex(disk.value), i)
  }

  /** Chunk `i` was put into a wave. */
  ghost predicate Sent(t: Trace, i: int)
  {
    exists n :: Assigned(i, n) in t
  }

  /** An attempt that could read the manifest sends no chunk recorded there, and if it fails the record is still there. */
  ghost predicate Keeps(codec: Codec, file: Bytes, chunkSize: nat, r: Record)
    requires 0 < chunkSize
  {
    r.manifestReadable ==>
      forall i :: OnDisk(codec, file, chunkSize, r.diskBefore, i) ==>
        && !Sent(r.trace, i)
        && (!r.outcome.Done? ==> OnDisk(codec, file, chunkSize, r.diskAfter, i))
  }

  /** Attempts follow on from each other: an attempt starts from the disk the one before left, after a retryable failure. */
  ghost predicate Linked(log: seq<Record>)
  {
    && (forall a :: 0 < a < |log| ==> log[a].diskBefore == log[a - 1].diskAfter)
    && (forall a :: 0 <= a < |log| - 1 ==> log[a].outcome.Failed? && RetriesUpload(log[a].outcome.failure))
  }

  ghost predicate Chained(codec: Codec, file: Bytes, chunkSize: nat, log: seq<Record>)
    requires 0 < chunkSize
  {
    Linked(log) && forall a :: 0 < a < |log| ==> Keeps(codec, file, chunkSize, log[a])
  }

  /** The first attempt starts from the manifest there was, and each can read it if its environment lets it. */
  ghost predicate FromAttempts(log: seq<Record>, attempts: nat -> Attempt, manifest: Option<seq<StoredChunk>>)
  {
    && (log != [] ==> log[0].diskBefore == manifest)
    && forall a :: 0 <= a < |log| ==> log[a].manifestReadable == attempts(a).manifestReadable
  }

  lemma LinkGrows(log: seq<Record>, r: Record)
    requires Linked(log)
    requires log != [] ==>
               var last := log[|log| - 1];
               last.outcome.Failed? && RetriesUpload(last.outcome.failure) && r.diskBefore == last.diskAfter
    ensures Linked(log + [r])
  {
  }

  lemma ChainGrows(codec: Codec, file: Bytes, chunkSize: nat, log: seq<Record>, r: Record)
    requires 0 < chunkSize && Chained(codec, file, chunkSize, log) && Linked(log + [r])
    requires log != [] ==> Keeps(codec, file, chunkSize, r)
    ensures Chained(codec, file, chunkSize, log + [r])
  {
  }

  /** As long as the manifest stays readable, a chunk recorded correctly after one attempt is not sent by any later one. */
  lemma {:induction false} NeverSentAgain(codec: Codec, file: Bytes, chunkSize: nat, log: seq<Record>, a: nat, b: nat, i: int)
    requires 0 < chunkSize && Chained(codec, file, chunkSize, log)
    requires a < b < |log| && forall c :: a < c <= b ==> log[c].manifestReadable
    requires OnDisk(codec, file, chunkSize, log[a].diskAfter, i)
    ensures !Sent(log[b].trace, i)
    ensures OnDisk(codec, file, chunkSize, log[b].diskBefore, i)
  {
    if b > a + 1 {
      NeverSentAgain(codec, file, chunkSize, log, a, b - 1, i);
      assert Keeps(codec, file, chunkSize, log[b - 1]);
    }
    assert Keeps(codec, file, chunkSize, log[b]);
  }

  // ---- the completed map -----------------------------------------------------

  /** A `Map` of blocks, in insertion order. Its keys may be anything; the uploader looks at the values only. */
  datatype Slot = Slot(key: int, block: StoredChunk)

  type Slots = seq<Slot>

  function Values(slots: Slots): (blocks: seq<StoredChunk>)
    ensures |blocks| == |slots| && forall i :: 0 <= i < |slots| ==> blocks[i] == slots[i].block
  {
    seq(|slots|, i requires 0 <= i < |slots| => slots[i].block)
  }

  /** Where a key stands, or the end if it is not there. */
  function Place(slots: Slots, key: int): (k: nat)
    ensures k <= |slots| && (k < |slots| ==> slots[k].key == key)
    ensures forall i :: 0 <= i < k ==> slots[i].key != key
  {
    if slots == [] || slots[0].key == key then 0 else 1 + Place(slots[1..], key)
  }

  /** `Map.set`: a key that is there keeps its place. */
  function Put(slots: Slots, b: StoredChunk): Slots
  {
    var k := Place(slots, b.index);
    if k < |slots| then slots[k := Slot(b.index, b)] else slots + [Slot(b.index, b)]
  }

  function PutAll(slots: Slots, blocks: seq<StoredChunk>): Slots
    decreases |blocks|
  {
    if blocks == [] then slots else Put(PutAll(slots, blocks[..|blocks| - 1]), blocks[|blocks| - 1])
  }

  /** `loadCompletedBlocksForRetry`: what was there, overridden by the manifest if it can be read. */
  function CompletedForRetry(existing: Slots, disk: Option<seq<StoredChunk>>, readable: bool): Slots
  {
    if readable && disk.Some? then PutAll(existing, disk.value) else existing
  }

  /** Every block is filed under its own index, and no key occurs twice. */
  ghost predicate Keyed(slots: Slots)
  {
    && (forall i :: 0 <= i < |slots| ==> slots[i].key == slots[i].block.index)
    && forall i, j :: 0 <= i < j < |slots| ==> slots[i].key != slots[j].key
  }

  lemma {:induction false} ReplacedEntry(slots: Slots, k: nat, b: StoredChunk)
    requires Keyed(slots) && k < |slots| && slots[k].key == b.index
    ensures EntriesByIndex(Values(slots[k := Slot(b.index, b)])) == EntriesByIndex(Values(slots))[b.index := b]
    decreases |slots|
  {
    var n := |slots| - 1;
    var after := slots[k := Slot(b.index, b)];
    assert Values(slots)[..n] == Values(slots[..n]);
    assert Values(after)[..n] == Values(after[..n]);
    if k < n {
      ReplacedEntry(slots[..n], k, b);
      assert after[..n] == slots[..n][k := Slot(b.index, b)];
    } else {
      assert after[..n] == slots[..n];
    }
  }

  lemma PutEntries(slots: Slots, b: StoredChunk)
    requires Keyed(slots)
    ensures Keyed(Put(slots, b))
    ensures EntriesByIndex(Values(Put(slots, b))) == EntriesByIndex(Values(slots))[b.index := b]
  {
    var k := Place(slots, b.index);
    if k < |slots| {
      ReplacedEntry(slots, k, b);
    } else {
      assert Values(Put(slots, b))[..|slots|] == Values(slots);
    }
  }

  lemma MergeUpdate(m: Completed, n: Completed, i: int, b: StoredChunk)
    ensures (m + n)[i := b] == m + n[i := b]
  {
  }

  /** The manifest overrides what was there, index by index. */
  lemma {:induction false} PutAllEntries(slots: Slots, blocks: seq<StoredChunk>)
    requires Keyed(slots)
    ensures Keyed(PutAll(slots, blocks))
    ensures EntriesByIndex(Values(PutAll(slots, blocks))) == EntriesByIndex(Values(slots)) + EntriesByIndex(blocks)
    decreases |blocks|
  {
    if blocks != [] {
      var front, last := blocks[..|blocks| - 1], blocks[|blocks| - 1];
      PutAllEntries(slots, front);
      PutEntries(PutAll(slots, front), last);
      MergeUpdate(EntriesByIndex(Values(slots)), EntriesByIndex(front), last.index, last);
    }
  }

  /** It need not do so in a map that is not filed properly: a block of index 0 filed under key 1, behind key 0, hides what the
      manifest says about chunk 0. */
  lemma MisfiledBlockHidesManifest(there: StoredChunk, misfiled: StoredChunk, onDisk: StoredChunk)
    requires there.index == misfiled.index == onDisk.index == 0 && misfiled != onDisk
    ensures var merged := CompletedForRetry([Slot(0, there), Slot(1, misfiled)], Some([onDisk]), true);
            EntriesByIndex(Values(merged)) == map[0 := misfiled] && EntriesByIndex([onDisk]) == map[0 := onDisk]
  {
    var slots, after := [Slot(0, there), Slot(1, misfiled)], [Slot(0, onDisk), Slot(1, misfiled)];
    assert Place(slots, 0) == 0;
    assert [onDisk][..0] == [] && PutAll(slots, []) == slots;
    assert PutAll(slots, [onDisk]) == Put(slots, onDisk) == after;
    assert Values(after) == [onDisk, misfiled] && [onDisk, misfiled][..1] == [onDisk];
    assert EntriesByIndex([onDisk]) == map[0 := onDisk];
    assert map[0 := onDisk][0 := misfiled] == map[0 := misfiled];
  }

  // ---- the attempts ----------------------------------------------------------

  /** What one attempt leaves on disk: the file as it was, or one that records every chunk it resumed from correctly. */
  ghost predicate LeavesDisk(codec: Codec, file: Bytes, chunkSize: nat, resumed: Completed,
                             before: Option<seq<StoredChunk>>, after: Option<seq<StoredChunk>>)
    requires 0 < chunkSize
  {
    after == before || forall i :: Recorded(codec, file, chunkSize, resumed, i) ==> OnDisk(codec, file, chunkSize, after, i)
  }

  lemma OneAttemptKeeps(codec: Codec, file: Bytes, chunkSize: nat, r: Record, completed: Completed)
    requires 0 < chunkSize
    requires r.manifestReadable && r.diskBefore.Some? ==> forall i :: i in EntriesByIndex(r.diskBefore.value) ==>
               i in completed && completed[i] == EntriesByIndex(r.diskBefore.value)[i]
    requires forall i :: Recorded(codec, file, chunkSize, completed, i) ==> !Sent(r.trace, i)
    requires !r.outcome.Done? ==> LeavesDisk(codec, file, chunkSize, completed, r.diskBefore, r.diskAfter)
    ensures Keeps(codec, file, chunkSize, r)
  {
  }

  lemma RetryEntries(existing: Slots, disk: Option<seq<StoredChunk>>, readable: bool)
    ensures var merged := CompletedForRetry(existing, disk, readable);
            Keyed(existing) ==> Keyed(merged) && (readable && disk.Some? ==>
              forall i :: i in EntriesByIndex(disk.value) ==>
                i in EntriesByIndex(Values(merged)) && EntriesByIndex(Values(merged))[i] == EntriesByIndex(disk.value)[i])
  {
    if Keyed(existing) && readable && disk.Some? {
      PutAllEntries(existing, disk.value);
    }
  }

  /** From a completed map that is filed properly: it stays so, and no attempt loses what the one before recorded. */
  ghost predicate Resumable(codec: Codec, file: Bytes, chunkSize: nat, initial: Slots, completed: Slots, log: seq<Record>)
    requires 0 < chunkSize
  {
    Keyed(initial) ==> Keyed(completed) && Chained(codec, file, chunkSize, log)
  }

  lemma StaysResumable(codec: Codec, file: Bytes, chunkSize: nat, initial: Slots, existing: Slots, completed: Slots,
                       log: seq<Record>, r: Record)
    requires 0 < chunkSize && Linked(log) && Resumable(codec, file, chunkSize, initial, existing, log)
    requires log != [] ==>
               var last := log[|log| - 1];
               last.outcome.Failed? && RetriesUpload(last.outcome.failure) && r.diskBefore == last.diskAfter
    requires completed == if log == [] then existing else CompletedForRetry(existing, r.diskBefore, r.manifestReadable)
    requires forall i :: Recorded(codec, file, chunkSize, EntriesByIndex(Values(completed)), i) ==> !Sent(r.trace, i)
    requires !r.outcome.Done? ==>
               LeavesDisk(codec, file, chunkSize, EntriesByIndex(Values(completed)), r.diskBefore, r.diskAfter)
    ensures Linked(log + [r]) && Resumable(codec, file, chunkSize, initial, completed, log + [r])
  {
    LinkGrows(log, r);
    if Keyed(initial) {
      if log != [] {
        RetryEntries(existing, r.diskBefore, r.manifestReadable);
        OneAttemptKeeps(codec, file, chunkSize, r, EntriesByIndex(Values(completed)));
      }
      ChainGrows(codec, file, chunkSize, log, r);
    }
  }

  /** Uploads a file, resuming up to `maxRetries` times. */
  method UploadChunkedBlocks(codec: Codec, file: Bytes, declaredSize: nat, chunkSizeBytes: JsNumber, concurrency: JsNumber,
                             maxRetries: RetryOption, completedBlocks: Slots, manifest: Option<seq<StoredChunk>>,
                             attempts: nat -> Attempt)
    returns (result: UploadResult, ghost log: seq<Record>)
    // at most 21 attempts, stopping at the first success or non-retryable error
    ensures result.Rejected? <==> NormalizeUploadMaxRetries(maxRetries).None?
    ensures result.Rejected? ==> log == []
    ensures !result.Rejected? ==> 1 <= |log| <= NormalizeUploadMaxRetries(maxRetries).value + 1 <= 21
    ensures !result.Rejected? ==> result == ResultOf(log[|log| - 1].outcome)
    ensures result.GaveUp? && RetriesUpload(result.failure) ==> |log| == NormalizeUploadMaxRetries(maxRetries).value + 1
    // an attempt in a bearable environment is the last one, and succeeds
    ensures var n := ChunkCount(file, ClampChunkSizeBytes(chunkSizeBytes));
            CeilDiv(declaredSize, ClampChunkSizeBytes(chunkSizeBytes)) <= n ==>
              forall a :: 0 <= a < |log| && Bearable(attempts(a).script, n) ==> result.Uploaded? && a == |log| - 1
    // attempts build on each other, and, from a completed map that is filed properly, so that `NeverSentAgain` applies
    ensures Linked(log) && (Keyed(completedBlocks) ==> Chained(codec, file, ClampChunkSizeBytes(chunkSizeBytes), log))
    ensures FromAttempts(log, attempts, manifest)
    // and the root is the one of plain chunking, whatever happened on the way
    ensures var size := ClampChunkSizeBytes(chunkSizeBytes);
            result.Uploaded? && CeilDiv(declaredSize, size) == ChunkCount(file, size) ==>
              result.root == PlainRoot(codec, HASH_SHA2_256, file, size)
  {
    log := [];
    var effectiveChunkSize := ClampChunkSizeBytes(chunkSizeBytes);
    ClampIsNearestAllowed(0.0, effectiveChunkSize);
    var retries := NormalizeUploadMaxRetries(maxRetries);
    if retries.None? {
      return Rejected, log;
    }
    var totalAttempts := retries.value + 1;
    var completed, disk := completedBlocks, manifest;
    var attempt := 0;
    ghost var chunks := ChunkCount(file, effectiveChunkSize);
    result := Killed;
    while attempt < totalAttempts
      invariant 0 <= attempt < totalAttempts && |log| == attempt
      invariant Linked(log) && Resumable(codec, file, effectiveChunkSize, completedBlocks, completed, log)
      invariant disk == if attempt > 0 then log[attempt - 1].diskAfter else manifest
      invariant FromAttempts(log, attempts, manifest)
      invariant CeilDiv(declaredSize, effectiveChunkSize) <= chunks ==> forall a :: 0 <= a < attempt ==> !Bearable(attempts(a).script, chunks)
      invariant attempt > 0 ==> log[attempt - 1].outcome.Failed? && RetriesUpload(log[attempt - 1].outcome.failure)
    {
      var out;
      out, completed, disk, log := NextAttempt(codec, file, declaredSize, effectiveChunkSize, concurrency, completedBlocks, completed,
                                               disk, attempt > 0, attempts(attempt), log);
      result := ResultOf(out);
      if !out.Failed? || attempt >= totalAttempts - 1 || !RetriesUpload(out.failure) {
        break;
      }
      attempt := attempt + 1;
    }
  }

  /** One turn of the retry loop: from the second on, the manifest is read first. */
  method NextAttempt(codec: Codec, file: Bytes, declaredSize: nat, chunkSize: nat, concurrency: JsNumber, ghost initial: Slots,
                     existing: Slots, before: Option<seq<StoredChunk>>, retry: bool, now: Attempt, ghost log: seq<Record>)
    returns (out: Outcome, completed: Slots, disk: Option<seq<StoredChunk>>, ghost log': seq<Record>)
    requires MIN_CHUNK_SIZE_BYTES <= chunkSize <= MAX_CHUNK_SIZE_BYTES && retry == (log != [])
    requires Linked(log) && Resumable(codec, file, chunkSize, initial, existing, log)
    requires retry ==>
               var last := log[|log| - 1];
               last.outcome.Failed? && RetriesUpload(last.outcome.failure) && before == last.diskAfter
    ensures |log'| == |log| + 1 && log'[..|log|] == log
    ensures var r := log'[|log|];
            r.outcome == out && r.manifestReadable == now.manifestReadable && r.diskBefore == before && r.diskAfter == disk
    ensures Linked(log') && Resumable(codec, file, chunkSize, initial, completed, log')
    ensures out.Done? && CeilDiv(declaredSize, chunkSize) == ChunkCount(file, chunkSize) ==>
              out.root == PlainRoot(codec, HASH_SHA2_256, file, chunkSize)
    ensures CeilDiv(declaredSize, chunkSize) <= ChunkCount(file, chunkSize) && Bearable(now.script, ChunkCount(file, chunkSize)) ==>
              out.Done?
  {
    completed := if retry then CompletedForRetry(existing, before, now.manifestReadable) else existing;
    ghost var trace;
    out, disk, trace := RunAttempt(codec, file, declaredSize, chunkSize, concurrency, Values(completed), before, now.script);
    ghost var record := Record(out, now.manifestReadable, before, disk, trace);
    StaysResumable(codec, file, chunkSize, initial, existing, completed, log, record);
    log' := log + [record];
  }

  function ResultOf(outcome: Outcome): UploadResult
  {
    match outcome
    case Done(root) => Uploaded(root)
    case Failed(f) => GaveUp(f)
    case Interrupted => Killed
  }

  /** One attempt, from the blocks of a completed map. */
  method RunAttempt(codec: Codec, file: Bytes, declaredSize: nat, chunkSize: nat, concurrency: JsNumber,
                    blocks: seq<StoredChunk>, manifest: Option<seq<StoredChunk>>, script: Script)
    returns (out: Outcome, disk: Option<seq<StoredChunk>>, ghost trace: Trace)
    requires MIN_CHUNK_SIZE_BYTES <= chunkSize <= MAX_CHUNK_SIZE_BYTES
    ensures out.Done? && CeilDiv(declaredSize, chunkSize) == ChunkCount(file, chunkSize) ==>
              out.root == PlainRoot(codec, HASH_SHA2_256, file, chunkSize)
    ensures forall i :: Recorded(codec, file, chunkSize, EntriesByIndex(blocks), i) ==> !Sent(trace, i)
    ensures CeilDiv(declaredSize, chunkSize) <= ChunkCount(file, chunkSize) && Bearable(script, ChunkCount(file, chunkSize)) ==> out.Done?
    ensures !out.Done? ==> LeavesDisk(codec, file, chunkSize, EntriesByIndex(blocks), manifest, disk)
  {
    ClampIsNearestAllowed(0.0, chunkSize);
    var waves;
    ghost var accepted;
    out, disk, waves, trace, accepted := StoreChunkedFileToBulletin(
      codec, file, declaredSize, Finite(chunkSize as real), concurrency, blocks, manifest, script);
    if !out.Done? && disk != manifest {
      FromListing(disk.value);
      forall i | Recorded(codec, file, chunkSize, EntriesByIndex(blocks), i)
        ensures OnDisk(codec, file, chunkSize, disk, i)
      {
        var e := TrueEntry(codec, HASH_SHA2_256, file, chunkSize, i);
        assert e in disk.value;
        assert EntriesByIndex(disk.value)[e.index] == e;
      }
    }
  }
}
