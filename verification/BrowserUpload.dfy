/** The browser's sequential uploader: slices, a resume state in session storage, and a DAG root,
    read back by `HostReader`. */
module BrowserUpload {
  import opened Prelude
  import opened Chunking
  import opened UploadManifest
  import opened HostReader

  const MAX_TX_SIZE: nat := 2 * 1024 * 1024
  const CHUNK_SIZE: nat := 2 * 1024 * 1024
  const MAX_BROWSER_UPLOAD_SIZE: nat := 5 * 1024 * 1024
  const MAX_RETRIES: nat := 3

  datatype File = File(name: string, lastModified: int, bytes: Bytes)

  /** `name:size:lastModified`. Nothing in it depends on the content. */
  datatype FileKey = FileKey(name: string, size: nat, lastModified: int)

  function GetFileKey(file: File): FileKey
  {
    FileKey(file.name, |file.bytes|, file.lastModified)
  }

  datatype ResumeState = ResumeState(fileKey: FileKey, totalChunks: nat, completedChunks: seq<StoredChunk>)

  /** Files up to one transaction are stored as a single block. */
  predicate NeedsChunking(fileSize: nat)
  {
    fileSize > MAX_TX_SIZE
  }

  datatype Failure = StoreFailure(retryable: bool) | PrepareFailure | TooLargeForBrowser

  /** How one submission to the host ends for the client, and whether the host has the block all the same. */
  datatype Submission = Submission(failure: Option<Failure>, landed: bool)

  type SubmitScript = nat -> Submission

  /** What happens around one block: preparing it in the worker, submitting it, saving the resume state afterwards. */
  datatype BlockScript = BlockScript(prepared: bool, submits: SubmitScript, saved: bool)

  /** A failure after which `storeWithRetries` tries again. */
  predicate TriesAgain(f: Option<Failure>)
  {
    f.Some? && f.value.StoreFailure? && f.value.retryable
  }

  /** The submission is made: it is among the first four, and only retryable failures came before it. */
  predicate Made(submits: SubmitScript, attempt: nat)
  {
    attempt <= MAX_RETRIES && forall a :: 0 <= a < attempt ==> TriesAgain(submits(a).failure)
  }

  predicate Accepted(submits: SubmitScript, attempt: nat)
  {
    Made(submits, attempt) && submits(attempt).failure.None?
  }

  /** The host takes the block, whether or not the client learns of it. */
  predicate Lands(submits: SubmitScript, attempt: nat)
  {
    Made(submits, attempt) && (submits(attempt).failure.None? || submits(attempt).landed)
  }

  /** The block is prepared, and one of its submissions is accepted. */
  ghost predicate Succeeds(script: BlockScript)
  {
    script.prepared && exists attempt: nat :: Accepted(script.submits, attempt)
  }

  /** Every chunk that is not resumed succeeds. */
  ghost predicate AllSucceed(blocks: nat -> BlockScript, count: nat, resumed: seq<StoredChunk>)
  {
    forall i: nat :: i < count && i !in IndexSet(resumed) ==> Succeeds(blocks(i))
  }

  datatype Stored = Stored(cid: Cid, key: Bytes)

  // ---- resumed entries -------------------------------------------------------

  /** Every resumed entry is the true one for its own chunk of this file, and none occurs twice. */
  predicate ResumeOk(k: Codec, file: Bytes, size: nat, resumed: seq<StoredChunk>)
    requires size > 0
  {
    && Distinct(resumed)
    && forall p :: 0 <= p < |resumed| ==>
         0 <= resumed[p].index < ChunkCount(file, size) && resumed[p] == TrueEntry(k, HASH_BLAKE2B_256, file, size, resumed[p].index)
  }

  function IndexSet(chunks: seq<StoredChunk>): set<int>
  {
    set p | 0 <= p < |chunks| :: chunks[p].index
  }

  /** The entries the loop adds for the first `n` chunks. */
  function Added(k: Codec, file: Bytes, size: nat, done: set<int>, n: nat): seq<StoredChunk>
    requires size > 0
  {
    if n == 0 then []
    else
      var before := Added(k, file, size, done, n - 1);
      if n - 1 in done then before else before + [TrueEntry(k, HASH_BLAKE2B_256, file, size, n - 1)]
  }

  lemma {:induction false} AddedFacts(k: Codec, file: Bytes, size: nat, done: set<int>, n: nat)
    requires size > 0
    ensures Distinct(Added(k, file, size, done, n))
    ensures forall c :: c in Added(k, file, size, done, n) <==>
              0 <= c.index < n && c.index !in done && c == TrueEntry(k, HASH_BLAKE2B_256, file, size, c.index)
  {
    if n > 0 {
      AddedFacts(k, file, size, done, n - 1);
    }
  }

  function Plain(k: Codec, file: Bytes, size: nat): seq<StoredChunk>
    requires size > 0
  {
    PlainEntries(k, HASH_BLAKE2B_256, file, size, ChunkCount(file, size))
  }

  /** The list the root is built from. */
  function FinalList(k: Codec, file: Bytes, size: nat, resumed: seq<StoredChunk>): seq<StoredChunk>
    requires size > 0
  {
    SortByIndex(resumed + Added(k, file, size, IndexSet(resumed), ChunkCount(file, size)))
  }

  /** Good resumed entries and the chunks added for the rest make up the plain list, without gaps or duplicates. */
  lemma GoodResumeGivesPlain(k: Codec, file: Bytes, size: nat, resumed: seq<StoredChunk>)
    requires size > 0 && ResumeOk(k, file, size, resumed)
    ensures FinalList(k, file, size, resumed) == Plain(k, file, size)
  {
    var n := ChunkCount(file, size);
    var done := IndexSet(resumed);
    var added := Added(k, file, size, done, n);
    var all := resumed + added;
    var plain := Plain(k, file, size);
    AddedFacts(k, file, size, done, n);
    forall i, j | 0 <= i < j < |all|
      ensures all[i] != all[j]
    {
      if i < |resumed| <= j {
        assert all[j] in added;
        assert resumed[i].index in done;
      }
    }
    forall c
      ensures c in all <==> c in plain
    {
      if c in all {
        assert c in resumed || c in added;
        assert plain[c.index] == c;
      }
      if c in plain {
        if c.index in done {
          var p :| 0 <= p < |resumed| && resumed[p].index == c.index;
          assert resumed[p] == c;
        } else {
          assert c in added;
        }
        assert c in resumed || c in added;
      }
    }
    DistinctMultiset(all, plain);
    SortIsListing(all, plain);
  }

  // ---- and only good ones do -------------------------------------------------

  lemma {:induction false} PositionAtLeast(t: seq<StoredChunk>, j: nat, p: nat)
    requires Sorted(t) && p < |t| && t[p].index == j
    requires forall i :: 0 <= i < j ==> Occurs(t, i)
    ensures p >= j
  {
    if j > 0 {
      assert Occurs(t, j - 1);
      var q :| 0 <= q < |t| && t[q].index == j - 1;
      PositionAtLeast(t, j - 1, q);
      assert q < p;
    }
  }

  lemma {:induction false} PositionAtMost(t: seq<StoredChunk>, j: nat, p: nat)
    requires Sorted(t) && p < |t| && t[p].index == j && j < |t|
    requires forall i :: j < i < |t| ==> Occurs(t, i)
    ensures p <= j
    decreases |t| - j
  {
    if j + 1 < |t| {
      assert Occurs(t, j + 1);
      var q :| 0 <= q < |t| && t[q].index == j + 1;
      PositionAtMost(t, j + 1, q);
      assert p < q;
    }
  }

  /** As many entries as there are chunks, every chunk among them, in order: then each is where it belongs. */
  lemma FullListIsInPlace(t: seq<StoredChunk>, j: nat)
    requires Sorted(t) && j < |t|
    requires forall i :: 0 <= i < |t| ==> Occurs(t, i)
    ensures t[j].index == j
  {
    assert Occurs(t, j);
    var p :| 0 <= p < |t| && t[p].index == j;
    PositionAtLeast(t, j, p);
    PositionAtMost(t, j, p);
  }

  /** The final list names every chunk, whatever was resumed. */
  lemma FinalListCovers(k: Codec, file: Bytes, size: nat, resumed: seq<StoredChunk>, i: nat)
    requires size > 0 && i < ChunkCount(file, size)
    ensures var t := FinalList(k, file, size, resumed); Occurs(t, i)
  {
    var n := ChunkCount(file, size);
    var done := IndexSet(resumed);
    var all := resumed + Added(k, file, size, done, n);
    var t := SortByIndex(all);
    AddedFacts(k, file, size, done, n);
    SortFacts(all);
    var c: StoredChunk;
    if i in done {
      var p :| 0 <= p < |resumed| && resumed[p].index == i;
      c := resumed[p];
      assert all[p] == c;
    } else {
      c := TrueEntry(k, HASH_BLAKE2B_256, file, size, i);
      var added := Added(k, file, size, done, n);
      assert c in added;
      var p :| 0 <= p < |added| && added[p] == c;
      assert all[|resumed| + p] == c;
    }
    assert c in multiset(all);
    assert c in multiset(t);
    var q :| 0 <= q < |t| && t[q] == c;
    assert t[q].index == i;
  }

  /** A list that agrees with the plain one in length, CIDs and lengths, and names every chunk in order, is the plain one. */
  lemma AgreeingListIsPlain(k: Codec, file: Bytes, size: nat, t: seq<StoredChunk>)
    requires size > 0 && Sorted(t) && |t| == ChunkCount(file, size)
    requires forall i :: 0 <= i < |t| ==> Occurs(t, i)
    requires forall i :: 0 <= i < |t| ==> t[i].cid == Plain(k, file, size)[i].cid && t[i].length == Plain(k, file, size)[i].length
    ensures t == Plain(k, file, size)
  {
    forall j | 0 <= j < |t|
      ensures t[j] == Plain(k, file, size)[j]
    {
      FullListIsInPlace(t, j);
    }
  }

  /** Entries that, with others, make up the plain list are good. */
  lemma PartOfPlainIsOk(k: Codec, file: Bytes, size: nat, resumed: seq<StoredChunk>, added: seq<StoredChunk>)
    requires size > 0 && multiset(resumed + added) == multiset(Plain(k, file, size))
    ensures ResumeOk(k, file, size, resumed)
  {
    var plain := Plain(k, file, size);
    assert multiset(resumed + added) == multiset(resumed) + multiset(added);
    assert Distinct(plain);
    forall x
      ensures multiset(resumed)[x] <= 1
    {
      DistinctCount(plain, x);
    }
    CountsDistinct(resumed);
    forall p | 0 <= p < |resumed|
      ensures resumed[p] in plain
    {
      assert resumed[p] in multiset(resumed);
      assert resumed[p] in multiset(plain);
    }
  }

  lemma OnlyGoodResumeGivesPlainRoot(k: Codec, file: Bytes, size: nat, resumed: seq<StoredChunk>)
    requires size > 0 && k.Injective() && k.RoundTrips()
    requires RootCid(k, HASH_BLAKE2B_256, FinalList(k, file, size, resumed)) == PlainRoot(k, HASH_BLAKE2B_256, file, size)
    ensures ResumeOk(k, file, size, resumed)
  {
    var added := Added(k, file, size, IndexSet(resumed), ChunkCount(file, size));
    var t := FinalList(k, file, size, resumed);
    RootDeterminesChunks(k, HASH_BLAKE2B_256, t, Plain(k, file, size));
    SortFacts(resumed + added);
    forall i | 0 <= i < |t|
      ensures Occurs(t, i)
    {
      FinalListCovers(k, file, size, resumed, i);
    }
    AgreeingListIsPlain(k, file, size, t);
    PartOfPlainIsOk(k, file, size, resumed, added);
  }

  /** Resuming does not check the entries it resumes. The root is the one of plain chunking exactly when they were good. */
  lemma ResumedRootExact(k: Codec, file: Bytes, size: nat, resumed: seq<StoredChunk>)
    requires size > 0 && k.Injective() && k.RoundTrips()
    ensures RootCid(k, HASH_BLAKE2B_256, FinalList(k, file, size, resumed)) == PlainRoot(k, HASH_BLAKE2B_256, file, size)
            <==> ResumeOk(k, file, size, resumed)
  {
    if ResumeOk(k, file, size, resumed) {
      GoodResumeGivesPlain(k, file, size, resumed);
    } else if RootCid(k, HASH_BLAKE2B_256, FinalList(k, file, size, resumed)) == PlainRoot(k, HASH_BLAKE2B_256, file, size) {
      OnlyGoodResumeGivesPlainRoot(k, file, size, resumed);
    }
  }

  // ---- reading an upload back ------------------------------------------------

  type Storage = map<Bytes, Bytes>

  /** The host has stored these bytes, under their digest. */
  predicate Held(k: Codec, host: Storage, bytes: Bytes)
  {
    k.digest(bytes) in host && host[k.digest(bytes)] == bytes
  }

  function HostOf(host: Storage): Host
  {
    (path, key) => if key in host then Some(host[key]) else None
  }

  function Leaves(parts: seq<Bytes>): (dags: seq<Dag>)
    ensures |dags| == |parts|
    ensures forall i :: 0 <= i < |parts| ==> dags[i] == RawLeaf(parts[i])
  {
    seq(|parts|, i requires 0 <= i < |parts| => RawLeaf(parts[i]))
  }

  lemma {:induction false} ContentsOfLeaves(parts: seq<Bytes>)
    ensures Contents(Leaves(parts)) == parts
  {
    if parts != [] {
      assert Leaves(parts)[1..] == Leaves(parts[1..]);
      ContentsOfLeaves(parts[1..]);
    }
  }

  lemma {:induction false} DeclaredIsTotal(chunks: seq<StoredChunk>)
    ensures Declared(Links(chunks)) == Sum(Lengths(chunks))
  {
    if chunks != [] {
      assert Links(chunks)[1..] == Links(chunks[1..]);
      assert Lengths(chunks)[1..] == Lengths(chunks[1..]);
      DeclaredIsTotal(chunks[1..]);
    }
  }

  /** The tree an upload of `file` creates. */
  ghost function UploadTree(k: Codec, file: Bytes, size: nat): Dag
    requires size > 0
  {
    var block := RootBytes(k, Plain(k, file, size));
    if ChunkCount(file, size) == 0 then InlineLeaf(block, []) else Branch(block, Leaves(Chunks(file, size, ChunkCount(file, size))))
  }

  /** The host holds everything an upload of `file` stores. */
  predicate HoldsUpload(k: Codec, host: Storage, file: Bytes, size: nat)
    requires size > 0
  {
    && Held(k, host, RootBytes(k, Plain(k, file, size)))
    && forall i :: 0 <= i < ChunkCount(file, size) ==> Held(k, host, ChunkAt(file, size, i))
  }

  lemma {:induction false} UploadTreeIsRepresented(k: Codec, file: Bytes, size: nat)
    requires size > 0 && k.RoundTrips()
    ensures Represents(k, UploadTree(k, file, size), PlainRoot(k, HASH_BLAKE2B_256, file, size))
  {
    var plain := Plain(k, file, size);
    assert k.decode(RootBytes(k, plain)) == Some(RootNode(k, plain));
    if ChunkCount(file, size) == 0 {
      var u := UnixFs(None, Lengths(plain));
      assert k.unmarshal(k.marshal(u)) == Some(u);
    } else {
      var leaves := Leaves(Chunks(file, size, ChunkCount(file, size)));
      forall i | 0 <= i < |leaves|
        ensures Represents(k, leaves[i], Links(plain)[i].hash)
      {
        assert plain[i] == TrueEntry(k, HASH_BLAKE2B_256, file, size, i);
      }
    }
  }

  lemma UploadTreeContent(k: Codec, file: Bytes, size: nat)
    requires size > 0
    ensures Content(UploadTree(k, file, size)) == file
  {
    ChunksCoverFile(k, HASH_BLAKE2B_256, file, size);
    ChunkStartFacts(file, size, 0);
    if ChunkCount(file, size) != 0 {
      ContentsOfLeaves(Chunks(file, size, ChunkCount(file, size)));
    }
  }

  lemma UploadTreeFits(k: Codec, file: Bytes, size: nat, maxBytes: Option<nat>)
    requires size > 0 && k.RoundTrips()
    ensures Fits(k, UploadTree(k, file, size), maxBytes, 0) <==> Within(|file|, maxBytes)
  {
    var plain := Plain(k, file, size);
    var dag := UploadTree(k, file, size);
    UploadTreeContent(k, file, size);
    if dag.Branch? && Within(|file|, maxBytes) {
      assert k.decode(dag.block) == Some(RootNode(k, plain));
      ChunksCoverFile(k, HASH_BLAKE2B_256, file, size);
      DeclaredIsTotal(plain);
      forall i | 0 <= i < |dag.children|
        ensures Fits(k, dag.children[i], maxBytes, 1)
      {
        assert dag.children[i] == RawLeaf(ChunkAt(file, size, i));
        ChunkStartFacts(file, size, i);
      }
    }
  }

  /** Fetching the CID gives these bytes, and fails only if the reader's cap is below their number. */
  predicate FetchGives(k: Codec, host: Storage, maxBytes: Option<nat>, cid: Cid, bytes: Bytes)
  {
    var r := Resolve(k, HostOf(host), maxBytes, cid, [], 0);
    (r.Ok? <==> Within(|bytes|, maxBytes)) && (r.Ok? ==> r.value == bytes)
  }

  /** Uploading and then fetching is the identity, for every file and every chunk size; a cap below the file size is
      the only thing that stops the fetch. */
  lemma FetchReturnsUpload(k: Codec, host: Storage, file: Bytes, size: nat, maxBytes: Option<nat>)
    requires size > 0 && k.Injective() && k.RoundTrips()
    requires HoldsUpload(k, host, file, size)
    ensures FetchGives(k, host, maxBytes, PlainRoot(k, HASH_BLAKE2B_256, file, size), file)
  {
    var dag := UploadTree(k, file, size);
    UploadTreeIsRepresented(k, file, size);
    UploadTreeContent(k, file, size);
    UploadTreeFits(k, file, size, maxBytes);
    assert Serves(k, HostOf(host), dag, []) by {
      if dag.Branch? {
        forall i | 0 <= i < |dag.children|
          ensures Serves(k, HostOf(host), dag.children[i], [] + [i])
        {
          assert dag.children[i] == RawLeaf(ChunkAt(file, size, i));
        }
      }
    }
    ResolveExact(k, HostOf(host), maxBytes, PlainRoot(k, HASH_BLAKE2B_256, file, size), dag);
  }

  // ---- the uploader ----------------------------------------------------------

  /** Good entries stay good when more chunks are added. */
  lemma AddingKeepsResumeOk(k: Codec, file: Bytes, size: nat, resumed: seq<StoredChunk>, n: nat)
    requires size > 0 && ResumeOk(k, file, size, resumed) && n <= ChunkCount(file, size)
    ensures ResumeOk(k, file, size, resumed + Added(k, file, size, IndexSet(resumed), n))
  {
    var added := Added(k, file, size, IndexSet(resumed), n);
    var all := resumed + added;
    AddedFacts(k, file, size, IndexSet(resumed), n);
    forall i, j | 0 <= i < j < |all|
      ensures all[i] != all[j]
    {
      if i < |resumed| <= j {
        assert all[j] in added;
        assert resumed[i].index in IndexSet(resumed);
      }
    }
    forall p | 0 <= p < |all|
      ensures 0 <= all[p].index < ChunkCount(file, size) && all[p] == TrueEntry(k, HASH_BLAKE2B_256, file, size, all[p].index)
    {
      if p >= |resumed| { assert all[p] in added; }
    }
  }

  /** What is resumed for a file: a saved state only if its key and chunk count match. */
  function Resumed(session: Option<ResumeState>, file: File, size: nat): seq<StoredChunk>
    requires size > 0
  {
    if session.Some? && session.value.fileKey == GetFileKey(file) && session.value.totalChunks == ChunkCount(file.bytes, size)
    then session.value.completedChunks
    else []
  }

  /** The file key says nothing about the content: the state saved for one file is resumed for another of the same name, size
      and date, and the root is then wrong. The two files differ in every byte, and are of a size the browser does split. */
  lemma StaleResumeBreaksRoot(k: Codec, name: string, lastModified: int)
    requires k.Injective() && k.RoundTrips()
    ensures var was, now := File(name, lastModified, Filled(CHUNK_SIZE + 1, 0)), File(name, lastModified, Filled(CHUNK_SIZE + 1, 1));
            var saved := Plain(k, was.bytes, CHUNK_SIZE);
            var session := Some(ResumeState(GetFileKey(was), ChunkCount(was.bytes, CHUNK_SIZE), saved));
            && NeedsChunking(|now.bytes|) && |now.bytes| <= MAX_BROWSER_UPLOAD_SIZE
            && ResumeOk(k, was.bytes, CHUNK_SIZE, saved)
            && Resumed(session, now, CHUNK_SIZE) == saved
            && RootCid(k, HASH_BLAKE2B_256, FinalList(k, now.bytes, CHUNK_SIZE, saved)) != PlainRoot(k, HASH_BLAKE2B_256, now.bytes, CHUNK_SIZE)
  {
    var was, now := Filled(CHUNK_SIZE + 1, 0), Filled(CHUNK_SIZE + 1, 1);
    var saved := Plain(k, was, CHUNK_SIZE);
    assert ChunkAt(was, CHUNK_SIZE, 0)[0] == 0 && ChunkAt(now, CHUNK_SIZE, 0)[0] == 1;
    assert !k.SameDigest(ChunkAt(was, CHUNK_SIZE, 0), ChunkAt(now, CHUNK_SIZE, 0));
    assert saved[0] == TrueEntry(k, HASH_BLAKE2B_256, was, CHUNK_SIZE, 0) != TrueEntry(k, HASH_BLAKE2B_256, now, CHUNK_SIZE, 0);
    ResumedRootExact(k, now, CHUNK_SIZE, saved);
  }

  function Filled(size: nat, b: Byte): (bytes: Bytes)
    ensures |bytes| == size && forall i :: 0 <= i < size ==> bytes[i] == b
  {
    seq(size, i => b)
  }

  /** What session storage holds after a chunk: the state is saved after every fifth chunk and after the last, if saving works. */
  function AfterChunk(session: Option<ResumeState>, file: File, size: nat, chunks: seq<StoredChunk>, script: BlockScript): Option<ResumeState>
    requires size > 0
  {
    var count := ChunkCount(file.bytes, size);
    if (|chunks| % 5 == 0 || |chunks| == count) && script.saved then Some(ResumeState(GetFileKey(file), count, chunks)) else session
  }

  /** What session storage holds when the first `n` chunks are done. */
  function SessionAt(k: Codec, session: Option<ResumeState>, file: File, size: nat, blocks: nat -> BlockScript, n: nat): Option<ResumeState>
    requires size > 0
  {
    if n == 0 then session
    else
      var before, resumed := SessionAt(k, session, file, size, blocks, n - 1), Resumed(session, file, size);
      if n - 1 in IndexSet(resumed) then before
      else AfterChunk(before, file, size, resumed + Added(k, file.bytes, size, IndexSet(resumed), n), blocks(n - 1))
  }

  lemma {:induction false} AddedToNothing(k: Codec, file: Bytes, size: nat, n: nat)
    requires size > 0
    ensures Added(k, file, size, {}, n) == PlainEntries(k, HASH_BLAKE2B_256, file, size, n)
  {
    if n > 0 {
      AddedToNothing(k, file, size, n - 1);
    }
  }

  /** An upload that resumes nothing and saves its last chunk's state leaves the whole plain list. */
  lemma LastChunkSavesAll(k: Codec, session: Option<ResumeState>, file: File, size: nat, blocks: nat -> BlockScript)
    requires size > 0 && Resumed(session, file, size) == []
    requires ChunkCount(file.bytes, size) > 0 && blocks(ChunkCount(file.bytes, size) - 1).saved
    ensures var count := ChunkCount(file.bytes, size);
            SessionAt(k, session, file, size, blocks, count) == Some(ResumeState(GetFileKey(file), count, Plain(k, file.bytes, size)))
  {
    var count := ChunkCount(file.bytes, size);
    AddedToNothing(k, file.bytes, size, count);
    assert IndexSet([]) == {};
    assert [] + Added(k, file.bytes, size, {}, count) == Plain(k, file.bytes, size);
  }

  /** What would be resumed for this file is good, and the host has stored those chunks. */
  predicate SessionOk(k: Codec, host: Storage, session: Option<ResumeState>, file: File, size: nat)
    requires size > 0
  {
    var resumed := Resumed(session, file, size);
    && ResumeOk(k, file.bytes, size, resumed)
    && forall p :: 0 <= p < |resumed| ==> Held(k, host, ChunkAt(file.bytes, size, resumed[p].index))
  }

  class Uploader {
    const k: Codec
    var host: Storage                  // preimages the host has stored
    var session: Option<ResumeState>   // session storage
    var chunksCompleted: nat

    constructor (k: Codec, host: Storage, session: Option<ResumeState>)
      ensures this.k == k && this.host == host && this.session == session
    {
      this.k, this.host, this.session, chunksCompleted := k, host, session, 0;
    }

    /** Submits a block, at most four times. */
    method StoreWithRetries(bytes: Bytes, submits: SubmitScript) returns (r: Result<Bytes, Failure>)
      modifies `host
      ensures r.Ok? <==> exists attempt: nat :: Accepted(submits, attempt)
      ensures r.Ok? ==> r.value == k.digest(bytes) && host == old(host)[k.digest(bytes) := bytes]
      // the host gains the block exactly if some submission lands, even one that failed for the client
      ensures host == if exists attempt: nat :: Lands(submits, attempt) then old(host)[k.digest(bytes) := bytes] else old(host)
    {
      var attempt := 0;
      ghost var landed := false;
      while true
        invariant 0 <= attempt <= MAX_RETRIES
        invariant Made(submits, attempt)
        invariant landed <==> exists a: nat :: a < attempt && Lands(submits, a)
        invariant host == if landed then old(host)[k.digest(bytes) := bytes] else old(host)
        decreases MAX_RETRIES - attempt
      {
        var answer := submits(attempt);
        var key := k.digest(bytes);
        if answer.failure.None? || answer.landed {
          assert Lands(submits, attempt);
          host, landed := host[key := bytes], true;
        }
        if answer.failure.None? {
          assert Accepted(submits, attempt);
          return Ok(key);
        }
        if !TriesAgain(answer.failure) || attempt == MAX_RETRIES {
          assert forall a: nat :: Made(submits, a) ==> a <= attempt;
          return Err(answer.failure.value);
        }
        attempt := attempt + 1;
      }
    }

    /** Prepares a block in the worker and stores it. */
    method StorePrepared(bytes: Bytes, script: BlockScript) returns (r: Result<Bytes, Failure>)
      requires k.Injective()
      modifies `host
      ensures r.Ok? <==> Succeeds(script)
      ensures r.Ok? ==> r.value == k.digest(bytes) && Held(k, host, bytes)
      ensures StillHeld(k, old(host), host)
    {
      if !script.prepared {
        return Err(PrepareFailure);
      }
      r := StoreWithRetries(bytes, script.submits);
      forall other | Held(k, old(host), other)
        ensures Held(k, host, other)
      {
        assert k.SameDigest(other, bytes) ==> other == bytes;
      }
    }

    /** Uploads a file in slices, resuming from session storage, and stores the root. */
    method UploadChunkedFile(file: File, size: nat, blocks: nat -> BlockScript, root: BlockScript) returns (r: Result<Stored, Failure>)
      requires size > 0 && k.Injective()
      modifies this
      ensures StillHeld(k, old(host), host)
      ensures r.Ok? <==> AllSucceed(blocks, ChunkCount(file.bytes, size), Resumed(old(session), file, size)) && Succeeds(root)
      // the root is built over the resumed entries, unchecked, and the true entries of all other chunks, in order
      ensures r.Ok? ==> r.value.cid == RootCid(k, HASH_BLAKE2B_256, FinalList(k, file.bytes, size, Resumed(old(session), file, size)))
      ensures r.Ok? ==> session == None
      // what is left in session storage when a chunk, or the root alone, fails
      ensures r.Err? ==> exists n: nat :: n <= ChunkCount(file.bytes, size) && session == SessionAt(k, old(session), file, size, blocks, n)
      ensures r.Err? && AllSucceed(blocks, ChunkCount(file.bytes, size), Resumed(old(session), file, size)) ==>
                session == SessionAt(k, old(session), file, size, blocks, ChunkCount(file.bytes, size))
      // a good saved state stays good, however the upload ends
      ensures SessionOk(k, old(host), old(session), file, size) ==> SessionOk(k, host, session, file, size)
      // and from a good one, or none, the upload is the plain one
      ensures r.Ok? && SessionOk(k, old(host), old(session), file, size) ==>
                r.value.cid == PlainRoot(k, HASH_BLAKE2B_256, file.bytes, size) && HoldsUpload(k, host, file.bytes, size)
    {
      var resumed := Resumed(session, file, size);
      var completedIndexes := IndexSet(resumed);
      var completedChunks := resumed;
      chunksCompleted := |completedChunks|;
      ghost var first := host;
      ghost var good := SessionOk(k, host, session, file, size);

      var i := 0;
      while i < ChunkCount(file.bytes, size)
        invariant 0 <= i <= ChunkCount(file.bytes, size)
        invariant completedChunks == resumed + Added(k, file.bytes, size, completedIndexes, i)
        invariant Along(k, first, host, session, file, size, resumed, i, good)
        invariant AllSucceed(blocks, i, resumed)
        invariant session == SessionAt(k, old(session), file, size, blocks, i)
      {
        if i !in completedIndexes {
          var failure;
          completedChunks, failure := UploadChunk(file, size, i, completedChunks, blocks(i), first, resumed, good);
          if failure.Some? {
            return Err(failure.value);
          }
        }
        i := i + 1;
      }

      completedChunks := SortByIndex(completedChunks);
      r := StoreRoot(completedChunks, root, first, file, size, resumed, good);
    }

    /** Uploads a file as one raw block. */
    method UploadSingleBlock(file: File, script: BlockScript) returns (r: Result<Stored, Failure>)
      requires k.Injective()
      modifies this
      ensures r.Ok? <==> Succeeds(script)
      ensures r.Ok? ==> forall maxBytes :: FetchGives(k, host, maxBytes, r.value.cid, file.bytes)
      ensures StillHeld(k, old(host), host) && session == old(session)
    {
      chunksCompleted := 0;
      var key := StorePrepared(file.bytes, script);
      if key.Err? {
        return Err(key.error);
      }
      chunksCompleted := 1;
      return Ok(Stored(k.RawCid(HASH_BLAKE2B_256, file.bytes), key.value));
    }

    /** The browser's upload: what a reader then fetches is the file. */
    method UploadFile(file: File, blocks: nat -> BlockScript, last: BlockScript) returns (r: Result<Stored, Failure>)
      requires k.Injective() && k.RoundTrips()
      modifies this
      ensures |file.bytes| > MAX_BROWSER_UPLOAD_SIZE ==> r == Err(TooLargeForBrowser) && host == old(host)
      ensures r.Ok? && (NeedsChunking(|file.bytes|) ==> SessionOk(k, old(host), old(session), file, CHUNK_SIZE)) ==>
                forall maxBytes :: FetchGives(k, host, maxBytes, r.value.cid, file.bytes)
      // resumed entries go into the root unchecked, and if the root alone fails, the state of the last chunk is left
      ensures r.Ok? && NeedsChunking(|file.bytes|) ==>
                r.value.cid == RootCid(k, HASH_BLAKE2B_256, FinalList(k, file.bytes, CHUNK_SIZE, Resumed(old(session), file, CHUNK_SIZE)))
      ensures var count := ChunkCount(file.bytes, CHUNK_SIZE);
              r.Err? && |file.bytes| <= MAX_BROWSER_UPLOAD_SIZE && NeedsChunking(|file.bytes|) &&
              AllSucceed(blocks, count, Resumed(old(session), file, CHUNK_SIZE)) ==>
                session == SessionAt(k, old(session), file, CHUNK_SIZE, blocks, count)
      ensures |file.bytes| <= MAX_BROWSER_UPLOAD_SIZE ==>
                (r.Ok? <==> Succeeds(last) && (NeedsChunking(|file.bytes|) ==>
                   AllSucceed(blocks, ChunkCount(file.bytes, CHUNK_SIZE), Resumed(old(session), file, CHUNK_SIZE))))
      // interrupted or not, the next upload of the same file may resume
      ensures SessionOk(k, old(host), old(session), file, CHUNK_SIZE) ==> SessionOk(k, host, session, file, CHUNK_SIZE)
    {
      if |file.bytes| > MAX_BROWSER_UPLOAD_SIZE {
        return Err(TooLargeForBrowser);
      }
      if NeedsChunking(|file.bytes|) {
        r := UploadChunkedFile(file, CHUNK_SIZE, blocks, last);
        if r.Ok? && SessionOk(k, old(host), old(session), file, CHUNK_SIZE) {
          forall maxBytes
            ensures FetchGives(k, host, maxBytes, r.value.cid, file.bytes)
          {
            FetchReturnsUpload(k, host, file.bytes, CHUNK_SIZE, maxBytes);
          }
        }
      } else {
        r := UploadSingleBlock(file, last);
      }
    }

    /** Uploads chunk `i` and records it; saves the state after every fifth chunk and after the last. */
    method UploadChunk(file: File, size: nat, i: nat, completedChunks: seq<StoredChunk>, script: BlockScript,
                       ghost first: Storage, ghost resumed: seq<StoredChunk>, ghost good: bool)
      returns (chunks: seq<StoredChunk>, failure: Option<Failure>)
      requires size > 0 && k.Injective() && i < ChunkCount(file.bytes, size) && i !in IndexSet(resumed)
      requires completedChunks == resumed + Added(k, file.bytes, size, IndexSet(resumed), i)
      requires Along(k, first, host, session, file, size, resumed, i, good)
      modifies `host, `session, `chunksCompleted
      ensures failure.None? <==> Succeeds(script)
      ensures failure.Some? ==> Along(k, first, host, session, file, size, resumed, i, good)
      ensures failure.None? ==> chunks == resumed + Added(k, file.bytes, size, IndexSet(resumed), i + 1)
      ensures failure.None? ==> Along(k, first, host, session, file, size, resumed, i + 1, good)
      ensures session == if failure.None? then AfterChunk(old(session), file, size, chunks, script) else old(session)
    {
      var slice := Slice(file.bytes, size, i);
      ghost var before := host;
      var key := StorePrepared(slice, script);
      HoldingMore(k, first, before, host, session, file, size, resumed, i, good);
      if key.Err? {
        return completedChunks, Some(key.error);
      }
      ChunkDone(k, first, host, session, file, size, resumed, i, good);
      chunks, failure := completedChunks + [StoredChunk(i, k.RawCid(HASH_BLAKE2B_256, slice), |slice|)], None;
      chunksCompleted := |chunks|;
      if (|chunks| % 5 == 0 || |chunks| == ChunkCount(file.bytes, size)) && script.saved {
        session := Some(ResumeState(GetFileKey(file), ChunkCount(file.bytes, size), chunks));
      }
    }

    /** Stores the root over the sorted list and clears the saved state. */
    method StoreRoot(chunks: seq<StoredChunk>, script: BlockScript,
                     ghost first: Storage, ghost file: File, ghost size: nat, ghost resumed: seq<StoredChunk>, ghost good: bool)
      returns (r: Result<Stored, Failure>)
      requires size > 0 && k.Injective() && chunks == FinalList(k, file.bytes, size, resumed)
      requires Along(k, first, host, session, file, size, resumed, ChunkCount(file.bytes, size), good)
      modifies `host, `session
      ensures StillHeld(k, first, host)
      ensures good ==> SessionOk(k, host, session, file, size)
      ensures r.Ok? <==> Succeeds(script)
      ensures r.Ok? ==> r.value.cid == RootCid(k, HASH_BLAKE2B_256, chunks) && session == None
      ensures r.Err? ==> session == old(session)
      ensures r.Ok? && good ==>
                r.value.cid == PlainRoot(k, HASH_BLAKE2B_256, file.bytes, size) && HoldsUpload(k, host, file.bytes, size)
    {
      var rootBytes := RootBytes(k, chunks);
      ghost var before := host;
      var key := StorePrepared(rootBytes, script);
      HoldingMore(k, first, before, host, session, file, size, resumed, ChunkCount(file.bytes, size), good);
      if key.Err? {
        return Err(key.error);
      }
      session := None;
      if good {
        GoodResumeGivesPlain(k, file.bytes, size, resumed);
        AllHeld(k, first, host, file, size, resumed);
      }
      return Ok(Stored(k.DagPbCid(HASH_BLAKE2B_256, rootBytes), key.value));
    }
  }

  /** What holds when the loop is about to look at chunk `i`. */
  ghost predicate Along(k: Codec, first: Storage, host: Storage, session: Option<ResumeState>, file: File, size: nat,
                        resumed: seq<StoredChunk>, i: nat, good: bool)
    requires size > 0
  {
    && StillHeld(k, first, host)
    && (forall j :: 0 <= j < i && j !in IndexSet(resumed) ==> Held(k, host, ChunkAt(file.bytes, size, j)))
    && (good ==> SessionOk(k, host, session, file, size) && ResumeOk(k, file.bytes, size, resumed)
                 && forall p :: 0 <= p < |resumed| ==> Held(k, first, ChunkAt(file.bytes, size, resumed[p].index)))
  }

  /** The host forgets nothing it held. */
  ghost predicate StillHeld(k: Codec, before: Storage, after: Storage)
  {
    forall bytes :: Held(k, before, bytes) ==> Held(k, after, bytes)
  }

  lemma HoldingMore(k: Codec, first: Storage, before: Storage, after: Storage, session: Option<ResumeState>, file: File, size: nat,
                    resumed: seq<StoredChunk>, i: nat, good: bool)
    requires size > 0 && StillHeld(k, before, after)
    requires Along(k, first, before, session, file, size, resumed, i, good)
    ensures Along(k, first, after, session, file, size, resumed, i, good)
  {
  }

  /** After chunk `i`, with the state saved or not. */
  lemma ChunkDone(k: Codec, first: Storage, host: Storage, session: Option<ResumeState>, file: File, size: nat,
                  resumed: seq<StoredChunk>, i: nat, good: bool)
    requires size > 0 && i < ChunkCount(file.bytes, size)
    requires Along(k, first, host, session, file, size, resumed, i, good)
    requires Held(k, host, ChunkAt(file.bytes, size, i))
    ensures Along(k, first, host, session, file, size, resumed, i + 1, good)
    ensures var chunks := resumed + Added(k, file.bytes, size, IndexSet(resumed), i + 1);
            var saved := Some(ResumeState(GetFileKey(file), ChunkCount(file.bytes, size), chunks));
            Along(k, first, host, saved, file, size, resumed, i + 1, good)
  {
    if good {
      SavedStateIsOk(k, host, file, size, resumed, i + 1);
    }
  }

  /** `file.slice(start, end)` for chunk `i`. */
  method Slice(file: Bytes, size: nat, i: nat) returns (slice: Bytes)
    requires size > 0 && i < ChunkCount(file, size)
    ensures slice == ChunkAt(file, size, i)
  {
    ChunkStartFacts(file, size, i);
    var start := i * size;
    slice := file[start..Min(start + size, |file|)];
  }

  /** A state saved in the middle of an upload that resumed well can be resumed from. */
  lemma SavedStateIsOk(k: Codec, host: Storage, file: File, size: nat, resumed: seq<StoredChunk>, n: nat)
    requires size > 0 && ResumeOk(k, file.bytes, size, resumed) && n <= ChunkCount(file.bytes, size)
    requires forall p :: 0 <= p < |resumed| ==> Held(k, host, ChunkAt(file.bytes, size, resumed[p].index))
    requires forall j :: 0 <= j < n && j !in IndexSet(resumed) ==> Held(k, host, ChunkAt(file.bytes, size, j))
    ensures var chunks := resumed + Added(k, file.bytes, size, IndexSet(resumed), n);
            SessionOk(k, host, Some(ResumeState(GetFileKey(file), ChunkCount(file.bytes, size), chunks)), file, size)
  {
    var added := Added(k, file.bytes, size, IndexSet(resumed), n);
    AddedFacts(k, file.bytes, size, IndexSet(resumed), n);
    AddingKeepsResumeOk(k, file.bytes, size, resumed, n);
    var all := resumed + added;
    forall p | 0 <= p < |all|
      ensures Held(k, host, ChunkAt(file.bytes, size, all[p].index))
    {
      if p >= |resumed| { assert all[p] in added; }
    }
  }

  lemma AllHeld(k: Codec, first: Storage, host: Storage, file: File, size: nat, resumed: seq<StoredChunk>)
    requires size > 0 && ResumeOk(k, file.bytes, size, resumed) && StillHeld(k, first, host)
    requires forall p :: 0 <= p < |resumed| ==> Held(k, first, ChunkAt(file.bytes, size, resumed[p].index))
    requires forall j :: 0 <= j < ChunkCount(file.bytes, size) && j !in IndexSet(resumed) ==> Held(k, host, ChunkAt(file.bytes, size, j))
    ensures forall j :: 0 <= j < ChunkCount(file.bytes, size) ==> Held(k, host, ChunkAt(file.bytes, size, j))
  {
    forall j | 0 <= j < ChunkCount(file.bytes, size)
      ensures Held(k, host, ChunkAt(file.bytes, size, j))
    {
      if j in IndexSet(resumed) {
        var p :| 0 <= p < |resumed| && resumed[p].index == j;
      }
    }
  }

  /** And it happens: the first file's chunks are stored but its root is not; then the second file is uploaded, and its upload
      returns a root that is not its own. */
  method StaleUpload(k: Codec, name: string, lastModified: int, blocks: nat -> BlockScript, badRoot: BlockScript, goodRoot: BlockScript)
    returns (r: Result<Stored, Failure>)
    requires k.Injective() && k.RoundTrips()
    requires (forall i :: Succeeds(blocks(i)) && blocks(i).saved) && !Succeeds(badRoot) && Succeeds(goodRoot)
    ensures r.Ok? && r.value.cid != PlainRoot(k, HASH_BLAKE2B_256, Filled(CHUNK_SIZE + 1, 1), CHUNK_SIZE)
  {
    var was, now := File(name, lastModified, Filled(CHUNK_SIZE + 1, 0)), File(name, lastModified, Filled(CHUNK_SIZE + 1, 1));
    StaleResumeBreaksRoot(k, name, lastModified);
    TwoChunks(was.bytes);
    TwoChunks(now.bytes);
    var u := new Uploader(k, map[], None);
    var first := u.UploadFile(was, blocks, badRoot);
    LastChunkSavesAll(k, None, was, CHUNK_SIZE, blocks);
    AllResumed(k, was.bytes);
    r := u.UploadFile(now, blocks, goodRoot);
  }

  lemma TwoChunks(bytes: Bytes)
    requires |bytes| == CHUNK_SIZE + 1
    ensures ChunkCount(bytes, CHUNK_SIZE) == 2 && NeedsChunking(|bytes|) && |bytes| <= MAX_BROWSER_UPLOAD_SIZE
  {
  }

  lemma AllResumed(k: Codec, bytes: Bytes)
    ensures forall i :: 0 <= i < ChunkCount(bytes, CHUNK_SIZE) ==> i in IndexSet(Plain(k, bytes, CHUNK_SIZE))
  {
    forall i | 0 <= i < ChunkCount(bytes, CHUNK_SIZE)
      ensures i in IndexSet(Plain(k, bytes, CHUNK_SIZE))
    {
      assert Plain(k, bytes, CHUNK_SIZE)[i].index == i;
    }
  }
}
