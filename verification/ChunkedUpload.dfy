/** The chunked file uploader: a queue, an adaptive window, a nonce counter and a completed map
    that change together while waves succeed, fail, time out and complete late. */
module ChunkedUpload {
  import opened Prelude
  import opened Chunking
  import opened AdaptiveWindow
  import opened Waves
  import opened UploadManifest
  import opened Nonces
  import opened UploadState

  const MAX_RETRIES_PER_CHUNK: nat := 3
  const ROOT_MAX_RETRIES: nat := 5

  /** The chunk read from the file at position `i`. */
  function ChunkOf(codec: Codec, file: Bytes, chunkSize: nat, i: nat): (c: WaveChunk)
    requires 0 < chunkSize
    ensures c.index == i && c.length <= chunkSize
    ensures EntryOf(c) == TrueEntry(codec, HASH_SHA2_256, file, chunkSize, i)
  {
    var bytes := ChunkAt(file, chunkSize, i);
    WaveChunk(i, bytes, |bytes|, codec.RawCid(HASH_SHA2_256, bytes))
  }

  /** `streamFileChunks`: reads of `chunkSize` bytes until one returns nothing, each chunk with its CID. */
  method StreamFileChunks(codec: Codec, file: Bytes, chunkSize: nat) returns (chunks: seq<WaveChunk>)
    requires 0 < chunkSize
    ensures |chunks| == ChunkCount(file, chunkSize)
    ensures forall i :: 0 <= i < |chunks| ==> chunks[i] == ChunkOf(codec, file, chunkSize, i)
  {
    chunks := [];
    var position := 0;
    ChunkStartFacts(file, chunkSize, 0);
    while true
      invariant |chunks| <= ChunkCount(file, chunkSize)
      invariant position == ChunkStart(file, chunkSize, |chunks|)
      invariant forall i :: 0 <= i < |chunks| ==> chunks[i] == ChunkOf(codec, file, chunkSize, i)
      decreases |file| - position
    {
      ChunkStartFacts(file, chunkSize, |chunks|);
      var bytesRead := Min(chunkSize, |file| - position);
      if bytesRead <= 0 { break; }
      var bytes := file[position..position + bytesRead];
      chunks := chunks + [WaveChunk(|chunks|, bytes, |bytes|, codec.RawCid(HASH_SHA2_256, bytes))];
      position := position + bytesRead;
    }
  }

  /** The plan of a call: which resumed entries match the stream is decided once and for all. */
  ghost function PlanFor(stream: seq<WaveChunk>, completedBlocks: seq<StoredChunk>, manifest: Option<seq<StoredChunk>>, maxWindow: nat): (plan: Plan)
    requires 1 <= maxWindow <= ADAPTIVE_WINDOW_DEFAULT_MAX
    requires forall i :: 0 <= i < |stream| ==> stream[i].index == i && stream[i].length <= MAX_CHUNK_SIZE_BYTES
    ensures plan.WellFormed()
  {
    var resumed := EntriesByIndex(completedBlocks);
    EntriesKeyed(completedBlocks);
    var spared := set i | i in resumed && 0 <= i < |stream| && resumed[i] == EntryOf(stream[i]);
    Plan(stream, resumed, spared, manifest, maxWindow)
  }

  // ---- the environment -------------------------------------------------------

  /** How a wave ends: all its rounds settle, or the timer fires first, when it has made so many of its submissions and the
      chunks at the given positions are stored. */
  datatype WaveEnding = Settled(oracle: SubmitOracle) | TimedOut(oracle: SubmitOracle, made: nat, stored: set<nat>)

  /** What timed-out waves do meanwhile: the assignments on the trace they retry, and the submissions that complete. */
  datatype Late = Late(retried: seq<nat>, completed: seq<nat>)

  /** One wave as the environment plays it. */
  datatype Turn = Turn(
    lateInWave: Late,
    ending: WaveEnding,
    persist: Option<UploadError>,
    durationMs: int,
    lateInRefetch: Late,
    refetchedNonce: Result<nat, UploadError>)

  /** The network gives an error that a wave does not retry by itself, or gives it in the last round. */
  ghost predicate Final(oracle: SubmitOracle, e: UploadError)
  {
    exists round: nat, position: nat ::
      oracle(round, position) == Some(e) && (!RetriedInWave(e) || round >= MAX_RETRIES_PER_CHUNK)
  }

  /** What a wave can throw at the caller: an error that calls for no new attempt, or the failure to fetch a nonce for one. */
  ghost predicate Throws(turn: Turn, e: UploadError)
  {
    || (!Recoverable(e) && turn.ending.Settled? && Final(turn.ending.oracle, e))
    || (!Recoverable(e) && turn.persist == Some(e))
    || turn.refetchedNonce == Err(e)
  }

  /** Nothing goes wrong that the wave does not mend by its own retries. */
  ghost predicate Calm(turn: Turn)
  {
    turn.ending.Settled? && (forall e :: !Final(turn.ending.oracle, e)) && turn.persist.None?
  }

  /** How many turns are not calm. */
  ghost function Troubled(turns: seq<Turn>): nat
    decreases |turns|
  {
    if turns == [] then 0 else Troubled(turns[..|turns| - 1]) + if Calm(turns[|turns| - 1]) then 0 else 1
  }

  lemma {:induction false} TroubledMonotone(turns: seq<Turn>, n: nat)
    requires n <= |turns|
    ensures Troubled(turns[..n]) <= Troubled(turns)
    decreases |turns|
  {
    if n < |turns| {
      assert turns[..|turns| - 1][..n] == turns[..n];
      TroubledMonotone(turns[..|turns| - 1], n);
    } else {
      assert turns[..n] == turns;
    }
  }

  lemma TroubledStep(turns: seq<Turn>, n: nat)
    requires n < |turns|
    ensures Troubled(turns[..n + 1]) == Troubled(turns[..n]) + (if Calm(turns[n]) then 0 else 1) <= Troubled(turns)
  {
    assert turns[..n + 1][..n] == turns[..n];
    TroubledMonotone(turns, n + 1);
  }

  /** The environment is to blame for an error. */
  ghost predicate Blames(script: Script, e: UploadError)
  {
    || script.initialPersist == Some(e)
    || script.startingNonce == Err(e)
    || (exists n :: 0 <= n < |script.turns| && Throws(script.turns[n], e))
    || (RootFails(script.root) && e == LastRootError(script.root))
    || script.finalPersist == Some(e)
  }

  /** An environment that gives no error the call cannot recover from, and time for all the chunks. */
  ghost predicate Bearable(script: Script, chunks: nat)
  {
    (forall e :: !Blames(script, e)) && |script.turns| >= chunks + Troubled(script.turns)
  }

  datatype RootTurn = RootTurn(refetchedNonce: Result<nat, UploadError>, failure: Option<UploadError>)

  /** Everything that happens to one call. When the turns run out the process is gone. */
  datatype Script = Script(
    initialPersist: Option<UploadError>,
    startingNonce: Result<nat, UploadError>,
    turns: seq<Turn>,
    root: nat -> RootTurn,
    finalPersist: Option<UploadError>,
    unlinked: bool)                    // whether the manifest could be removed at the end

  datatype Failure = Environment(error: UploadError) | MissingChunk(index: nat)

  datatype Outcome = Done(root: Cid) | Failed(failure: Failure) | Interrupted

  const WAVE_TIMEOUT: UploadError := UploadError(true, false, true, false)

  /** Assembles the ordered list the root is built from; fails at the first index with no entry. */
  method BuildOrderedStoredChunks(totalChunks: nat, completed: Completed) returns (r: Result<seq<StoredChunk>, nat>)
    ensures r.Ok? ==> |r.value| == totalChunks
    ensures r.Ok? ==> forall i :: 0 <= i < totalChunks ==> i in completed && r.value[i] == StoredChunk(i, completed[i].cid, completed[i].length)
    ensures r.Err? ==> r.error < totalChunks && r.error !in completed && forall i :: 0 <= i < r.error ==> i in completed
  {
    var ordered := [];
    var index := 0;
    while index < totalChunks
      invariant 0 <= index <= totalChunks && |ordered| == index
      invariant forall i :: 0 <= i < index ==> i in completed && ordered[i] == StoredChunk(i, completed[i].cid, completed[i].length)
    {
      if index !in completed {
        return Err(index);
      }
      ordered := ordered + [StoredChunk(index, completed[index].cid, completed[index].length)];
      index := index + 1;
    }
    r := Ok(ordered);
  }

  /** Which failures a wave retries by itself. */
  predicate RetriedInWave(e: UploadError)
  {
    e.retryable && !e.reconnectRequired
  }

  /** Which wave failures reconnect, refetch the nonce and put the wave back. */
  predicate Recoverable(e: UploadError)
  {
    e.stall || e.nonceRejected || e.reconnectRequired
  }

  /** The submissions of a wave that runs to its end. */
  function WaveLog(wave: seq<WaveChunk>, oracle: SubmitOracle): seq<Submission<WaveChunk>>
  {
    Submissions(wave, 0, oracle, RetriedInWave, MAX_RETRIES_PER_CHUNK)
  }

  /** The trace grew by these submissions, each under the nonce its chunk was given. */
  ghost predicate Traced(before: Trace, log: seq<Submission<WaveChunk>>, waveNonces: map<int, nat>, after: Trace)
  {
    && (forall i :: 0 <= i < |log| ==> log[i].chunk.index in waveNonces)
    && after == before + SubmissionEvents(log, waveNonces)
  }

  /** The submissions a wave has made when its timer fires: the first round at once, and some of those that follow it. */
  function MadeInTime(wave: seq<WaveChunk>, oracle: SubmitOracle, made: nat): (log: seq<Submission<WaveChunk>>)
    ensures log <= WaveLog(wave, oracle) && |wave| <= |log|
    ensures forall i :: 0 <= i < |log| ==> log[i].chunk in wave
  {
    var all := WaveLog(wave, oracle);
    FirstRoundLeads(wave, oracle);
    all[..Max(|wave|, Min(made, |all|))]
  }

  lemma FirstRoundLeads(wave: seq<WaveChunk>, oracle: SubmitOracle)
    ensures |wave| <= |WaveLog(wave, oracle)|
    ensures forall i :: 0 <= i < |WaveLog(wave, oracle)| ==> WaveLog(wave, oracle)[i].chunk in wave
  {
    var log := WaveLog(wave, oracle);
    assert multiset(Stored<WaveChunk>([])) + multiset(wave) == multiset(wave);
    assert [] + log == log;
    var pending := SubmissionsKeepLedger(wave, [], wave, 0, oracle, RetriedInWave, MAX_RETRIES_PER_CHUNK, log);
  }

  /** Submits a wave with retries. Whatever it stores are chunks of the wave, and on success all of them. */
  method SubmitWave(ghost plan: Plan, ghost s: State, wave: seq<WaveChunk>, ghost queue: seq<WaveChunk>, oracle: SubmitOracle)
    returns (log: seq<Submission<WaveChunk>>, result: Result<WaveSubmitResult, UploadError>)
    requires Books(plan, s.completed, wave + queue, s.streamed, s.stored)
    ensures log == WaveLog(wave, oracle) && (result.Ok? <==> !AnyFinal(log, RetriedInWave, MAX_RETRIES_PER_CHUNK))
    ensures forall i :: 0 <= i < |log| ==> log[i].chunk in wave
    ensures forall p :: 0 <= p < |Stored(log)| ==>
              0 <= Stored(log)[p].index < s.streamed && Stored(log)[p] == plan.plain[Stored(log)[p].index]
    ensures result.Ok? ==> |Stored(log)| == |wave| && forall c :: c in wave ==> c.index in WithEntries(s.completed, Stored(log))
    ensures result.Err? ==> Final(oracle, result.error)
  {
    var run := RunWaveWithRetries(wave, oracle, RetriedInWave, MAX_RETRIES_PER_CHUNK);
    WaveMeetsContract(wave, oracle, RetriedInWave, MAX_RETRIES_PER_CHUNK, run);
    log, result := run.log, run.result;
    if result.Err? {
      var i :| 0 <= i < |log| && FirstFinalAt(log, RetriedInWave, MAX_RETRIES_PER_CHUNK, result.error, i);
      var position := FailuresAreAnswers(wave, 0, oracle, RetriedInWave, MAX_RETRIES_PER_CHUNK, i);
      assert oracle(log[i].round, position) == Some(result.error);
    }
    WaveIndices(plan, s.completed, wave, queue, s.streamed, s.stored);
    StoredInWave(wave, log);
    WithEntriesKeys(s.completed, Stored(log));
    if result.Ok? {
      StoredIsWave(wave, log);
      ChunksHaveIndices(wave, Stored(log));
    }
  }

  /** What the proofs remember about a call. */
  datatype History = History(
    skipped: nat,
    stored: set<int>,   // chunks the chain accepted during this call
    trace: Trace)

  class Uploader {
    const codec: Codec
    const stream: seq<WaveChunk>       // what the chunk iterator yields
    const totalChunks: nat             // from the size the caller declared
    const maxWindow: nat
    ghost const plan: Plan

    var window: int
    var cleanWaveStreak: int
    var nextNonce: nat
    var queue: seq<WaveChunk>
    var completed: Completed
    var streamed: nat                  // position of the chunk iterator
    var reachedEndOfStream: bool
    var completedChunks: nat
    var totalRetries: nat
    var waveNumber: nat
    var abandoned: seq<WaveChunk>      // submissions of timed-out waves, never cancelled
    var disk: Option<seq<StoredChunk>> // the manifest file of this upload

    ghost var history: History
    ghost var failedWaves: nat
    ghost var startNonce: nat

    /** The plan is the call's own. */
    ghost predicate Tied()
    {
      plan.WellFormed() && plan.plain == stream && plan.maxWindow == maxWindow
    }

    /** The state with `wave` in flight. */
    ghost function View(wave: seq<WaveChunk>): State
      reads this
    {
      State(completed, if wave == [] then queue else wave + queue, streamed, reachedEndOfStream, history.stored, abandoned, history.trace, disk,
            Tally(window, cleanWaveStreak, |queue|, |wave|, streamed, history.skipped, waveNumber, failedWaves, startNonce, nextNonce))
    }

    /** The invariant with `wave` in flight; `Inv([])` holds between waves. */
    ghost predicate Inv(wave: seq<WaveChunk>)
      reads this
    {
      Tied() && Core(plan, View(wave))
    }

    /** What survives even a failed call. */
    ghost predicate Durable()
      reads this
    {
      Tied() && TraceOk(plan, history.trace) && waveNumber <= |plan.plain| + failedWaves
    }

    /** The state before the first wave and before the starting nonce is known. */
    ghost predicate Fresh()
      reads this
    {
      && Tied()
      && window == 1 && cleanWaveStreak == 0 && queue == [] && completed == plan.resumed
      && streamed == 0 && !reachedEndOfStream && waveNumber == 0 && abandoned == [] && disk == plan.diskAtStart
      && history == History(0, {}, []) && failedWaves == 0 && startNonce == 0
    }

    constructor (codec: Codec, stream: seq<WaveChunk>, totalChunks: nat, maxWindow: nat,
                 completedBlocks: seq<StoredChunk>, manifest: Option<seq<StoredChunk>>)
      requires 1 <= maxWindow <= ADAPTIVE_WINDOW_DEFAULT_MAX
      requires forall i :: 0 <= i < |stream| ==> stream[i].index == i && stream[i].length <= MAX_CHUNK_SIZE_BYTES
      ensures this.codec == codec && this.stream == stream && this.totalChunks == totalChunks && this.maxWindow == maxWindow
      ensures plan == PlanFor(stream, completedBlocks, manifest, maxWindow)
      ensures Fresh()
    {
      this.codec := codec;
      this.stream := stream;
      this.totalChunks := totalChunks;
      this.maxWindow := maxWindow;
      plan := PlanFor(stream, completedBlocks, manifest, maxWindow);
      window := Min(maxWindow, ADAPTIVE_WINDOW_START);
      cleanWaveStreak := 0;
      nextNonce := 0;
      queue := [];
      completed := EntriesByIndex(completedBlocks);
      streamed := 0;
      reachedEndOfStream := false;
      completedChunks, totalRetries, waveNumber := 0, 0, 0;
      abandoned := [];
      disk := manifest;
      history := History(0, {}, []);
      failedWaves, startNonce := 0, 0;
    }

    /** Keeps a resumed entry that matches the chunk just read. */
    method SkipChunk()
      modifies `streamed, `completedChunks, `history
      ensures View([]) == AfterSkip(old(View([]))) && completedChunks == old(completedChunks) + 1
    {
      completedChunks, streamed := completedChunks + 1, streamed + 1;
      history := history.(skipped := history.skipped + 1);
    }

    /** Drops whatever entry was there for the chunk just read, and queues the chunk. */
    method QueueChunk(chunk: WaveChunk)
      modifies `streamed, `queue, `completed
      ensures View([]) == AfterQueue(old(View([])), chunk)
    {
      completed, queue, streamed := completed - {chunk.index}, queue + [chunk], streamed + 1;
    }

    /** Reads one chunk. A resumed entry is kept only when its CID and length match the chunk. */
    method PushChunkFromStream() returns (more: bool)
      requires Inv([]) && !reachedEndOfStream && |queue| < maxWindow
      modifies `reachedEndOfStream, `streamed, `queue, `completed, `completedChunks, `history
      ensures Inv([])
      ensures more <==> old(streamed) < |plan.plain|
      ensures reachedEndOfStream <==> !more
      ensures streamed == old(streamed) + if more then 1 else 0
      ensures queue == if more && old(streamed) !in plan.spared then old(queue) + [plan.plain[old(streamed)]] else old(queue)
      ensures completed == if more && old(streamed) !in plan.spared then old(completed) - {old(streamed)} else old(completed)
      ensures completedChunks == old(completedChunks) + if more && old(streamed) in plan.spared then 1 else 0
    {
      if streamed == |stream| {
        reachedEndOfStream := true;
        return false;
      }
      var chunk := stream[streamed];
      ResumeTest(plan, completed, queue, streamed, history.stored);
      if chunk.index in completed && completed[chunk.index].cid == chunk.cid && completed[chunk.index].length == chunk.length {
        SkipKeepsCore(plan, View([]));
        SkipChunk();
      } else {
        QueueKeepsCore(plan, View([]));
        QueueChunk(chunk);
      }
      return true;
    }

    /** Tops the queue up to the window limit, or to the end of the file. */
    method FillQueue()
      requires Inv([])
      modifies `reachedEndOfStream, `streamed, `queue, `completed, `completedChunks, `history
      ensures Inv([])
      ensures reachedEndOfStream || |queue| >= maxWindow
      ensures old(reachedEndOfStream) ==> reachedEndOfStream && queue == old(queue) && completed == old(completed)
    {
      while !reachedEndOfStream && |queue| < maxWindow
        invariant Inv([])
        invariant old(reachedEndOfStream) ==> reachedEndOfStream && queue == old(queue) && completed == old(completed)
        decreases |plan.plain| - streamed, !reachedEndOfStream
      {
        var hadChunk := PushChunkFromStream();
        if !hadChunk { break; }
      }
    }

    /** Takes a wave off the queue and numbers its chunks. The byte budget never cuts a wave short, so the wave is the
        first min(window, queue) chunks, and neither of the two budget errors can be raised. */
    method LaunchWave() returns (wave: seq<WaveChunk>, waveNonces: map<int, nat>)
      requires Inv([]) && queue != []
      modifies `queue, `waveNumber, `nextNonce, `history
      ensures Inv(wave)
      ensures wave + queue == old(queue) && 1 <= |wave| == Min(window, |old(queue)|)
      ensures TotalLength(wave) <= MAX_IN_FLIGHT_BYTES
      ensures waveNumber == old(waveNumber) + 1 && nextNonce == old(nextNonce) + |wave|
      ensures Numbered(wave, waveNonces, old(nextNonce), history.trace)
    {
      ghost var before, trace := View([]), history.trace;
      wave, queue, waveNonces, nextNonce, trace := DrawWave(plan, before, queue, window, nextNonce);
      waveNumber := waveNumber + 1;
      history := history.(trace := trace);
      assert View(wave) == AfterLaunch(before, wave, queue, trace);
    }

    /** Records the chunks the chain accepted. */
    method StoreChunks(chunks: seq<WaveChunk>, ghost wave: seq<WaveChunk>)
      modifies `completed, `completedChunks, `history
      ensures View(wave) == AfterStores(old(View(wave)), chunks)
      ensures history == old(history).(stored := WithIndices(old(history).stored, chunks))
      ensures completed == WithEntries(old(completed), chunks)
      ensures completedChunks == old(completedChunks) + |chunks|
    {
      var n := 0;
      while n < |chunks|
        invariant 0 <= n <= |chunks|
        invariant completedChunks == old(completedChunks) + n
        invariant completed == WithEntries(old(completed), chunks[..n])
        invariant history == old(history).(stored := WithIndices(old(history).stored, chunks[..n]))
      {
        var c := chunks[n];
        assert chunks[..n + 1][..n] == chunks[..n];
        completed := completed[c.index := EntryOf(c)];
        completedChunks := completedChunks + 1;
        history := history.(stored := history.stored + {c.index});
        n := n + 1;
      }
      assert chunks[..|chunks|] == chunks;
    }

    /** Submissions of timed-out waves that complete only now. */
    method CompleteLate(late: Late, ghost wave: seq<WaveChunk>)
      requires Inv(wave)
      modifies `completed, `completedChunks, `history
      ensures Inv(wave)
      ensures completed == WithEntries(old(completed), LateChunks(abandoned, late.completed))
      ensures history.trace == old(history).trace + LateEvents(old(history).trace, abandoned, late.retried)
    {
      ghost var events := LateEvents(history.trace, abandoned, late.retried);
      SubmitKeepsCore(plan, View(wave), events);
      history := history.(trace := history.trace + events);
      StoresKeepCore(plan, View(wave), LateChunks(abandoned, late.completed));
      StoreChunks(LateChunks(abandoned, late.completed), wave);
    }

    /** Writes the manifest. */
    method PersistManifest(ghost wave: seq<WaveChunk>)
      requires Inv(wave)
      modifies `disk
      ensures Inv(wave)
      ensures disk.Some? && Lists(disk.value, completed)
    {
      var blocks := PersistedBlocks(completed);
      PersistKeepsDisk(plan, View(wave), blocks);
      disk := Some(blocks);
    }

    /** Puts the unconfirmed part of a failed wave back at the front of the queue, under a halved window and a fresh nonce. */
    method RequeueWave(wave: seq<WaveChunk>, nonce: nat)
      requires wave != []
      modifies `nextNonce, `window, `cleanWaveStreak, `queue, `history, `failedWaves
      ensures View([]) == AfterFailedWave(old(View(wave)), wave, old(queue), WindowState(Max(1, old(window) / 2), 0), nonce)
    {
      nextNonce, window, cleanWaveStreak, queue :=
        nonce, Max(ADAPTIVE_WINDOW_MIN, window / 2), 0, Unconfirmed(wave, completed) + queue;
      history := history.(trace := history.trace + [Fetched(nonce)]);
      failedWaves := failedWaves + 1;
    }

    /** The catch block: a stall, a nonce error or a lost connection requeues the wave; any other error ends the call. */
    method RecoverWave(wave: seq<WaveChunk>, error: UploadError, turn: Turn) returns (thrown: Option<UploadError>)
      requires Inv(wave) && wave != []
      modifies `completed, `completedChunks, `nextNonce, `window, `cleanWaveStreak, `queue, `history, `failedWaves
      ensures thrown == if !Recoverable(error) then Some(error)
                        else if turn.refetchedNonce.Err? then Some(turn.refetchedNonce.error)
                        else None
      ensures failedWaves == old(failedWaves) + if thrown.None? then 1 else 0
      ensures thrown.Some? ==> Inv(wave)
      ensures thrown.None? ==> Inv([])
      ensures thrown.None? ==> nextNonce == turn.refetchedNonce.value
      ensures thrown.None? ==> window == Max(1, old(window) / 2) && cleanWaveStreak == 0
      ensures thrown.None? ==> queue == Unconfirmed(wave, completed) + old(queue)
    {
      if !Recoverable(error) {
        return Some(error);
      }
      CompleteLate(turn.lateInRefetch, wave);
      if turn.refetchedNonce.Err? {
        return Some(turn.refetchedNonce.error);
      }
      FailedWaveKeepsCore(plan, View(wave), wave, queue, WindowState(Max(1, window / 2), 0), turn.refetchedNonce.value);
      RequeueWave(wave, turn.refetchedNonce.value);
      return None;
    }

    /** Notes submissions in the history. */
    method Submit(ghost log: seq<Submission<WaveChunk>>, ghost wave: seq<WaveChunk>, ghost waveNonces: map<int, nat>, ghost first: nat)
      requires Inv(wave) && Numbered(wave, waveNonces, first, history.trace)
      requires forall i :: 0 <= i < |log| ==> log[i].chunk in wave
      modifies `history
      ensures Inv(wave) && history.stored == old(history).stored
      ensures Traced(old(history).trace, log, waveNonces, history.trace)
    {
      LogUsesNonces(wave, waveNonces, first, history.trace, log);
      ghost var events := SubmissionEvents(log, waveNonces);
      SubmitKeepsCore(plan, View(wave), events);
      history := history.(trace := history.trace + events);
    }

    /** The wave runs to its end. What it stored is recorded whether or not it succeeds. */
    method SettleWave(wave: seq<WaveChunk>, ghost waveNonces: map<int, nat>, ghost first: nat, oracle: SubmitOracle)
      returns (result: Result<WaveSubmitResult, UploadError>)
      requires Inv(wave) && wave != [] && Numbered(wave, waveNonces, first, history.trace)
      modifies `completed, `completedChunks, `history
      ensures Inv(wave)
      // exactly what the chain accepted is recorded, and every submission is on the trace under its chunk's nonce
      ensures completed == WithEntries(old(completed), Stored(WaveLog(wave, oracle)))
      ensures history.stored == WithIndices(old(history).stored, Stored(WaveLog(wave, oracle)))
      ensures Traced(old(history).trace, WaveLog(wave, oracle), waveNonces, history.trace)
      ensures result.Ok? <==> !AnyFinal(WaveLog(wave, oracle), RetriedInWave, MAX_RETRIES_PER_CHUNK)
      ensures result.Ok? ==> forall c :: c in wave ==> c.index in completed
      ensures result.Ok? ==> completedChunks == old(completedChunks) + |wave|
      ensures result.Err? ==> Final(oracle, result.error)
    {
      var log;
      log, result := SubmitWave(plan, View(wave), wave, queue, oracle);
      Submit(log, wave, waveNonces, first);
      StoresKeepCore(plan, View(wave), Stored(log));
      StoreChunks(Stored(log), wave);
    }

    /** The timer fires: some chunks are stored, the other submissions live on. */
    method TimeOutWave(wave: seq<WaveChunk>, ghost waveNonces: map<int, nat>, ghost first: nat, oracle: SubmitOracle, made: nat,
                       storedPositions: set<nat>)
      requires Inv(wave) && wave != [] && Numbered(wave, waveNonces, first, history.trace)
      modifies `completed, `completedChunks, `history, `abandoned
      ensures Inv(wave)
      ensures completed == WithEntries(old(completed), Pick(wave, storedPositions, true))
      ensures abandoned == old(abandoned) + Pick(wave, storedPositions, false)
      // nothing of the wave is lost or doubled
      ensures multiset(Pick(wave, storedPositions, true)) + multiset(Pick(wave, storedPositions, false)) == multiset(wave)
      // the submissions made so far are on the trace: the whole first round, and perhaps some retries
      ensures Traced(old(history).trace, MadeInTime(wave, oracle, made), waveNonces, history.trace)
    {
      PickSplits(wave, storedPositions);
      Submit(MadeInTime(wave, oracle, made), wave, waveNonces, first);
      SplitWave(wave, storedPositions);
    }

    /** Records the chunks stored in time, and abandons the others. */
    method SplitWave(wave: seq<WaveChunk>, storedPositions: set<nat>)
      requires Inv(wave) && wave != []
      modifies `completed, `completedChunks, `history, `abandoned
      ensures Inv(wave) && history.trace == old(history).trace
      ensures completed == WithEntries(old(completed), Pick(wave, storedPositions, true))
      ensures abandoned == old(abandoned) + Pick(wave, storedPositions, false)
    {
      WaveIndices(plan, completed, wave, queue, streamed, history.stored);
      StoresKeepCore(plan, View(wave), Pick(wave, storedPositions, true));
      StoreChunks(Pick(wave, storedPositions, true), wave);
      Abandon(Pick(wave, storedPositions, false), wave);
    }

    method Abandon(late: seq<WaveChunk>, ghost wave: seq<WaveChunk>)
      requires Inv(wave)
      requires forall p :: 0 <= p < |late| ==> 0 <= late[p].index < streamed && late[p] == plan.plain[late[p].index]
      modifies `abandoned
      ensures Inv(wave) && abandoned == old(abandoned) + late
    {
      AbandonKeepsCore(plan, View(wave), late);
      abandoned := abandoned + late;
    }

    /** Adapts the window after a wave that succeeded. */
    method AdaptWindow(ghost wave: seq<WaveChunk>, report: WaveReport)
      requires wave != [] && plan.maxWindow == maxWindow
      modifies `window, `cleanWaveStreak
      ensures View([]) == AfterDoneWave(old(View(wave)), queue, NextWindow(plan, old(View(wave)), report))
      ensures WindowState(window, cleanWaveStreak) ==
              ComputeNextAdaptiveWindow(WindowState(old(window), old(cleanWaveStreak)), maxWindow, report)
    {
      var next := ComputeNextAdaptiveWindow(WindowState(window, cleanWaveStreak), maxWindow, report);
      window, cleanWaveStreak := next.window, next.streak;
    }

    /** The end of the try block: persist, then adapt. A failure to persist is caught like any other. */
    method CompleteWave(wave: seq<WaveChunk>, result: WaveSubmitResult, turn: Turn) returns (thrown: Option<UploadError>)
      requires Inv(wave) && wave != [] && forall c :: c in wave ==> c.index in completed
      modifies `completed, `completedChunks, `nextNonce, `window, `cleanWaveStreak, `queue, `history, `failedWaves, `disk, `totalRetries
      ensures thrown.Some? ==> Inv(wave)
      ensures thrown.None? ==> Inv([])
      ensures thrown.Some? ==> Throws(turn, thrown.value)
      ensures turn.persist.None? ==> thrown.None? && failedWaves == old(failedWaves)
      ensures failedWaves <= old(failedWaves) + 1
      ensures totalRetries == old(totalRetries) + result.retries
    {
      totalRetries := totalRetries + result.retries;
      if turn.persist.Some? {
        thrown := RecoverWave(wave, turn.persist.value, turn);
        return;
      }
      PersistManifest(wave);
      var report := WaveReport(turn.durationMs, result.retryableFailures > 0, result.retries > 0);
      FinishWave(wave, report);
      return None;
    }

    method FinishWave(ghost wave: seq<WaveChunk>, report: WaveReport)
      requires Inv(wave) && wave != [] && forall c :: c in wave ==> c.index in completed
      modifies `window, `cleanWaveStreak
      ensures Inv([])
      ensures WindowState(window, cleanWaveStreak) ==
              ComputeNextAdaptiveWindow(WindowState(old(window), old(cleanWaveStreak)), maxWindow, report)
    {
      DoneWaveKeepsCore(plan, View(wave), wave, queue, report);
      AdaptWindow(wave, report);
    }

    /** One pass of the main loop over a non-empty queue. */
    method RunTurn(turn: Turn) returns (thrown: Option<UploadError>)
      requires Inv([]) && queue != []
      modifies `queue, `waveNumber, `completed, `completedChunks, `nextNonce, `window, `cleanWaveStreak, `history, `failedWaves,
               `disk, `totalRetries, `abandoned
      ensures thrown.None? ==> Inv([])
      ensures Tied() && Durable() && DiskOk(plan, disk)
      ensures waveNumber == old(waveNumber) + 1
      ensures failedWaves <= old(failedWaves) + if Calm(turn) then 0 else 1
      ensures thrown.Some? ==> Throws(turn, thrown.value)
    {
      ghost var first := nextNonce;
      var wave, waveNonces := LaunchWave();
      thrown := EndWave(wave, waveNonces, first, turn);
      CoreBoundsWaves(plan, View(if thrown.None? then [] else wave));
    }

    /** Whatever completes late completes; then the wave settles or times out. */
    method EndWave(wave: seq<WaveChunk>, ghost waveNonces: map<int, nat>, ghost first: nat, turn: Turn)
      returns (thrown: Option<UploadError>)
      requires Inv(wave) && wave != [] && Numbered(wave, waveNonces, first, history.trace)
      modifies `completed, `completedChunks, `nextNonce, `window, `cleanWaveStreak, `queue, `history, `failedWaves, `disk, `totalRetries, `abandoned
      ensures Inv(if thrown.None? then [] else wave)
      ensures failedWaves <= old(failedWaves) + if Calm(turn) then 0 else 1
      ensures thrown.Some? ==> Throws(turn, thrown.value)
    {
      ghost var trace := history.trace;
      CompleteLate(turn.lateInWave, wave);
      StillNumbered(plan, wave, waveNonces, first, trace, LateEvents(trace, abandoned, turn.lateInWave.retried));
      match turn.ending
      case Settled(oracle) => thrown := EndSettled(wave, waveNonces, first, turn, oracle);
      case TimedOut(_, _, _) => thrown := EndTimedOut(wave, waveNonces, first, turn);
    }

    method EndSettled(wave: seq<WaveChunk>, ghost waveNonces: map<int, nat>, ghost first: nat, turn: Turn, oracle: SubmitOracle)
      returns (thrown: Option<UploadError>)
      requires Inv(wave) && wave != [] && Numbered(wave, waveNonces, first, history.trace) && turn.ending == Settled(oracle)
      modifies `completed, `completedChunks, `nextNonce, `window, `cleanWaveStreak, `queue, `history, `failedWaves, `disk, `totalRetries
      ensures Inv(if thrown.None? then [] else wave)
      ensures failedWaves <= old(failedWaves) + if Calm(turn) then 0 else 1
      ensures thrown.Some? ==> Throws(turn, thrown.value)
    {
      var result := SettleWave(wave, waveNonces, first, oracle);
      match result
      case Ok(r) => thrown := CompleteWave(wave, r, turn);
      case Err(e) => thrown := RecoverWave(wave, e, turn);
    }

    method EndTimedOut(wave: seq<WaveChunk>, ghost waveNonces: map<int, nat>, ghost first: nat, turn: Turn)
      returns (thrown: Option<UploadError>)
      requires Inv(wave) && wave != [] && Numbered(wave, waveNonces, first, history.trace) && turn.ending.TimedOut?
      modifies `completed, `completedChunks, `nextNonce, `window, `cleanWaveStreak, `queue, `history, `failedWaves, `abandoned
      ensures Inv(if thrown.None? then [] else wave)
      ensures failedWaves <= old(failedWaves) + 1
      ensures thrown.Some? ==> Throws(turn, thrown.value)
    {
      TimeOutWave(wave, waveNonces, first, turn.ending.oracle, turn.ending.made, turn.ending.stored);
      thrown := RecoverWave(wave, WAVE_TIMEOUT, turn);
    }

    /** Persists the resumed state and learns the first nonce. */
    method Start(script: Script) returns (thrown: Option<UploadError>)
      requires Fresh()
      modifies `disk, `nextNonce, `history, `startNonce
      ensures Durable() && DiskOk(plan, disk)
      ensures thrown.None? ==> Inv([]) && queue == [] && !reachedEndOfStream
      ensures thrown.Some? ==> script.initialPersist == thrown || script.startingNonce == Err(thrown.value)
      ensures thrown.None? ==> script.startingNonce == Ok(startNonce) && nextNonce == startNonce
    {
      if script.initialPersist.Some? {
        return script.initialPersist;
      }
      var blocks := PersistedBlocks(completed);
      disk := Some(blocks);
      if script.startingNonce.Err? {
        return Some(script.startingNonce.error);
      }
      nextNonce := script.startingNonce.value;
      startNonce, history := nextNonce, History(0, {}, [Fetched(nextNonce)]);
      StartOk(plan, View([]), nextNonce);
      return None;
    }

    /** The main loop: top up the queue, run a wave, until the stream has ended and the queue is empty. */
    method RunWaves(turns: seq<Turn>) returns (stopped: Option<Outcome>)
      requires Inv([])
      modifies `queue, `waveNumber, `completed, `completedChunks, `nextNonce, `window, `cleanWaveStreak, `history, `failedWaves,
               `disk, `totalRetries, `abandoned, `reachedEndOfStream, `streamed
      ensures Durable() && DiskOk(plan, disk)
      ensures stopped.None? ==> Inv([]) && reachedEndOfStream && queue == []
      // it stops early only if the environment throws or the process is killed with chunks still due
      ensures stopped.Some? && !stopped.value.Interrupted? ==>
                && stopped.value.Failed? && stopped.value.failure.Environment?
                && exists n :: 0 <= n < |turns| && Throws(turns[n], stopped.value.failure.error)
      ensures stopped == Some(Interrupted) ==> Inv([]) && queue != [] && waveNumber == old(waveNumber) + |turns|
      ensures waveNumber <= old(waveNumber) + |turns|
      ensures failedWaves <= old(failedWaves) + Troubled(turns)
    {
      var t := 0;
      while !reachedEndOfStream || queue != []
        invariant 0 <= t <= |turns|
        invariant Inv([])
        invariant waveNumber == old(waveNumber) + t && failedWaves <= old(failedWaves) + Troubled(turns[..t])
        decreases |turns| - t, !reachedEndOfStream
      {
        FillQueue();
        if queue != [] {
          if t == |turns| {
            TroubledMonotone(turns, t);
            return Some(Interrupted);
          }
          TroubledStep(turns, t);
          var thrown := RunTurn(turns[t]);
          t := t + 1;
          if thrown.Some? {
            return Some(Failed(Environment(thrown.value)));
          }
        }
      }
      TroubledMonotone(turns, t);
      return None;
    }

    /** Stores the root block, refetching the nonce before each further attempt. */
    method StoreRoot(answers: nat -> RootTurn) returns (thrown: Option<UploadError>)
      requires TraceOk(plan, history.trace) && NextNonce(history.trace) == Some(nextNonce)
      modifies `nextNonce, `history
      ensures TraceOk(plan, history.trace)
      ensures history == old(history).(trace := history.trace)
      ensures RootSubmitted(old(nextNonce)) in history.trace
      ensures thrown == if RootFails(answers) then Some(LastRootError(answers)) else None
    {
      var rootAttempt := 1;
      while rootAttempt <= ROOT_MAX_RETRIES
        invariant 1 <= rootAttempt <= ROOT_MAX_RETRIES
        invariant TraceOk(plan, history.trace) && NextNonce(history.trace) == Some(nextNonce)
        invariant history == old(history).(trace := history.trace)
        invariant if rootAttempt == 1 then nextNonce == old(nextNonce) else RootSubmitted(old(nextNonce)) in history.trace
        invariant forall n :: 1 <= n < rootAttempt ==> !RootStored(answers, n)
        decreases ROOT_MAX_RETRIES - rootAttempt
      {
        var answer := answers(rootAttempt);
        var rootError := answer.failure;
        if rootAttempt > 1 && answer.refetchedNonce.Err? {
          rootError := Some(answer.refetchedNonce.error);
        } else {
          if rootAttempt > 1 {
            nextNonce := answer.refetchedNonce.value;
            Note(Fetched(nextNonce));
          }
          Note(RootSubmitted(nextNonce));
        }
        if rootError.None? {
          assert RootStored(answers, rootAttempt);
          return None;
        }
        assert !RootStored(answers, rootAttempt);
        if rootAttempt == ROOT_MAX_RETRIES {
          return rootError;
        }
        rootAttempt := rootAttempt + 1;
      }
      thrown := None;
    }

    method Note(e: NonceEvent)
      requires TraceOk(plan, history.trace)
      requires e.Fetched? || (e.RootSubmitted? && NextNonce(history.trace) == Some(e.nonce))
      modifies `history
      ensures TraceOk(plan, history.trace)
      ensures history == old(history).(trace := old(history).trace + [e])
      ensures NextNonce(history.trace) == Some(e.nonce)
    {
      Snoc(history.trace, e);
      history := history.(trace := history.trace + [e]);
    }

    /** The manifest a normal return leaves: none, or, if it could not be removed, one that records every chunk correctly. */
    ghost predicate LeftBehind(script: Script, disk: Option<seq<StoredChunk>>)
    {
      if script.unlinked then disk == None
      else disk.Some? && StrictlySorted(disk.value) && forall i :: 0 <= i < |stream| ==> EntryOf(stream[i]) in disk.value
    }

    /** The whole call. */
    method Run(script: Script) returns (out: Outcome)
      requires Fresh()
      modifies this
      // every call, however it ends
      ensures Durable()
      ensures !out.Done? ==> DiskOk(plan, disk)
      ensures out.Interrupted? ==> Inv([])
      // a normal return
      ensures out.Done? && totalChunks <= |stream| ==>
                out.root == RootCid(codec, HASH_SHA2_256, EntriesOf(stream[..totalChunks]))
      ensures out.Done? ==> forall i :: 0 <= i < |stream| ==> i in history.stored || i in plan.spared
      ensures out.Done? ==> forall i :: |stream| <= i < totalChunks ==> i in plan.resumed
      ensures out.Done? ==> LeftBehind(script, disk)
      ensures failedWaves <= Troubled(script.turns) && waveNumber <= |script.turns|
      ensures out.Done? ==> script.startingNonce == Ok(startNonce)
      ensures out.Done? && failedWaves == 0 ==>
                |plan.spared| <= |stream| && RootSubmitted(startNonce + |stream| - |plan.spared|) in history.trace
      // nothing stops a call but the environment: it throws, or it kills the process before the chunks got their calm waves
      ensures out.Failed? && out.failure.Environment? ==> Blames(script, out.failure.error)
      ensures out.Interrupted? ==> |script.turns| < |stream| + Troubled(script.turns)
      // the one failure that is the uploader's own
      ensures out.Failed? && out.failure.MissingChunk? ==> |stream| <= out.failure.index < totalChunks
    {
      var thrown := Start(script);
      if thrown.Some? {
        return Failed(Environment(thrown.value));
      }
      var stopped := RunWaves(script.turns);
      if stopped.Some? {
        return stopped.value;
      }
      out := Finish(script);
    }

    /** After the last wave: orders the entries, stores the root over them and deletes the manifest. */
    method Finish(script: Script) returns (out: Outcome)
      requires Inv([]) && reachedEndOfStream && queue == []
      modifies `nextNonce, `history, `disk
      ensures Durable() && !out.Interrupted?
      ensures out.Done? || DiskOk(plan, disk)
      ensures out.Done? ==> LeftBehind(script, disk)
      ensures history == old(history).(trace := history.trace)
      ensures out.Done? && totalChunks <= |stream| ==>
                out.root == RootCid(codec, HASH_SHA2_256, EntriesOf(stream[..totalChunks]))
      ensures forall i :: 0 <= i < |stream| ==> i in history.stored || i in plan.spared
      ensures out.Done? ==> forall i :: |stream| <= i < totalChunks ==> i in plan.resumed
      ensures out.Done? && failedWaves == 0 ==>
                |plan.spared| <= |stream| && RootSubmitted(startNonce + |stream| - |plan.spared|) in history.trace
      ensures out.Failed? && out.failure.Environment? ==> Blames(script, out.failure.error)
      ensures out.Failed? && out.failure.MissingChunk? ==> |stream| <= out.failure.index < totalChunks
    {
      AllCompleted(plan, View([]));
      CoreBoundsWaves(plan, View([]));
      var ordered := BuildOrderedStoredChunks(totalChunks, completed);
      if ordered.Err? {
        return Failed(MissingChunk(ordered.error));
      }
      if totalChunks <= |stream| {
        assert ordered.value == EntriesOf(stream[..totalChunks]);
      }
      var root := RootCid(codec, HASH_SHA2_256, ordered.value);
      var thrown := StoreRoot(script.root);
      if thrown.Some? {
        return Failed(Environment(thrown.value));
      }
      if script.finalPersist.Some? {
        return Failed(Environment(script.finalPersist.value));
      }
      var blocks := PersistedBlocks(completed);
      ListedEntries(stream, completed, blocks);
      disk := if script.unlinked then None else Some(blocks);
      return Done(root);
    }
  }

  /** None of the attempts at the root succeeds. */
  predicate RootFails(answers: nat -> RootTurn)
  {
    forall n :: 1 <= n <= ROOT_MAX_RETRIES ==> !RootStored(answers, n)
  }

  /** What the last attempt at the root meets: the failure to fetch a nonce, or else the one to store. */
  function LastRootError(answers: nat -> RootTurn): UploadError
    requires RootFails(answers)
  {
    var last := answers(ROOT_MAX_RETRIES);
    assert !RootStored(answers, ROOT_MAX_RETRIES);
    if last.refetchedNonce.Err? then last.refetchedNonce.error else last.failure.value
  }

  lemma ListedEntries(stream: seq<WaveChunk>, completed: Completed, blocks: seq<StoredChunk>)
    requires Lists(blocks, completed)
    requires forall i :: 0 <= i < |stream| ==> i in completed && completed[i] == EntryOf(stream[i])
    ensures forall i :: 0 <= i < |stream| ==> EntryOf(stream[i]) in blocks
  {
    forall i | 0 <= i < |stream|
      ensures EntryOf(stream[i]) in blocks
    {
      assert completed[i] == EntryOf(stream[i]);
    }
  }

  /** Attempt `n` at the root got its nonce and was accepted. */
  predicate RootStored(answers: nat -> RootTurn, n: nat)
  {
    answers(n).failure.None? && (n > 1 ==> answers(n).refetchedNonce.Ok?)
  }

  /** One call of the uploader on a file. `disk` is the manifest file it leaves behind, `trace` its nonces. */
  method StoreChunkedFileToBulletin(codec: Codec, file: Bytes, declaredSize: nat, chunkSize: JsNumber, concurrency: JsNumber,
                                    completedBlocks: seq<StoredChunk>, manifest: Option<seq<StoredChunk>>, script: Script)
    returns (out: Outcome, disk: Option<seq<StoredChunk>>, waves: nat, ghost trace: Trace, ghost accepted: set<int>)
    // whatever failed, timed out or was resumed, a normal return yields the root of plain sequential chunking
    ensures var size := ClampChunkSizeBytes(chunkSize);
            out.Done? && CeilDiv(declaredSize, size) == ChunkCount(file, size) ==>
              out.root == PlainRoot(codec, HASH_SHA2_256, file, size)
    // only the environment stops a call: an error it gives, or too few waves for the chunks and the waves it troubles
    ensures out.Failed? && out.failure.Environment? ==> Blames(script, out.failure.error)
    ensures var n := ChunkCount(file, ClampChunkSizeBytes(chunkSize));
            CeilDiv(declaredSize, ClampChunkSizeBytes(chunkSize)) <= n && Bearable(script, n) ==> out.Done?
    // the only error of its own making needs a declared size with more chunks than the file
    ensures var size := ClampChunkSizeBytes(chunkSize);
            out.Failed? && out.failure.MissingChunk? ==> CeilDiv(declaredSize, size) > ChunkCount(file, size)
    // nonces are handed out in order, and never to a chunk resumed correctly
    ensures Disciplined(trace)
    ensures forall e :: e in trace && e.Assigned? ==>
              !Recorded(codec, file, ClampChunkSizeBytes(chunkSize), EntriesByIndex(completedBlocks), e.index)
    // a call that does not finish leaves the manifest alone or leaves one that records every such chunk
    ensures !out.Done? ==> disk == manifest || (disk.Some? && StrictlySorted(disk.value) && forall i ::
              Recorded(codec, file, ClampChunkSizeBytes(chunkSize), EntriesByIndex(completedBlocks), i) ==>
              TrueEntry(codec, HASH_SHA2_256, file, ClampChunkSizeBytes(chunkSize), i) in disk.value)
    // a normal return removes the manifest, or, if that fails, leaves one that records every chunk correctly
    ensures out.Done? ==> if script.unlinked then disk == None else
              disk.Some? && StrictlySorted(disk.value) && forall i :: 0 <= i < ChunkCount(file, ClampChunkSizeBytes(chunkSize)) ==>
                TrueEntry(codec, HASH_SHA2_256, file, ClampChunkSizeBytes(chunkSize), i) in disk.value
    // every troubled wave costs at most one more wave than the chunks need
    ensures waves <= |script.turns| && waves <= ChunkCount(file, ClampChunkSizeBytes(chunkSize)) + Troubled(script.turns)
    // every chunk was accepted by the chain in this call, or its resumed entry was checked and found true
    ensures out.Done? ==> forall i :: 0 <= i < ChunkCount(file, ClampChunkSizeBytes(chunkSize)) ==>
              i in accepted || Recorded(codec, file, ClampChunkSizeBytes(chunkSize), EntriesByIndex(completedBlocks), i)
    // without trouble the root takes the nonce after those of the chunks that were not skipped
    ensures var n, skipped := ChunkCount(file, ClampChunkSizeBytes(chunkSize)),
                              RecordedIndices(codec, file, ClampChunkSizeBytes(chunkSize), EntriesByIndex(completedBlocks));
            out.Done? && Troubled(script.turns) == 0 ==>
              |skipped| <= n && script.startingNonce.Ok? && RootSubmitted(script.startingNonce.value + n - |skipped|) in trace
  {
    var size := ClampChunkSizeBytes(chunkSize);
    var stream := StreamFileChunks(codec, file, size);
    var u := new Uploader(codec, stream, CeilDiv(declaredSize, size), SanitizeWindowLimit(concurrency), completedBlocks, manifest);
    out := u.Run(script);
    disk, waves, trace, accepted := u.disk, u.waveNumber, u.history.trace, u.history.stored;
    assert forall i :: 0 <= i < |stream| ==> EntryOf(stream[i]) == TrueEntry(codec, HASH_SHA2_256, file, size, i);
    assert u.plan.spared == RecordedIndices(codec, file, size, EntriesByIndex(completedBlocks));
    if out.Done? && CeilDiv(declaredSize, size) == ChunkCount(file, size) {
      assert stream[..u.totalChunks] == stream;
      assert EntriesOf(stream) == PlainEntries(codec, HASH_SHA2_256, file, size, ChunkCount(file, size));
    }
  }

  /** The chunks a completed map records correctly. */
  function RecordedIndices(codec: Codec, file: Bytes, chunkSize: nat, m: Completed): (indices: set<int>)
    requires 0 < chunkSize
    ensures forall i :: i in indices <==> Recorded(codec, file, chunkSize, m, i)
  {
    set i | i in m && Recorded(codec, file, chunkSize, m, i)
  }

  /** A completed map records chunk `i` of the file correctly. */
  predicate Recorded(codec: Codec, file: Bytes, chunkSize: nat, m: Completed, i: int)
    requires 0 < chunkSize
  {
    0 <= i < ChunkCount(file, chunkSize) && i in m && m[i] == TrueEntry(codec, HASH_SHA2_256, file, chunkSize, i)
  }
}
