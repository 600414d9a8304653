/** What the chunked uploader keeps true of its queue, its waves and its completed map, step by step. */
module UploadState {
  import opened Prelude
  import opened Chunking
  import opened AdaptiveWindow
  import opened Waves
  import opened UploadManifest
  import opened Nonces

  function EntryOf(c: WaveChunk): StoredChunk
  {
    StoredChunk(c.index, c.cid, c.length)
  }

  /** The fixed data of one call: the chunks the stream will yield, the resumed entries and
      the manifest file as found, and which chunks the resumed entries already describe correctly. */
  datatype Plan = Plan(
    plain: seq<WaveChunk>,
    resumed: Completed,
    spared: set<int>,
    diskAtStart: Option<seq<StoredChunk>>,
    maxWindow: nat)
  {
    ghost predicate WellFormed()
    {
      && 1 <= maxWindow <= ADAPTIVE_WINDOW_DEFAULT_MAX
      && (forall i :: 0 <= i < |plain| ==> plain[i].index == i && plain[i].length <= MAX_CHUNK_SIZE_BYTES)
      && (forall i :: i in spared <==> 0 <= i < |plain| && i in resumed && resumed[i] == EntryOf(plain[i]))
      && KeyedByIndex(resumed)
    }
  }

  predicate HasIndex(chunks: seq<WaveChunk>, i: int)
  {
    exists p :: 0 <= p < |chunks| && chunks[p].index == i
  }

  predicate Before(due: seq<WaveChunk>, p: int, q: int)
  {
    0 <= p < q < |due| ==> due[p].index < due[q].index
  }

  ghost predicate Ascending(due: seq<WaveChunk>)
  {
    forall p, q {:trigger Before(due, p, q)} :: Before(due, p, q)
  }

  lemma ChunksHaveIndices(chunks: seq<WaveChunk>, among: seq<WaveChunk>)
    requires forall c :: c in chunks ==> c in among
    ensures forall c :: c in chunks ==> HasIndex(among, c.index)
  {
    forall c | c in chunks
      ensures HasIndex(among, c.index)
    {
      var p :| 0 <= p < |among| && among[p] == c;
      assert among[p].index == c.index;
    }
  }

  /** Chunks taken from the stream so far, in stream order. */
  ghost predicate Genuine(plan: Plan, due: seq<WaveChunk>, streamed: nat)
  {
    && streamed <= |plan.plain|
    && (forall p :: 0 <= p < |due| ==> 0 <= due[p].index < streamed && due[p] == plan.plain[due[p].index])
    && Ascending(due)
  }

  /** Nothing is lost: every chunk streamed so far is completed or still due. */
  ghost predicate NothingLost(completed: Completed, due: seq<WaveChunk>, streamed: nat)
  {
    forall i :: 0 <= i < streamed ==> i in completed || HasIndex(due, i)
  }

  /** Below the stream position an entry is the chunk's true one, and the chain took that chunk in this call
      or the resumed entry was checked against it; above, entries are as they came. */
  ghost predicate TrueEntries(plan: Plan, completed: Completed, streamed: nat, stored: set<int>)
  {
    && streamed <= |plan.plain|
    && KeyedByIndex(completed)
    && (forall i :: 0 <= i < streamed && i in completed ==>
          completed[i] == EntryOf(plan.plain[i]) && (i in stored || i in plan.spared))
    && (forall i :: i < 0 || streamed <= i ==>
          (i in completed <==> i in plan.resumed) && (i in completed ==> completed[i] == plan.resumed[i]))
  }

  /** A chunk recorded correctly when the call began keeps its entry and never becomes due. */
  ghost predicate SparedSafe(plan: Plan, completed: Completed, due: seq<WaveChunk>)
  {
    forall i :: i in plan.spared ==>
      0 <= i < |plan.plain| && i in completed && completed[i] == EntryOf(plan.plain[i]) && !HasIndex(due, i)
  }

  /** Everything about chunks, in one place. */
  ghost predicate Books(plan: Plan, completed: Completed, due: seq<WaveChunk>, streamed: nat, stored: set<int>)
  {
    && Genuine(plan, due, streamed)
    && NothingLost(completed, due, streamed)
    && TrueEntries(plan, completed, streamed, stored)
    && SparedSafe(plan, completed, due)
  }

  /** Abandoned submissions are of genuine chunks already streamed. */
  ghost predicate LateOnly(plan: Plan, abandoned: seq<WaveChunk>, streamed: nat)
  {
    streamed <= |plan.plain| &&
    forall p :: 0 <= p < |abandoned| ==> 0 <= abandoned[p].index < streamed && abandoned[p] == plan.plain[abandoned[p].index]
  }

  /** Nonces are disciplined, and no chunk recorded correctly is ever given one. */
  ghost predicate TraceOk(plan: Plan, trace: Trace)
  {
    Disciplined(trace) && forall e :: e in trace && e.Assigned? ==> e.index !in plan.spared
  }

  /** The manifest file is as found, or it records every chunk that was recorded correctly. */
  ghost predicate DiskOk(plan: Plan, disk: Option<seq<StoredChunk>>)
  {
    || disk == plan.diskAtStart
    || (disk.Some? && StrictlySorted(disk.value) && forall i :: i in plan.spared ==> 0 <= i < |plan.plain| && EntryOf(plan.plain[i]) in disk.value)
  }

  /** The numbers of a run; `flying` is the size of the wave in flight. */
  datatype Tally = Tally(
    window: int,
    cleanWaveStreak: int,
    queued: nat,
    flying: nat,
    streamed: nat,
    skipped: nat,
    waveNumber: nat,
    failedWaves: nat,
    startNonce: nat,
    nextNonce: nat)

  /** Bounds, and progress: a wave that does not fail retires at least one chunk for good. */
  ghost predicate TallyOk(plan: Plan, t: Tally)
  {
    && InBounds(WindowState(t.window, t.cleanWaveStreak), plan.maxWindow)
    && t.flying + t.queued <= plan.maxWindow
    && t.streamed <= |plan.plain|
    && t.skipped == |SparedBelow(plan, t.streamed)|
    && t.waveNumber - t.failedWaves - (if t.flying == 0 then 0 else 1) + t.flying + t.queued + t.skipped <= t.streamed
    && (t.failedWaves == 0 ==> t.nextNonce == t.startNonce + t.streamed - t.skipped - t.queued)
  }

  /** The state of a running call; `due` is the wave in flight followed by the queue. */
  datatype State = State(
    completed: Completed,
    due: seq<WaveChunk>,
    streamed: nat,
    ended: bool,
    stored: set<int>,
    abandoned: seq<WaveChunk>,
    trace: Trace,
    disk: Option<seq<StoredChunk>>,
    tally: Tally)

  /** The invariant of the scheduler. */
  ghost predicate Core(plan: Plan, s: State)
  {
    && plan.WellFormed()
    && Books(plan, s.completed, s.due, s.streamed, s.stored)
    && LateOnly(plan, s.abandoned, s.streamed)
    && TraceOk(plan, s.trace) && NextNonce(s.trace) == Some(s.tally.nextNonce)
    && DiskOk(plan, s.disk)
    && s.tally.streamed == s.streamed && s.tally.flying + s.tally.queued == |s.due|
    && TallyOk(plan, s.tally)
    && (s.ended ==> s.streamed == |plan.plain|)
  }

  function SparedBelow(plan: Plan, n: nat): set<int>
  {
    set i | i in plan.spared && i < n
  }

  lemma SparedStep(plan: Plan, n: nat)
    ensures |SparedBelow(plan, n + 1)| == |SparedBelow(plan, n)| + if n in plan.spared then 1 else 0
  {
    if n in plan.spared {
      assert SparedBelow(plan, n + 1) == SparedBelow(plan, n) + {n};
    } else {
      assert SparedBelow(plan, n + 1) == SparedBelow(plan, n);
    }
  }

  // ---- reading a chunk -------------------------------------------------------

  /** The test on a resumed entry succeeds exactly for the chunks recorded correctly. */
  lemma ResumeTest(plan: Plan, completed: Completed, due: seq<WaveChunk>, streamed: nat, stored: set<int>)
    requires plan.WellFormed() && Books(plan, completed, due, streamed, stored) && streamed < |plan.plain|
    ensures var c := plan.plain[streamed];
            streamed in plan.spared <==>
            c.index in completed && completed[c.index].cid == c.cid && completed[c.index].length == c.length
  {
    if streamed in completed {
      assert completed[streamed].index == streamed;
    }
  }

  /** The chunk at the stream position matches its resumed entry. */
  function AfterSkip(s: State): State
  {
    s.(streamed := s.streamed + 1, tally := s.tally.(streamed := s.tally.streamed + 1, skipped := s.tally.skipped + 1))
  }

  lemma SkipKeepsCore(plan: Plan, s: State)
    requires Core(plan, s) && s.streamed < |plan.plain| && s.streamed in plan.spared
    ensures Core(plan, AfterSkip(s))
  {
    SparedStep(plan, s.streamed);
  }

  /** The chunk at the stream position goes to the end of the queue, and whatever entry it had is dropped. */
  function AfterQueue(s: State, c: WaveChunk): State
  {
    s.(completed := s.completed - {c.index}, due := s.due + [c], streamed := s.streamed + 1,
       tally := s.tally.(streamed := s.tally.streamed + 1, queued := s.tally.queued + 1))
  }

  lemma HasIndexSnoc(due: seq<WaveChunk>, c: WaveChunk, i: int)
    ensures HasIndex(due + [c], i) <==> HasIndex(due, i) || i == c.index
  {
    var after := due + [c];
    assert after[|due|] == c;
    if HasIndex(due, i) {
      var p :| 0 <= p < |due| && due[p].index == i;
      assert after[p].index == i;
    }
    if HasIndex(after, i) && i != c.index {
      var p :| 0 <= p < |after| && after[p].index == i;
      assert due[p].index == i;
    }
  }

  lemma QueueKeepsBooks(plan: Plan, completed: Completed, due: seq<WaveChunk>, streamed: nat, stored: set<int>)
    requires plan.WellFormed() && Books(plan, completed, due, streamed, stored)
    requires streamed < |plan.plain| && streamed !in plan.spared
    ensures Books(plan, completed - {streamed}, due + [plan.plain[streamed]], streamed + 1, stored)
  {
    var c := plan.plain[streamed];
    forall i
      ensures HasIndex(due + [c], i) <==> HasIndex(due, i) || i == streamed
    {
      HasIndexSnoc(due, c, i);
    }
    forall p, q
      ensures Before(due + [c], p, q)
    {
      assert Before(due, p, q);
    }
  }

  lemma QueueKeepsCore(plan: Plan, s: State)
    requires Core(plan, s) && s.streamed < |plan.plain| && s.streamed !in plan.spared
    requires |s.due| < plan.maxWindow
    ensures Core(plan, AfterQueue(s, plan.plain[s.streamed]))
  {
    QueueKeepsBooks(plan, s.completed, s.due, s.streamed, s.stored);
    SparedStep(plan, s.streamed);
  }

  // ---- launching a wave ------------------------------------------------------

  /** The window limit times the largest chunk is the whole byte budget, so the window alone decides the wave. */
  lemma WholeWindowFits(plan: Plan, queue: seq<WaveChunk>, window: int, streamed: nat)
    requires plan.WellFormed() && Genuine(plan, queue, streamed) && 1 <= window <= plan.maxWindow
    ensures Admissible(queue, window, MAX_IN_FLIGHT_BYTES, Min(window, |queue|))
    ensures forall n :: !OversizeReached(queue, window, MAX_IN_FLIGHT_BYTES, n)
  {
    TotalLengthBound(queue[..Min(window, |queue|)], MAX_CHUNK_SIZE_BYTES);
  }

  /** Takes the wave off the front of the queue: the first min(window, queue) chunks. */
  method TakeWave(ghost plan: Plan, queue: seq<WaveChunk>, window: int, ghost streamed: nat)
    returns (wave: seq<WaveChunk>, rest: seq<WaveChunk>)
    requires plan.WellFormed() && Genuine(plan, queue, streamed) && 1 <= window <= plan.maxWindow && queue != []
    ensures wave + rest == queue && 1 <= |wave| == Min(window, |queue|)
    ensures TotalLength(wave) <= MAX_IN_FLIGHT_BYTES
  {
    WholeWindowFits(plan, queue, window, streamed);
    var selection, rest' := SelectWaveChunks(queue, window, MAX_IN_FLIGHT_BYTES);
    wave, rest := selection.value, rest';
    assert queue[..|wave|] == wave;
  }

  /** The wave's chunks have the nonces from `first` on, in order. */
  ghost predicate Numbered(wave: seq<WaveChunk>, waveNonces: map<int, nat>, first: nat, trace: Trace)
  {
    NumberedTo(wave, |wave|, waveNonces, first, trace)
  }

  ghost predicate NumberedTo(wave: seq<WaveChunk>, n: nat, waveNonces: map<int, nat>, first: nat, trace: Trace)
  {
    n <= |wave| && forall p :: 0 <= p < n ==>
      && wave[p].index in waveNonces && waveNonces[wave[p].index] == first + p
      && NonceOf(trace, wave[p].index) == Some(first + p)
  }

  /** Gives each chunk of the wave the next free nonce. */
  method AssignNonces(ghost plan: Plan, wave: seq<WaveChunk>, first: nat, ghost trace: Trace)
    returns (waveNonces: map<int, nat>, nextNonce: nat, ghost trace': Trace)
    requires TraceOk(plan, trace) && NextNonce(trace) == Some(first)
    requires Ascending(wave)
    requires forall p :: 0 <= p < |wave| ==> wave[p].index !in plan.spared
    ensures TraceOk(plan, trace') && NextNonce(trace') == Some(nextNonce)
    ensures nextNonce == first + |wave| && Numbered(wave, waveNonces, first, trace')
  {
    waveNonces := map[];
    nextNonce, trace' := first, trace;
    var p := 0;
    while p < |wave|
      invariant 0 <= p <= |wave|
      invariant nextNonce == first + p
      invariant NumberedTo(wave, p, waveNonces, first, trace')
      invariant TraceOk(plan, trace') && NextNonce(trace') == Some(nextNonce)
    {
      forall q | 0 <= q < p
        ensures wave[q].index != wave[p].index
      {
        assert Before(wave, q, p);
      }
      waveNonces := waveNonces[wave[p].index := nextNonce];
      Snoc(trace', Assigned(wave[p].index, nextNonce));
      trace' := trace' + [Assigned(wave[p].index, nextNonce)];
      nextNonce := nextNonce + 1;
      p := p + 1;
    }
  }

  lemma WaveIndices(plan: Plan, completed: Completed, wave: seq<WaveChunk>, queue: seq<WaveChunk>, streamed: nat, stored: set<int>)
    requires Books(plan, completed, wave + queue, streamed, stored)
    ensures Ascending(wave)
    ensures forall p :: 0 <= p < |wave| ==> wave[p].index !in plan.spared
    ensures forall c :: c in wave ==> 0 <= c.index < streamed && c == plan.plain[c.index]
  {
    var due := wave + queue;
    assert forall p :: 0 <= p < |wave| ==> wave[p] == due[p];
    forall p | 0 <= p < |wave|
      ensures wave[p].index !in plan.spared
    {
      assert HasIndex(due, wave[p].index);
    }
    forall p, q
      ensures Before(wave, p, q)
    {
      assert Before(due, p, q);
    }
  }

  /** The wave is in flight, under its nonces. */
  function AfterLaunch(s: State, wave: seq<WaveChunk>, queue: seq<WaveChunk>, trace: Trace): State
  {
    s.(due := wave + queue, trace := trace,
       tally := s.tally.(flying := |wave|, queued := |queue|,
                         waveNumber := s.tally.waveNumber + 1, nextNonce := s.tally.nextNonce + |wave|))
  }

  /** Takes a wave off the queue and numbers its chunks. */
  method DrawWave(ghost plan: Plan, ghost s: State, queue: seq<WaveChunk>, window: int, first: nat)
    returns (wave: seq<WaveChunk>, rest: seq<WaveChunk>, waveNonces: map<int, nat>, nextNonce: nat, ghost trace: Trace)
    requires Core(plan, s) && s.due == queue && queue != [] && s.tally.flying == 0
    requires s.tally.window == window && s.tally.nextNonce == first
    ensures wave + rest == queue && 1 <= |wave| == Min(window, |queue|) && TotalLength(wave) <= MAX_IN_FLIGHT_BYTES
    ensures nextNonce == first + |wave| && Numbered(wave, waveNonces, first, trace)
    ensures Core(plan, AfterLaunch(s, wave, rest, trace))
  {
    wave, rest := TakeWave(plan, queue, window, s.streamed);
    WaveIndices(plan, s.completed, wave, rest, s.streamed, s.stored);
    waveNonces, nextNonce, trace := AssignNonces(plan, wave, first, s.trace);
  }

  // ---- storing a chunk, on time or late --------------------------------------

  lemma StoreKeepsBooks(plan: Plan, completed: Completed, due: seq<WaveChunk>, streamed: nat, stored: set<int>, c: WaveChunk)
    requires plan.WellFormed() && Books(plan, completed, due, streamed, stored)
    requires 0 <= c.index < streamed && c == plan.plain[c.index]
    ensures Books(plan, completed[c.index := EntryOf(c)], due, streamed, stored + {c.index})
  {
  }

  /** A completed map after some chunks were stored. */
  function WithEntries(completed: Completed, chunks: seq<WaveChunk>): Completed
    decreases |chunks|
  {
    if chunks == [] then completed
    else
      var c := chunks[|chunks| - 1];
      WithEntries(completed, chunks[..|chunks| - 1])[c.index := EntryOf(c)]
  }

  lemma {:induction false} WithEntriesKeys(completed: Completed, chunks: seq<WaveChunk>)
    ensures forall i :: i in WithEntries(completed, chunks) <==> i in completed || HasIndex(chunks, i)
    decreases |chunks|
  {
    if chunks != [] {
      var front, c := chunks[..|chunks| - 1], chunks[|chunks| - 1];
      WithEntriesKeys(completed, front);
      assert chunks == front + [c];
      forall i
        ensures HasIndex(chunks, i) <==> HasIndex(front, i) || i == c.index
      {
        HasIndexSnoc(front, c, i);
      }
    }
  }

  function WithIndices(stored: set<int>, chunks: seq<WaveChunk>): set<int>
    decreases |chunks|
  {
    if chunks == [] then stored
    else WithIndices(stored, chunks[..|chunks| - 1]) + {chunks[|chunks| - 1].index}
  }

  /** The chain accepted these chunks. */
  function AfterStores(s: State, chunks: seq<WaveChunk>): State
  {
    s.(completed := WithEntries(s.completed, chunks), stored := WithIndices(s.stored, chunks))
  }

  lemma {:induction false} StoresKeepCore(plan: Plan, s: State, chunks: seq<WaveChunk>)
    requires Core(plan, s)
    requires forall p :: 0 <= p < |chunks| ==> 0 <= chunks[p].index < s.streamed && chunks[p] == plan.plain[chunks[p].index]
    ensures Core(plan, AfterStores(s, chunks))
    decreases |chunks|
  {
    if chunks != [] {
      var before := AfterStores(s, chunks[..|chunks| - 1]);
      StoresKeepCore(plan, s, chunks[..|chunks| - 1]);
      StoreKeepsBooks(plan, before.completed, before.due, before.streamed, before.stored, chunks[|chunks| - 1]);
    }
  }

  /** The abandoned submissions named in a list of late completions; other numbers name none. */
  function LateChunks(abandoned: seq<WaveChunk>, late: seq<nat>): (chunks: seq<WaveChunk>)
    ensures forall p :: 0 <= p < |chunks| ==> chunks[p] in abandoned
    decreases |late|
  {
    if late == [] then []
    else
      var before := LateChunks(abandoned, late[..|late| - 1]);
      var n := late[|late| - 1];
      if n < |abandoned| then before + [abandoned[n]] else before
  }

  /** The retries that timed-out waves go on making: each of a chunk that is still abandoned, under a nonce it was given. */
  function LateEvents(trace: Trace, abandoned: seq<WaveChunk>, late: seq<nat>): (events: Trace)
    ensures forall i :: 0 <= i < |events| ==> events[i].LateSubmitted? && Assigned(events[i].index, events[i].nonce) in trace
    ensures forall i :: 0 <= i < |events| ==> HasIndex(abandoned, events[i].index)
  {
    if late == [] then []
    else
      var rest := LateEvents(trace, abandoned, late[1..]);
      var n := late[0];
      if n < |trace| && trace[n].Assigned? && HasIndex(abandoned, trace[n].index)
      then [LateSubmitted(trace[n].index, trace[n].nonce)] + rest
      else rest
  }

  /** Submissions take no nonce away from a wave in flight. */
  lemma StillNumbered(plan: Plan, wave: seq<WaveChunk>, waveNonces: map<int, nat>, first: nat, trace: Trace, events: Trace)
    requires TraceOk(plan, trace) && Uses(trace, events) && Numbered(wave, waveNonces, first, trace)
    ensures Numbered(wave, waveNonces, first, trace + events)
  {
    SubmissionsKeepDiscipline(trace, events);
  }

  // ---- ending a wave ---------------------------------------------------------

  /** `waveChunks.filter((chunk) => !completedBlocks.has(chunk.index))`. */
  function Unconfirmed(wave: seq<WaveChunk>, completed: Completed): seq<WaveChunk>
  {
    if wave == [] then []
    else
      var rest := Unconfirmed(wave[1..], completed);
      if wave[0].index in completed then rest else [wave[0]] + rest
  }

  lemma {:induction false} UnconfirmedFacts(wave: seq<WaveChunk>, completed: Completed)
    ensures |Unconfirmed(wave, completed)| <= |wave|
    ensures forall c :: c in Unconfirmed(wave, completed) <==> c in wave && c.index !in completed
    ensures (forall c :: c in wave ==> c.index in completed) ==> Unconfirmed(wave, completed) == []
  {
    if wave != [] {
      UnconfirmedFacts(wave[1..], completed);
      assert wave == [wave[0]] + wave[1..];
    }
  }

  lemma HeadComesFirst(c: WaveChunk, rest: seq<WaveChunk>)
    requires Ascending([c] + rest)
    ensures forall p :: 0 <= p < |rest| ==> c.index < rest[p].index
  {
    var all := [c] + rest;
    forall p | 0 <= p < |rest|
      ensures c.index < rest[p].index
    {
      assert Before(all, 0, p + 1) && all[p + 1] == rest[p];
    }
  }

  lemma TailAscends(c: WaveChunk, rest: seq<WaveChunk>)
    requires Ascending([c] + rest)
    ensures Ascending(rest)
  {
    forall p, q
      ensures Before(rest, p, q)
    {
      assert Before([c] + rest, p + 1, q + 1);
    }
  }

  lemma GenuineTail(plan: Plan, c: WaveChunk, rest: seq<WaveChunk>, streamed: nat)
    requires Genuine(plan, [c] + rest, streamed)
    ensures Genuine(plan, rest, streamed)
    ensures forall p :: 0 <= p < |rest| ==> c.index < rest[p].index
  {
    HeadComesFirst(c, rest);
    TailAscends(c, rest);
    assert forall p :: 0 <= p < |rest| ==> rest[p] == ([c] + rest)[p + 1];
  }

  lemma GenuineCons(plan: Plan, c: WaveChunk, rest: seq<WaveChunk>, streamed: nat)
    requires Genuine(plan, rest, streamed)
    requires 0 <= c.index < streamed && c == plan.plain[c.index]
    requires forall p :: 0 <= p < |rest| ==> c.index < rest[p].index
    ensures Genuine(plan, [c] + rest, streamed)
  {
    var all := [c] + rest;
    forall p, q
      ensures Before(all, p, q)
    {
      assert Before(rest, p - 1, q - 1);
    }
  }

  /** Chunks that come after `c` in a list come after it in any part of that list. */
  lemma StillAfter(c: WaveChunk, list: seq<WaveChunk>, part: seq<WaveChunk>)
    requires forall p :: 0 <= p < |list| ==> c.index < list[p].index
    requires forall d :: d in part ==> d in list
    ensures forall p :: 0 <= p < |part| ==> c.index < part[p].index
  {
    forall p | 0 <= p < |part|
      ensures c.index < part[p].index
    {
      assert part[p] in list;
    }
  }

  lemma KeptIsPart(wave: seq<WaveChunk>, queue: seq<WaveChunk>, completed: Completed)
    ensures forall d :: d in Unconfirmed(wave, completed) + queue ==> d in wave + queue
  {
    UnconfirmedFacts(wave, completed);
    forall d | d in Unconfirmed(wave, completed) + queue
      ensures d in wave + queue
    {
      assert d in Unconfirmed(wave, completed) || d in queue;
    }
  }

  /** Putting the unconfirmed part of a wave back in front of the queue keeps stream order. */
  lemma {:induction false} RequeueGenuine(plan: Plan, wave: seq<WaveChunk>, queue: seq<WaveChunk>, completed: Completed, streamed: nat)
    requires Genuine(plan, wave + queue, streamed)
    ensures Genuine(plan, Unconfirmed(wave, completed) + queue, streamed)
    decreases |wave|
  {
    if wave != [] {
      var tail := wave[1..] + queue;
      var kept := Unconfirmed(wave[1..], completed) + queue;
      assert wave + queue == [wave[0]] + tail;
      GenuineTail(plan, wave[0], tail, streamed);
      RequeueGenuine(plan, wave[1..], queue, completed, streamed);
      if wave[0].index !in completed {
        KeptIsPart(wave[1..], queue, completed);
        StillAfter(wave[0], tail, kept);
        assert (wave + queue)[0] == wave[0];
        GenuineCons(plan, wave[0], kept, streamed);
        assert Unconfirmed(wave, completed) + queue == [wave[0]] + kept;
      }
    }
  }

  lemma RequeueIndices(wave: seq<WaveChunk>, queue: seq<WaveChunk>, completed: Completed, i: int)
    ensures HasIndex(Unconfirmed(wave, completed) + queue, i) ==> HasIndex(wave + queue, i)
    ensures HasIndex(wave + queue, i) && i !in completed ==> HasIndex(Unconfirmed(wave, completed) + queue, i)
  {
    UnconfirmedFacts(wave, completed);
    var kept := Unconfirmed(wave, completed);
    if HasIndex(kept + queue, i) {
      var p :| 0 <= p < |kept + queue| && (kept + queue)[p].index == i;
      assert (kept + queue)[p] in kept || (kept + queue)[p] in queue;
      assert (kept + queue)[p] in wave + queue;
    }
    if HasIndex(wave + queue, i) && i !in completed {
      var p :| 0 <= p < |wave + queue| && (wave + queue)[p].index == i;
      assert (wave + queue)[p] in wave || (wave + queue)[p] in queue;
      assert (wave + queue)[p] in kept + queue;
    }
  }

  /** A wave that ends, however it ends, loses nothing when its unconfirmed chunks go back to the queue. */
  lemma RequeueKeepsBooks(plan: Plan, wave: seq<WaveChunk>, queue: seq<WaveChunk>, completed: Completed, streamed: nat, stored: set<int>)
    requires Books(plan, completed, wave + queue, streamed, stored)
    ensures Books(plan, completed, Unconfirmed(wave, completed) + queue, streamed, stored)
  {
    RequeueGenuine(plan, wave, queue, completed, streamed);
    forall i
      ensures HasIndex(Unconfirmed(wave, completed) + queue, i) ==> HasIndex(wave + queue, i)
      ensures HasIndex(wave + queue, i) && i !in completed ==> HasIndex(Unconfirmed(wave, completed) + queue, i)
    {
      RequeueIndices(wave, queue, completed, i);
    }
  }

  /** The state after a failed wave: fresh nonce, new window and streak, unconfirmed chunks first in the queue. */
  function AfterFailedWave(s: State, wave: seq<WaveChunk>, queue: seq<WaveChunk>, w: WindowState, nonce: nat): State
  {
    var due := Unconfirmed(wave, s.completed) + queue;
    s.(due := due, trace := s.trace + [Fetched(nonce)],
       tally := s.tally.(window := w.window, cleanWaveStreak := w.streak, flying := 0, queued := |due|,
                         failedWaves := s.tally.failedWaves + 1, nextNonce := nonce))
  }

  lemma FailedWaveKeepsCore(plan: Plan, s: State, wave: seq<WaveChunk>, queue: seq<WaveChunk>, w: WindowState, nonce: nat)
    requires Core(plan, s) && s.due == wave + queue && s.tally.flying == |wave| >= 1 && s.tally.queued == |queue|
    requires InBounds(w, plan.maxWindow)
    ensures Core(plan, AfterFailedWave(s, wave, queue, w, nonce))
  {
    RequeueKeepsBooks(plan, wave, queue, s.completed, s.streamed, s.stored);
    UnconfirmedFacts(wave, s.completed);
    Snoc(s.trace, Fetched(nonce));
  }

  function NextWindow(plan: Plan, s: State, report: WaveReport): WindowState
  {
    ComputeNextAdaptiveWindow(WindowState(s.tally.window, s.tally.cleanWaveStreak), plan.maxWindow, report)
  }

  /** The state after a wave all of whose chunks are completed. */
  function AfterDoneWave(s: State, queue: seq<WaveChunk>, w: WindowState): State
  {
    s.(due := queue, tally := s.tally.(window := w.window, cleanWaveStreak := w.streak, flying := 0))
  }

  lemma DoneWaveKeepsCore(plan: Plan, s: State, wave: seq<WaveChunk>, queue: seq<WaveChunk>, report: WaveReport)
    requires Core(plan, s) && s.due == wave + queue && s.tally.flying == |wave| >= 1 && s.tally.queued == |queue|
    requires forall c :: c in wave ==> c.index in s.completed
    ensures Core(plan, AfterDoneWave(s, queue, NextWindow(plan, s, report)))
  {
    RequeueKeepsBooks(plan, wave, queue, s.completed, s.streamed, s.stored);
    UnconfirmedFacts(wave, s.completed);
    assert [] + queue == queue;
  }

  /** The chunks of a wave at the given positions, or at all the other ones. */
  function Pick(wave: seq<WaveChunk>, positions: set<nat>, inside: bool): (picked: seq<WaveChunk>)
    ensures forall p :: 0 <= p < |picked| ==> picked[p] in wave
    decreases |wave|
  {
    if wave == [] then []
    else
      var n := |wave| - 1;
      var before := Pick(wave[..n], positions, inside);
      if (n in positions) == inside then before + [wave[n]] else before
  }

  /** A timed-out wave splits in two: what was stored in time, and what lives on. */
  lemma {:induction false} PickSplits(wave: seq<WaveChunk>, positions: set<nat>)
    ensures multiset(Pick(wave, positions, true)) + multiset(Pick(wave, positions, false)) == multiset(wave)
    decreases |wave|
  {
    if wave != [] {
      var n := |wave| - 1;
      PickSplits(wave[..n], positions);
      assert wave == wave[..n] + [wave[n]];
    }
  }

  lemma AbandonKeepsCore(plan: Plan, s: State, late: seq<WaveChunk>)
    requires Core(plan, s)
    requires forall p :: 0 <= p < |late| ==> 0 <= late[p].index < s.streamed && late[p] == plan.plain[late[p].index]
    ensures Core(plan, s.(abandoned := s.abandoned + late))
  {
  }

  /** The submissions of a log, each with the nonce the wave gave its chunk. */
  function SubmissionEvents(log: seq<Submission<WaveChunk>>, waveNonces: map<int, nat>): (events: Trace)
    requires forall i :: 0 <= i < |log| ==> log[i].chunk.index in waveNonces
    ensures |events| == |log|
    ensures forall i :: 0 <= i < |log| ==> events[i] == Submitted(log[i].chunk.index, waveNonces[log[i].chunk.index])
  {
    seq(|log|, i requires 0 <= i < |log| => Submitted(log[i].chunk.index, waveNonces[log[i].chunk.index]))
  }

  /** First submissions and retries alike use the nonce their chunk was given. */
  lemma LogUsesNonces(wave: seq<WaveChunk>, waveNonces: map<int, nat>, first: nat, trace: Trace, log: seq<Submission<WaveChunk>>)
    requires Numbered(wave, waveNonces, first, trace)
    requires forall i :: 0 <= i < |log| ==> log[i].chunk in wave
    ensures forall i :: 0 <= i < |log| ==> log[i].chunk.index in waveNonces
    ensures Uses(trace, SubmissionEvents(log, waveNonces))
  {
    forall i | 0 <= i < |log|
      ensures log[i].chunk.index in waveNonces && NonceOf(trace, log[i].chunk.index) == Some(waveNonces[log[i].chunk.index])
    {
      var c := log[i].chunk;
      assert c in wave;
      var p :| 0 <= p < |wave| && wave[p] == c;
    }
  }

  lemma SubmitKeepsCore(plan: Plan, s: State, events: Trace)
    requires Core(plan, s) && Uses(s.trace, events)
    ensures Core(plan, s.(trace := s.trace + events))
  {
    SubmittedKeepsTraceOk(plan, s.trace, events);
  }

  /** Recording submissions of the wave in flight keeps the trace in order. */
  lemma SubmittedKeepsTraceOk(plan: Plan, trace: Trace, events: Trace)
    requires TraceOk(plan, trace) && Uses(trace, events)
    ensures TraceOk(plan, trace + events) && NextNonce(trace + events) == NextNonce(trace)
  {
    SubmissionsKeepDiscipline(trace, events);
    forall e | e in trace + events && e.Assigned?
      ensures e.index !in plan.spared
    {
      assert e in trace || e in events;
    }
  }

  /** What a persisted completed map records. */
  lemma PersistKeepsDisk(plan: Plan, s: State, blocks: seq<StoredChunk>)
    requires Core(plan, s) && Lists(blocks, s.completed)
    ensures DiskOk(plan, Some(blocks))
  {
  }

  /** When a call starts: nothing streamed, nothing due, the resumed entries persisted. */
  lemma StartOk(plan: Plan, s: State, nonce: nat)
    requires plan.WellFormed() && s.disk.Some? && Lists(s.disk.value, plan.resumed)
    requires s.completed == plan.resumed && s.due == [] && s.streamed == 0 && !s.ended && s.stored == {} && s.abandoned == []
    requires s.trace == [Fetched(nonce)]
    requires s.tally == Tally(1, 0, 0, 0, 0, 0, 0, 0, nonce, nonce)
    ensures Core(plan, s)
  {
    assert SparedBelow(plan, s.streamed) == {};
    Snoc([], Fetched(nonce));
  }

  function EntriesOf(chunks: seq<WaveChunk>): (es: seq<StoredChunk>)
    ensures |es| == |chunks|
    ensures forall i :: 0 <= i < |chunks| ==> es[i] == EntryOf(chunks[i])
  {
    seq(|chunks|, i requires 0 <= i < |chunks| => EntryOf(chunks[i]))
  }

  /** When the stream has ended and nothing is due, every chunk has its true entry, and the chain took it now
      or the resumed entry was checked. */
  lemma AllCompleted(plan: Plan, s: State)
    requires Core(plan, s) && s.ended && s.due == []
    ensures forall i :: 0 <= i < |plan.plain| ==>
              i in s.completed && s.completed[i] == EntryOf(plan.plain[i]) && (i in s.stored || i in plan.spared)
    ensures forall i :: |plan.plain| <= i && i in s.completed ==> i in plan.resumed && s.completed[i] == plan.resumed[i]
    ensures s.tally.failedWaves == 0 && s.tally.flying == 0 ==>
              |plan.spared| <= |plan.plain| && s.tally.nextNonce == s.tally.startNonce + |plan.plain| - |plan.spared|
  {
    assert SparedBelow(plan, |plan.plain|) == plan.spared;
    forall i | 0 <= i < |plan.plain|
      ensures i in s.completed
    {
      assert !HasIndex(s.due, i);
    }
  }

  lemma CoreBoundsWaves(plan: Plan, s: State)
    requires Core(plan, s)
    ensures s.tally.waveNumber <= |plan.plain| + s.tally.failedWaves
  {
  }
}
