/** The directory uploader: blocks deduplicated by CID, cut into waves, the waves run one after the other. */
module DirectoryUpload {
  import opened Prelude
  import opened Chunking
  import opened Waves

  const MAX_DIRECTORY_WAVE_RETRIES: nat := 3

  datatype WaveBlock = WaveBlock(cid: Cid, bytes: Bytes)

  /** One wave as the environment plays it: the nonce the first use of the client fetches, the answers to the
      stores of each round, and the nonce fetched before each further round. */
  datatype WaveScript = WaveScript(
    firstNonce: Result<nat, UploadError>,
    oracle: SubmitOracle,
    refetchedNonce: nat -> Result<nat, UploadError>)

  /** The importer puts a block, or the chain of waves gets a chance to run its next one. */
  datatype Event = Put(block: WaveBlock) | RunNextWave(script: WaveScript)

  function Cids(blocks: seq<WaveBlock>): (cids: seq<Cid>)
    ensures |cids| == |blocks|
    ensures forall i :: 0 <= i < |blocks| ==> cids[i] == blocks[i].cid
  {
    seq(|blocks|, i requires 0 <= i < |blocks| => blocks[i].cid)
  }

  function TotalBytes(blocks: seq<WaveBlock>): nat
  {
    if blocks == [] then 0 else |blocks[0].bytes| + TotalBytes(blocks[1..])
  }

  lemma {:induction false} TotalBytesAppend(a: seq<WaveBlock>, b: seq<WaveBlock>)
    ensures TotalBytes(a + b) == TotalBytes(a) + TotalBytes(b)
  {
    if a == [] {
      assert a + b == b;
    } else {
      assert (a + b)[1..] == a[1..] + b;
      TotalBytesAppend(a[1..], b);
    }
  }

  lemma TakeOut(l: seq<WaveBlock>, x: WaveBlock, r: seq<WaveBlock>)
    ensures multiset(l + [x] + r) == multiset(l + r) + multiset{x}
    ensures TotalBytes(l + [x] + r) == |x.bytes| + TotalBytes(l + r)
  {
    TotalBytesAppend(l, r);
    TotalBytesAppend(l + [x], r);
    TotalBytesAppend(l, [x]);
  }

  lemma Cancel(a: multiset<WaveBlock>, b: multiset<WaveBlock>, x: WaveBlock)
    requires a + multiset{x} == b + multiset{x}
    ensures a == b
  {
    assert a == a + multiset{x} - multiset{x};
    assert b == b + multiset{x} - multiset{x};
  }

  lemma SameSize(a: seq<WaveBlock>, b: seq<WaveBlock>)
    requires multiset(a) == multiset(b)
    ensures |a| == |b|
  {
    assert |multiset(a)| == |multiset(b)|;
  }

  /** Byte totals do not depend on the order of the blocks. */
  lemma {:induction false} TotalBytesOfMultiset(a: seq<WaveBlock>, b: seq<WaveBlock>)
    requires multiset(a) == multiset(b)
    ensures TotalBytes(a) == TotalBytes(b) && |a| == |b|
    decreases |a|
  {
    SameSize(a, b);
    if a != [] {
      var x := a[0];
      var p := PositionOf(a, b);
      assert a == [] + [x] + a[1..] && [] + a[1..] == a[1..];
      assert b == b[..p] + [x] + b[p + 1..];
      TakeOut([], x, a[1..]);
      TakeOut(b[..p], x, b[p + 1..]);
      Cancel(multiset(a[1..]), multiset(b[..p] + b[p + 1..]), x);
      TotalBytesOfMultiset(a[1..], b[..p] + b[p + 1..]);
    }
  }

  lemma PositionOf(a: seq<WaveBlock>, b: seq<WaveBlock>) returns (p: nat)
    requires a != [] && multiset(a) == multiset(b)
    ensures p < |b| && b[p] == a[0]
  {
    assert a[0] in multiset(a);
    assert a[0] in b;
    p :| p < |b| && b[p] == a[0];
  }

  /** The blocks put, each CID only the first time. */
  function FirstPuts(events: seq<Event>): (blocks: seq<WaveBlock>)
    decreases |events|
  {
    if events == [] then []
    else
      var before := FirstPuts(events[..|events| - 1]);
      match events[|events| - 1]
      case Put(b) => if b.cid in Cids(before) then before else before + [b]
      case RunNextWave(_) => before
  }

  /** A CID is among the first puts exactly if it was put at all, and then once. */
  lemma {:induction false} FirstPutsAreDistinct(events: seq<Event>)
    ensures Distinct(Cids(FirstPuts(events)))
    ensures forall cid :: cid in Cids(FirstPuts(events)) <==> exists i :: 0 <= i < |events| && events[i].Put? && events[i].block.cid == cid
    decreases |events|
  {
    if events != [] {
      var n := |events| - 1;
      var front, last := events[..n], events[n];
      FirstPutsAreDistinct(front);
      var before := FirstPuts(front);
      forall cid
        ensures cid in Cids(FirstPuts(events)) <==> exists i :: 0 <= i < |events| && events[i].Put? && events[i].block.cid == cid
      {
        if i :| 0 <= i < |front| && front[i].Put? && front[i].block.cid == cid {
          assert events[i].Put? && events[i].block.cid == cid;
        }
        if i :| 0 <= i < |events| && events[i].Put? && events[i].block.cid == cid {
          assert i < n ==> front[i].Put? && front[i].block.cid == cid;
        }
        if last.Put? && last.block.cid !in Cids(before) {
          assert Cids(before + [last.block]) == Cids(before) + [last.block.cid];
        }
      }
      if last.Put? && last.block.cid !in Cids(before) {
        assert Cids(before + [last.block]) == Cids(before) + [last.block.cid];
      }
    }
  }

  predicate Full(waves: seq<seq<WaveBlock>>, size: nat)
  {
    forall w :: 0 <= w < |waves| ==> |waves[w]| == size
  }

  /** Waves are not empty and no larger than the concurrency. */
  predicate Sized(waves: seq<seq<WaveBlock>>, size: nat)
  {
    forall w :: 0 <= w < |waves| ==> 1 <= |waves[w]| <= size
  }

  /** All waves but the last. */
  function ButLast(waves: seq<seq<WaveBlock>>): seq<seq<WaveBlock>>
  {
    if waves == [] then [] else waves[..|waves| - 1]
  }

  /** `splice(0, WAVE_SIZE)` until the buffer is empty. */
  method CutWaves(buffer: seq<WaveBlock>, size: nat) returns (waves: seq<seq<WaveBlock>>)
    requires size > 0
    ensures Flatten(waves) == buffer && Sized(waves, size) && Full(ButLast(waves), size)
  {
    waves := [];
    var rest := buffer;
    while |rest| > 0
      invariant Flatten(waves) + rest == buffer && Sized(waves, size)
      invariant Full(if |rest| > 0 then waves else ButLast(waves), size)
      decreases |rest|
    {
      var n := Min(size, |rest|);
      CutKeepsBlocks(waves, rest, n);
      CutKeepsSizes(waves, rest[..n], size);
      waves, rest := waves + [rest[..n]], rest[n..];
    }
  }

  lemma CutKeepsBlocks(waves: seq<seq<WaveBlock>>, rest: seq<WaveBlock>, n: nat)
    requires n <= |rest|
    ensures Flatten(waves + [rest[..n]]) + rest[n..] == Flatten(waves) + rest
  {
    FlattenSnoc(waves, rest[..n]);
    Reassociate(Flatten(waves), rest[..n], rest[n..]);
    assert rest == rest[..n] + rest[n..];
  }

  lemma Reassociate<T>(a: seq<T>, b: seq<T>, c: seq<T>)
    ensures a + b + c == a + (b + c)
  {
  }

  lemma CutKeepsSizes(waves: seq<seq<WaveBlock>>, blocks: seq<WaveBlock>, size: nat)
    requires Sized(waves, size) && Full(waves, size) && 0 < |blocks| <= size
    ensures Sized(waves + [blocks], size) && ButLast(waves + [blocks]) == waves
    ensures |blocks| == size ==> Full(waves + [blocks], size)
  {
    assert (waves + [blocks])[..|waves|] == waves;
  }

  predicate Retryable(e: UploadError)
  {
    e.retryable
  }

  /** Goes through the results of one round: counts what was stored, collects what to retry, stops at a failure to throw. */
  method TallyRound(results: seq<Submission<WaveBlock>>, retryCount: nat)
    returns (count: nat, bytes: nat, retryableFailures: seq<WaveBlock>, thrown: Option<UploadError>)
    requires forall i :: 0 <= i < |results| ==> results[i].round == retryCount
    ensures thrown.None? ==> count == |Stored(results)| && bytes == TotalBytes(Stored(results))
    ensures thrown.None? ==> retryableFailures == FailedChunks(results)
    ensures thrown.None? ==> !AnyFinal(results, Retryable, MAX_DIRECTORY_WAVE_RETRIES)
    ensures thrown.Some? ==> FirstFinalFailure(results, Retryable, MAX_DIRECTORY_WAVE_RETRIES, thrown.value)
  {
    count, bytes, retryableFailures := 0, 0, [];
    var i := 0;
    while i < |results|
      invariant 0 <= i <= |results|
      invariant count == |Stored(results[..i])| && bytes == TotalBytes(Stored(results[..i]))
      invariant retryableFailures == FailedChunks(results[..i])
      invariant forall j :: 0 <= j < i ==> !FinalFailure(results[j], Retryable, MAX_DIRECTORY_WAVE_RETRIES)
    {
      assert results[..i + 1][..i] == results[..i];
      var result := results[i];
      if result.failure.None? {
        count := count + 1;
        bytes := bytes + |result.chunk.bytes|;
        TotalBytesAppend(Stored(results[..i]), [result.chunk]);
      } else if !Retryable(result.failure.value) || retryCount >= MAX_DIRECTORY_WAVE_RETRIES {
        assert FirstFinalAt(results, Retryable, MAX_DIRECTORY_WAVE_RETRIES, result.failure.value, i);
        return count, bytes, retryableFailures, result.failure;
      } else {
        retryableFailures := retryableFailures + [result.chunk];
      }
      i := i + 1;
    }
    assert results[..|results|] == results;
    thrown := None;
  }

  /** Nothing worse than failures that may be retried, in the first three rounds. */
  ghost predicate Transient(script: WaveScript)
  {
    && script.firstNonce.Ok? && (forall r: nat :: script.refetchedNonce(r).Ok?)
    && forall r: nat, i: nat :: script.oracle(r, i).Some? ==> Retryable(script.oracle(r, i).value) && r < MAX_DIRECTORY_WAVE_RETRIES
  }

  ghost predicate AllTransient(events: seq<Event>)
  {
    forall n :: 0 <= n < |events| && events[n].RunNextWave? ==> Transient(events[n].script)
  }

  ghost predicate SomeGives(events: seq<Event>, e: UploadError)
  {
    exists n :: 0 <= n < |events| && events[n].RunNextWave? && Gives(events[n].script, e)
  }

  /** All submissions of a wave, if no nonce is missing. */
  function AllSubmissions(wave: seq<WaveBlock>, oracle: SubmitOracle): seq<Submission<WaveBlock>>
  {
    Submissions(wave, 0, oracle, Retryable, MAX_DIRECTORY_WAVE_RETRIES)
  }

  predicate AnyThrown(log: seq<Submission<WaveBlock>>)
  {
    AnyFinal(log, Retryable, MAX_DIRECTORY_WAVE_RETRIES)
  }

  lemma TransientIsNeverThrown(wave: seq<WaveBlock>, script: WaveScript)
    ensures Transient(script) ==> !AnyThrown(AllSubmissions(wave, script.oracle))
  {
    var log := AllSubmissions(wave, script.oracle);
    if i :| 0 <= i < |log| && FinalFailure(log[i], Retryable, MAX_DIRECTORY_WAVE_RETRIES) {
      var position := FailuresAreAnswers(wave, 0, script.oracle, Retryable, MAX_DIRECTORY_WAVE_RETRIES, i);
      assert script.oracle(log[i].round, position) == log[i].failure;
    }
  }

  /** A wave that throws nothing stores each of its blocks once, in at most four rounds, and stores none again. */
  lemma WaveStoresEachBlockOnce(wave: seq<WaveBlock>, oracle: SubmitOracle)
    ensures var log := AllSubmissions(wave, oracle);
            && (forall i :: 0 <= i < |log| ==> log[i].round <= MAX_DIRECTORY_WAVE_RETRIES)
            && (Distinct(wave) ==> NoneAfterSuccess(log))
            && (!AnyThrown(log) ==> multiset(Stored(log)) == multiset(wave) && |log| == |wave| + |FailedChunks(log)|)
  {
    var log := AllSubmissions(wave, oracle);
    assert multiset(Stored<WaveBlock>([])) + multiset(wave) == multiset(wave);
    assert [] + log == log;
    var pending := SubmissionsKeepLedger(wave, [], wave, 0, oracle, Retryable, MAX_DIRECTORY_WAVE_RETRIES, log);
    assert |pending| == 0 ==> pending == [];
    assert pending == [] ==> multiset(Stored(log)) + multiset(pending) == multiset(Stored(log));
  }

  /** The nonce a round starts with: the wave's own, or the one fetched for that round. */
  function StartingNonce(first: int, script: WaveScript, round: nat): int
  {
    if round == 0 then first
    else if script.refetchedNonce(round).Ok? then script.refetchedNonce(round).value
    else -1
  }

  /** The nonce a wave starts with: the one the wave before it left, or the first one fetched. */
  function FirstNonce(clientReady: bool, nextNonce: int, script: WaveScript): int
  {
    if clientReady then nextNonce else if script.firstNonce.Ok? then script.firstNonce.value else -1
  }

  /** Each round uses consecutive nonces from its starting nonce on. */
  predicate Consecutive(log: seq<Submission<WaveBlock>>, nonces: seq<int>, first: int, script: WaveScript)
  {
    |nonces| == |log| && forall i :: 0 <= i < |log| ==> nonces[i] == NonceOf(log, nonces, first, script, i)
  }

  function NonceOf(log: seq<Submission<WaveBlock>>, nonces: seq<int>, first: int, script: WaveScript, i: nat): int
    requires i < |log| == |nonces|
  {
    if i > 0 && log[i - 1].round == log[i].round then nonces[i - 1] + 1 else StartingNonce(first, script, log[i].round)
  }

  function From(start: int, count: nat): (numbers: seq<int>)
    ensures |numbers| == count && forall i :: 0 <= i < count ==> numbers[i] == start + i
  {
    seq(count, i requires 0 <= i => start + i)
  }

  /** The nonces of all submissions of a wave from a given round on. */
  function Nonces(batch: seq<WaveBlock>, round: nat, start: int, script: WaveScript): (nonces: seq<int>)
    decreases MAX_DIRECTORY_WAVE_RETRIES - round
  {
    var results := Round(batch, round, script.oracle);
    if round >= MAX_DIRECTORY_WAVE_RETRIES || FailedChunks(results) == [] || AnyThrown(results) then From(start, |batch|)
    else From(start, |batch|) + Nonces(FailedChunks(results), round + 1, StartingNonce(start, script, round + 1), script)
  }

  /** One more round of nonces to come becomes one that was used. */
  lemma NoncesMoveOn(used: seq<int>, batch: seq<WaveBlock>, round: nat, start: int, script: WaveScript)
    ensures var all := used + Nonces(batch, round, start, script);
            var results := Round(batch, round, script.oracle);
            if round >= MAX_DIRECTORY_WAVE_RETRIES || AnyThrown(results) || |FailedChunks(results)| == 0 then used + From(start, |batch|) == all
            else used + From(start, |batch|) + Nonces(FailedChunks(results), round + 1, StartingNonce(start, script, round + 1), script) == all
  {
    var results := Round(batch, round, script.oracle);
    if !(round >= MAX_DIRECTORY_WAVE_RETRIES || AnyThrown(results) || |FailedChunks(results)| == 0) {
      var rest := Nonces(FailedChunks(results), round + 1, StartingNonce(start, script, round + 1), script);
      assert used + (From(start, |batch|) + rest) == used + From(start, |batch|) + rest;
    }
  }

  /** Each round of a wave numbers its blocks one after the other from the nonce it starts with. */
  lemma {:induction false} NoncesAreConsecutive(batch: seq<WaveBlock>, round: nat, start: int, script: WaveScript, first: int)
    requires start == StartingNonce(first, script, round)
    ensures Consecutive(Submissions(batch, round, script.oracle, Retryable, MAX_DIRECTORY_WAVE_RETRIES),
                        Nonces(batch, round, start, script), first, script)
    decreases MAX_DIRECTORY_WAVE_RETRIES - round
  {
    var results := Round(batch, round, script.oracle);
    RoundIsConsecutive(results, round, From(start, |batch|), first, script);
    if round < MAX_DIRECTORY_WAVE_RETRIES && FailedChunks(results) != [] && !AnyThrown(results) {
      var failed := FailedChunks(results);
      NoncesAreConsecutive(failed, round + 1, StartingNonce(start, script, round + 1), script, first);
      var rest := Submissions(failed, round + 1, script.oracle, Retryable, MAX_DIRECTORY_WAVE_RETRIES);
      assert Round(failed, round + 1, script.oracle) <= rest;
      assert rest[0].round == round + 1;
      ConsecutiveAppend(results, From(start, |batch|), rest,
                        Nonces(failed, round + 1, StartingNonce(start, script, round + 1), script), first, script);
    }
  }

  lemma RoundIsConsecutive(results: seq<Submission<WaveBlock>>, round: nat, nonces: seq<int>, first: int, script: WaveScript)
    requires |nonces| == |results|
    requires forall i :: 0 <= i < |results| ==> results[i].round == round && nonces[i] == StartingNonce(first, script, round) + i
    ensures Consecutive(results, nonces, first, script)
  {
  }

  lemma ConsecutiveAppend(a: seq<Submission<WaveBlock>>, m: seq<int>, b: seq<Submission<WaveBlock>>, n: seq<int>, first: int, script: WaveScript)
    requires Consecutive(a, m, first, script) && Consecutive(b, n, first, script)
    requires a != [] && b != [] ==> a[|a| - 1].round != b[0].round
    ensures Consecutive(a + b, m + n, first, script)
  {
    forall i | 0 <= i < |a + b|
      ensures (m + n)[i] == NonceOf(a + b, m + n, first, script, i)
    {
      ConsecutiveAt(a, m, b, n, first, script, i);
    }
  }

  lemma ConsecutiveAt(a: seq<Submission<WaveBlock>>, m: seq<int>, b: seq<Submission<WaveBlock>>, n: seq<int>, first: int, script: WaveScript,
                      i: nat)
    requires |a| == |m| && |b| == |n| && i < |a + b|
    requires i < |a| ==> m[i] == NonceOf(a, m, first, script, i)
    requires i >= |a| ==> n[i - |a|] == NonceOf(b, n, first, script, i - |a|)
    requires a != [] && b != [] ==> a[|a| - 1].round != b[0].round
    ensures (m + n)[i] == NonceOf(a + b, m + n, first, script, i)
  {
    if 0 < i < |a| {
      assert (a + b)[i - 1] == a[i - 1] && (m + n)[i - 1] == m[i - 1];
    } else if i > |a| {
      assert (a + b)[i - 1] == b[i - 1 - |a|] && (m + n)[i - 1] == n[i - 1 - |a|];
    }
  }

  /** The wave cannot go on: a nonce is missing, or a store fails with an error that is not retried, or fails in the last round. */
  ghost predicate Gives(script: WaveScript, e: UploadError)
  {
    || script.firstNonce == Err(e)
    || NoNonce(script, e)
    || exists r: nat, i: nat :: script.oracle(r, i) == Some(e) && (!Retryable(e) || r >= MAX_DIRECTORY_WAVE_RETRIES)
  }

  lemma ThrownIsGiven(wave: seq<WaveBlock>, script: WaveScript, error: Option<UploadError>)
    ensures error.Some? && FirstFinalFailure(AllSubmissions(wave, script.oracle), Retryable, MAX_DIRECTORY_WAVE_RETRIES, error.value) ==>
              Gives(script, error.value)
  {
    var log := AllSubmissions(wave, script.oracle);
    if error.Some? && FirstFinalFailure(log, Retryable, MAX_DIRECTORY_WAVE_RETRIES, error.value) {
      var i :| 0 <= i < |log| && FirstFinalAt(log, Retryable, MAX_DIRECTORY_WAVE_RETRIES, error.value, i);
      var position := FailuresAreAnswers(wave, 0, script.oracle, Retryable, MAX_DIRECTORY_WAVE_RETRIES, i);
      assert script.oracle(log[i].round, position) == error;
    }
  }

  /** Runs one wave: up to four rounds, each resubmitting what failed before under freshly fetched nonces. */
  method ExecuteWave(wave: seq<WaveBlock>, script: WaveScript, firstNonce: int)
    returns (log: seq<Submission<WaveBlock>>, nonces: seq<int>, count: nat, bytes: nat, nextNonce: int, thrown: Option<UploadError>)
    requires wave != []
    ensures Ended(wave, script, firstNonce, log, nonces, nextNonce, thrown)
    // what was stored is counted
    ensures thrown.None? ==> count == |Stored(log)| && bytes == TotalBytes(Stored(log))
  {
    log, nonces, count, bytes, nextNonce, thrown := [], [], 0, 0, firstNonce, None;
    var pendingBlocks := wave;
    var retryCount: nat := 0;
    while true
      invariant Underway(wave, script, firstNonce, log, nonces, pendingBlocks, retryCount, nextNonce)
      invariant count == |Stored(log)| && bytes == TotalBytes(Stored(log))
      decreases MAX_DIRECTORY_WAVE_RETRIES - retryCount
    {
      var startingNonce, attempted := nextNonce, |pendingBlocks|;
      log, nonces, count, bytes, pendingBlocks, thrown :=
        ExecuteRound(wave, script, firstNonce, log, nonces, pendingBlocks, retryCount, startingNonce, count, bytes);
      if thrown.Some? {
        return;
      }
      if |pendingBlocks| == 0 {
        nextNonce := startingNonce + attempted;
        return;
      }
      retryCount := retryCount + 1;
      if script.refetchedNonce(retryCount).Err? {
        thrown := Some(script.refetchedNonce(retryCount).error);
        return;
      }
      nextNonce := script.refetchedNonce(retryCount).value;
    }
  }

  /** One round: submits what is pending under consecutive nonces, counts what was stored, and collects what to retry. */
  method ExecuteRound(ghost wave: seq<WaveBlock>, script: WaveScript, ghost first: int, log: seq<Submission<WaveBlock>>, nonces: seq<int>,
                      pending: seq<WaveBlock>, round: nat, startingNonce: int, count: nat, bytes: nat)
    returns (log': seq<Submission<WaveBlock>>, nonces': seq<int>, count': nat, bytes': nat, retryableFailures: seq<WaveBlock>,
             thrown: Option<UploadError>)
    requires Underway(wave, script, first, log, nonces, pending, round, startingNonce)
    requires count == |Stored(log)| && bytes == TotalBytes(Stored(log))
    ensures thrown.Some? ==> Ended(wave, script, first, log', nonces', startingNonce, thrown)
    ensures thrown.None? ==> AfterRound(wave, script, first, log', nonces', retryableFailures, round, startingNonce, |pending|)
    ensures thrown.None? ==> count' == |Stored(log')| && bytes' == TotalBytes(Stored(log'))
  {
    var results := Round(pending, round, script.oracle);
    RoundDone(wave, script, first, log, nonces, pending, round, startingNonce);
    var c, b, error;
    c, b, retryableFailures, error := TallyRound(results, round);
    return log + results, nonces + From(startingNonce, |pending|), count + c, bytes + b, retryableFailures, error;
  }

  /** After a round that throws nothing the wave has ended, or goes on once a nonce is fetched. */
  ghost predicate AfterRound(wave: seq<WaveBlock>, script: WaveScript, first: int, log: seq<Submission<WaveBlock>>, nonces: seq<int>,
                             failed: seq<WaveBlock>, round: nat, next: int, attempted: nat)
  {
    if |failed| == 0 then Ended(wave, script, first, log, nonces, next + attempted, None)
    else if script.refetchedNonce(round + 1).Err? then Ended(wave, script, first, log, nonces, next, Some(script.refetchedNonce(round + 1).error))
    else Underway(wave, script, first, log, nonces, failed, round + 1, script.refetchedNonce(round + 1).value)
  }

  /** A nonce for a further round could not be fetched. */
  ghost predicate NoNonce(script: WaveScript, e: UploadError)
  {
    exists r: nat :: 0 < r <= MAX_DIRECTORY_WAVE_RETRIES && script.refetchedNonce(r) == Err(e)
  }

  /** How a wave ends. */
  ghost predicate Ended(wave: seq<WaveBlock>, script: WaveScript, first: int, log: seq<Submission<WaveBlock>>, nonces: seq<int>,
                        next: int, thrown: Option<UploadError>)
  {
    var all, allNonces := AllSubmissions(wave, script.oracle), Nonces(wave, 0, first, script);
    // the submissions and their nonces are those of the specification, cut short only if a nonce could not be fetched
    && log <= all && nonces <= allNonces && |nonces| == |log|
    && match thrown
       // a wave that throws met a failure it may not retry, or no nonce
       case Some(e) => (log == all && FirstFinalFailure(log, Retryable, MAX_DIRECTORY_WAVE_RETRIES, e)) || NoNonce(script, e)
       // a wave that returns has thrown nothing, and the next one starts after the last nonce used
       case None => log == all && !AnyThrown(log) && nonces == allNonces && nonces != [] && next == nonces[|nonces| - 1] + 1
  }

  /** A wave that has not ended: what was submitted and what is to come make up all submissions, and so for their nonces. */
  ghost predicate Underway(wave: seq<WaveBlock>, script: WaveScript, first: int, log: seq<Submission<WaveBlock>>, nonces: seq<int>,
                           pending: seq<WaveBlock>, round: nat, next: int)
  {
    && round <= MAX_DIRECTORY_WAVE_RETRIES && |pending| > 0 && |nonces| == |log| && !AnyThrown(log)
    && log + Submissions(pending, round, script.oracle, Retryable, MAX_DIRECTORY_WAVE_RETRIES) == AllSubmissions(wave, script.oracle)
    && nonces + Nonces(pending, round, next, script) == Nonces(wave, 0, first, script)
  }

  /** After a round the wave throws, has ended or goes on. */
  lemma RoundDone(wave: seq<WaveBlock>, script: WaveScript, first: int, log: seq<Submission<WaveBlock>>, nonces: seq<int>,
                  pending: seq<WaveBlock>, round: nat, next: int)
    requires Underway(wave, script, first, log, nonces, pending, round, next)
    ensures var results := Round(pending, round, script.oracle);
            var log', nonces' := log + results, nonces + From(next, |pending|);
            && Stored(log') == Stored(log) + Stored(results)
            && TotalBytes(Stored(log')) == TotalBytes(Stored(log)) + TotalBytes(Stored(results))
            && if AnyThrown(results) then
                 forall e :: FirstFinalFailure(results, Retryable, MAX_DIRECTORY_WAVE_RETRIES, e) ==>
                   Ended(wave, script, first, log', nonces', next, Some(e))
               else AfterRound(wave, script, first, log', nonces', FailedChunks(results), round, next, |pending|)
  {
    var results := Round(pending, round, script.oracle);
    RoundMovesOn(log, pending, round, script.oracle, Retryable, MAX_DIRECTORY_WAVE_RETRIES);
    NoncesMoveOn(nonces, pending, round, next, script);
    StoredAppend(log, results);
    TotalBytesAppend(Stored(log), Stored(results));
    if AnyThrown(results) {
      forall e | FirstFinalFailure(results, Retryable, MAX_DIRECTORY_WAVE_RETRIES, e)
        ensures Ended(wave, script, first, log + results, nonces + From(next, |pending|), next, Some(e))
      {
        ThrowKeepsLog(log, results, Retryable, MAX_DIRECTORY_WAVE_RETRIES, e);
      }
    } else {
      NoneFinalAppend(log, results, Retryable, MAX_DIRECTORY_WAVE_RETRIES);
      if |FailedChunks(results)| > 0 {
        SomeFailure(results);
        if script.refetchedNonce(round + 1).Err? {
          assert NoNonce(script, script.refetchedNonce(round + 1).error);
        }
      }
    }
  }

  function CidSet(blocks: seq<WaveBlock>): set<Cid>
  {
    set cid | cid in Cids(blocks)
  }

  /** Nothing put is lost or duplicated: the waves run, the waves chained and the buffer are the first puts, in order. */
  ghost predicate Ordered(executed: seq<seq<WaveBlock>>, waveQueue: seq<seq<WaveBlock>>, waveBuffer: seq<WaveBlock>, puts: seq<WaveBlock>)
  {
    Flatten(executed) + Flatten(waveQueue) + waveBuffer == puts
  }

  /** The blocks stored are those of the waves run, and the counters are theirs. */
  ghost predicate Counted(executed: seq<seq<WaveBlock>>, stored: seq<WaveBlock>, count: nat, bytes: nat)
  {
    multiset(stored) == multiset(Flatten(executed)) && count == |stored| && bytes == TotalBytes(stored)
  }

  lemma FlushKeepsOrder(executed: seq<seq<WaveBlock>>, waveQueue: seq<seq<WaveBlock>>, waveBuffer: seq<WaveBlock>, puts: seq<WaveBlock>,
                        waves: seq<seq<WaveBlock>>, size: nat)
    requires Flatten(waves) == waveBuffer && Sized(waves, size) && Sized(waveQueue, size)
    ensures Flatten(waveQueue + waves) == Flatten(waveQueue) + waveBuffer && Sized(waveQueue + waves, size)
    ensures Ordered(executed, waveQueue, waveBuffer, puts) ==> Ordered(executed, waveQueue + waves, [], puts)
  {
    FlattenAppend(waveQueue, waves);
    assert Flatten(executed) + Flatten(waveQueue) + waveBuffer == Flatten(executed) + Flatten(waveQueue + waves) + [];
  }

  lemma PutKeepsOrder(executed: seq<seq<WaveBlock>>, waveQueue: seq<seq<WaveBlock>>, waveBuffer: seq<WaveBlock>, puts: seq<WaveBlock>,
                      block: WaveBlock)
    ensures CidSet(puts + [block]) == CidSet(puts) + {block.cid}
    ensures Ordered(executed, waveQueue, waveBuffer, puts) ==> Ordered(executed, waveQueue, waveBuffer + [block], puts + [block])
  {
    assert Cids(puts + [block]) == Cids(puts) + [block.cid];
    assert Flatten(executed) + Flatten(waveQueue) + (waveBuffer + [block]) == Flatten(executed) + Flatten(waveQueue) + waveBuffer + [block];
  }

  lemma Regroup<T>(a: seq<T>, b: seq<T>, c: seq<T>, d: seq<T>)
    ensures a + (b + c) + d == a + b + c + d
  {
  }

  lemma WaveKeepsOrder(executed: seq<seq<WaveBlock>>, rest: seq<seq<WaveBlock>>, waveBuffer: seq<WaveBlock>, puts: seq<WaveBlock>,
                       wave: seq<WaveBlock>)
    requires Ordered(executed, [wave] + rest, waveBuffer, puts)
    ensures Ordered(executed + [wave], rest, waveBuffer, puts)
  {
    FlattenSnoc(executed, wave);
    assert ([wave] + rest)[1..] == rest;
    Regroup(Flatten(executed), wave, Flatten(rest), waveBuffer);
  }

  /** A wave that moves from the queue to the executed waves keeps its size. */
  lemma WaveKeepsSizes(executed: seq<seq<WaveBlock>>, waveQueue: seq<seq<WaveBlock>>, size: nat)
    requires Sized(executed, size) && Sized(waveQueue, size) && waveQueue != []
    ensures waveQueue[0] != [] && waveQueue == [waveQueue[0]] + waveQueue[1..]
    ensures Sized(executed + [waveQueue[0]], size) && Sized(waveQueue[1..], size)
  {
  }

  lemma WaveKeepsCount(executed: seq<seq<WaveBlock>>, stored: seq<WaveBlock>, count: nat, bytes: nat,
                       wave: seq<WaveBlock>, newlyStored: seq<WaveBlock>)
    requires Counted(executed, stored, count, bytes) && multiset(newlyStored) == multiset(wave)
    ensures Counted(executed + [wave], stored + newlyStored, count + |newlyStored|, bytes + TotalBytes(newlyStored))
  {
    FlattenSnoc(executed, wave);
    TotalBytesAppend(stored, newlyStored);
  }

  /** When nothing is chained or buffered, everything put is stored once. */
  lemma AllStored(executed: seq<seq<WaveBlock>>, puts: seq<WaveBlock>, stored: seq<WaveBlock>, count: nat, bytes: nat)
    requires Ordered(executed, [], [], puts) && Counted(executed, stored, count, bytes)
    ensures Flatten(executed) == puts && multiset(stored) == multiset(puts) && count == |puts| && bytes == TotalBytes(puts)
  {
    assert Flatten(executed) + [] + [] == Flatten(executed);
    TotalBytesOfMultiset(stored, puts);
  }

  class Uploader {
    const waveSize: nat                 // the concurrency
    var waveBuffer: seq<WaveBlock>
    var uploadedCids: set<Cid>
    var waveQueue: seq<seq<WaveBlock>>  // waves chained and not yet run
    var clientReady: bool
    var nextNonce: int
    var completedCount: nat
    var totalBytes: nat
    var broken: Option<UploadError>     // the chain of waves was rejected

    ghost var puts: seq<WaveBlock>      // first puts, in order
    ghost var executed: seq<seq<WaveBlock>>
    ghost var storedBlocks: seq<WaveBlock> // what the chain accepted, in order

    ghost predicate Valid()
      reads this
    {
      && waveSize > 0
      && uploadedCids == CidSet(puts)
      && Sized(executed, waveSize) && Sized(waveQueue, waveSize)
      && (broken.None? ==>
            Ordered(executed, waveQueue, waveBuffer, puts) && Counted(executed, storedBlocks, completedCount, totalBytes))
    }

    constructor (concurrency: nat)
      requires concurrency > 0
      ensures Valid() && waveSize == concurrency && puts == [] && waveQueue == [] && waveBuffer == [] && executed == []
      ensures broken == None && !clientReady
    {
      waveSize := concurrency;
      waveBuffer, uploadedCids, waveQueue := [], {}, [];
      clientReady, nextNonce := false, -1;
      completedCount, totalBytes, broken := 0, 0, None;
      puts, executed, storedBlocks := [], [], [];
    }

    /** Chains the whole buffer, cut into waves. */
    method FlushWave()
      requires Valid()
      modifies `waveBuffer, `waveQueue
      ensures Valid() && waveBuffer == []
      ensures Flatten(waveQueue) == Flatten(old(waveQueue)) + old(waveBuffer)
    {
      var waves := CutWaves(waveBuffer, waveSize);
      FlushKeepsOrder(executed, waveQueue, waveBuffer, puts, waves, waveSize);
      waveQueue, waveBuffer := waveQueue + waves, [];
    }

    /** `put`: a block whose CID was put before is ignored. */
    method PutBlock(block: WaveBlock)
      requires Valid()
      modifies `waveBuffer, `waveQueue, `uploadedCids, `puts
      ensures Valid()
      ensures puts == if block.cid in Cids(old(puts)) then old(puts) else old(puts) + [block]
      ensures |old(waveBuffer)| < waveSize ==> |waveBuffer| < waveSize
    {
      if block.cid in uploadedCids {
        return;
      }
      PutKeepsOrder(executed, waveQueue, waveBuffer, puts, block);
      waveBuffer := waveBuffer + [block];
      uploadedCids := uploadedCids + {block.cid};
      puts := puts + [block];
      if |waveBuffer| >= waveSize {
        FlushWave();
      }
    }

    /** `ensureClient`: the first use fetches the nonce. */
    method EnsureClient(script: WaveScript) returns (thrown: Option<UploadError>)
      modifies `clientReady, `nextNonce
      ensures thrown == if !old(clientReady) && script.firstNonce.Err? then Some(script.firstNonce.error) else None
      ensures thrown.None? ==> clientReady && nextNonce == FirstNonce(old(clientReady), old(nextNonce), script)
    {
      if clientReady {
        return None;
      }
      if script.firstNonce.Err? {
        return Some(script.firstNonce.error);
      }
      clientReady, nextNonce := true, script.firstNonce.value;
      return None;
    }

    /** Runs a wave and counts what it stored. */
    method RunWave(wave: seq<WaveBlock>, script: WaveScript)
      returns (thrown: Option<UploadError>, ghost blocks: seq<WaveBlock>, nonces: seq<int>)
      requires wave != []
      modifies `clientReady, `nextNonce, `completedCount, `totalBytes
      ensures thrown.None? ==> multiset(blocks) == multiset(wave)
      ensures thrown.None? ==> completedCount == old(completedCount) + |blocks| && totalBytes == old(totalBytes) + TotalBytes(blocks)
      ensures Transient(script) ==> thrown.None?
      ensures thrown.Some? ==> Gives(script, thrown.value)
      // the wave is numbered from where the one before it ended, or from the first nonce fetched, and the next goes on from there
      ensures thrown.None? ==>
                && Consecutive(AllSubmissions(wave, script.oracle), nonces, FirstNonce(old(clientReady), old(nextNonce), script), script)
                && nonces != [] && nextNonce == nonces[|nonces| - 1] + 1 && clientReady
    {
      blocks, nonces := [], [];
      thrown := EnsureClient(script);
      if thrown.Some? {
        return;
      }
      ghost var first := nextNonce;
      WaveStoresEachBlockOnce(wave, script.oracle);
      TransientIsNeverThrown(wave, script);
      var log, used, count, bytes, nonce, error := ExecuteWave(wave, script, nextNonce);
      ThrownIsGiven(wave, script, error);
      NoncesAreConsecutive(wave, 0, first, script, first);
      nextNonce, completedCount, totalBytes := nonce, completedCount + count, totalBytes + bytes;
      return error, Stored(log), used;
    }

    /** The next wave of the chain runs; once one has failed, none after it does. */
    method RunNext(script: WaveScript)
      requires Valid()
      modifies this
      ensures Valid() && waveBuffer == old(waveBuffer) && puts == old(puts)
      ensures waveQueue == if old(broken).Some? || old(waveQueue) == [] then old(waveQueue) else old(waveQueue)[1..]
      ensures old(broken).Some? ==> broken == old(broken)
      ensures old(broken).None? && Transient(script) ==> broken.None?
      ensures broken == old(broken) || (broken.Some? && Gives(script, broken.value))
    {
      if broken.Some? || waveQueue == [] {
        return;
      }
      var wave, rest := waveQueue[0], waveQueue[1..];
      WaveKeepsSizes(executed, waveQueue, waveSize);
      ghost var stored, count, bytes := storedBlocks, completedCount, totalBytes;
      ghost var blocks;
      var nonces;
      broken, blocks, nonces := RunWave(wave, script);
      waveQueue := rest;
      if broken.None? {
        WaveKeepsOrder(executed, rest, waveBuffer, puts, wave);
        WaveKeepsCount(executed, stored, count, bytes, wave, blocks);
        executed, storedBlocks := executed + [wave], storedBlocks + blocks;
      }
    }

    /** The importer at work, and waves running meanwhile. */
    method Import(events: seq<Event>)
      requires Valid() && puts == []
      modifies this
      ensures Valid() && puts == FirstPuts(events)
      ensures old(broken).None? && AllTransient(events) ==> broken.None?
      ensures old(broken).None? && broken.Some? ==> SomeGives(events, broken.value)
    {
      var n := 0;
      while n < |events|
        invariant 0 <= n <= |events|
        invariant Valid()
        invariant puts == FirstPuts(events[..n])
        invariant old(broken).None? && AllTransient(events) ==> broken.None?
        invariant old(broken).None? && broken.Some? ==> SomeGives(events, broken.value)
      {
        assert events[..n + 1][..n] == events[..n];
        match events[n] {
          case Put(block) => PutBlock(block);
          case RunNextWave(script) => RunNext(script);
        }
        n := n + 1;
      }
      assert events[..|events|] == events;
    }

    /** After the import: connects anew, flushes what is buffered and waits for every wave. */
    method Finish(finalNonce: Result<nat, UploadError>, last: nat -> WaveScript) returns (thrown: Option<UploadError>)
      requires Valid()
      modifies this
      ensures puts == old(puts)
      ensures old(broken).None? && finalNonce.Ok? && (forall w :: Transient(last(w))) ==> thrown.None?
      ensures thrown.Some? ==> thrown == old(broken) || finalNonce == Err(thrown.value) || exists w :: Gives(last(w), thrown.value)
      ensures thrown.None? ==> Ordered(executed, [], [], puts) && Sized(executed, waveSize) &&
                               Counted(executed, storedBlocks, completedCount, totalBytes)
    {
      if broken.Some? {
        return broken;
      }
      if finalNonce.Err? {
        return Some(finalNonce.error);
      }
      clientReady, nextNonce := true, finalNonce.value;
      FlushWave();
      Drain(last);
      return broken;
    }

    /** Waits for the chain of waves. */
    method Drain(last: nat -> WaveScript)
      requires Valid()
      modifies this
      ensures Valid() && waveBuffer == old(waveBuffer) && puts == old(puts)
      ensures broken.Some? || waveQueue == []
      ensures old(broken).None? && (forall w :: Transient(last(w))) ==> broken.None?
      ensures broken == old(broken) || (broken.Some? && exists w :: Gives(last(w), broken.value))
    {
      var w := 0;
      while |waveQueue| > 0 && broken.None?
        invariant Valid() && waveBuffer == old(waveBuffer) && puts == old(puts)
        invariant old(broken).None? && (forall w :: Transient(last(w))) ==> broken.None?
        invariant broken == old(broken) || (broken.Some? && exists w :: Gives(last(w), broken.value))
        decreases |waveQueue|
      {
        RunNext(last(w));
        w := w + 1;
      }
    }
  }

  /** One directory upload. The importer's puts and the chain's waves interleave as `events` says; `last` are the waves
      run after the final flush. `stored` lists what the chain accepted, `waves` the waves that ran. */
  method MerkleizeAndUploadDirectory(concurrency: nat, events: seq<Event>, finalNonce: Result<nat, UploadError>, last: nat -> WaveScript)
    returns (r: Result<(nat, nat), UploadError>, ghost stored: seq<WaveBlock>, ghost waves: seq<seq<WaveBlock>>)
    requires concurrency > 0
    // every CID put is stored, each exactly once
    ensures r.Ok? ==> multiset(stored) == multiset(FirstPuts(events))
    // in waves no larger than the concurrency, run in the order of the puts
    ensures r.Ok? ==> Sized(waves, concurrency) && Flatten(waves) == FirstPuts(events)
    // and the totals are those of the distinct blocks
    ensures r.Ok? ==> r.value == (|FirstPuts(events)|, TotalBytes(FirstPuts(events)))
    // failures that may be retried, in up to three rounds of each wave, never fail the upload
    ensures AllTransient(events) && finalNonce.Ok? && (forall w :: Transient(last(w))) ==> r.Ok?
    // and an error is one the environment gave
    ensures r.Err? ==> SomeGives(events, r.error) || finalNonce == Err(r.error) || exists w :: Gives(last(w), r.error)
  {
    var u := new Uploader(concurrency);
    u.Import(events);
    var broken := u.Finish(finalNonce, last);
    stored, waves := u.storedBlocks, u.executed;
    if broken.Some? {
      return Err(broken.value), stored, waves;
    }
    AllStored(waves, u.puts, stored, u.completedCount, u.totalBytes);
    return Ok((u.completedCount, u.totalBytes)), stored, waves;
  }
}
