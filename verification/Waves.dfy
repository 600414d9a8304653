/** Choosing the chunks of a wave, and submitting a wave with per-chunk retries. */
module Waves {
  import opened Prelude
  import opened Chunking

  datatype WaveChunk = WaveChunk(index: int, bytes: Bytes, length: nat, cid: Cid)

  /** An upload error reduced to what the message classifiers say about it. */
  datatype UploadError = UploadError(
    retryable: bool,          // isRetryableUploadError
    reconnectRequired: bool,  // isReconnectRequiredUploadError
    stall: bool,              // "wave-timeout" or "store-timeout"
    nonceRejected: bool)      // "stale" or "ancientbirthblock"

  function TotalLength(chunks: seq<WaveChunk>): nat
  {
    if chunks == [] then 0 else TotalLength(chunks[..|chunks| - 1]) + chunks[|chunks| - 1].length
  }

  lemma {:induction false} TotalLengthMonotone(chunks: seq<WaveChunk>, n: nat)
    requires n <= |chunks|
    ensures TotalLength(chunks[..n]) <= TotalLength(chunks)
    decreases |chunks|
  {
    if n < |chunks| {
      var front := chunks[..|chunks| - 1];
      assert front[..n] == chunks[..n];
      TotalLengthMonotone(front, n);
    } else {
      assert chunks[..n] == chunks;
    }
  }

  lemma {:induction false} TotalLengthBound(chunks: seq<WaveChunk>, each: nat)
    requires forall i :: 0 <= i < |chunks| ==> chunks[i].length <= each
    ensures TotalLength(chunks) <= |chunks| * each
    decreases |chunks|
  {
    if chunks != [] {
      TotalLengthBound(chunks[..|chunks| - 1], each);
      assert |chunks| * each == (|chunks| - 1) * each + each;
    }
  }

  /** A wave of `n` chunks is admissible: within the window and within the byte budget. */
  predicate Admissible(queue: seq<WaveChunk>, window: int, budget: nat, n: nat)
  {
    n <= |queue| && (n > 0 ==> n <= window) && TotalLength(queue[..n]) <= budget
  }

  /** Takes the wave off the front of the queue. On success it is the longest admissible prefix;
      it fails exactly when a chunk larger than the whole budget is reached. */
  method SelectWaveChunks(queue: seq<WaveChunk>, window: int, budget: nat)
    returns (r: Result<seq<WaveChunk>, WaveChunk>, rest: seq<WaveChunk>)
    ensures r.Ok? ==> r.value + rest == queue
    ensures r.Ok? ==> Admissible(queue, window, budget, |r.value|)
    ensures r.Ok? ==> forall n | |r.value| < n <= |queue| :: !Admissible(queue, window, budget, n)
    ensures r.Err? <==> exists n :: OversizeReached(queue, window, budget, n)
    ensures r.Err? ==> r.error.length > budget && r.error in queue
  {
    var selected: seq<WaveChunk> := [];
    rest := queue;
    var inFlightBytes := 0;
    ghost var k := 0;
    while |selected| < window && |rest| > 0
      invariant 0 <= k <= |queue| && selected == queue[..k] && rest == queue[k..]
      invariant k > 0 ==> k <= window
      invariant inFlightBytes == TotalLength(queue[..k]) <= budget
      invariant forall n :: 0 <= n < k ==> queue[n].length <= budget
      decreases |rest|
    {
      var candidate := rest[0];
      if candidate.length > budget {
        assert OversizeReached(queue, window, budget, k);
        return Err(candidate), rest;
      }
      TotalLengthStep(queue, k);
      var nextInFlightBytes := inFlightBytes + candidate.length;
      if |selected| > 0 && nextInFlightBytes > budget {
        BudgetStops(queue, window, budget, k);
        return Ok(selected), rest;
      }
      rest := rest[1..];
      selected := selected + [candidate];
      inFlightBytes := nextInFlightBytes;
      k := k + 1;
    }
    r := Ok(selected);
  }

  /** The loop gets as far as chunk `n`, and chunk `n` alone exceeds the budget. */
  predicate OversizeReached(queue: seq<WaveChunk>, window: int, budget: nat, n: nat)
  {
    n < |queue| && n < window && Admissible(queue, window, budget, n) && queue[n].length > budget
  }

  lemma TotalLengthStep(queue: seq<WaveChunk>, k: nat)
    requires k < |queue|
    ensures TotalLength(queue[..k + 1]) == TotalLength(queue[..k]) + queue[k].length
  {
    var next := queue[..k + 1];
    assert next[..|next| - 1] == queue[..k];
  }

  /** Past the first overflow no longer wave is admissible. */
  lemma BudgetStops(queue: seq<WaveChunk>, window: int, budget: nat, k: nat)
    requires k < |queue| && TotalLength(queue[..k + 1]) > budget
    ensures forall n | k < n <= |queue| :: !Admissible(queue, window, budget, n)
  {
    forall n | k < n <= |queue|
      ensures TotalLength(queue[..n]) > budget
    {
      assert queue[..n][..k + 1] == queue[..k + 1];
      TotalLengthMonotone(queue[..n], k + 1);
    }
  }

  /** One submission of one chunk: in which round, and how it failed, if it did. */
  datatype Submission<T> = Submission(chunk: T, round: nat, failure: Option<UploadError>)

  datatype WaveSubmitResult = WaveSubmitResult(retries: nat, retryableFailures: nat, attemptedSubmissions: nat)

  datatype WaveRun<T> = WaveRun(log: seq<Submission<T>>, result: Result<WaveSubmitResult, UploadError>)

  /** How the network answers: the outcome of the submission at a given round and batch position. */
  type SubmitOracle = (nat, nat) -> Option<UploadError>

  function Round<T>(batch: seq<T>, round: nat, oracle: SubmitOracle): (subs: seq<Submission<T>>)
    ensures |subs| == |batch|
    ensures forall i {:trigger subs[i]} :: 0 <= i < |batch| ==> subs[i] == Submission(batch[i], round, oracle(round, i))
  {
    seq(|batch|, i requires 0 <= i < |batch| => Submission(batch[i], round, oracle(round, i)))
  }

  /** The chunks whose submission succeeded, in log order. */
  function Stored<T>(log: seq<Submission<T>>): seq<T>
  {
    if log == [] then []
    else
      var before := Stored(log[..|log| - 1]);
      var last := log[|log| - 1];
      if last.failure.None? then before + [last.chunk] else before
  }

  function FailedChunks<T>(log: seq<Submission<T>>): seq<T>
  {
    if log == [] then []
    else
      var before := FailedChunks(log[..|log| - 1]);
      var last := log[|log| - 1];
      if last.failure.Some? then before + [last.chunk] else before
  }

  lemma {:induction false} StoredAppend<T>(a: seq<Submission<T>>, b: seq<Submission<T>>)
    ensures Stored(a + b) == Stored(a) + Stored(b)
    ensures FailedChunks(a + b) == FailedChunks(a) + FailedChunks(b)
    decreases |b|
  {
    if b == [] {
      assert a + b == a;
    } else {
      var ab := a + b;
      assert ab[..|ab| - 1] == a + b[..|b| - 1];
      assert ab[|ab| - 1] == b[|b| - 1];
      StoredAppend(a, b[..|b| - 1]);
    }
  }

  /** A submission either stores its chunk or fails it. */
  lemma {:induction false} StoredOrFailed<T>(log: seq<Submission<T>>)
    ensures |Stored(log)| + |FailedChunks(log)| == |log|
    ensures multiset(Stored(log)) + multiset(FailedChunks(log)) == multiset(Chunks(log))
    decreases |log|
  {
    if log != [] {
      var front := log[..|log| - 1];
      StoredOrFailed(front);
      assert Chunks(log) == Chunks(front) + [log[|log| - 1].chunk];
    }
  }

  function Chunks<T>(log: seq<Submission<T>>): (cs: seq<T>)
    ensures |cs| == |log|
    ensures forall i :: 0 <= i < |log| ==> cs[i] == log[i].chunk
  {
    seq(|log|, i requires 0 <= i < |log| => log[i].chunk)
  }

  lemma {:induction false} StoredMembers<T>(log: seq<Submission<T>>)
    ensures forall i :: 0 <= i < |log| && log[i].failure.None? ==> log[i].chunk in Stored(log)
    ensures forall c :: c in Stored(log) ==> c in Chunks(log)
    decreases |log|
  {
    if log != [] {
      var front := log[..|log| - 1];
      StoredMembers(front);
      forall c | c in Stored(log)
        ensures c in Chunks(log)
      {
        if c in Stored(front) {
          var i :| 0 <= i < |front| && Chunks(front)[i] == c;
          assert Chunks(log)[i] == c;
        } else {
          assert Chunks(log)[|log| - 1] == c;
        }
      }
      forall i | 0 <= i < |log| && log[i].failure.None?
        ensures log[i].chunk in Stored(log)
      {
        if i < |front| { assert front[i] == log[i]; }
      }
    }
  }

  /** Once a chunk is stored it is not submitted again. */
  ghost predicate NoneAfterSuccess<T>(log: seq<Submission<T>>)
  {
    forall j :: 0 <= j < |log| ==> log[j].chunk !in Stored(log[..j])
  }

  /** Everything the callers may rely on, for a wave and its recorded submissions. */
  ghost predicate WaveContract<T>(wave: seq<T>, isRetryable: UploadError -> bool, maxRetries: nat, run: WaveRun<T>)
  {
    // at most maxRetries + 1 rounds
    && (forall i :: 0 <= i < |run.log| ==> run.log[i].round <= maxRetries && run.log[i].chunk in wave)
    && (Distinct(wave) ==> NoneAfterSuccess(run.log))
    && multiset(Stored(run.log)) <= multiset(wave)
    && match run.result {
         case Ok(r) =>
           // each chunk is stored exactly once, and the counters are the log's
           && multiset(Stored(run.log)) == multiset(wave)
           && r.attemptedSubmissions == |run.log| == |wave| + r.retries
           && r.retries == r.retryableFailures == |FailedChunks(run.log)|
           && (forall i :: 0 <= i < |run.log| && run.log[i].failure.Some? ==>
                 isRetryable(run.log[i].failure.value) && run.log[i].round < maxRetries)
         case Err(e) =>
           // the first failure that may not be retried is the one thrown
           FirstFinalFailure(run.log, isRetryable, maxRetries, e)
       }
  }

  predicate FinalFailure<T>(s: Submission<T>, isRetryable: UploadError -> bool, maxRetries: nat)
  {
    s.failure.Some? && (!isRetryable(s.failure.value) || s.round >= maxRetries)
  }

  predicate FirstFinalAt<T>(log: seq<Submission<T>>, isRetryable: UploadError -> bool, maxRetries: nat, e: UploadError, i: nat)
    requires i < |log|
  {
    && log[i].failure == Some(e)
    && FinalFailure(log[i], isRetryable, maxRetries)
    && forall j :: 0 <= j < i ==> !FinalFailure(log[j], isRetryable, maxRetries)
  }

  ghost predicate FirstFinalFailure<T>(log: seq<Submission<T>>, isRetryable: UploadError -> bool, maxRetries: nat, e: UploadError)
  {
    exists i :: 0 <= i < |log| && FirstFinalAt(log, isRetryable, maxRetries, e, i)
  }

  predicate AnyFinal<T>(results: seq<Submission<T>>, isRetryable: UploadError -> bool, maxRetries: nat)
  {
    exists i :: 0 <= i < |results| && FinalFailure(results[i], isRetryable, maxRetries)
  }

  /** Every submission from a given round on: the batch, then what failed of it, until nothing fails or something fails for good. */
  function Submissions<T>(batch: seq<T>, round: nat, oracle: SubmitOracle, isRetryable: UploadError -> bool, maxRetries: nat)
    : (log: seq<Submission<T>>)
    decreases maxRetries - round
  {
    var results := Round(batch, round, oracle);
    if round >= maxRetries || FailedChunks(results) == [] || AnyFinal(results, isRetryable, maxRetries) then results
    else results + Submissions(FailedChunks(results), round + 1, oracle, isRetryable, maxRetries)
  }

  /** One more round of what is to come becomes what was. */
  lemma RoundMovesOn<T>(log: seq<Submission<T>>, batch: seq<T>, round: nat, oracle: SubmitOracle,
                        isRetryable: UploadError -> bool, maxRetries: nat)
    ensures var all := log + Submissions(batch, round, oracle, isRetryable, maxRetries);
            var results := Round(batch, round, oracle);
            if AnyFinal(results, isRetryable, maxRetries) || |FailedChunks(results)| == 0 then log + results == all
            else
              && round < maxRetries
              && log + results + Submissions(FailedChunks(results), round + 1, oracle, isRetryable, maxRetries) == all
  {
    var results := Round(batch, round, oracle);
    if !AnyFinal(results, isRetryable, maxRetries) && FailedChunks(results) != [] {
      SomeFailure(results);
      var rest := Submissions(FailedChunks(results), round + 1, oracle, isRetryable, maxRetries);
      assert log + (results + rest) == log + results + rest;
    }
  }

  /** Every failure on record is an answer of the network. */
  lemma {:induction false} FailuresAreAnswers<T>(batch: seq<T>, round: nat, oracle: SubmitOracle, isRetryable: UploadError -> bool,
                                                 maxRetries: nat, i: nat)
    returns (position: nat)
    requires i < |Submissions(batch, round, oracle, isRetryable, maxRetries)|
    ensures var s := Submissions(batch, round, oracle, isRetryable, maxRetries)[i]; s.failure == oracle(s.round, position)
    decreases maxRetries - round
  {
    var results := Round(batch, round, oracle);
    if i < |results| {
      position := i;
    } else {
      position := FailuresAreAnswers(FailedChunks(results), round + 1, oracle, isRetryable, maxRetries, i - |results|);
    }
  }

  /** Submits the wave in rounds; a round resubmits what failed retryably in the round before. */
  method RunWaveWithRetries<T>(wave: seq<T>, oracle: SubmitOracle, isRetryable: UploadError -> bool, maxRetries: nat)
    returns (run: WaveRun<T>)
    ensures run.log == Submissions(wave, 0, oracle, isRetryable, maxRetries)
    ensures run.result.Ok? ==> !AnyFinal(run.log, isRetryable, maxRetries) &&
                               Counts(run.result.value, |FailedChunks(run.log)|, |run.log|)
    ensures run.result.Err? ==> FirstFinalFailure(run.log, isRetryable, maxRetries, run.result.error)
  {
    var retryableFailures: nat, retries: nat, attemptedSubmissions: nat := 0, 0, 0;
    var pending := wave;
    var log: seq<Submission<T>> := [];
    var retryAttempt: nat := 0;
    ghost var all := Submissions(wave, 0, oracle, isRetryable, maxRetries);
    assert |wave| == 0 ==> all == Round(wave, 0, oracle) == [];
    while |pending| > 0
      invariant retryAttempt <= maxRetries && !AnyFinal(log, isRetryable, maxRetries)
      invariant |pending| > 0 ==> log + Submissions(pending, retryAttempt, oracle, isRetryable, maxRetries) == all
      invariant |pending| == 0 ==> log == all
      invariant Counts(WaveSubmitResult(retries, retryableFailures, attemptedSubmissions), |FailedChunks(log)|, |log|)
      decreases maxRetries + 1 - retryAttempt
    {
      var currentBatch := pending;
      pending := [];
      var results := Round(currentBatch, retryAttempt, oracle);
      RoundMovesOn(log, currentBatch, retryAttempt, oracle, isRetryable, maxRetries);
      StoredAppend(log, results);
      ghost var before := log;
      log, attemptedSubmissions := log + results, attemptedSubmissions + |currentBatch|;

      var retryCandidates, thrown := SortFailures(results, retryAttempt, isRetryable, maxRetries);
      if thrown.Some? {
        ThrowKeepsLog(before, results, isRetryable, maxRetries, thrown.value);
        return WaveRun(log, Err(thrown.value));
      }
      NoneFinalAppend(before, results, isRetryable, maxRetries);
      if |retryCandidates| == 0 {
        break;
      }
      retries, retryableFailures := retries + |retryCandidates|, retryableFailures + |retryCandidates|;
      pending, retryAttempt := retryCandidates, retryAttempt + 1;
      assert log + Submissions(pending, retryAttempt, oracle, isRetryable, maxRetries) == all;
    }
    run := WaveRun(log, Ok(WaveSubmitResult(retries, retryableFailures, attemptedSubmissions)));
  }

  predicate Counts(r: WaveSubmitResult, failures: nat, submissions: nat)
  {
    r.retries == r.retryableFailures == failures && r.attemptedSubmissions == submissions
  }

  /** However many rounds are still to come, the books stay in order; and if nothing fails for good, nothing is left over. */
  lemma {:induction false} SubmissionsKeepLedger<T>(wave: seq<T>, log: seq<Submission<T>>, batch: seq<T>, round: nat, oracle: SubmitOracle,
                                                    isRetryable: UploadError -> bool, maxRetries: nat, all: seq<Submission<T>>)
    returns (pending: seq<T>)
    requires Ledger(wave, log, batch, round) && round <= maxRetries
    requires all == log + Submissions(batch, round, oracle, isRetryable, maxRetries)
    ensures Ledger(wave, all, pending, maxRetries + 1)
    ensures !AnyFinal(all, isRetryable, maxRetries) ==> |pending| == 0
    decreases maxRetries - round
  {
    var results := Round(batch, round, oracle);
    RoundKeepsLedger(wave, log, batch, results, round);
    RoundMovesOn(log, batch, round, oracle, isRetryable, maxRetries);
    if AnyFinal(results, isRetryable, maxRetries) || |FailedChunks(results)| == 0 {
      pending := FailedChunks(results);
      FinalInPart(log, results, isRetryable, maxRetries);
      LedgerLater(wave, all, pending, round + 1, maxRetries + 1);
    } else {
      pending := SubmissionsKeepLedger(wave, log + results, FailedChunks(results), round + 1, oracle, isRetryable, maxRetries, all);
    }
  }

  lemma LedgerLater<T>(wave: seq<T>, log: seq<Submission<T>>, pending: seq<T>, round: nat, later: nat)
    requires Ledger(wave, log, pending, round) && round <= later
    ensures Ledger(wave, log, pending, later)
  {
  }

  lemma FinalInPart<T>(log: seq<Submission<T>>, results: seq<Submission<T>>, isRetryable: UploadError -> bool, maxRetries: nat)
    ensures AnyFinal(results, isRetryable, maxRetries) ==> AnyFinal(log + results, isRetryable, maxRetries)
  {
    if i :| 0 <= i < |results| && FinalFailure(results[i], isRetryable, maxRetries) {
      assert (log + results)[|log| + i] == results[i];
    }
  }

  /** What the callers of a wave may rely on, for every wave and every answer of the network. */
  lemma WaveMeetsContract<T>(wave: seq<T>, oracle: SubmitOracle, isRetryable: UploadError -> bool, maxRetries: nat, run: WaveRun<T>)
    requires run.log == Submissions(wave, 0, oracle, isRetryable, maxRetries)
    requires run.result.Ok? ==> !AnyFinal(run.log, isRetryable, maxRetries) &&
                                Counts(run.result.value, |FailedChunks(run.log)|, |run.log|)
    requires run.result.Err? ==> FirstFinalFailure(run.log, isRetryable, maxRetries, run.result.error)
    ensures WaveContract(wave, isRetryable, maxRetries, run)
  {
    assert multiset(Stored<T>([])) + multiset(wave) == multiset(wave);
    assert [] + run.log == run.log;
    var pending := SubmissionsKeepLedger(wave, [], wave, 0, oracle, isRetryable, maxRetries, run.log);
    if run.result.Ok? {
      assert pending == [];
      assert multiset(Stored(run.log)) + multiset(pending) == multiset(Stored(run.log));
    }
  }

  /** Collects the chunks to resubmit, or stops at the first failure that must be thrown. */
  method SortFailures<T>(results: seq<Submission<T>>, retryAttempt: nat, isRetryable: UploadError -> bool, maxRetries: nat)
    returns (retryCandidates: seq<T>, thrown: Option<UploadError>)
    requires forall i :: 0 <= i < |results| ==> results[i].round == retryAttempt
    ensures thrown.None? ==> retryCandidates == FailedChunks(results)
    ensures thrown.None? ==> !AnyFinal(results, isRetryable, maxRetries)
    ensures thrown.Some? ==> FirstFinalFailure(results, isRetryable, maxRetries, thrown.value)
  {
    retryCandidates := [];
    var i := 0;
    while i < |results|
      invariant 0 <= i <= |results|
      invariant retryCandidates == FailedChunks(results[..i])
      invariant forall j :: 0 <= j < i ==> !FinalFailure(results[j], isRetryable, maxRetries)
    {
      assert results[..i + 1][..i] == results[..i];
      var failure := results[i].failure;
      if failure.Some? {
        if isRetryable(failure.value) && retryAttempt < maxRetries {
          retryCandidates := retryCandidates + [results[i].chunk];
        } else {
          assert FirstFinalAt(results, isRetryable, maxRetries, failure.value, i);
          return retryCandidates, Some(failure.value);
        }
      }
      i := i + 1;
    }
    assert results[..|results|] == results;
    thrown := None;
  }

  lemma ThrowKeepsLog<T>(log: seq<Submission<T>>, results: seq<Submission<T>>, isRetryable: UploadError -> bool, maxRetries: nat, e: UploadError)
    requires !AnyFinal(log, isRetryable, maxRetries)
    requires FirstFinalFailure(results, isRetryable, maxRetries, e)
    ensures FirstFinalFailure(log + results, isRetryable, maxRetries, e)
  {
    var all := log + results;
    var i :| 0 <= i < |results| && FirstFinalAt(results, isRetryable, maxRetries, e, i);
    assert forall j :: |log| <= j < |log| + i ==> all[j] == results[j - |log|];
    assert FirstFinalAt(all, isRetryable, maxRetries, e, |log| + i);
  }

  lemma NoneFinalAppend<T>(log: seq<Submission<T>>, results: seq<Submission<T>>, isRetryable: UploadError -> bool, maxRetries: nat)
    requires !AnyFinal(log, isRetryable, maxRetries) && !AnyFinal(results, isRetryable, maxRetries)
    ensures !AnyFinal(log + results, isRetryable, maxRetries)
  {
  }

  lemma {:induction false} SomeFailure<T>(log: seq<Submission<T>>)
    requires FailedChunks(log) != []
    ensures exists i :: 0 <= i < |log| && log[i].failure.Some?
    decreases |log|
  {
    var front := log[..|log| - 1];
    if log[|log| - 1].failure.None? {
      SomeFailure(front);
      var i :| 0 <= i < |front| && front[i].failure.Some?;
      assert log[i].failure.Some?;
    }
  }

  /** The books of a run: what is stored and what is pending make up the wave. */
  ghost predicate Ledger<T>(wave: seq<T>, log: seq<Submission<T>>, pending: seq<T>, round: nat)
  {
    && multiset(Stored(log)) + multiset(pending) == multiset(wave)
    && |log| + |pending| == |wave| + |FailedChunks(log)|
    && (forall i :: 0 <= i < |log| ==> log[i].round < round && log[i].chunk in wave)
    && (Distinct(wave) ==> NoneAfterSuccess(log))
  }

  /** What one more round does to the books. */
  lemma RoundKeepsLedger<T>(wave: seq<T>, log: seq<Submission<T>>, batch: seq<T>, results: seq<Submission<T>>, round: nat)
    requires |results| == |batch|
    requires forall i :: 0 <= i < |batch| ==> results[i].chunk == batch[i] && results[i].round == round
    requires Ledger(wave, log, batch, round)
    ensures Ledger(wave, log + results, FailedChunks(results), round + 1)
    ensures |FailedChunks(log + results)| == |FailedChunks(log)| + |FailedChunks(results)|
  {
    StoredAppend(log, results);
    StoredOrFailed(results);
    assert Chunks(results) == batch;
    forall c | c in batch
      ensures c in wave
    {
      assert multiset(Stored(log))[c] + multiset(batch)[c] == multiset(wave)[c];
      assert c in multiset(wave);
    }
    if Distinct(wave) {
      RoundAfterSuccess(wave, log, batch, results);
    }
  }

  /** A round of what is pending resubmits nothing that is stored. */
  lemma RoundAfterSuccess<T>(wave: seq<T>, log: seq<Submission<T>>, batch: seq<T>, results: seq<Submission<T>>)
    requires Distinct(wave) && NoneAfterSuccess(log)
    requires multiset(Stored(log)) + multiset(batch) == multiset(wave)
    requires Chunks(results) == batch
    ensures NoneAfterSuccess(log + results)
  {
    PendingIsFresh(wave, Stored(log), batch);
    var all := log + results;
    forall j | 0 <= j < |all|
      ensures all[j].chunk !in Stored(all[..j])
    {
      NotStoredBefore(log, results, batch, j);
    }
  }

  lemma NotStoredBefore<T>(log: seq<Submission<T>>, results: seq<Submission<T>>, batch: seq<T>, j: nat)
    requires Chunks(results) == batch && j < |log + results| && NoneAfterSuccess(log)
    requires j >= |log| ==> batch[j - |log|] !in Stored(log) && batch[j - |log|] !in batch[..j - |log|]
    ensures (log + results)[j].chunk !in Stored((log + results)[..j])
  {
    if j < |log| {
      assert (log + results)[..j] == log[..j];
    } else {
      var k := j - |log|;
      assert Chunks(results)[k] == batch[k];
      assert (log + results)[..j] == log + results[..k];
      StoredAppend(log, results[..k]);
      StoredMembers(results[..k]);
      assert Chunks(results[..k]) == batch[..k];
    }
  }

  /** Of a duplicate-free wave, what is pending is duplicate-free and not stored. */
  lemma PendingIsFresh<T>(wave: seq<T>, stored: seq<T>, batch: seq<T>)
    requires Distinct(wave) && multiset(stored) + multiset(batch) == multiset(wave)
    ensures forall k :: 0 <= k < |batch| ==> batch[k] !in stored && batch[k] !in batch[..k]
  {
    forall x
      ensures multiset(batch)[x] + multiset(stored)[x] <= 1
    {
      DistinctCount(wave, x);
      assert (multiset(stored) + multiset(batch))[x] == multiset(wave)[x];
    }
    CountsDistinct(batch);
    forall k | 0 <= k < |batch|
      ensures batch[k] !in stored
    {
      assert batch[k] in multiset(batch) && batch[k] !in multiset(stored);
    }
  }

  /** What a run stored belongs to its wave. */
  lemma StoredInWave<T>(wave: seq<T>, log: seq<Submission<T>>)
    requires multiset(Stored(log)) <= multiset(wave)
    ensures forall c :: c in Stored(log) ==> c in wave
  {
    forall c | c in Stored(log)
      ensures c in wave
    {
      assert c in multiset(Stored(log));
      assert c in multiset(wave);
    }
  }

  /** What a successful run stored is its whole wave. */
  lemma StoredIsWave<T>(wave: seq<T>, log: seq<Submission<T>>)
    requires multiset(Stored(log)) == multiset(wave)
    ensures forall c :: c in wave ==> c in Stored(log)
    ensures |Stored(log)| == |wave|
  {
    forall c | c in wave
      ensures c in Stored(log)
    {
      assert c in multiset(wave);
      assert c in multiset(Stored(log));
    }
    assert |multiset(Stored(log))| == |multiset(wave)|;
  }
}
