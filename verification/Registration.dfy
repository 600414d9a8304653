/** Commit-reveal registration with a resumable record: a client against a chain clock, a contract and a local
    cache, with failures and crashes between any two steps. */
module Registration {
  import opened Prelude
  import opened Labels

  type Address = string
  type Hash = string
  type Secret = string
  type Credential = string
  type Blob = string

  const ZERO_ADDRESS: Address := "0x0000000000000000000000000000000000000000"

  /** `checksumAddress(a) === checksumAddress(b)`. */
  predicate SameAddress(a: Address, b: Address)
  {
    Lower(a) == Lower(b)
  }

  /** The tuple the contract hashes at commit time and checks at reveal time. */
  datatype Preimage = Preimage(name: string, owner: Address, secret: Secret, reserved: bool)

  /** Hashing and authenticated encryption. The number is the salt. */
  datatype Crypto = Crypto(
    commit: Preimage -> Hash,
    encrypt: (Secret, Credential, nat) -> Blob,
    decrypt: (Blob, Credential) -> Option<Secret>)
  {
    /** Decryption undoes encryption under the same credential, and refuses any other. */
    ghost predicate Valid()
    {
      forall s, c, n, c' :: decrypt(encrypt(s, c, n), c') == if c' == c then Some(s) else None
    }
  }

  datatype CommitmentRecord = CommitmentRecord(
    env: string,
    caller: Address,
    name: string,
    owner: Address,
    reserved: bool,
    governance: bool,
    commitmentHash: Hash,
    transferDestination: Option<string>,
    committedAt: nat,
    encryptedSecret: Blob)

  /** What is not said in a request: the salt, and the client's own clock. */
  datatype Stamp = Stamp(salt: nat, at: nat)

  /** One registration as requested. For a governance name owner and reserve flag are fixed. */
  datatype Request = Request(
    env: string,
    caller: Address,
    credential: Credential,
    name: string,
    requestedOwner: Address,
    reverse: bool,
    governance: bool,
    transferDestination: Option<string>)
  {
    function Owner(): Address { if governance then caller else requestedOwner }

    function Reserved(): bool { governance || reverse }

    predicate ValidLabel() { if governance then ValidGovernanceLabel(name) else ValidDomainLabel(name) }

    /** Somebody pays for another's name. */
    predicate CrossPayer() { !SameAddress(Owner(), caller) }

    function Id(): string { RecordId(env, caller, name) }
  }

  /** `generateCommitment`: the tuple that is hashed. */
  function PreimageOf(request: Request, secret: Secret): Preimage
  {
    Preimage(NormaliseLabel(request.name), request.Owner(), secret, request.Reserved())
  }

  /** `persistCommitment`: the record that is saved. */
  function RecordOf(crypto: Crypto, request: Request, secret: Secret, stamp: Stamp): CommitmentRecord
  {
    CommitmentRecord(request.env, request.caller, request.name, request.Owner(), request.Reserved(), request.governance,
                     crypto.commit(PreimageOf(request, secret)), request.transferDestination,
                     stamp.at, crypto.encrypt(secret, request.credential, stamp.salt))
  }

  /** `resumeRegistration`: the tuple rebuilt from a record; a wrong credential rebuilds nothing. */
  function Rebuild(crypto: Crypto, record: CommitmentRecord, credential: Credential): Option<Preimage>
  {
    match crypto.decrypt(record.encryptedSecret, credential)
    case None => None
    case Some(secret) => Some(Preimage(record.name, record.owner, secret, record.reserved))
  }

  /** A resume reveals the very tuple that was committed, under the credential it was saved with and no other. */
  lemma ResumeRebuildsPreimage(crypto: Crypto, request: Request, secret: Secret, stamp: Stamp, credential: Credential)
    requires crypto.Valid() && request.ValidLabel()
    ensures Rebuild(crypto, RecordOf(crypto, request, secret, stamp), credential) ==
            if credential == request.credential then Some(PreimageOf(request, secret)) else None
  {
    ValidLabelIsNormal(request.name);
  }

  /** Whatever a record can be decrypted to hashes to the commitment it names. */
  ghost predicate RecordOk(crypto: Crypto, r: CommitmentRecord)
  {
    forall credential :: Rebuild(crypto, r, credential).Some? ==> crypto.commit(Rebuild(crypto, r, credential).value) == r.commitmentHash
  }

  // ---- history ---------------------------------------------------------------

  datatype Event =
    | Committed(hash: Hash, at: nat)
    | Saved(id: string, record: CommitmentRecord)
    | NotSaved(id: string, hash: Hash)
    | Torn(id: string)                                      // a save was cut short and left a file that cannot be read
    | RevealSent(preimage: Preimage, committedAt: nat, sentAt: nat)
    | Revealed(hash: Hash)                                  // the client saw the reveal succeed
    | OwnerRead(name: string, owner: Address, onChain: bool) // what an ownership read returned, and whether the chain says so
    | DiscardChosen(record: CommitmentRecord)
    | Deleted(id: string, record: CommitmentRecord)

  type Log = seq<Event>

  type Cache = map<string, CommitmentRecord>

  function Apply(cache: Cache, e: Event): Cache
  {
    match e
    case Saved(id, r) => cache[id := r]
    case Torn(id) => cache - {id}
    case Deleted(id, _) => cache - {id}
    case _ => cache
  }

  /** The cache a history leaves behind. */
  function Replay(start: Cache, log: Log): Cache
    decreases |log|
  {
    if log == [] then start else Apply(Replay(start, log[..|log| - 1]), log[|log| - 1])
  }

  lemma ReplaySnoc(start: Cache, log: Log, e: Event)
    ensures Replay(start, log + [e]) == Apply(Replay(start, log), e)
  {
    assert (log + [e])[..|log + [e]| - 1] == log;
  }

  /** The record is in the cache a history leaves behind. */
  predicate Cached(start: Cache, log: Log, id: string, r: CommitmentRecord)
  {
    id in Replay(start, log) && Replay(start, log)[id] == r
  }

  /** What the latest ownership read of a name returned, and whether the chain said so. */
  datatype Answer = Answer(owner: Address, onChain: bool)

  function LastRead(past: Log, name: string): Option<Answer>
    decreases |past|
  {
    if past == [] then None
    else
      match past[|past| - 1]
      case OwnerRead(n, owner, onChain) => if n == name then Some(Answer(owner, onChain)) else LastRead(past[..|past| - 1], name)
      case _ => LastRead(past[..|past| - 1], name)
  }

  lemma {:induction false} LastReadOccurs(past: Log, name: string)
    ensures var last := LastRead(past, name); last.Some? ==> OwnerRead(name, last.value.owner, last.value.onChain) in past
    decreases |past|
  {
    if past != [] {
      LastReadOccurs(past[..|past| - 1], name);
      assert past == past[..|past| - 1] + [past[|past| - 1]];
    }
  }

  /** At the latest read the chain reported the name as owned by the record's owner. */
  predicate ReportedOwned(past: Log, r: CommitmentRecord)
  {
    var last := LastRead(past, r.name);
    last.Some? && last.value.onChain && SameAddress(last.value.owner, r.owner)
  }

  /** The record's owner is the zero address, and that is what the latest read, which found no owner, returned. */
  predicate NobodyRead(past: Log, r: CommitmentRecord)
  {
    SameAddress(r.owner, ZERO_ADDRESS) && LastRead(past, r.name) == Some(Answer(ZERO_ADDRESS, false))
  }

  /** A later commitment for the same id was revealed although its own record could not be saved. */
  ghost predicate SupersededUnsaved(past: Log, id: string)
  {
    exists hash :: NotSaved(id, hash) in past && Revealed(hash) in past
  }

  /** The three reasons a record itself gives: it was revealed, its name is its owner's, or the user let it go. */
  ghost predicate OwnReason(past: Log, r: CommitmentRecord)
  {
    || Revealed(r.commitmentHash) in past
    || ReportedOwned(past, r)
    || DiscardChosen(r) in past
  }

  /** What must have happened before a record may go. */
  ghost predicate Justified(past: Log, id: string, r: CommitmentRecord)
  {
    OwnReason(past, r) || NobodyRead(past, r) || SupersededUnsaved(past, id)
  }

  ghost predicate EntryOk(minAge: nat, start: Cache, past: Log, e: Event)
  {
    match e
    case Deleted(id, r) => Cached(start, past, id, r) && Justified(past, id, r)
    case RevealSent(_, committedAt, sentAt) => committedAt > 0 && sentAt - committedAt >= minAge
    case OwnerRead(_, owner, onChain) => onChain || owner == ZERO_ADDRESS
    case _ => true
  }

  ghost predicate LogOk(minAge: nat, start: Cache, log: Log)
    decreases |log|
  {
    log == [] || (LogOk(minAge, start, log[..|log| - 1]) && EntryOk(minAge, start, log[..|log| - 1], log[|log| - 1]))
  }

  lemma LogSnoc(minAge: nat, start: Cache, log: Log, e: Event)
    requires LogOk(minAge, start, log) && EntryOk(minAge, start, log, e)
    ensures LogOk(minAge, start, log + [e])
  {
    assert (log + [e])[..|log + [e]| - 1] == log;
  }

  lemma {:induction false} LogOkAt(minAge: nat, start: Cache, log: Log, p: nat)
    requires LogOk(minAge, start, log) && p < |log|
    ensures EntryOk(minAge, start, log[..p], log[p])
    decreases |log|
  {
    if p < |log| - 1 {
      LogOkAt(minAge, start, log[..|log| - 1], p);
      assert log[..|log| - 1][..p] == log[..p];
    }
  }

  /** Over a whole history: what is deleted is the record then cached, and only after its own reveal succeeded, or the chain
      reported the name owned by the record's owner, or the user discarded it; or its owner is the zero address and no owner
      was found; or a later commitment for its id, which could not be saved, was revealed. */
  lemma {:induction false} DeletionsAreJustified(minAge: nat, start: Cache, log: Log, p: nat, id: string, r: CommitmentRecord)
    requires LogOk(minAge, start, log) && p < |log| && log[p] == Deleted(id, r)
    ensures Cached(start, log[..p], id, r) && Justified(log[..p], id, r)
  {
    LogOkAt(minAge, start, log, p);
  }

  /** No save for this id failed. */
  ghost predicate AllSaved(log: Log, id: string)
  {
    forall hash :: NotSaved(id, hash) !in log
  }

  /** A record whose owner is not the zero address, of an id for which no save failed, is deleted for a reason of its own. */
  lemma {:induction false} DeletionsHaveOwnReason(minAge: nat, start: Cache, log: Log, p: nat, id: string, r: CommitmentRecord)
    requires LogOk(minAge, start, log) && p < |log| && log[p] == Deleted(id, r)
    requires !SameAddress(r.owner, ZERO_ADDRESS) && AllSaved(log, id)
    ensures OwnReason(log[..p], r)
  {
    LogOkAt(minAge, start, log, p);
    assert forall hash :: NotSaved(id, hash) in log[..p] ==> NotSaved(id, hash) in log;
  }

  ghost predicate GivesOwnReason(minAge: nat, start: Cache, log: Log, p: nat, id: string, r: CommitmentRecord)
  {
    LogOk(minAge, start, log) && p < |log| && log[p] == Deleted(id, r) && AllSaved(log, id) ==> OwnReason(log[..p], r)
  }

  /** When all saves succeed, a record can only be deleted for a reason of its own if and only if its owner is not the zero address. */
  lemma OwnReasonsExact(minAge: nat, id: string, r: CommitmentRecord)
    ensures (forall start, log, p: nat :: GivesOwnReason(minAge, start, log, p, id, r)) <==> !SameAddress(r.owner, ZERO_ADDRESS)
  {
    if SameAddress(r.owner, ZERO_ADDRESS) {
      var start: Cache := map[id := r];
      var read: Log := [OwnerRead(r.name, ZERO_ADDRESS, false)];
      LogSnoc(minAge, start, [], read[0]);
      assert [] + read == read;
      ReplaySnoc(start, [], read[0]);
      LogSnoc(minAge, start, read, Deleted(id, r));
      var log := read + [Deleted(id, r)];
      assert log[..1] == read;
      assert !GivesOwnReason(minAge, start, log, 1, id, r);
    } else {
      forall start, log, p: nat
        ensures GivesOwnReason(minAge, start, log, p, id, r)
      {
        if LogOk(minAge, start, log) && p < |log| && log[p] == Deleted(id, r) && AllSaved(log, id) {
          DeletionsHaveOwnReason(minAge, start, log, p, id, r);
        }
      }
    }
  }

  /** Every reveal is sent when its commitment is at least the minimum age. */
  lemma {:induction false} RevealsAreOldEnough(minAge: nat, start: Cache, log: Log, p: nat)
    requires LogOk(minAge, start, log) && p < |log| && log[p].RevealSent?
    ensures log[p].committedAt > 0 && log[p].sentAt - log[p].committedAt >= minAge
  {
    LogOkAt(minAge, start, log, p);
  }

  /** At this point of a history the record goes: it is deleted with a reason, replaced by another, or lost to a torn save. */
  ghost predicate Goes(log: Log, p: nat, id: string, r: CommitmentRecord)
    requires p < |log|
  {
    || (log[p] == Deleted(id, r) && Justified(log[..p], id, r))
    || (log[p].Saved? && log[p].id == id && log[p].record != r)
    || log[p] == Torn(id)
  }

  /** From whatever point on a record is cached, it stays until it is deleted for a reason on record, replaced by a newer record
      of the same id, or lost to a torn save under that id. */
  lemma {:induction false} RecordsGoOnlyForAReason(minAge: nat, start: Cache, log: Log, p: nat, id: string, r: CommitmentRecord)
    requires LogOk(minAge, start, log) && p <= |log| && Cached(start, log[..p], id, r)
    ensures Cached(start, log, id, r) || exists q: nat :: p <= q < |log| && Goes(log, q, id, r)
    decreases |log|
  {
    if p == |log| {
      assert log[..p] == log;
    } else {
      var n := |log| - 1;
      var front := log[..n];
      assert front[..p] == log[..p];
      RecordsGoOnlyForAReason(minAge, start, front, p, id, r);
      if q: nat :| p <= q < |front| && Goes(front, q, id, r) {
        assert front[..q] == log[..q];
        assert Goes(log, q, id, r);
      } else if !Cached(start, log, id, r) {
        assert Goes(log, n, id, r);
      }
    }
  }

  /** It is deleted with a reason of its own, or replaced by another. */
  ghost predicate GoesByItself(log: Log, p: nat, id: string, r: CommitmentRecord)
    requires p < |log|
  {
    || (log[p] == Deleted(id, r) && OwnReason(log[..p], r))
    || (log[p].Saved? && log[p].id == id && log[p].record != r)
  }

  /** When saves are whole and succeed, and the owner is not the zero address, a cached record stays until it is deleted for
      a reason of its own or replaced by a newer record of the same id. */
  lemma WholeSavesLoseNothing(minAge: nat, start: Cache, log: Log, p: nat, id: string, r: CommitmentRecord)
    requires LogOk(minAge, start, log) && p <= |log| && Cached(start, log[..p], id, r)
    requires Torn(id) !in log && AllSaved(log, id) && !SameAddress(r.owner, ZERO_ADDRESS)
    ensures Cached(start, log, id, r) || exists q: nat :: p <= q < |log| && GoesByItself(log, q, id, r)
  {
    RecordsGoOnlyForAReason(minAge, start, log, p, id, r);
    if q: nat :| p <= q < |log| && Goes(log, q, id, r) {
      assert log[q] in log;
      if log[q] == Deleted(id, r) {
        DeletionsHaveOwnReason(minAge, start, log, q, id, r);
      }
      assert GoesByItself(log, q, id, r);
    }
  }

  /** What is cached was there at the start, or was saved since. */
  lemma {:induction false} RecordsComeOnlyBySaving(start: Cache, log: Log, id: string, r: CommitmentRecord)
    requires Cached(start, log, id, r)
    ensures (id in start && start[id] == r) || Saved(id, r) in log
    decreases |log|
  {
    if log != [] {
      var front, last := log[..|log| - 1], log[|log| - 1];
      assert log == front + [last];
      if last != Saved(id, r) {
        RecordsComeOnlyBySaving(start, front, id, r);
      }
    }
  }

  /** Every cached record is filed under its own id and can only be decrypted to its own commitment. */
  ghost predicate CacheOk(crypto: Crypto, cache: Cache)
  {
    forall id :: id in cache ==>
      id == RecordId(cache[id].env, cache[id].caller, cache[id].name) && RecordOk(crypto, cache[id])
  }

  predicate BelongsTo(r: CommitmentRecord, env: string, caller: Address)
  {
    r.env == env && Lower(r.caller) == Lower(caller)
  }

  /** `findCommitmentRecord`. */
  function Find(cache: Cache, env: string, caller: Address, name: string): Option<CommitmentRecord>
  {
    var id := RecordId(env, caller, name);
    if id in cache && BelongsTo(cache[id], env, caller) then Some(cache[id]) else None
  }

  /** A record that is found is the one filed for this environment and caller, and for this label, up to case. */
  lemma FindReturnsOwnRecord(crypto: Crypto, cache: Cache, env: string, caller: Address, name: string)
    requires CacheOk(crypto, cache) && Find(cache, env, caller, name).Some?
    ensures var r := Find(cache, env, caller, name).value;
            && BelongsTo(r, env, caller) && Lower(r.name) == Lower(name)
            && RecordId(env, caller, r.name) == RecordId(env, caller, name) == RecordId(r.env, r.caller, r.name)
            && (ValidDomainLabel(name) && ValidDomainLabel(r.name) ==> r.name == name)
  {
    var r := Find(cache, env, caller, name).value;
    assert RecordId(env, caller, r.name) == RecordId(r.env, r.caller, r.name);
    RecordIdDeterminesLabel(env, caller, name, r.caller, r.name);
  }

  // ---- the environment -------------------------------------------------------

  /** How a step ends: it succeeds, it throws, or the process dies in it. */
  datatype Signal = Pass | Throw | Crash

  /** One step of the outside world. What it was to do may land although the client sees no success: a transaction on
      chain, a file on disk; or a file is left torn. Time passes; other people register and transfer names;
      and the client's own clock, which may show anything, is only written into records. */
  datatype Step = Step(signal: Signal, landed: bool, torn: bool, elapsed: nat, transfers: map<string, Address>,
                       wallTime: nat)

  /** What `ownerOf` says; nobody's names are the zero address's. */
  function OwnerOf(owners: map<string, Address>, name: string): Address
  {
    if name in owners then owners[name] else ZERO_ADDRESS
  }

  /** The record kept for a request, if any, can be decrypted with the request's credential. */
  ghost predicate Openable(crypto: Crypto, request: Request, cache: Cache)
  {
    request.Id() in cache ==> Rebuild(crypto, cache[request.Id()], request.credential).Some?
  }

  /** Events stay in a growing history. */
  lemma Still(before: Log, after: Log)
    requires before <= after
    ensures forall e :: e in before ==> e in after
  {
    assert after == before + after[|before|..];
  }

  /** The history grew only by events about one commitment: no ownership was read, nothing was discarded. */
  ghost predicate OnlyAbout(before: Log, after: Log, hash: Hash)
  {
    forall e :: e in after && e !in before ==>
      !e.OwnerRead? && !e.DiscardChosen? && (e.Revealed? ==> e.hash == hash)
  }

  lemma OnlyAboutGrows(a: Log, b: Log, c: Log, hash: Hash)
    requires a <= b <= c && OnlyAbout(a, b, hash) && OnlyAbout(b, c, hash)
    ensures OnlyAbout(a, c, hash)
    ensures NothingDeleted(a, b) && NothingDeleted(b, c) ==> NothingDeleted(a, c)
  {
    Still(a, b);
  }

  lemma NoReasonOfItsOwn(log: Log, r: CommitmentRecord, hash: Hash)
    requires OnlyAbout([], log, hash) && r.commitmentHash != hash
    ensures !OwnReason(log, r)
  {
    LastReadOccurs(log, r.name);
  }

  ghost predicate NothingDeleted(before: Log, after: Log)
  {
    forall e :: e in after && e !in before ==> !e.Deleted?
  }

  datatype State = State(tick: nat, commitments: map<Hash, nat>, owners: map<string, Address>, cache: Cache, log: Log)

  class Client {
    const crypto: Crypto
    const minAge: nat
    const maxAge: nat
    const polls: nat                   // how often the commitment is polled before giving up
    const world: nat -> Step
    const secrets: nat -> Secret
    ghost const startTime: nat
    ghost const cacheAtStart: Cache

    var tick: nat                      // steps taken
    var now: nat                       // block time, in seconds
    var commitments: map<Hash, nat>    // on chain, by the time they were made
    var owners: map<string, Address>   // on chain
    var cache: Cache
    ghost var log: Log

    ghost predicate Inv()
      reads this
    {
      && crypto.Valid()
      && now == Clock(tick) && now > 0 && (forall h :: h in commitments ==> 0 < commitments[h] <= now)
      && LogOk(minAge, cacheAtStart, log)
      && CacheOk(crypto, cache)
      && Replay(cacheAtStart, log) == cache
    }

    constructor (crypto: Crypto, minAge: nat, maxAge: nat, polls: nat, world: nat -> Step, secrets: nat -> Secret,
                 now: nat, commitments: map<Hash, nat>, owners: map<string, Address>, cache: Cache)
      requires crypto.Valid() && now > 0 && (forall h :: h in commitments ==> 0 < commitments[h] <= now) && CacheOk(crypto, cache)
      ensures Inv() && log == [] && this.cache == cache && cacheAtStart == cache && tick == 0 && startTime == now
      ensures this.crypto == crypto && this.minAge == minAge && this.polls == polls && this.world == world && this.secrets == secrets
      ensures this.owners == owners && this.commitments == commitments && this.now == now
    {
      this.crypto, this.minAge, this.maxAge, this.polls := crypto, minAge, maxAge, polls;
      this.world, this.secrets, cacheAtStart, startTime := world, secrets, cache, now;
      tick, this.now, this.commitments, this.owners, this.cache, log := 0, now, commitments, owners, cache, [];
    }

    // ---- time and trouble ----------------------------------------------------

    /** The chain's clock after `n` steps. */
    ghost function Clock(n: nat): nat
    {
      if n == 0 then startTime else Clock(n - 1) + world(n - 1).elapsed
    }

    lemma {:induction false} ClockMonotone(a: nat, b: nat)
      requires a <= b
      ensures Clock(a) <= Clock(b)
      decreases b - a
    {
      if a < b {
        ClockMonotone(a, b - 1);
      }
    }

    /** A wait that begins at step `from` finds the commitment at the minimum age at poll `n`: two steps, then two for each poll before. */
    ghost predicate AgedAt(from: nat, committedAt: nat, n: nat)
    {
      Clock(from + 3 + 2 * n) - committedAt >= minAge
    }

    /** The clock reaches the minimum age by some poll. */
    ghost predicate ReachesAge(from: nat, committedAt: nat)
    {
      exists n: nat :: n < polls && AgedAt(from, committedAt, n)
    }

    /** Not at any of the first polls. */
    ghost predicate NoneAged(from: nat, committedAt: nat, polled: nat)
    {
      forall n: nat :: n < polled ==> !AgedAt(from, committedAt, n)
    }

    lemma PollTells(from: nat, committedAt: nat, polled: nat, aged: bool)
      requires NoneAged(from, committedAt, polled)
      ensures aged == AgedAt(from, committedAt, polled) ==>
                if aged then polled < polls ==> ReachesAge(from, committedAt) else NoneAged(from, committedAt, polled + 1)
      ensures polled >= polls ==> !ReachesAge(from, committedAt)
    {
    }

    /** The clock never runs backwards, so the last poll decides. */
    lemma LastPollDecides(from: nat, committedAt: nat)
      ensures ReachesAge(from, committedAt) <==> polls > 0 && AgedAt(from, committedAt, polls - 1)
    {
      if n: nat :| n < polls && AgedAt(from, committedAt, n) {
        ClockMonotone(from + 3 + 2 * n, from + 3 + 2 * (polls - 1));
      }
    }

    /** If chain time passes as the client sleeps after its first commitment, one poll is enough. */
    lemma SleepIsLongEnough()
      ensures polls > 0 && world(6).elapsed >= minAge ==> ReachesAge(5, Clock(4))
    {
      ClockMonotone(4, 6);
      ClockMonotone(7, 8);
      assert Clock(7) == Clock(6) + world(6).elapsed;
      assert world(6).elapsed >= minAge ==> AgedAt(5, Clock(4), 0);
    }

    /** What is old enough in time stays so if it is older. */
    lemma OlderReachesAge(from: nat, committedAt: nat, earlier: nat)
      requires earlier <= committedAt && ReachesAge(from, committedAt)
      ensures ReachesAge(from, earlier)
    {
      var n: nat :| n < polls && AgedAt(from, committedAt, n);
      assert AgedAt(from, earlier, n);
    }

    /** From every step of a run on, the clock gains the minimum age within the polls of a wait. */
    ghost predicate Brisk(from: nat, until: nat)
    {
      forall n: nat :: from <= n < until ==> BriskAt(n)
    }

    ghost predicate BriskAt(n: nat)
    {
      ReachesAge(n, Clock(n))
    }

    lemma BriskIsInTime(from: nat, until: nat)
      ensures Brisk(from, until) && from + 5 < until ==> ReachesAge(from + 5, Clock(from + 4))
    {
      if Brisk(from, until) && from + 5 < until {
        assert BriskAt(from + 5);
        ClockMonotone(from + 4, from + 5);
        OlderReachesAge(from + 5, Clock(from + 5), Clock(from + 4));
      }
    }

    /** The step passes, and nobody transfers a name in it. */
    predicate Calm(n: nat)
    {
      world(n).signal.Pass? && world(n).transfers == map[]
    }

    /** The step may throw, but not kill the process. */
    predicate Survivable(n: nat)
    {
      Calm(n) || (!world(n).signal.Crash? && world(n).transfers == map[])
    }

    ghost predicate Quiet(from: nat, until: nat)
    {
      forall n: nat :: from <= n < until ==> Calm(n)
    }

    /** Quiet but, perhaps, for one step, in which a record is saved. */
    ghost predicate QuietBut(from: nat, until: nat, save: nat)
    {
      (forall n: nat :: from <= n < until && n != save ==> Calm(n)) && (from <= save < until ==> Survivable(save))
    }

    /** A run that is quiet but for the save is quiet before and after it. */
    lemma QuietSplits(from: nat, mid: nat, until: nat)
      requires from <= mid <= until
      ensures QuietBut(from, until, from + 4) ==> QuietBut(from, mid, from + 4) && (mid > from + 4 ==> Quiet(mid, until))
      ensures Quiet(from, until) ==> Quiet(from, mid) && Quiet(mid, until) && QuietBut(from, until, from + 4)
    {
      assert Quiet(from, until) && from + 4 < until ==> Calm(from + 4);
    }

    /** What is quiet as a whole is quiet up to its fifth step. */
    lemma SaveIsLast(from: nat, until: nat)
      ensures Quiet(from, until) && from + 4 <= until ==> Quiet(from, from + 4)
    {
    }

    /** How many steps of a run are not calm. */
    ghost function Trouble(from: nat, until: nat): nat
    {
      if until <= from then 0 else Trouble(from, until - 1) + if Calm(until - 1) then 0 else 1
    }

    lemma {:induction false} TroubleAdds(a: nat, b: nat, c: nat)
      requires a <= b <= c
      ensures Trouble(a, c) == Trouble(a, b) + Trouble(b, c)
      decreases c
    {
      if b < c {
        TroubleAdds(a, b, c - 1);
      }
    }

    lemma {:induction false} NoTroubleIsQuiet(from: nat, until: nat)
      ensures Trouble(from, until) == 0 <==> Quiet(from, until)
      decreases until
    {
      if from < until {
        NoTroubleIsQuiet(from, until - 1);
        assert Quiet(from, until) ==> Quiet(from, until - 1) && Calm(until - 1);
        assert Quiet(from, until - 1) && Calm(until - 1) ==> Quiet(from, until);
      }
    }

    // ---- steps ---------------------------------------------------------------

    /** The next step of the world. The clock never runs backwards. */
    method Await() returns (s: Step)
      requires Inv()
      modifies `tick, `now, `owners
      ensures Inv() && now == old(now) + s.elapsed
      ensures s == world(old(tick)) && tick == old(tick) + 1
      ensures owners == old(owners) + s.transfers && (Calm(old(tick)) ==> s.signal.Pass? && owners == old(owners))
    {
      s := world(tick);
      tick, now, owners := tick + 1, now + s.elapsed, owners + s.transfers;
    }

    ghost method Note(e: Event)
      requires Inv() && EntryOk(minAge, cacheAtStart, log, e) && !e.Saved? && !e.Torn? && !e.Deleted?
      modifies `log
      ensures Inv() && log == old(log) + [e]
    {
      LogSnoc(minAge, cacheAtStart, log, e);
      ReplaySnoc(cacheAtStart, log, e);
      log := log + [e];
    }

    /** A step that only reads, or whose effect is of no concern here. */
    method Check() returns (signal: Signal)
      requires Inv()
      modifies `tick, `now, `owners
      ensures Inv() && now >= old(now)
      ensures signal == world(old(tick)).signal && tick == old(tick) + 1 && owners == old(owners) + world(old(tick)).transfers
      ensures Calm(old(tick)) ==> signal.Pass? && owners == old(owners)
    {
      var s := Await();
      return s.signal;
    }

    /** `submitCommitment`. */
    method SubmitCommitment(hash: Hash) returns (signal: Signal)
      requires Inv()
      modifies `tick, `now, `owners, `commitments, `log
      ensures Inv() && now >= old(now) && old(log) <= log && OnlyAbout(old(log), log, hash) && NothingDeleted(old(log), log)
      ensures signal.Pass? ==> hash in commitments && commitments[hash] == now
      ensures signal == world(old(tick)).signal && tick == old(tick) + 1 && owners == old(owners) + world(old(tick)).transfers
      ensures Calm(old(tick)) ==> signal.Pass? && owners == old(owners)
    {
      var s := Await();
      if s.signal.Pass? || s.landed {
        commitments := commitments[hash := now];
        Note(Committed(hash, now));
      }
      return s.signal;
    }

    /** `waitForMinimumCommitmentAge`: returns only when the chain's own clock puts the commitment at the minimum age; and, if
        no step fails, exactly if the clock gets there by one of the polls. */
    method WaitForMinimumCommitmentAge(hash: Hash) returns (signal: Signal)
      requires Inv()
      modifies `tick, `now, `owners
      ensures Inv() && now >= old(now) && tick > old(tick) && old(owners).Keys <= owners.Keys
      ensures signal.Pass? ==> hash in commitments && now - commitments[hash] >= minAge
      ensures Quiet(old(tick), tick) ==> owners == old(owners) &&
                                         (signal.Pass? <==> hash in commitments && ReachesAge(old(tick), commitments[hash]))
    {
      ghost var start := tick;
      signal := LookAndSleep(hash);
      if !signal.Pass? { return; }
      var n: nat := 0;
      while n < polls
        invariant Inv() && now >= old(now) && tick == start + 2 + 2 * n && old(owners).Keys <= owners.Keys
        invariant Quiet(start, tick) ==> owners == old(owners)
        invariant NoneAged(start, commitments[hash], n)
      {
        ghost var polled := tick;
        var aged;
        signal, aged := Poll(hash);
        QuietSplits(start, polled, tick);
        PollTells(start, commitments[hash], n, aged);
        if !signal.Pass? || aged { return; }
        n := n + 1;
      }
      PollTells(start, commitments[hash], n, false);
      return Throw;
    }

    /** Reads the minimum age and the commitment, and sleeps. */
    method LookAndSleep(hash: Hash) returns (signal: Signal)
      requires Inv()
      modifies `tick, `now, `owners
      ensures Inv() && now >= old(now) && tick > old(tick) && old(owners).Keys <= owners.Keys
      ensures signal.Pass? ==> hash in commitments && tick == old(tick) + 2
      ensures Quiet(old(tick), tick) ==> owners == old(owners) && (signal.Pass? <==> hash in commitments)
    {
      signal := Check();
      if !signal.Pass? { return; }
      if hash !in commitments { return Throw; }
      signal := Check();                        // sleep
    }

    /** Reads the commitment and the clock; sleeps if the commitment is not old enough. */
    method Poll(hash: Hash) returns (signal: Signal, aged: bool)
      requires Inv() && hash in commitments
      modifies `tick, `now, `owners
      ensures Inv() && now >= old(now) && old(tick) < tick && old(owners).Keys <= owners.Keys
      ensures aged ==> signal.Pass? && tick == old(tick) + 1 && now - commitments[hash] >= minAge
      ensures signal.Pass? && !aged ==> tick == old(tick) + 2
      ensures signal.Pass? ==> (aged <==> Clock(old(tick) + 1) - commitments[hash] >= minAge)
      ensures Quiet(old(tick), tick) ==> signal.Pass? && owners == old(owners)
    {
      signal := Check();
      aged := signal.Pass? && now - commitments[hash] >= minAge;
      if !signal.Pass? || aged { return; }
      signal := Check();                        // sleep
    }

    /** Sends the reveal. Nothing but a commitment old enough may be revealed. */
    method Reveal(preimage: Preimage) returns (signal: Signal)
      requires Inv()
      requires var hash := crypto.commit(preimage); hash in commitments && now - commitments[hash] >= minAge
      modifies `tick, `now, `owners, `log
      ensures Inv() && old(log) <= log && OnlyAbout(old(log), log, crypto.commit(preimage))
      ensures signal.Pass? ==> Revealed(crypto.commit(preimage)) in log
      ensures signal.Pass? ==> preimage.name in owners && owners[preimage.name] == preimage.owner
      ensures signal == world(old(tick)).signal && tick == old(tick) + 1 && old(owners).Keys <= owners.Keys
      ensures Calm(old(tick)) ==> signal.Pass? && owners == old(owners)[preimage.name := preimage.owner]
    {
      var hash := crypto.commit(preimage);
      var s := Await();
      Note(RevealSent(preimage, commitments[hash], now));
      if s.signal.Pass? || s.landed {
        owners := owners[preimage.name := preimage.owner];
      }
      if s.signal.Pass? {
        Note(Revealed(hash));
      }
      return s.signal;
    }

    /** `readDomainOwner`: a read that fails counts as unowned. */
    method ReadDomainOwner(name: string) returns (signal: Signal, owner: Address, ghost onChain: bool)
      requires Inv()
      modifies `tick, `now, `owners
      ensures Inv() && now >= old(now)
      ensures signal == if world(old(tick)).signal.Crash? then Crash else Pass
      ensures owner == if world(old(tick)).signal.Pass? then OwnerOf(owners, name) else ZERO_ADDRESS
      ensures onChain <==> world(old(tick)).signal.Pass? && name in owners
      ensures tick == old(tick) + 1 && owners == old(owners) + world(old(tick)).transfers
      ensures Calm(old(tick)) ==> signal.Pass? && owners == old(owners) && owner == OwnerOf(owners, name)
    {
      var s := Await();
      onChain := s.signal.Pass? && name in owners;
      match s.signal
      case Crash => return Crash, ZERO_ADDRESS, onChain;
      case Throw => return Pass, ZERO_ADDRESS, onChain;
      case Pass => return Pass, OwnerOf(owners, name), onChain;
    }

    ghost predicate OwnerChecked(a: State, b: State, r: CommitmentRecord, signal: Signal, registered: bool)
    {
      && b.tick == a.tick + 1
      && (Calm(a.tick) ==> signal.Pass? && (registered <==> SameAddress(OwnerOf(a.owners, r.name), r.owner)))
      && (Calm(a.tick) && r.name !in a.owners ==> b.log == a.log + [OwnerRead(r.name, ZERO_ADDRESS, false)])
    }

    /** `isRegisteredTo`: the answer is the chain's, unless no owner was found; that counts as the zero address's name. */
    method IsRegisteredTo(r: CommitmentRecord) returns (signal: Signal, registered: bool)
      requires Inv()
      modifies `tick, `now, `owners, `log
      ensures Inv() && now >= old(now) && old(log) <= log
      ensures signal == if world(old(tick)).signal.Crash? then Crash else Pass
      ensures signal.Pass? ==>
                if world(old(tick)).signal.Pass? && r.name in owners then registered <==> SameAddress(owners[r.name], r.owner)
                else registered <==> SameAddress(r.owner, ZERO_ADDRESS)
      ensures signal.Pass? && registered ==> ReportedOwned(log, r) || NobodyRead(log, r)
      ensures OwnerChecked(old(View()), View(), r, signal, registered)
      ensures tick == old(tick) + 1 && owners == old(owners) + world(old(tick)).transfers
    {
      var owner;
      ghost var onChain;
      signal, owner, onChain := ReadDomainOwner(r.name);
      if !signal.Pass? { return signal, false; }
      Note(OwnerRead(r.name, owner, onChain));
      registered := SameAddress(owner, r.owner);
      assert LastRead(log, r.name) == Some(Answer(owner, onChain));
    }

    // ---- the record file -----------------------------------------------------

    /** `saveCommitmentRecord`: the record replaces the one there was. */
    method SaveRecord(id: string, r: CommitmentRecord)
      requires Inv() && RecordOk(crypto, r) && id == RecordId(r.env, r.caller, r.name)
      modifies `cache, `log
      ensures Inv() && log == old(log) + [Saved(id, r)] && cache == old(cache)[id := r]
    {
      LogSnoc(minAge, cacheAtStart, log, Saved(id, r));
      ReplaySnoc(cacheAtStart, log, Saved(id, r));
      cache := cache[id := r];
      log := log + [Saved(id, r)];
    }

    /** The file is rewritten in place, so a write that is cut short destroys the record there was. */
    method TearRecord(id: string)
      requires Inv()
      modifies `cache, `log
      ensures Inv() && log == old(log) + [Torn(id)] && cache == old(cache) - {id}
    {
      LogSnoc(minAge, cacheAtStart, log, Torn(id));
      ReplaySnoc(cacheAtStart, log, Torn(id));
      cache := cache - {id};
      log := log + [Torn(id)];
    }

    /** What one attempt to write a record leaves: the record, a torn file, or what there was. */
    function AfterWrite(step: Step, cache: Cache, id: string, r: CommitmentRecord): Cache
    {
      if step.signal.Pass? || step.landed then cache[id := r] else if step.torn then cache - {id} else cache
    }

    /** The cache after the record of a request was written, or was not, in step `n`. */
    ghost predicate Written(n: nat, before: Cache, request: Request, secret: Secret, after: Cache)
    {
      exists stamp :: after == AfterWrite(world(n), before, request.Id(), RecordOf(crypto, request, secret, stamp))
    }

    lemma WriteLeaves(n: nat, before: Cache, request: Request, secret: Secret, stamp: Stamp, after: Cache)
      requires crypto.Valid() && request.ValidLabel()
      requires after == AfterWrite(world(n), before, request.Id(), RecordOf(crypto, request, secret, stamp))
      ensures Written(n, before, request, secret, after)
      ensures Openable(crypto, request, before) ==> Openable(crypto, request, after)
    {
      ResumeRebuildsPreimage(crypto, request, secret, stamp, request.credential);
    }

    lemma WriteFails(n: nat, before: Cache, request: Request, secret: Secret, after: Cache)
      ensures Written(n, before, request, secret, after) && Unsaved(n) ==> after == before
      ensures Written(n, before, request, secret, after) && TornByCrash(n) ==> request.Id() !in after
    {
    }

    /** `persistCommitment`: a record that cannot be written is only warned about. */
    method PersistCommitment(request: Request, secret: Secret, stamp: Stamp) returns (signal: Signal)
      requires Inv() && request.ValidLabel()
      modifies `tick, `now, `owners, `cache, `log
      ensures Inv() && old(log) <= log && NothingDeleted(old(log), log)
      ensures OnlyAbout(old(log), log, crypto.commit(PreimageOf(request, secret)))
      ensures signal.Pass? ==> RecordedOrNoted(request.Id(), crypto.commit(PreimageOf(request, secret)))
      ensures Persisted(old(View()), View(), request, secret, signal)
      ensures Openable(crypto, request, old(cache)) ==> Openable(crypto, request, cache)
      ensures old(owners).Keys <= owners.Keys
    {
      var id, r := request.Id(), RecordOf(crypto, request, secret, stamp);
      RecordOfIsOk(crypto, request, secret, stamp);
      ghost var n, before := tick, cache;
      var s := Await();
      WriteRecord(s, id, r);
      WriteLeaves(n, before, request, secret, stamp, cache);
      return if s.signal.Crash? then Crash else Pass;
    }

    /** The record is written, or torn, or left as it was; and a failure that the client sees is noted. */
    method WriteRecord(s: Step, id: string, r: CommitmentRecord)
      requires Inv() && RecordOk(crypto, r) && id == RecordId(r.env, r.caller, r.name)
      modifies `cache, `log
      ensures Inv() && cache == AfterWrite(s, old(cache), id, r)
      ensures old(log) <= log && NothingDeleted(old(log), log) && OnlyAbout(old(log), log, r.commitmentHash)
      ensures s.signal.Crash? || RecordedOrNoted(id, r.commitmentHash)
    {
      if s.signal.Pass? || s.landed {
        SaveRecord(id, r);
        return;
      }
      if s.torn {
        TearRecord(id);
      }
      if s.signal.Throw? {
        Note(NotSaved(id, r.commitmentHash));
        assert NotSaved(id, r.commitmentHash) in log;
      }
    }

    /** The record of this commitment is in the cache, or could not be put there. */
    ghost predicate RecordedOrNoted(id: string, hash: Hash)
      reads this
    {
      (id in cache && cache[id].commitmentHash == hash) || NotSaved(id, hash) in log
    }

    /** Removes a record, if there is one, for a reason that is on record. */
    method DeleteRecord(id: string)
      requires Inv() && (id in cache ==> Justified(log, id, cache[id]))
      modifies `cache, `log
      ensures Inv() && old(log) <= log && cache == old(cache) - {id}
      ensures log == if id in old(cache) then old(log) + [Deleted(id, old(cache)[id])] else old(log)
    {
      if id in cache {
        LogSnoc(minAge, cacheAtStart, log, Deleted(id, cache[id]));
        ReplaySnoc(cacheAtStart, log, Deleted(id, cache[id]));
        log := log + [Deleted(id, cache[id])];
        cache := cache - {id};
      }
    }

    /** `deleteCommitmentRecord`, which fails if the file cannot be removed. */
    method RemoveRecord(id: string) returns (signal: Signal)
      requires Inv() && (id in cache ==> Justified(log, id, cache[id]))
      modifies `tick, `now, `owners, `cache, `log
      ensures Inv() && now >= old(now) && old(log) <= log
      ensures cache == if signal.Pass? || world(old(tick)).landed then old(cache) - {id} else old(cache)
      ensures log == if cache != old(cache) then old(log) + [Deleted(id, old(cache)[id])] else old(log)
      ensures signal == world(old(tick)).signal && tick == old(tick) + 1 && owners == old(owners) + world(old(tick)).transfers
    {
      var s := Await();
      if s.signal.Pass? || s.landed {
        DeleteRecord(id);
      }
      return s.signal;
    }

    ghost predicate Forgotten(a: State, b: State, id: string, signal: Signal)
    {
      && b.tick == a.tick + 1
      && (Calm(a.tick) ==> signal.Pass? && b.cache == a.cache - {id})
      && (Calm(a.tick) && id in a.cache ==> b.log == a.log + [Deleted(id, a.cache[id])])
    }

    /** `forgetCommitment`: a record that cannot be removed is only warned about. */
    method ForgetCommitment(id: string) returns (signal: Signal)
      requires Inv() && (id in cache ==> Justified(log, id, cache[id]))
      modifies `tick, `now, `owners, `cache, `log
      ensures Inv() && now >= old(now) && old(log) <= log && !signal.Throw?
      ensures cache == old(cache) || cache == old(cache) - {id}
      ensures tick == old(tick) + 1 && owners == old(owners) + world(old(tick)).transfers
      ensures Calm(old(tick)) ==> owners == old(owners)
      ensures Forgotten(old(View()), View(), id, signal)
      ensures forall hash :: OnlyAbout(old(log), log, hash)
    {
      signal := RemoveRecord(id);
      if signal.Throw? { signal := Pass; }
    }

    // ---- registering ---------------------------------------------------------

    /** Classifies the name and makes sure nobody owns it. */
    method CheckAvailability(name: string) returns (signal: Signal)
      requires Inv()
      modifies `tick, `now, `owners
      ensures Inv() && now >= old(now) && old(tick) < tick <= old(tick) + 2 && old(owners).Keys <= owners.Keys
      ensures Available(old(View()), View(), name, signal)
    {
      signal := Check();
      if !signal.Pass? { return; }
      var owner;
      ghost var onChain;
      signal, owner, onChain := ReadDomainOwner(name);
      if signal.Pass? && owner != ZERO_ADDRESS { signal := Throw; }
    }

    /** Draws a secret and commits. */
    method CommitAnew(request: Request) returns (signal: Signal, secret: Secret)
      requires Inv()
      modifies `tick, `now, `owners, `commitments, `log
      ensures Inv() && old(log) <= log && OnlyAbout(old(log), log, crypto.commit(PreimageOf(request, secret))) && NothingDeleted(old(log), log)
      ensures old(tick) < tick <= old(tick) + 2 && old(owners).Keys <= owners.Keys
      ensures CommittedAnew(old(View()), View(), request, secret, signal)
    {
      secret := secrets(tick);
      signal := Check();                                        // makeCommitment
      if !signal.Pass? { return; }
      signal := SubmitCommitment(crypto.commit(PreimageOf(request, secret)));
    }

    /** Commits, and saves the record. */
    method CommitAndSave(request: Request) returns (signal: Signal, secret: Secret)
      requires Inv() && request.ValidLabel()
      modifies `tick, `now, `owners, `commitments, `cache, `log
      ensures Inv() && old(log) <= log && OnlyAbout(old(log), log, crypto.commit(PreimageOf(request, secret))) && NothingDeleted(old(log), log)
      ensures tick > old(tick) && old(owners).Keys <= owners.Keys
      ensures signal.Pass? ==> RecordedOrNoted(request.Id(), crypto.commit(PreimageOf(request, secret)))
      ensures Openable(crypto, request, old(cache)) ==> Openable(crypto, request, cache)
      ensures CommittedAndSaved(old(View()), View(), request, secret, signal)
    {
      ghost var before := View();
      var stamp := Stamp(tick, world(tick).wallTime);
      signal, secret := CommitAnew(request);
      ghost var submitted := View();
      if !signal.Pass? {
        NotCommittedIsNotSaved(before, submitted, request, secret, signal);
        return;
      }
      signal := PersistCommitment(request, secret, stamp);
      PersistedIsSaved(before, submitted, View(), request, secret, signal);
      OnlyAboutGrows(before.log, submitted.log, log, crypto.commit(PreimageOf(request, secret)));
    }

    // What is said of a whole registration is said of the states before and after it.

    ghost function View(): State
      reads this
    {
      State(tick, commitments, owners, cache, log)
    }

    /** If no step fails, the name is available exactly if nobody owns it. */
    ghost predicate Available(a: State, b: State, name: string, signal: Signal)
    {
      Quiet(a.tick, b.tick) ==>
        b.tick == a.tick + 2 && b.owners == a.owners && !signal.Crash? && (signal.Pass? <==> OwnerOf(a.owners, name) == ZERO_ADDRESS)
    }

    ghost predicate CommittedAnew(a: State, b: State, request: Request, secret: Secret, signal: Signal)
    {
      var hash := crypto.commit(PreimageOf(request, secret));
      && secret == secrets(a.tick)
      && (signal.Pass? ==> hash in b.commitments && b.commitments[hash] == Clock(b.tick) && b.tick == a.tick + 2)
      && (Quiet(a.tick, b.tick) ==> signal.Pass? && b.owners == a.owners)
    }

    ghost predicate Persisted(a: State, b: State, request: Request, secret: Secret, signal: Signal)
    {
      && b.tick == a.tick + 1
      && signal == (if world(a.tick).signal.Crash? then Crash else Pass)
      && Written(a.tick, a.cache, request, secret, b.cache)
      && (Survivable(a.tick) ==> signal.Pass? && b.owners == a.owners)
    }

    lemma NotCommittedIsNotSaved(a: State, b: State, request: Request, secret: Secret, signal: Signal)
      requires CommittedAnew(a, b, request, secret, signal) && !signal.Pass? && a.tick < b.tick <= a.tick + 2
      ensures CommittedAndSaved(a, b, request, secret, signal)
    {
      QuietBeforeSave(a.tick, b.tick, b.tick);
    }

    lemma PersistedIsSaved(a: State, b: State, c: State, request: Request, secret: Secret, signal: Signal)
      requires CommittedAnew(a, b, request, secret, Pass) && Persisted(b, c, request, secret, signal)
      requires b.cache == a.cache && c.commitments == b.commitments
      ensures CommittedAndSaved(a, c, request, secret, signal)
    {
      QuietBeforeSave(a.tick, b.tick, c.tick);
    }

    lemma QuietBeforeSave(from: nat, mid: nat, until: nat)
      requires from <= mid <= until && mid <= from + 2
      ensures QuietBut(from, until, from + 2) || Quiet(from, from + 2) ==> Quiet(from, mid)
    {
    }

    /** If no step fails but, perhaps, the third, the commitment is made in the second; and the third leaves what a save leaves. */
    ghost predicate CommittedAndSaved(a: State, b: State, request: Request, secret: Secret, signal: Signal)
    {
      var hash := crypto.commit(PreimageOf(request, secret));
      && secret == secrets(a.tick)
      && (QuietBut(a.tick, b.tick, a.tick + 2) ==>
            && signal.Pass? && b.tick == a.tick + 3 && b.owners == a.owners
            && hash in b.commitments && b.commitments[hash] == Clock(a.tick + 2))
      && (Quiet(a.tick, a.tick + 2) ==>
            (signal.Crash? <==> world(a.tick + 2).signal.Crash?) && Written(a.tick + 2, a.cache, request, secret, b.cache))
    }

    lemma UnavailableIsNotPrepared(a: State, b: State, request: Request, secret: Secret, signal: Signal)
      requires a.tick <= b.tick <= a.tick + 2 && !signal.Pass?
      requires if request.ValidLabel() then Available(a, b, request.name, signal) else a == b && signal.Throw?
      ensures Prepared(a, b, request, secret, signal)
    {
      if Quiet(a.tick, a.tick + 4) {
        assert Quiet(a.tick, b.tick);
      }
    }

    lemma SavedIsPrepared(a: State, b: State, c: State, request: Request, secret: Secret, signal: Signal)
      requires a.tick < b.tick <= a.tick + 2 && b.tick < c.tick && request.ValidLabel()
      requires Available(a, b, request.name, Pass) && CommittedAndSaved(b, c, request, secret, signal) && b.cache == a.cache
      ensures Prepared(a, c, request, secret, signal)
    {
      if Quiet(a.tick, a.tick + 4) || QuietBut(a.tick, c.tick, a.tick + 4) {
        assert Quiet(a.tick, b.tick);
      }
      if Quiet(a.tick, a.tick + 4) {
        assert Quiet(b.tick, b.tick + 2);
      }
      if QuietBut(a.tick, c.tick, a.tick + 4) {
        assert QuietBut(b.tick, c.tick, b.tick + 2);
      }
    }

    /** If no step fails but, perhaps, the save, a valid name is prepared exactly if it is free; and if no step before it fails,
        the save leaves the record, a torn file, or what there was. */
    ghost predicate Prepared(a: State, b: State, request: Request, secret: Secret, signal: Signal)
    {
      var hash := crypto.commit(PreimageOf(request, secret));
      && (QuietBut(a.tick, b.tick, a.tick + 4) ==> !signal.Crash?)
      && (QuietBut(a.tick, b.tick, a.tick + 4) && request.ValidLabel() ==>
            b.owners == a.owners && (signal.Pass? <==> OwnerOf(a.owners, request.name) == ZERO_ADDRESS))
      && (QuietBut(a.tick, b.tick, a.tick + 4) && signal.Pass? ==>
            && b.tick == a.tick + 5 && secret == secrets(a.tick + 2)
            && hash in b.commitments && b.commitments[hash] == Clock(a.tick + 4))
      && (Quiet(a.tick, a.tick + 4) && request.ValidLabel() && OwnerOf(a.owners, request.name) == ZERO_ADDRESS ==>
            (signal.Crash? <==> world(a.tick + 4).signal.Crash?) && Written(a.tick + 4, a.cache, request, secret, b.cache))
    }

    /** If no step fails, a prepared name is registered exactly if the commitment ages in time; then its record is deleted, and,
        unless it is passed on, its owner has it. */
    ghost predicate Finished(a: State, b: State, request: Request, secret: Secret, signal: Signal)
    {
      var hash := crypto.commit(PreimageOf(request, secret));
      && (Quiet(a.tick, b.tick) && hash in a.commitments ==> (signal.Pass? <==> ReachesAge(a.tick, a.commitments[hash])))
      && (Quiet(a.tick, b.tick) && signal.Pass? ==>
            && b.cache == a.cache - {request.Id()} && OwnedAsAsked(b, request)
            && (request.Id() in a.cache ==> Deleted(request.Id(), a.cache[request.Id()]) in b.log))
    }

    ghost predicate OwnedAsAsked(b: State, request: Request)
    {
      request.transferDestination.None? ==> request.name in b.owners && SameAddress(b.owners[request.name], request.Owner())
    }

    ghost predicate Registered(a: State, b: State, request: Request, signal: Signal)
    {
      // if no step fails but, perhaps, the save, a valid and free name is registered exactly if the commitment ages in time
      && (QuietBut(a.tick, b.tick, a.tick + 4) && request.ValidLabel() && OwnerOf(a.owners, request.name) == ZERO_ADDRESS ==>
            b.tick > a.tick + 5 && (signal.Pass? <==> ReachesAge(a.tick + 5, Clock(a.tick + 4))))
      // and then its owner has it and no record is left
      && (QuietBut(a.tick, b.tick, a.tick + 4) && signal.Pass? ==> request.Id() !in b.cache && OwnedAsAsked(b, request))
      // if the new record could not be saved, the record deleted is an older one, without a reason of its own
      && (QuietBut(a.tick, b.tick, a.tick + 4) && signal.Pass? && Unsaved(a.tick + 4) && request.Id() in a.cache ==>
            && Deleted(request.Id(), a.cache[request.Id()]) in b.log
            && OnlyAbout(a.log, b.log, crypto.commit(PreimageOf(request, secrets(a.tick + 2)))))
      // if the process dies while it saves and leaves a torn file, an older record is gone without having been deleted
      && (Quiet(a.tick, a.tick + 4) && request.ValidLabel() && OwnerOf(a.owners, request.name) == ZERO_ADDRESS && TornByCrash(a.tick + 4) ==>
            request.Id() !in b.cache && NothingDeleted(a.log, b.log))
      // a name that is owned is not registered again
      && (Quiet(a.tick, b.tick) && OwnerOf(a.owners, request.name) != ZERO_ADDRESS ==> signal.Throw?)
    }

    lemma NotPreparedIsNotRegistered(a: State, b: State, request: Request, secret: Secret, signal: Signal)
      requires Prepared(a, b, request, secret, signal) && !signal.Pass? && a.tick <= b.tick && NothingDeleted(a.log, b.log)
      requires !request.ValidLabel() ==> signal.Throw?
      ensures Registered(a, b, request, signal)
    {
      WriteFails(a.tick + 4, a.cache, request, secret, b.cache);
      QuietSplits(a.tick, b.tick, b.tick);
    }

    lemma FinishedIsRegistered(a: State, b: State, c: State, request: Request, secret: Secret, signal: Signal)
      requires Prepared(a, b, request, secret, Pass) && request.ValidLabel() && Finished(b, c, request, secret, signal)
      requires a.tick <= b.tick < c.tick && OnlyAbout(a.log, c.log, crypto.commit(PreimageOf(request, secret)))
      ensures Registered(a, c, request, signal)
    {
      WriteFails(a.tick + 4, a.cache, request, secret, b.cache);
      QuietSplits(a.tick, b.tick, c.tick);
      SaveIsLast(a.tick, c.tick);
    }

    /** Everything up to a saved commitment: validate, check availability, commit, persist. */
    method PrepareCommitment(request: Request) returns (signal: Signal, secret: Secret)
      requires Inv()
      modifies `tick, `now, `owners, `commitments, `cache, `log
      ensures Inv() && old(log) <= log && OnlyAbout(old(log), log, crypto.commit(PreimageOf(request, secret))) && NothingDeleted(old(log), log)
      ensures tick >= old(tick) && old(owners).Keys <= owners.Keys
      ensures if request.ValidLabel() then signal.Pass? ==> RecordedOrNoted(request.Id(), crypto.commit(PreimageOf(request, secret)))
              else signal.Throw?
      ensures Openable(crypto, request, old(cache)) ==> Openable(crypto, request, cache)
      ensures Prepared(old(View()), View(), request, secret, signal)
    {
      secret := "";
      ghost var before := View();
      signal := Throw;
      if request.ValidLabel() {
        signal := CheckAvailability(request.name);
      }
      ghost var checked := View();
      if !signal.Pass? {
        UnavailableIsNotPrepared(before, checked, request, secret, signal);
        return;
      }
      signal, secret := CommitAndSave(request);
      SavedIsPrepared(before, checked, View(), request, secret, signal);
    }

    /** Waits, prices a regular name, and reveals. */
    method AwaitAndReveal(hash: Hash, preimage: Preimage, governance: bool, crossPayer: bool) returns (signal: Signal)
      requires Inv() && hash == crypto.commit(preimage)
      modifies `tick, `now, `owners, `log
      ensures Inv() && old(log) <= log && OnlyAbout(old(log), log, hash)
      ensures tick > old(tick) && old(owners).Keys <= owners.Keys
      ensures signal.Pass? ==> Revealed(hash) in log
      ensures Quiet(old(tick), tick) && hash in commitments ==> (signal.Pass? <==> ReachesAge(old(tick), commitments[hash]))
      ensures Quiet(old(tick), tick) && signal.Pass? ==> owners == old(owners)[preimage.name := preimage.owner]
    {
      signal := WaitForMinimumCommitmentAge(hash);
      if !signal.Pass? { return; }
      signal := ReadPrices(governance, crossPayer);
      if !signal.Pass? { return; }
      signal := Reveal(preimage);
    }

    /** A regular name is priced, and if another pays for it a friction quote is read too. */
    method ReadPrices(governance: bool, crossPayer: bool) returns (signal: Signal)
      requires Inv()
      modifies `tick, `now, `owners
      ensures Inv() && now >= old(now) && tick >= old(tick) && old(owners).Keys <= owners.Keys
      ensures Quiet(old(tick), tick) ==> signal.Pass? && owners == old(owners)
    {
      if governance { return Pass; }
      signal := Check();                                        // price and eligibility
      if !signal.Pass? || !crossPayer { return; }
      signal := Check();                                        // friction quote
    }

    /** `verifyDomainOwnership`. */
    method VerifyOwnership(name: string, owner: Address) returns (signal: Signal)
      requires Inv()
      modifies `tick, `now, `owners
      ensures Inv() && now >= old(now)
      ensures signal.Pass? ==> name in owners && SameAddress(owners[name], owner)
      ensures tick == old(tick) + 1 && owners == old(owners) + world(old(tick)).transfers
      ensures Calm(old(tick)) ==> owners == old(owners) && (signal.Pass? <==> name in owners && SameAddress(owners[name], owner))
    {
      signal := Check();
      if signal.Pass? && !(name in owners && SameAddress(owners[name], owner)) {
        signal := Throw;
      }
    }

    /** `replayTransfer`: resolve the recipient, transfer, verify. */
    method ReplayTransfer(destination: Option<string>) returns (signal: Signal)
      requires Inv()
      modifies `tick, `now, `owners
      ensures Inv() && tick >= old(tick) && old(owners).Keys <= owners.Keys
      ensures Quiet(old(tick), tick) ==> signal.Pass?
      ensures destination.None? ==> owners == old(owners)
    {
      if destination.None? { return Pass; }
      signal := Check();
      if !signal.Pass? { return; }
      signal := Check();
      if !signal.Pass? { return; }
      signal := Check();
    }

    /** `executeRegularRegistration` and `executeGovernanceRegistration`. */
    method Register(request: Request) returns (signal: Signal)
      requires Inv()
      modifies `tick, `now, `owners, `commitments, `cache, `log
      ensures Inv() && old(log) <= log && tick >= old(tick) && old(owners).Keys <= owners.Keys
      ensures Openable(crypto, request, old(cache)) ==> Openable(crypto, request, cache)
      ensures Registered(old(View()), View(), request, signal)
    {
      ghost var before := View();
      var secret;
      signal, secret := PrepareCommitment(request);
      ghost var prepared := View();
      if !signal.Pass? {
        NotPreparedIsNotRegistered(before, prepared, request, secret, signal);
        return;
      }
      signal := FinishRegistration(request, secret);
      OnlyAboutGrows(before.log, prepared.log, log, crypto.commit(PreimageOf(request, secret)));
      FinishedIsRegistered(before, prepared, View(), request, secret, signal);
    }

    /** Everything after the commitment is saved. */
    method FinishRegistration(request: Request, secret: Secret) returns (signal: Signal)
      requires Inv() && request.ValidLabel() && RecordedOrNoted(request.Id(), crypto.commit(PreimageOf(request, secret)))
      modifies `tick, `now, `owners, `cache, `log
      ensures Inv() && old(log) <= log && OnlyAbout(old(log), log, crypto.commit(PreimageOf(request, secret)))
      ensures tick > old(tick) && old(owners).Keys <= owners.Keys && (cache == old(cache) || cache == old(cache) - {request.Id()})
      ensures Finished(old(View()), View(), request, secret, signal)
    {
      signal := RevealAndForget(request, secret);
      if !signal.Pass? { return; }
      ValidLabelIsNormal(request.name);
      signal := AfterReveal(request);
    }

    /** A save that throws and changes nothing. */
    predicate Unsaved(n: nat)
    {
      world(n).signal.Throw? && !world(n).landed && !world(n).torn
    }

    predicate TornByCrash(n: nat)
    {
      world(n).signal.Crash? && !world(n).landed && world(n).torn
    }

    /** Reveals, and deletes the record. */
    method RevealAndForget(request: Request, secret: Secret) returns (signal: Signal)
      requires Inv() && RecordedOrNoted(request.Id(), crypto.commit(PreimageOf(request, secret)))
      modifies `tick, `now, `owners, `cache, `log
      ensures Inv() && old(log) <= log && OnlyAbout(old(log), log, crypto.commit(PreimageOf(request, secret)))
      ensures tick > old(tick) && old(owners).Keys <= owners.Keys && (cache == old(cache) || cache == old(cache) - {request.Id()})
      ensures Quiet(old(tick), tick) && crypto.commit(PreimageOf(request, secret)) in commitments ==>
                (signal.Pass? <==> ReachesAge(old(tick), commitments[crypto.commit(PreimageOf(request, secret))]))
      ensures Quiet(old(tick), tick) && signal.Pass? ==>
                && cache == old(cache) - {request.Id()}
                && owners == old(owners)[NormaliseLabel(request.name) := request.Owner()]
                && (request.Id() in old(cache) ==> Deleted(request.Id(), old(cache)[request.Id()]) in log)
    {
      var preimage := PreimageOf(request, secret);
      ghost var before := log;
      signal := AwaitAndReveal(crypto.commit(preimage), preimage, request.governance, request.CrossPayer());
      Still(before, log);
      if !signal.Pass? { return; }
      ghost var revealed := log;
      signal := ForgetCommitment(request.Id());
      OnlyAboutGrows(before, revealed, log, crypto.commit(preimage));
    }

    /** What is left when the name is registered: verify, record the label, transfer. */
    method AfterReveal(request: Request) returns (signal: Signal)
      requires Inv()
      modifies `tick, `now, `owners
      ensures Inv() && tick >= old(tick) && old(owners).Keys <= owners.Keys
      ensures Quiet(old(tick), tick) && request.name in old(owners) && SameAddress(old(owners)[request.name], request.Owner()) ==>
                && signal.Pass?
                && (request.transferDestination.None? ==> request.name in owners && SameAddress(owners[request.name], request.Owner()))
    {
      signal := VerifyOwnership(request.name, request.Owner());
      if !signal.Pass? { return; }
      if request.governance || !request.CrossPayer() {
        signal := Check();                                      // label store
        if !signal.Pass? { return; }
      }
      signal := ReplayTransfer(request.transferDestination);
    }

    // ---- resuming ------------------------------------------------------------

    /** A wait that is preceded by a look at the commitment, in step `start`, will be long enough: for the commitment there is, or, if there is none or it is too
        old by then, for the one made anew. */
    ghost predicate RevealsInTime(a: State, start: nat, hash: Hash)
    {
      if hash in a.commitments && Clock(start + 1) - a.commitments[hash] <= maxAge then ReachesAge(start + 1, a.commitments[hash])
      else ReachesAge(start + 2, Clock(start + 2))
    }

    ghost predicate Resumed(a: State, b: State, id: string, record: CommitmentRecord, credential: Credential, signal: Signal)
    {
      var opens := Rebuild(crypto, record, credential).Some?;
      // under a wrong credential nothing happens
      && (!opens ==> signal.Throw? && a == b)
      // if no step fails, the record is settled exactly if the name is its owner's already or the wait is long enough
      && (opens && Quiet(a.tick, b.tick) ==>
            (signal.Pass? <==> SameAddress(OwnerOf(a.owners, record.name), record.owner) || RevealsInTime(a, a.tick + 1, record.commitmentHash)))
      && (opens && Quiet(a.tick, b.tick) && Brisk(a.tick, b.tick) ==> signal.Pass?)
      && (Quiet(a.tick, b.tick) && signal.Pass? ==> id !in b.cache)
      // the record of a name that nobody owns goes at once if its owner is the zero address
      && (opens && Calm(a.tick) && Calm(a.tick + 1) && record.name !in a.owners && SameAddress(record.owner, ZERO_ADDRESS) && id in a.cache ==>
            b.log == a.log + [OwnerRead(record.name, ZERO_ADDRESS, false), Deleted(id, record)])
    }

    lemma RegisteredIsResumed(a: State, b: State, c: State, id: string, record: CommitmentRecord, credential: Credential, signal: Signal)
      requires OwnerChecked(a, b, record, Pass, true) && Forgotten(b, c, id, signal) && Rebuild(crypto, record, credential).Some?
      requires a.cache == b.cache && (id in a.cache ==> a.cache[id] == record)
      ensures Resumed(a, c, id, record, credential, signal)
    {
      QuietSplits(a.tick, b.tick, c.tick);
      assert Quiet(a.tick, c.tick) ==> Calm(a.tick) && Calm(b.tick);
    }

    lemma UnregisteredIsResumed(a: State, b: State, c: State, id: string, record: CommitmentRecord, credential: Credential, signal: Signal)
      requires Rebuild(crypto, record, credential).Some? && a.commitments == b.commitments
      requires if signal.Crash? && c == b then OwnerChecked(a, b, record, Crash, false)
               else OwnerChecked(a, b, record, Pass, false) && b.tick < c.tick && RevealedInTime(b, c, record.commitmentHash, id, signal)
      ensures Resumed(a, c, id, record, credential, signal)
    {
      QuietSplits(a.tick, b.tick, c.tick);
      assert Quiet(a.tick, c.tick) ==> Calm(a.tick);
    }

    /** `resumeRegistration`: reveals the committed tuple again, committing it anew if the chain no longer has it or it is too old. */
    method Resume(env: string, caller: Address, record: CommitmentRecord, credential: Credential) returns (signal: Signal)
      requires Inv() && RecordOk(crypto, record)
      requires var id := RecordId(env, caller, record.name); id in cache ==> cache[id] == record
      modifies `tick, `now, `owners, `commitments, `cache, `log
      ensures Inv() && old(log) <= log && tick >= old(tick) && old(owners).Keys <= owners.Keys
      ensures var id := RecordId(env, caller, record.name); cache == old(cache) || cache == old(cache) - {id}
      ensures Resumed(old(View()), View(), RecordId(env, caller, record.name), record, credential, signal)
    {
      var id := RecordId(env, caller, record.name);
      var preimage := Rebuild(crypto, record, credential);
      if preimage.None? { return Throw; }
      ghost var before := View();
      var registered;
      signal, registered := IsRegisteredTo(record);
      ghost var checked := View();
      if signal.Pass? && registered {
        signal := ForgetCommitment(id);
        RegisteredIsResumed(before, checked, View(), id, record, credential, signal);
        return;
      }
      if signal.Pass? {
        signal := ResumeUnregistered(record, preimage.value, id, !SameAddress(record.owner, caller));
      }
      UnregisteredIsResumed(before, checked, View(), id, record, credential, signal);
    }

    ghost predicate RevealedInTime(a: State, b: State, hash: Hash, id: string, signal: Signal)
    {
      Quiet(a.tick, b.tick) ==>
        && (signal.Pass? <==> RevealsInTime(a, a.tick, hash))
        && (Brisk(a.tick, b.tick) ==> signal.Pass?)
        && (signal.Pass? ==> id !in b.cache)
    }

    ghost predicate Recommitted(a: State, b: State, hash: Hash, signal: Signal)
    {
      Quiet(a.tick, b.tick) ==>
        && signal.Pass?
        && if hash in a.commitments && Clock(a.tick + 1) - a.commitments[hash] <= maxAge
           then b.tick == a.tick + 1 && b.commitments == a.commitments
           else b.tick == a.tick + 2 && hash in b.commitments && b.commitments[hash] == Clock(b.tick)
    }

    ghost predicate RevealedAgain(a: State, b: State, hash: Hash, id: string, signal: Signal)
    {
      Quiet(a.tick, b.tick) && hash in a.commitments ==>
        && (signal.Pass? <==> ReachesAge(a.tick, a.commitments[hash]))
        && (BriskAt(a.tick) ==> signal.Pass?)
        && (signal.Pass? ==> id !in b.cache)
    }

    lemma RevealIsInTime(a: State, b: State, c: State, d: State, hash: Hash, id: string, answer: Signal, signal: Signal)
      requires a.tick < b.tick < c.tick <= d.tick && hash in b.commitments && d.cache == c.cache
      requires Recommitted(a, b, hash, Pass) && RevealedAgain(b, c, hash, id, answer)
      requires if answer.Pass? then Quiet(c.tick, d.tick) ==> signal.Pass? else signal == answer && d == c
      ensures RevealedInTime(a, d, hash, id, signal)
    {
      QuietSplits(a.tick, b.tick, d.tick);
      QuietSplits(b.tick, c.tick, d.tick);
    }

    /** The commitment is made anew if need be, and revealed. */
    method ResumeUnregistered(record: CommitmentRecord, preimage: Preimage, id: string, crossPayer: bool) returns (signal: Signal)
      requires Inv() && crypto.commit(preimage) == record.commitmentHash && (id in cache ==> cache[id] == record)
      requires preimage.name == record.name && preimage.owner == record.owner
      modifies `tick, `now, `owners, `commitments, `cache, `log
      ensures Inv() && old(log) <= log && tick > old(tick) && old(owners).Keys <= owners.Keys
      ensures cache == old(cache) || cache == old(cache) - {id}
      ensures RevealedInTime(old(View()), View(), record.commitmentHash, id, signal)
    {
      ghost var start := View();
      signal := Recommit(record.commitmentHash);
      ghost var begun := View();
      if !signal.Pass? { return; }
      signal := RevealAgain(record, preimage, id, crossPayer);
      ghost var revealed, answer := View(), signal;
      if signal.Pass? {
        signal := ReplayTransfer(record.transferDestination);
      }
      RevealIsInTime(start, begun, revealed, View(), record.commitmentHash, id, answer, signal);
    }

    /** Reads the commitment's status and submits it again if it is absent or has outlived the maximum age. */
    method Recommit(hash: Hash) returns (signal: Signal)
      requires Inv()
      modifies `tick, `now, `owners, `commitments, `log
      ensures Inv() && now >= old(now) && old(log) <= log && tick > old(tick) && old(owners).Keys <= owners.Keys
      ensures signal.Pass? ==> hash in commitments
      ensures Recommitted(old(View()), View(), hash, signal)
    {
      signal := Check();
      if !signal.Pass? { return; }
      if hash !in commitments || now - commitments[hash] > maxAge {
        signal := SubmitCommitment(hash);
      }
    }

    /** Waits, reveals, verifies, and deletes the record. */
    method RevealAgain(record: CommitmentRecord, preimage: Preimage, id: string, crossPayer: bool) returns (signal: Signal)
      requires Inv() && crypto.commit(preimage) == record.commitmentHash && (id in cache ==> cache[id] == record)
      requires preimage.name == record.name && preimage.owner == record.owner
      modifies `tick, `now, `owners, `cache, `log
      ensures Inv() && old(log) <= log && tick > old(tick) && old(owners).Keys <= owners.Keys
      ensures cache == old(cache) || cache == old(cache) - {id}
      ensures RevealedAgain(old(View()), View(), record.commitmentHash, id, signal)
    {
      ghost var hash := record.commitmentHash;
      if hash in commitments && BriskAt(tick) {
        OlderReachesAge(tick, now, commitments[hash]);
      }
      signal := AwaitAndReveal(record.commitmentHash, preimage, record.governance, crossPayer);
      if !signal.Pass? { return; }
      signal := VerifyOwnership(record.name, record.owner);
      if !signal.Pass? { return; }
      signal := ForgetCommitment(id);
    }

    /** One retry of `registerWithRetries`: resumes from the record, or registers anew if there is none. */
    method RetryOnce(request: Request) returns (signal: Signal)
      requires Inv()
      modifies `tick, `now, `owners, `commitments, `cache, `log
      ensures Inv() && old(log) <= log && tick > old(tick) && old(owners).Keys <= owners.Keys
      ensures Openable(crypto, request, old(cache)) ==> Openable(crypto, request, cache)
      // a quiet retry passes, unless the name has an owner and no record is left to resume from
      ensures Quiet(old(tick), tick) && Brisk(old(tick), tick) && request.ValidLabel() && Openable(crypto, request, old(cache)) ==>
                signal.Pass? || (request.name in old(owners) && Find(old(cache), request.env, request.caller, request.name).None?)
      // and in that case it never does, even if the owner is the one asked for
      ensures Quiet(old(tick), tick) && Find(old(cache), request.env, request.caller, request.name).None? ==>
                OwnerOf(old(owners), request.name) != ZERO_ADDRESS ==> signal.Throw?
    {
      var s := Await();                                       // read the record file
      if s.signal.Crash? { return Crash; }
      var record := if s.signal.Throw? then None else Find(cache, request.env, request.caller, request.name);
      if record.Some? {
        FindReturnsOwnRecord(crypto, cache, request.env, request.caller, request.name);
        signal := Resume(request.env, request.caller, record.value, request.credential);
      } else {
        signal := RegisterBriskly(request);
      }
    }

    lemma BriskRegistration(a: State, b: State, request: Request, signal: Signal)
      requires Registered(a, b, request, signal) && a.tick <= b.tick
      ensures Quiet(a.tick, b.tick) && Brisk(a.tick, b.tick) && request.ValidLabel() && request.name !in a.owners ==> signal.Pass?
      ensures Quiet(a.tick, b.tick) && OwnerOf(a.owners, request.name) != ZERO_ADDRESS ==> signal.Throw?
    {
      BriskIsInTime(a.tick, b.tick);
      QuietSplits(a.tick, b.tick, b.tick);
    }

    /** `Register`, under a clock that is brisk. */
    method RegisterBriskly(request: Request) returns (signal: Signal)
      requires Inv()
      modifies `tick, `now, `owners, `commitments, `cache, `log
      ensures Inv() && old(log) <= log && tick >= old(tick) && old(owners).Keys <= owners.Keys
      ensures Openable(crypto, request, old(cache)) ==> Openable(crypto, request, cache)
      ensures Quiet(old(tick), tick) && Brisk(old(tick), tick) && request.ValidLabel() && request.name !in old(owners) ==> signal.Pass?
      ensures Quiet(old(tick), tick) && OwnerOf(old(owners), request.name) != ZERO_ADDRESS ==> signal.Throw?
    {
      ghost var before := View();
      signal := Register(request);
      BriskRegistration(before, View(), request, signal);
    }

    /** `registerWithRetries`: a failed registration is resumed from its record, or attempted anew if there is none. */
    method RegisterWithRetries(request: Request, retries: nat) returns (signal: Signal)
      requires Inv()
      modifies `tick, `now, `owners, `commitments, `cache, `log
      ensures Inv() && old(log) <= log && tick >= old(tick) && old(owners).Keys <= owners.Keys
      // it fails only if more steps fail than there are retries, or the name has an owner
      ensures signal.Throw? && request.ValidLabel() && Openable(crypto, request, old(cache)) && Brisk(old(tick), tick) ==>
                Trouble(old(tick), tick) > retries || request.name in owners
    {
      ghost var start, opens := tick, Openable(crypto, request, cache);
      signal := RegisterBriskly(request);
      NoTroubleIsQuiet(start, tick);
      var attempt := 1;
      while signal.Throw? && attempt <= retries
        invariant Inv() && old(log) <= log && 1 <= attempt <= retries + 1
        invariant start <= tick && old(owners).Keys <= owners.Keys && (opens ==> Openable(crypto, request, cache))
        invariant signal.Throw? && request.ValidLabel() && opens && Brisk(start, tick) && request.name !in owners ==>
                    Trouble(start, tick) >= attempt
        decreases retries - attempt
      {
        ghost var began := tick;
        signal := RetryOnce(request);
        NoTroubleIsQuiet(began, tick);
        TroubleAdds(start, began, tick);
        attempt := attempt + 1;
      }
    }

    /** `executeRetry`: resumes the record of the name given, or else the newest. */
    method Retry(env: string, caller: Address, name: Option<string>, credential: Credential)
      returns (signal: Signal, record: Option<CommitmentRecord>)
      requires Inv()
      modifies `tick, `now, `owners, `commitments, `cache, `log
      ensures Inv() && old(log) <= log
      ensures Given(name).Some? ==> record == Find(old(cache), env, caller, name.value)
      ensures Given(name).None? ==> IsNewest(old(cache), env, caller, record)
      ensures record.None? ==> signal.Throw? && log == old(log) && cache == old(cache)
      ensures record.Some? ==> Resumed(old(View()), View(), RecordId(env, caller, record.value.name), record.value, credential, signal)
    {
      if Given(name).Some? {
        record := Find(cache, env, caller, name.value);
        if record.None? { return Throw, None; }
        FindReturnsOwnRecord(crypto, cache, env, caller, name.value);
      } else {
        var records := LoadRecords(env, caller);
        FirstIsNewest(cache, env, caller, records);
        if records == [] { return Throw, None; }
        record := Some(records[0]);
      }
      signal := Resume(env, caller, record.value, credential);
    }

    /** `loadCommitmentRecords`: the records of this environment and caller, newest first. */
    method LoadRecords(env: string, caller: Address) returns (records: seq<CommitmentRecord>)
      requires Inv()
      ensures Filed(crypto, cache, env, caller, records) && NewestFirst(records)
      ensures forall r :: r in records <==> InScope(cache, env, caller, r)
    {
      records := [];
      var ids: set<string> := cache.Keys;
      while ids != {}
        invariant ids <= cache.Keys
        invariant forall r :: r in records <==> exists id :: id in cache && id !in ids && cache[id] == r && BelongsTo(r, env, caller)
        decreases ids
      {
        var id := SomeMember(ids);
        if BelongsTo(cache[id], env, caller) {
          records := records + [cache[id]];
        }
        ids := ids - {id};
      }
      SortFacts(records);
      records := Sorted(records);
      ScopeIsFiled(crypto, cache, env, caller, records);
    }

    /** `executeClear`: records whose name is registered go; the others are discarded, resumed or left, as the user says. */
    method Clear(env: string, caller: Address, only: Option<string>, action: ClearAction, credential: Credential) returns (signal: Signal)
      requires Inv()
      modifies `tick, `now, `owners, `commitments, `cache, `log
      ensures Inv() && old(log) <= log
      ensures Shrunk(old(cache), cache)
      // a discard that passes leaves no record in its scope, nor does a resume in which no step fails
      ensures signal.Pass? && action.Discard? ==> NoneLeft(env, caller, Given(only), cache)
      ensures signal.Pass? && action.ResumeAll? && Quiet(old(tick), tick) ==> NoneLeft(env, caller, Given(only), cache)
    {
      var records;
      if Given(only).Some? {
        var found := Find(cache, env, caller, only.value);
        if found.None? { return Throw; }
        FindReturnsOwnRecord(crypto, cache, env, caller, only.value);
        records := [found.value];
      } else {
        records := LoadRecords(env, caller);
      }
      var pending;
      signal, pending := Purge(env, caller, records);
      if !signal.Pass? { return; }
      if pending == [] {
        ScopeIsEmpty(crypto, env, caller, Given(only), old(cache), records, cache);
        return;
      }
      match action
      case NotGiven => return Throw;
      case Cancel => return Pass;
      case Discard =>
        signal := DiscardAll(env, caller, pending);
        if !signal.Pass? { return; }
        ScopeIsEmpty(crypto, env, caller, Given(only), old(cache), records, cache);
      case ResumeAll =>
        signal := ResumePending(env, caller, pending, credential);
        if signal.Pass? && Quiet(old(tick), tick) {
          ScopeIsEmpty(crypto, env, caller, Given(only), old(cache), records, cache);
        }
    }

    /** What `Clear` needs to know of a resume. */
    method ResumeFiled(env: string, caller: Address, record: CommitmentRecord, credential: Credential) returns (signal: Signal)
      requires Inv() && RecordOk(crypto, record)
      requires RecordId(env, caller, record.name) in cache ==> cache[RecordId(env, caller, record.name)] == record
      modifies `tick, `now, `owners, `commitments, `cache, `log
      ensures Inv() && old(log) <= log && tick >= old(tick)
      ensures Shrunk(old(cache), cache)
      ensures Quiet(old(tick), tick) && signal.Pass? ==> RecordId(env, caller, record.name) !in cache
    {
      signal := Resume(env, caller, record, credential);
    }

    /** Resumes the pending records one after the other, up to the first that fails. */
    method ResumePending(env: string, caller: Address, pending: seq<CommitmentRecord>, credential: Credential) returns (signal: Signal)
      requires Inv() && Filed(crypto, cache, env, caller, pending)
      modifies `tick, `now, `owners, `commitments, `cache, `log
      ensures Inv() && old(log) <= log && Shrunk(old(cache), cache) && tick >= old(tick)
      ensures signal.Pass? && Quiet(old(tick), tick) ==> Gone(cache, env, caller, pending, |pending|)
    {
      ghost var start := tick;
      signal := Pass;
      var n := 0;
      while n < |pending|
        invariant 0 <= n <= |pending| && signal.Pass? && tick >= old(tick)
        invariant Inv() && old(log) <= log && Shrunk(old(cache), cache)
        invariant Filed(crypto, cache, env, caller, pending)
        invariant Quiet(start, tick) ==> Gone(cache, env, caller, pending, n)
      {
        ghost var begun, before := tick, cache;
        signal := ResumeFiled(env, caller, pending[n], credential);
        ShrinkingKeeps(crypto, old(cache), before, cache, env, caller, pending, n);
        if !signal.Pass? { return; }
        QuietSplits(start, begun, tick);
        n := n + 1;
      }
    }

    /** Deletes the records whose name the chain reports as owned; returns the others. */
    method Purge(env: string, caller: Address, records: seq<CommitmentRecord>) returns (signal: Signal, pending: seq<CommitmentRecord>)
      requires Inv() && Filed(crypto, cache, env, caller, records)
      modifies `tick, `now, `owners, `cache, `log
      ensures Inv() && old(log) <= log && Shrunk(old(cache), cache) && tick >= old(tick)
      ensures Filed(crypto, cache, env, caller, pending)
      ensures signal.Pass? ==> Purged(cache, env, caller, records, |records|, pending)
    {
      signal, pending := Pass, [];
      var n := 0;
      while n < |records|
        invariant 0 <= n <= |records| && signal.Pass? && tick >= old(tick)
        invariant Inv() && old(log) <= log && Shrunk(old(cache), cache)
        invariant Filed(crypto, cache, env, caller, records) && Filed(crypto, cache, env, caller, pending)
        invariant Purged(cache, env, caller, records, n, pending)
      {
        ghost var before := cache;
        var done;
        signal, done := PurgeOne(RecordId(env, caller, records[n].name), records[n]);
        ShrinkingKeeps(crypto, old(cache), before, cache, env, caller, records, 0);
        ShrinkingKeeps(crypto, old(cache), before, cache, env, caller, pending, 0);
        if !signal.Pass? { return; }
        PurgeStep(crypto, before, cache, env, caller, records, n, pending, done);
        if !done {
          pending := pending + [records[n]];
        }
        n := n + 1;
      }
    }

    /** Deletes a record if the chain reports its name as owned. */
    method PurgeOne(id: string, r: CommitmentRecord) returns (signal: Signal, done: bool)
      requires Inv() && (id in cache ==> cache[id] == r)
      modifies `tick, `now, `owners, `cache, `log
      ensures Inv() && old(log) <= log && tick > old(tick)
      ensures cache == old(cache) || cache == old(cache) - {id}
      ensures signal.Pass? && done ==> id !in cache
    {
      signal, done := IsRegisteredTo(r);
      if !signal.Pass? || !done { return; }
      ghost var reported := log;
      signal := RemoveRecord(id);
      Still(reported, log);
    }

    method DiscardAll(env: string, caller: Address, pending: seq<CommitmentRecord>) returns (signal: Signal)
      requires Inv() && Filed(crypto, cache, env, caller, pending)
      modifies `tick, `now, `owners, `cache, `log
      ensures Inv() && old(log) <= log && Shrunk(old(cache), cache)
      ensures signal.Pass? ==> Gone(cache, env, caller, pending, |pending|)
    {
      signal := Pass;
      var n := 0;
      while n < |pending|
        invariant 0 <= n <= |pending| && signal.Pass?
        invariant Inv() && old(log) <= log && Shrunk(old(cache), cache)
        invariant Filed(crypto, cache, env, caller, pending)
        invariant Gone(cache, env, caller, pending, n)
      {
        ghost var before := cache;
        signal := DiscardRecord(RecordId(env, caller, pending[n].name), pending[n]);
        ShrinkingKeeps(crypto, old(cache), before, cache, env, caller, pending, n);
        if !signal.Pass? { return; }
        n := n + 1;
      }
    }

    method DiscardRecord(id: string, r: CommitmentRecord) returns (signal: Signal)
      requires Inv() && (id in cache ==> cache[id] == r)
      modifies `tick, `now, `owners, `cache, `log
      ensures Inv() && old(log) <= log
      ensures cache == old(cache) - {id} || (!signal.Pass? && cache == old(cache))
    {
      Note(DiscardChosen(r));
      ghost var chosen := log;
      signal := RemoveRecord(id);
      Still(chosen, log);
    }

    /** Any sequence of commands, in one process after another. A crash ends a command, never the sequence. */
    method RunAll(commands: seq<Command>)
      requires Inv()
      modifies `tick, `now, `owners, `commitments, `cache, `log
      ensures Inv() && old(log) <= log
    {
      var n := 0;
      while n < |commands|
        invariant Inv() && old(log) <= log
      {
        var signal;
        match commands[n] {
          case RegisterCommand(request, retries) => signal := RegisterWithRetries(request, retries);
          case RetryCommand(env, caller, only, credential) =>
            var record;
            signal, record := Retry(env, caller, only, credential);
          case ClearCommand(env, caller, only, action, credential) => signal := Clear(env, caller, only, action, credential);
        }
        n := n + 1;
      }
    }
  }

  datatype ClearAction = ResumeAll | Discard | Cancel | NotGiven

  datatype Command =
    | RegisterCommand(request: Request, retries: nat)
    | RetryCommand(env: string, caller: Address, only: Option<string>, credential: Credential)
    | ClearCommand(env: string, caller: Address, only: Option<string>, action: ClearAction, credential: Credential)

  /** An empty name is no name. */
  function Given(name: Option<string>): Option<string>
  {
    if name == Some("") then None else name
  }

  predicate InScope(cache: Cache, env: string, caller: Address, r: CommitmentRecord)
  {
    exists id :: id in cache && cache[id] == r && BelongsTo(r, env, caller)
  }

  /** The record is one of this environment and caller, and none of them is newer; there is none only if they have none. */
  predicate IsNewest(cache: Cache, env: string, caller: Address, record: Option<CommitmentRecord>)
  {
    match record
    case None => forall id :: id in cache ==> !BelongsTo(cache[id], env, caller)
    case Some(r) =>
      && InScope(cache, env, caller, r)
      && forall id :: id in cache && BelongsTo(cache[id], env, caller) ==> cache[id].committedAt <= r.committedAt
  }

  lemma FirstIsNewest(cache: Cache, env: string, caller: Address, records: seq<CommitmentRecord>)
    requires NewestFirst(records) && forall r :: r in records <==> InScope(cache, env, caller, r)
    ensures IsNewest(cache, env, caller, if records == [] then None else Some(records[0]))
  {
    forall id | id in cache && BelongsTo(cache[id], env, caller)
      ensures records != [] && cache[id].committedAt <= records[0].committedAt
    {
      assert InScope(cache, env, caller, cache[id]);
      assert cache[id] in records;
    }
    if records != [] {
      assert records[0] in records;
    }
  }

  predicate NewestFirst(records: seq<CommitmentRecord>)
  {
    forall p, q :: 0 <= p < q < |records| ==> records[p].committedAt >= records[q].committedAt
  }

  function Insert(r: CommitmentRecord, records: seq<CommitmentRecord>): seq<CommitmentRecord>
  {
    if records == [] || r.committedAt > records[0].committedAt then [r] + records
    else [records[0]] + Insert(r, records[1..])
  }

  function Sorted(records: seq<CommitmentRecord>): seq<CommitmentRecord>
  {
    if records == [] then [] else Insert(records[0], Sorted(records[1..]))
  }

  lemma {:induction false} InsertFacts(r: CommitmentRecord, records: seq<CommitmentRecord>)
    requires NewestFirst(records)
    ensures NewestFirst(Insert(r, records))
    ensures forall x :: x in Insert(r, records) <==> x == r || x in records
  {
    if records != [] && r.committedAt <= records[0].committedAt {
      InsertFacts(r, records[1..]);
      assert forall x :: x in Insert(r, records[1..]) ==> records[0].committedAt >= x.committedAt;
    }
  }

  lemma {:induction false} SortFacts(records: seq<CommitmentRecord>)
    ensures NewestFirst(Sorted(records))
    ensures forall x :: x in Sorted(records) <==> x in records
  {
    if records != [] {
      SortFacts(records[1..]);
      InsertFacts(records[0], Sorted(records[1..]));
    }
  }

  lemma ScopeIsFiled(crypto: Crypto, cache: Cache, env: string, caller: Address, records: seq<CommitmentRecord>)
    requires CacheOk(crypto, cache) && forall r :: r in records ==> InScope(cache, env, caller, r)
    ensures Filed(crypto, cache, env, caller, records)
  {
    forall p | 0 <= p < |records|
      ensures RecordOk(crypto, records[p])
      ensures RecordId(env, caller, records[p].name) in cache ==> cache[RecordId(env, caller, records[p].name)] == records[p]
    {
      assert records[p] in records;
      var id :| id in cache && cache[id] == records[p] && BelongsTo(records[p], env, caller);
      assert id == RecordId(env, caller, records[p].name);
    }
  }

  /** Records as they are filed, or no longer filed at all. */
  ghost predicate Filed(crypto: Crypto, cache: Cache, env: string, caller: Address, records: seq<CommitmentRecord>)
  {
    forall p :: 0 <= p < |records| ==>
      && RecordOk(crypto, records[p])
      && (RecordId(env, caller, records[p].name) in cache ==> cache[RecordId(env, caller, records[p].name)] == records[p])
  }

  /** Records went, none came or changed. */
  predicate Shrunk(before: Cache, after: Cache)
  {
    forall id :: id in after ==> id in before && after[id] == before[id]
  }

  /** The first `n` of some records are not cached. */
  predicate Gone(cache: Cache, env: string, caller: Address, records: seq<CommitmentRecord>, n: nat)
    requires n <= |records|
  {
    forall p :: 0 <= p < n ==> RecordId(env, caller, records[p].name) !in cache
  }

  /** As the cache shrinks, what is filed stays filed and what is gone stays gone. */
  lemma ShrinkingKeeps(crypto: Crypto, start: Cache, before: Cache, after: Cache, env: string, caller: Address,
                       records: seq<CommitmentRecord>, n: nat)
    requires Shrunk(start, before) && Shrunk(before, after) && n <= |records|
    ensures Shrunk(start, after)
    ensures Filed(crypto, before, env, caller, records) ==> Filed(crypto, after, env, caller, records)
    ensures Gone(before, env, caller, records, n) ==> Gone(after, env, caller, records, n)
    ensures Gone(before, env, caller, records, n) && n < |records| && RecordId(env, caller, records[n].name) !in after ==>
              Gone(after, env, caller, records, n + 1)
  {
  }

  /** Of the first `n` of some records, those still cached are pending. */
  predicate Purged(cache: Cache, env: string, caller: Address, records: seq<CommitmentRecord>, n: nat, pending: seq<CommitmentRecord>)
    requires n <= |records|
  {
    forall p :: 0 <= p < n && RecordId(env, caller, records[p].name) in cache ==> records[p] in pending
  }

  lemma PurgeStep(crypto: Crypto, before: Cache, after: Cache, env: string, caller: Address, records: seq<CommitmentRecord>, n: nat,
                  pending: seq<CommitmentRecord>, done: bool)
    requires n < |records| && Shrunk(before, after) && Purged(before, env, caller, records, n, pending)
    requires Filed(crypto, after, env, caller, records) && Filed(crypto, after, env, caller, pending)
    requires done ==> RecordId(env, caller, records[n].name) !in after
    ensures var pending' := if done then pending else pending + [records[n]];
            Purged(after, env, caller, records, n + 1, pending') && Filed(crypto, after, env, caller, pending')
  {
  }

  /** No record in the scope of a clear: the one named, or all of this environment and caller. */
  predicate NoneLeft(env: string, caller: Address, only: Option<string>, cache: Cache)
  {
    if only.Some? then RecordId(env, caller, only.value) !in cache
    else forall id :: id in cache ==> !BelongsTo(cache[id], env, caller)
  }

  lemma ScopeIsEmpty(crypto: Crypto, env: string, caller: Address, only: Option<string>, before: Cache, records: seq<CommitmentRecord>, after: Cache)
    requires CacheOk(crypto, before) && Shrunk(before, after)
    requires if only.Some? then Find(before, env, caller, only.value).Some? && records == [Find(before, env, caller, only.value).value]
             else forall id :: id in before && BelongsTo(before[id], env, caller) ==> before[id] in records
    requires forall p :: 0 <= p < |records| ==> RecordId(env, caller, records[p].name) !in after
    ensures NoneLeft(env, caller, only, after)
  {
    if only.Some? {
      FindReturnsOwnRecord(crypto, before, env, caller, only.value);
      assert RecordId(env, caller, records[0].name) !in after;
    }
  }

  lemma RecordOfIsOk(crypto: Crypto, request: Request, secret: Secret, stamp: Stamp)
    requires crypto.Valid() && request.ValidLabel()
    ensures RecordOk(crypto, RecordOf(crypto, request, secret, stamp))
  {
    var r := RecordOf(crypto, request, secret, stamp);
    forall credential | Rebuild(crypto, r, credential).Some?
      ensures crypto.commit(Rebuild(crypto, r, credential).value) == r.commitmentHash
    {
      ResumeRebuildsPreimage(crypto, request, secret, stamp, credential);
    }
  }

  lemma NobodyIsNoReason(log: Log, id: string, r: CommitmentRecord)
    requires log == [OwnerRead(r.name, ZERO_ADDRESS, false), Deleted(id, r)]
    ensures Deleted(id, r) in log && !OwnReason(log, r)
  {
    assert log[1] in log;
    LastReadOccurs(log, r.name);
  }

  /** A record of the zero address is deleted by a mere retry when nobody owns its name: no reveal, no discard, no report. */
  method ZeroOwnerRecordIsLost(crypto: Crypto, minAge: nat, world: nat -> Step, secrets: nat -> Secret,
                               waiting: CommitmentRecord, credential: Credential, now: nat)
    returns (client: Client)
    requires crypto.Valid() && now > 0 && (forall n :: n < 2 ==> world(n).signal.Pass? && world(n).transfers == map[])
    requires ValidDomainLabel(waiting.name) && RecordOk(crypto, waiting)
    requires Rebuild(crypto, waiting, credential).Some? && SameAddress(waiting.owner, ZERO_ADDRESS)
    ensures Deleted(RecordId(waiting.env, waiting.caller, waiting.name), waiting) in client.log && !OwnReason(client.log, waiting)
  {
    var id := RecordId(waiting.env, waiting.caller, waiting.name);
    client := new Client(crypto, minAge, 0, 1, world, secrets, now, map[], map[], map[id := waiting]);
    var signal, record := client.Retry(waiting.env, waiting.caller, Some(waiting.name), credential);
    assert client.log == [OwnerRead(waiting.name, ZERO_ADDRESS, false), Deleted(id, waiting)];
    NobodyIsNoReason(client.log, id, waiting);
  }

  /** Another reason does occur too. A record waits for its reveal; a new registration of the same name is committed under
      another secret, its record cannot be written, and its reveal succeeds: the waiting record is deleted for no reason of its own. */
  method WaitingRecordIsLost(crypto: Crypto, minAge: nat, world: nat -> Step, secrets: nat -> Secret, request: Request,
                             waiting: CommitmentRecord, now: nat)
    returns (client: Client)
    requires crypto.Valid() && now > 0 && request.ValidLabel()
    requires forall n: nat :: n != 4 ==> world(n).signal.Pass? && world(n).transfers == map[]
    requires world(4).signal.Throw? && !world(4).landed && !world(4).torn && world(4).transfers == map[] && world(6).elapsed >= minAge
    requires RecordOk(crypto, waiting) && waiting.commitmentHash != crypto.commit(PreimageOf(request, secrets(2)))
    requires RecordId(waiting.env, waiting.caller, waiting.name) == request.Id()
    ensures Deleted(request.Id(), waiting) in client.log && !OwnReason(client.log, waiting)
  {
    client := new Client(crypto, minAge, 0, 1, world, secrets, now, map[], map[], map[request.Id() := waiting]);
    var signal := client.Register(request);
    client.SleepIsLongEnough();
    NoReasonOfItsOwn(client.log, waiting, crypto.commit(PreimageOf(request, secrets(2))));
  }

  /** And a record can be lost without any deletion: the process dies while it rewrites the file for a new registration. */
  method TornSaveLosesRecord(crypto: Crypto, minAge: nat, world: nat -> Step, secrets: nat -> Secret, request: Request,
                             waiting: CommitmentRecord, now: nat)
    returns (client: Client)
    requires crypto.Valid() && now > 0 && request.ValidLabel()
    requires forall n: nat :: n < 4 ==> world(n).signal.Pass? && world(n).transfers == map[]
    requires world(4).signal.Crash? && !world(4).landed && world(4).torn
    requires RecordOk(crypto, waiting) && RecordId(waiting.env, waiting.caller, waiting.name) == request.Id()
    ensures client.cacheAtStart == map[request.Id() := waiting] && request.Id() !in client.cache
    ensures forall r :: Deleted(request.Id(), r) !in client.log
  {
    client := new Client(crypto, minAge, 0, 1, world, secrets, now, map[], map[], map[request.Id() := waiting]);
    var signal := client.Register(request);
  }
}
