/** The account nonces one upload uses, as a trace of what the scheduler did with them. */
module Nonces {
  import opened Prelude

  datatype NonceEvent =
    | Fetched(nonce: nat)                       // the chain reported the next free nonce
    | Assigned(index: int, nonce: nat)          // a wave chunk was given this nonce
    | Submitted(index: int, nonce: nat)         // that chunk was submitted, first time or retry
    | LateSubmitted(index: int, nonce: nat)     // a wave that had timed out went on to retry that chunk
    | RootSubmitted(nonce: nat)

  type Trace = seq<NonceEvent>

  /** The nonce the scheduler would hand out next. */
  function NextNonce(t: Trace): Option<nat>
  {
    if t == [] then None
    else match t[|t| - 1]
      case Fetched(n) => Some(n)
      case Assigned(_, n) => Some(n + 1)
      case _ => NextNonce(t[..|t| - 1])
  }

  /** The nonce a chunk was last given. */
  function NonceOf(t: Trace, index: int): Option<nat>
  {
    if t == [] then None
    else match t[|t| - 1]
      case Assigned(i, n) => if i == index then Some(n) else NonceOf(t[..|t| - 1], index)
      case _ => NonceOf(t[..|t| - 1], index)
  }

  /** Nonces are handed out one after the other, each submission uses its chunk's own nonce, a late one the nonce its wave gave
      the chunk, and the root uses the next one. */
  predicate Disciplined(t: Trace)
  {
    t == [] ||
    var front := t[..|t| - 1];
    && Disciplined(front)
    && match t[|t| - 1]
       case Fetched(_) => true
       case Assigned(_, n) => NextNonce(front) == Some(n)
       case Submitted(i, n) => NonceOf(front, i) == Some(n)
       case LateSubmitted(i, n) => Assigned(i, n) in front
       case RootSubmitted(n) => NextNonce(front) == Some(n)
  }

  lemma Snoc(t: Trace, e: NonceEvent)
    ensures (t + [e])[..|t + [e]| - 1] == t
    ensures (t + [e])[|t + [e]| - 1] == e
  {
  }

  /** The nonces assigned in a stretch of the trace, in order. */
  function AssignedNonces(t: Trace): seq<nat>
  {
    if t == [] then []
    else
      var front := AssignedNonces(t[..|t| - 1]);
      if t[|t| - 1].Assigned? then front + [t[|t| - 1].nonce] else front
  }

  /** Between two fetches the assigned nonces are the fetched one and its successors: contiguous,
      without a gap or a repetition, and the next free nonce follows them. */
  lemma {:induction false} AssignedRunIsContiguous(t: Trace, p: nat, q: nat)
    requires Disciplined(t)
    requires p < q <= |t| && t[p].Fetched?
    requires forall j :: p < j < q ==> !t[j].Fetched?
    ensures var run := AssignedNonces(t[p + 1..q]);
            && (forall j :: 0 <= j < |run| ==> run[j] == t[p].nonce + j)
            && NextNonce(t[..q]) == Some(t[p].nonce + |run|)
    decreases q
  {
    PrefixDisciplined(t, q);
    assert t[..q][..q - 1] == t[..q - 1];
    if q == p + 1 {
      assert t[p + 1..q] == [];
    } else {
      AssignedRunIsContiguous(t, p, q - 1);
      var run := t[p + 1..q];
      assert run[..|run| - 1] == t[p + 1..q - 1];
      assert run[|run| - 1] == t[q - 1];
    }
  }

  lemma {:induction false} PrefixDisciplined(t: Trace, q: nat)
    requires Disciplined(t) && q <= |t|
    ensures Disciplined(t[..q])
    decreases |t|
  {
    if q < |t| {
      PrefixDisciplined(t[..|t| - 1], q);
      assert t[..|t| - 1][..q] == t[..q];
    } else {
      assert t[..q] == t;
    }
  }

  /** Every submission of the root, in a disciplined trace, uses the nonce after the last one assigned. */
  lemma RootFollowsAssigned(t: Trace, p: nat, r: nat)
    requires Disciplined(t)
    requires p < r < |t| && t[p].Fetched? && t[r].RootSubmitted?
    requires forall j :: p < j < r ==> !t[j].Fetched?
    ensures t[r].nonce == t[p].nonce + |AssignedNonces(t[p + 1..r])|
  {
    AssignedRunIsContiguous(t, p, r);
    PrefixDisciplined(t, r + 1);
    assert t[..r + 1][..r] == t[..r];
  }

  /** Submissions, appended to a trace, move no nonce. */
  ghost predicate Uses(t: Trace, events: Trace)
  {
    forall i :: 0 <= i < |events| ==>
      || (events[i].Submitted? && NonceOf(t, events[i].index) == Some(events[i].nonce))
      || (events[i].LateSubmitted? && Assigned(events[i].index, events[i].nonce) in t)
  }

  lemma {:induction false} SubmissionsKeepDiscipline(t: Trace, events: Trace)
    requires Disciplined(t) && Uses(t, events)
    ensures Disciplined(t + events)
    ensures NextNonce(t + events) == NextNonce(t)
    ensures forall i :: NonceOf(t + events, i) == NonceOf(t, i)
    decreases |events|
  {
    if events == [] {
      assert t + events == t;
    } else {
      var front := events[..|events| - 1];
      SubmissionsKeepDiscipline(t, front);
      var e := events[|events| - 1];
      assert t + events == (t + front) + [e];
      Snoc(t + front, e);
    }
  }
}
