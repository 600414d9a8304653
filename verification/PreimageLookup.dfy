/** Turning the host's preimage subscription into a one-shot answer. */
module PreimageLookup {
  import opened Prelude
  import opened Chunking

  /** What can happen after `lookup` is called: the subscription calls back, the timer fires, the caller aborts. */
  datatype Event = Preimage(value: Option<Bytes>) | Timeout | Abort

  /** An event that ends the wait. A null callback does not, and an abort only counts if a signal was given. */
  predicate Terminal(e: Event, hasSignal: bool)
  {
    match e
    case Preimage(v) => v.Some?
    case Timeout => true
    case Abort => hasSignal
  }

  function AnswerOf(e: Event): Option<Bytes>
  {
    if e.Preimage? then e.value else None
  }

  function Callbacks(values: seq<Option<Bytes>>): (events: seq<Event>)
    ensures |events| == |values|
    ensures forall i :: 0 <= i < |values| ==> events[i] == Preimage(values[i])
  {
    seq(|values|, i requires 0 <= i < |values| => Preimage(values[i]))
  }

  /** The promise and what it holds on to. */
  class Lookup {
    const hasSignal: bool
    var settled: bool
    var subscription: bool          // the variable has been assigned
    var timerRunning: bool
    var listening: bool             // for the abort signal
    var resolved: seq<Option<Bytes>> // the values `resolve` was called with
    var openings: nat                 // subscriptions opened
    var unsubscribed: nat

    /** Settled and answered are one thing, and a settled lookup holds nothing. */
    ghost predicate Consistent()
      reads this
    {
      && |resolved| == (if settled then 1 else 0)
      && (settled ==> !timerRunning && !listening)
      && openings <= 1 && (subscription ==> openings == 1)
      && unsubscribed == (if settled && subscription then 1 else 0)
    }

    constructor (hasSignal: bool)
      ensures Consistent() && this.hasSignal == hasSignal && !settled && !subscription && openings == 0 && timerRunning && !listening
    {
      this.hasSignal := hasSignal;
      settled, subscription, timerRunning, listening := false, false, true, false;
      resolved, openings, unsubscribed := [], 0, 0;
    }

    method Finish(value: Option<Bytes>)
      requires Consistent()
      modifies this
      ensures settled && openings == old(openings) && subscription == old(subscription)
      ensures Consistent()
      ensures resolved == if old(settled) then old(resolved) else [value]
    {
      if settled {
        return;
      }
      settled := true;
      timerRunning := false;
      listening := false;
      if subscription {
        unsubscribed := unsubscribed + 1;
      }
      resolved := resolved + [value];
    }

    /** One event reaches the lookup. A timer that was cleared and a listener that was removed no longer fire. */
    method Deliver(e: Event)
      requires Consistent() && (!settled ==> timerRunning && (listening <==> hasSignal))
      modifies this
      ensures Consistent() && (!settled ==> timerRunning && (listening <==> hasSignal))
      ensures settled <==> old(settled) || Terminal(e, hasSignal)
      ensures resolved == if !old(settled) && Terminal(e, hasSignal) then [AnswerOf(e)] else old(resolved)
      ensures openings == old(openings) && subscription == old(subscription)
    {
      match e
      case Preimage(v) => if v.Some? { Finish(v); }
      case Timeout => if timerRunning { Finish(None); }
      case Abort => if listening { Finish(None); }
    }

    method DeliverAll(events: seq<Event>)
      requires Consistent() && (!settled ==> timerRunning && (listening <==> hasSignal))
      modifies this
      ensures Consistent() && (!settled ==> timerRunning && (listening <==> hasSignal))
      ensures openings == old(openings) && subscription == old(subscription)
      ensures settled <==> old(settled) || exists i :: 0 <= i < |events| && Terminal(events[i], hasSignal)
      ensures old(settled) ==> resolved == old(resolved)
      ensures !old(settled) ==> resolved == Answers(events, hasSignal)
    {
      var n := 0;
      while n < |events|
        invariant 0 <= n <= |events|
        invariant Consistent() && (!settled ==> timerRunning && (listening <==> hasSignal))
        invariant openings == old(openings) && subscription == old(subscription)
        invariant settled <==> old(settled) || exists i :: 0 <= i < n && Terminal(events[i], hasSignal)
        invariant old(settled) ==> resolved == old(resolved)
        invariant !old(settled) ==> resolved == Answers(events[..n], hasSignal)
      {
        assert events[..n + 1][..n] == events[..n];
        AnswersTerminal(events[..n], hasSignal);
        Deliver(events[n]);
        n := n + 1;
      }
      assert events[..|events|] == events;
    }
  }

  /** The answer the first terminal event gives; nothing while there is none. */
  function Answers(events: seq<Event>, hasSignal: bool): (answers: seq<Option<Bytes>>)
    ensures |answers| <= 1
    decreases |events|
  {
    if events == [] then []
    else
      var before := Answers(events[..|events| - 1], hasSignal);
      var last := events[|events| - 1];
      if before == [] && Terminal(last, hasSignal) then [AnswerOf(last)] else before
  }

  lemma {:induction false} AnswersTerminal(events: seq<Event>, hasSignal: bool)
    ensures Answers(events, hasSignal) != [] <==> exists i :: 0 <= i < |events| && Terminal(events[i], hasSignal)
    decreases |events|
  {
    if events != [] {
      var n := |events| - 1;
      AnswersTerminal(events[..n], hasSignal);
      if i :| 0 <= i < n && Terminal(events[..n][i], hasSignal) {
        assert Terminal(events[i], hasSignal);
      }
      if i :| 0 <= i < |events| && Terminal(events[i], hasSignal) {
        assert i < n ==> Terminal(events[..n][i], hasSignal);
      }
    }
  }

  /** The first terminal event decides, and it decides alone. */
  lemma {:induction false} FirstTerminalDecides(events: seq<Event>, hasSignal: bool, p: nat)
    requires p < |events| && Terminal(events[p], hasSignal)
    requires forall j :: 0 <= j < p ==> !Terminal(events[j], hasSignal)
    ensures Answers(events, hasSignal) == [AnswerOf(events[p])]
    decreases |events|
  {
    var n := |events| - 1;
    if p < n {
      FirstTerminalDecides(events[..n], hasSignal, p);
    } else {
      AnswersTerminal(events[..n], hasSignal);
    }
  }

  /** One lookup: `during` are the callbacks made before `lookup` returns, `later` what happens afterwards.
      The answer is `None` while the promise is pending. */
  method LookupPreimage(hasSignal: bool, alreadyAborted: bool, during: seq<Option<Bytes>>, later: seq<Event>)
    returns (answer: Option<Option<Bytes>>, openings: nat, unsubscribed: nat)
    requires alreadyAborted ==> hasSignal
    // an aborted caller gets null, and no subscription is opened for it
    ensures alreadyAborted ==> answer == Some(None) && openings == 0 && unsubscribed == 0
    // otherwise the first terminal event settles it, once, and the one subscription is closed once
    ensures !alreadyAborted ==> openings == 1 && unsubscribed == (if answer.Some? then 1 else 0)
    ensures !alreadyAborted ==>
              Answers(Callbacks(during) + later, hasSignal) == if answer.Some? then [answer.value] else []
  {
    var l := new Lookup(hasSignal);
    if hasSignal {
      if alreadyAborted {
        l.Finish(None);
        return Some(l.resolved[0]), l.openings, l.unsubscribed;
      }
      l.listening := true;
    }
    l.openings := l.openings + 1;
    l.DeliverAll(Callbacks(during));
    l.subscription := true;
    // a callback made before the assignment could not unsubscribe
    if l.settled {
      l.unsubscribed := l.unsubscribed + 1;
    }
    l.DeliverAll(later);
    AnswersAppend(Callbacks(during), later, hasSignal);
    AnswersTerminal(Callbacks(during), hasSignal);
    answer := if l.settled then Some(l.resolved[0]) else None;
    openings, unsubscribed := l.openings, l.unsubscribed;
  }

  lemma {:induction false} AnswersAppend(a: seq<Event>, b: seq<Event>, hasSignal: bool)
    ensures Answers(a + b, hasSignal) == if Answers(a, hasSignal) != [] then Answers(a, hasSignal) else Answers(b, hasSignal)
    decreases |b|
  {
    if b == [] {
      assert a + b == a;
    } else {
      var ab := a + b;
      assert ab[..|ab| - 1] == a + b[..|b| - 1];
      AnswersAppend(a, b[..|b| - 1], hasSignal);
    }
  }
}
