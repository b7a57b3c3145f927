/** The in-memory sliding-window rate limiter.

    Each key has a bounded queue of accepted request times, oldest first; a
    background purge drops whole keys. The specification is unbounded: remember
    every accepted time and count those still inside the window. */
module RateLimiter {
  import opened Basics

  /** maxRequestNum and duration, in seconds, of one key. */
  datatype Limit = Limit(max: int, duration: int)

  /** The queue of a key as the store holds it; None when the key is absent. */
  type Queue = Option<seq<int>>

  datatype Answer = Accepted | Refused | Panicked

  /** Request on the queue of one key.  A new queue of negative capacity panics, and so
      does looking at the head of an empty one. */
  function Requested(q: Queue, lim: Limit, now: int): (Answer, Queue) {
    if q.None? then (if lim.max < 0 then (Panicked, None) else (Accepted, Some([now])))
    else if |q.value| < lim.max then (Accepted, Some(q.value + [now]))
    else if q.value == [] then (Panicked, q)
    else if now - q.value[0] >= lim.duration then (Accepted, Some(q.value[1..] + [now]))
    else (Refused, q)
  }

  const NANOS_PER_SECOND := 1_000_000_000

  /** A duration in nanoseconds as whole seconds. */
  function Seconds(nanos: int): int {
    nanos / NANOS_PER_SECOND
  }

  /** clearExpiredItems on the queue of one key; it is started only for a positive duration. */
  function Purged(q: Queue, expiration: int, now: int): Queue {
    if expiration > 0 && q.Some? && (q.value == [] || now - q.value[|q.value| - 1] > Seconds(expiration)) then None
    else q
  }

  class InMemoryRateLimiter {
    var store: map<string, seq<int>>
    const expiration: int

    constructor (expirationDuration: int)
      ensures store == map[] && expiration == expirationDuration
    {
      store := map[];
      expiration := expirationDuration;
    }

    ghost predicate Valid()
      reads this
    {
      forall k :: k in store ==> store[k] != []
    }

    function QueueOf(key: string): Queue
      reads this
    {
      if key in store then Some(store[key]) else None
    }

    method Request(key: string, maxRequestNum: int, duration: int, now: int) returns (answer: Answer)
      modifies this`store
      ensures (answer, QueueOf(key)) == Requested(old(QueueOf(key)), Limit(maxRequestNum, duration), now)
      ensures forall k :: k != key ==> QueueOf(k) == old(QueueOf(k))
      ensures old(Valid()) ==> Valid()
    {
      if key in store {
        var queue := store[key];
        if |queue| < maxRequestNum {
          store := store[key := queue + [now]];
          return Accepted;
        } else if |queue| == 0 {
          return Panicked;
        } else if now - queue[0] >= duration {
          queue := queue[1..];
          store := store[key := queue + [now]];
          return Accepted;
        } else {
          return Refused;
        }
      }
      if maxRequestNum < 0 { return Panicked; }
      store := store[key := [now]];
      return Accepted;
    }

    /** One pass of the background loop. */
    method ClearExpiredItems(now: int)
      requires expiration > 0
      modifies this`store
      ensures forall k :: QueueOf(k) == Purged(old(QueueOf(k)), expiration, now)
      ensures old(Valid()) ==> Valid()
    {
      var todo := store.Keys;
      while todo != {}
        invariant todo <= store.Keys <= old(store.Keys)
        invariant forall k :: k in todo ==> QueueOf(k) == old(QueueOf(k))
        invariant forall k :: k !in todo ==> QueueOf(k) == Purged(old(QueueOf(k)), expiration, now)
        decreases todo
      {
        var key :| key in todo;
        todo := todo - {key};
        var queue := store[key];
        if |queue| == 0 || now - queue[|queue| - 1] > Seconds(expiration) {
          store := store - {key};
        }
      }
      forall k | k in store && old(Valid()) ensures store[k] != [] { assert QueueOf(k) == old(QueueOf(k)); }
    }
  }

  // ---- Runs of one key ---------------------------------------------------

  datatype Event = Ask(now: int) | Purge(now: int)

  /** The queue, the time of the last event, and every time accepted so far. */
  datatype State = State(queue: Queue, clock: int, accepted: seq<int>)

  function InWindow(times: seq<int>, duration: int, now: int): nat {
    if times == [] then 0
    else InWindow(times[..|times| - 1], duration, now) + (if now - times[|times| - 1] < duration then 1 else 0)
  }

  /** What the limiter is meant to answer. */
  function Specified(s: State, lim: Limit, now: int): Answer {
    if Allowed(s, lim, now) then Accepted else Refused
  }

  predicate Allowed(s: State, lim: Limit, now: int) {
    InWindow(s.accepted, lim.duration, now) < lim.max
  }

  predicate Usable(q: Queue) {
    q.Some? ==> q.value != []
  }

  function Step(s: State, lim: Limit, expiration: int, e: Event): State {
    match e
    case Purge(now) => State(Purged(s.queue, expiration, now), now, s.accepted)
    case Ask(now) =>
      var (answer, q) := Requested(s.queue, lim, now);
      State(q, now, if answer == Accepted then s.accepted + [now] else s.accepted)
  }

  function Run(s: State, lim: Limit, expiration: int, events: seq<Event>): State {
    if events == [] then s
    else Step(Run(s, lim, expiration, events[..|events| - 1]), lim, expiration, events[|events| - 1])
  }

  const START := State(None, 0, [])

  /** The clock never runs backwards. */
  predicate Ordered(events: seq<Event>) {
    forall i, j :: 0 <= i <= j < |events| ==> 0 <= events[i].now <= events[j].now
  }

  /** At every request of the run the answer is the specified one. */
  ghost predicate AgreesAlong(lim: Limit, expiration: int, events: seq<Event>) {
    forall i :: 0 <= i < |events| && events[i].Ask? ==>
      var s := Run(START, lim, expiration, events[..i]);
      Requested(s.queue, lim, events[i].now).0 == Specified(s, lim, events[i].now)
  }

  function Held(s: State): seq<int> {
    if s.queue.None? then [] else s.queue.value
  }

  /** The queue is the end of the accepted times, and what it no longer holds has
      left the window for good. */
  ghost predicate Inv(s: State, lim: Limit) {
    && Usable(s.queue)
    && (forall i, j :: 0 <= i <= j < |s.accepted| ==> s.accepted[i] <= s.accepted[j] <= s.clock)
    && |Held(s)| <= lim.max && |Held(s)| <= |s.accepted|
    && s.accepted[|s.accepted| - |Held(s)|..] == Held(s)
    && (forall i :: 0 <= i < |s.accepted| - |Held(s)| ==> s.clock - s.accepted[i] >= lim.duration)
  }

  /** Times that have left the window do not count; the rest may. */
  lemma {:induction false} WindowOfSuffix(times: seq<int>, k: nat, duration: int, now: int)
    requires k <= |times| && forall i :: 0 <= i < k ==> now - times[i] >= duration
    ensures InWindow(times, duration, now) == InWindow(times[k..], duration, now) <= |times| - k
  {
    var n := |times|;
    if k < n {
      assert times[k..][..n - k - 1] == times[..n - 1][k..];
      WindowOfSuffix(times[..n - 1], k, duration, now);
    } else if n > 0 {
      WindowOfSuffix(times[..n - 1], k - 1, duration, now);
    }
  }

  lemma {:induction false} WholeWindow(times: seq<int>, duration: int, now: int)
    requires forall i :: 0 <= i < |times| ==> now - times[i] < duration
    ensures InWindow(times, duration, now) == |times|
  {
    if times != [] { WholeWindow(times[..|times| - 1], duration, now); }
  }

  /** The bounded queue answers as the unbounded history would. */
  lemma AnswerIsSpecified(s: State, lim: Limit, now: int)
    requires Inv(s, lim) && lim.max >= 1 && s.clock <= now
    ensures Requested(s.queue, lim, now).0 == Specified(s, lim, now)
  {
    var held := Held(s);
    var k := |s.accepted| - |held|;
    WindowOfSuffix(s.accepted, k, lim.duration, now);
    if |held| == lim.max {
      if now - held[0] >= lim.duration {
        WindowOfSuffix(held, 1, lim.duration, now);
      } else {
        assert forall i :: 0 <= i < |held| ==> held[i] == s.accepted[k + i] >= s.accepted[k];
        WholeWindow(held, lim.duration, now);
      }
    }
  }

  /** Accepting a request, after dropping the head if it has left the window. */
  lemma AcceptKeepsInv(s: State, lim: Limit, now: int, drop: nat)
    requires Inv(s, lim) && s.clock <= now && drop <= 1 && drop <= |Held(s)| && |Held(s)| - drop < lim.max
    requires drop == 1 ==> now - Held(s)[0] >= lim.duration
    ensures Inv(AcceptedAt(s, now, drop), lim)
  {
    var s' := AcceptedAt(s, now, drop);
    var held, n := Held(s), |s.accepted|;
    var k := n - |held|;
    assert s'.accepted[k + drop..] == s.accepted[k..][drop..] + [now];
    assert forall i :: 0 <= i < n ==> s'.accepted[i] == s.accepted[i];
    if drop == 1 { assert s.accepted[k] == s.accepted[k..][0] == held[0]; }
  }

  function AcceptedAt(s: State, now: int, drop: nat): State
    requires drop <= |Held(s)|
  {
    State(Some(Held(s)[drop..] + [now]), now, s.accepted + [now])
  }

  /** The three ways a request can go. */
  lemma AskIs(s: State, lim: Limit, expiration: int, now: int)
    requires Usable(s.queue) && lim.max >= 1
    ensures var held, next := Held(s), Step(s, lim, expiration, Ask(now));
            if |held| < lim.max then next == AcceptedAt(s, now, 0)
            else if now - held[0] >= lim.duration then next == AcceptedAt(s, now, 1)
            else next == s.(clock := now)
  {
    assert Held(s)[0..] == Held(s) && [] + [now] == [now];
  }

  lemma AskKeepsInv(s: State, lim: Limit, expiration: int, now: int)
    requires Inv(s, lim) && lim.max >= 1 && s.clock <= now
    ensures Inv(Step(s, lim, expiration, Ask(now)), lim)
  {
    AskIs(s, lim, expiration, now);
    if |Held(s)| < lim.max {
      AcceptKeepsInv(s, lim, now, 0);
    } else if now - Held(s)[0] >= lim.duration {
      AcceptKeepsInv(s, lim, now, 1);
    } else {
      RefuseKeepsInv(s, lim, now);
    }
  }

  lemma RefuseKeepsInv(s: State, lim: Limit, now: int)
    requires Inv(s, lim) && s.clock <= now
    ensures Inv(s.(clock := now), lim)
  {
    assert Held(s.(clock := now)) == Held(s);
  }

  /** No purge comes too early for the window: there is none, or the window is at most a
      second longer than the expiration. */
  predicate Covers(expiration: int, lim: Limit) {
    expiration <= 0 || lim.duration <= Seconds(expiration) + 1
  }

  lemma PurgeKeepsInv(s: State, lim: Limit, expiration: int, now: int)
    requires Inv(s, lim) && lim.max >= 1 && Covers(expiration, lim) && s.clock <= now
    ensures Inv(Step(s, lim, expiration, Purge(now)), lim)
  {
    var s' := Step(s, lim, expiration, Purge(now));
    if s'.queue != s.queue {
      var n := |s.accepted|;
      assert Held(s) == s.accepted[n - |Held(s)|..];
      assert now - s.accepted[n - 1] > Seconds(expiration);
    }
  }

  lemma {:induction false} RunKeepsInv(lim: Limit, expiration: int, events: seq<Event>)
    requires lim.max >= 1 && Covers(expiration, lim) && Ordered(events)
    ensures Inv(Run(START, lim, expiration, events), lim)
    ensures Run(START, lim, expiration, events).clock == if events == [] then 0 else events[|events| - 1].now
  {
    if events != [] {
      var n := |events|;
      RunKeepsInv(lim, expiration, events[..n - 1]);
      var s := Run(START, lim, expiration, events[..n - 1]);
      match events[n - 1]
      case Ask(now) => AskKeepsInv(s, lim, expiration, now);
      case Purge(now) => PurgeKeepsInv(s, lim, expiration, now);
    }
  }

  // ---- When the limiter meets its specification --------------------------

  /** A limit of zero is not enforced on the first request. */
  lemma ZeroLimitFirstRequest(lim: Limit, expiration: int)
    requires lim.max == 0
    ensures Ordered([Ask(0)]) && Requested(START.queue, lim, 0).0 == Accepted && !AgreesAlong(lim, expiration, [Ask(0)])
  {
    assert [Ask(0)][..0] == [];
    assert [Ask(0)][0].Ask? && !Allowed(START, lim, 0);
  }

  /** With a negative limit nothing is ever stored and every request panics. */
  lemma {:induction false} NegativeLimitPanics(lim: Limit, expiration: int, events: seq<Event>, now: int)
    requires lim.max < 0
    ensures Run(START, lim, expiration, events).queue == None
    ensures Requested(Run(START, lim, expiration, events).queue, lim, now).0 == Panicked
  {
    if events != [] { NegativeLimitPanics(lim, expiration, events[..|events| - 1], now); }
  }

  lemma NegativeLimitDisagrees(lim: Limit, expiration: int)
    requires lim.max < 0
    ensures Ordered([Ask(0)]) && !AgreesAlong(lim, expiration, [Ask(0)])
  {
    NegativeLimitPanics(lim, expiration, [], 0);
    assert [Ask(0)][..0] == [] && [Ask(0)][0].Ask?;
  }

  function Burst(n: nat): seq<Event> { seq(n, _ => Ask(0)) }

  lemma {:induction false} BurstFills(lim: Limit, expiration: int, n: nat)
    requires n <= lim.max
    ensures var s := Run(START, lim, expiration, Burst(n));
            && Held(s) == s.accepted && |s.accepted| == n && s.clock == 0
            && forall i :: 0 <= i < n ==> s.accepted[i] == 0
  {
    if n > 0 {
      assert Burst(n)[..n - 1] == Burst(n - 1);
      BurstFills(lim, expiration, n - 1);
    }
  }

  /** A window longer than the expiration is forgotten by a purge. */
  lemma PurgeForgetsWindow(lim: Limit, expiration: int) returns (events: seq<Event>)
    requires lim.max >= 1 && expiration > 0 && lim.duration > Seconds(expiration) + 1
    ensures Ordered(events) && !AgreesAlong(lim, expiration, events)
  {
    var n, late := lim.max, Seconds(expiration) + 1;
    events := Burst(n) + [Purge(late), Ask(late)];
    assert events[..n + 1] == Burst(n) + [Purge(late)];
    BurstForgotten(lim, expiration);
    var s := Run(START, lim, expiration, events[..n + 1]);
    WholeWindow(s.accepted, lim.duration, late);
    assert events[n + 1].Ask? && !Allowed(s, lim, late);
  }

  lemma BurstForgotten(lim: Limit, expiration: int)
    requires lim.max >= 1 && expiration > 0
    ensures var s := Run(START, lim, expiration, Burst(lim.max) + [Purge(Seconds(expiration) + 1)]);
            s.queue.None? && |s.accepted| == lim.max && forall i :: 0 <= i < lim.max ==> s.accepted[i] == 0
  {
    var n := lim.max;
    BurstFills(lim, expiration, n);
    assert (Burst(n) + [Purge(Seconds(expiration) + 1)])[..n] == Burst(n);
  }

  /** Over every run with purges at any times, Request answers as the unbounded count
      would, exactly when at least one request is allowed and either nothing is purged or
      the window is at most a second longer than the expiration. */
  lemma MeetsSpecificationIff(lim: Limit, expiration: int)
    ensures (forall events | Ordered(events) :: AgreesAlong(lim, expiration, events))
            <==> lim.max >= 1 && (expiration <= 0 || (lim.duration - 1) * 1_000_000_000 <= expiration)
  {
    assert Covers(expiration, lim) <==> expiration <= 0 || (lim.duration - 1) * 1_000_000_000 <= expiration;
    if lim.max < 0 {
      NegativeLimitDisagrees(lim, expiration);
    } else if lim.max == 0 {
      ZeroLimitFirstRequest(lim, expiration);
    } else if !Covers(expiration, lim) {
      var events := PurgeForgetsWindow(lim, expiration);
    } else {
      forall events: seq<Event> | Ordered(events) ensures AgreesAlong(lim, expiration, events) {
        forall i | 0 <= i < |events| && events[i].Ask?
          ensures var s := Run(START, lim, expiration, events[..i]);
                  Requested(s.queue, lim, events[i].now).0 == Specified(s, lim, events[i].now)
        {
          RunKeepsInv(lim, expiration, events[..i]);
          AnswerIsSpecified(Run(START, lim, expiration, events[..i]), lim, events[i].now);
        }
      }
    }
  }

  // ---- What callers get --------------------------------------------------

  function AskTimes(events: seq<Event>): seq<int> {
    if events == [] then []
    else
      var rest, e := AskTimes(events[..|events| - 1]), events[|events| - 1];
      if e.Ask? then rest + [e.now] else rest
  }

  /** The times the specification accepts; it knows nothing of purges. */
  function SpecAccepted(lim: Limit, asks: seq<int>): seq<int> {
    if asks == [] then []
    else
      var before, now := SpecAccepted(lim, asks[..|asks| - 1]), asks[|asks| - 1];
      if InWindow(before, lim.duration, now) < lim.max then before + [now] else before
  }

  /** Purging is unobservable: what is accepted depends on the requests alone. */
  lemma {:induction false} AcceptsAsSpecified(lim: Limit, expiration: int, events: seq<Event>)
    requires lim.max >= 1 && Covers(expiration, lim) && Ordered(events)
    ensures Run(START, lim, expiration, events).accepted == SpecAccepted(lim, AskTimes(events))
  {
    if events != [] {
      var n := |events|;
      var front, e := events[..n - 1], events[n - 1];
      AcceptsAsSpecified(lim, expiration, front);
      if e.Ask? {
        RunKeepsInv(lim, expiration, front);
        AnswerIsSpecified(Run(START, lim, expiration, front), lim, e.now);
        assert (AskTimes(front) + [e.now])[..|AskTimes(front)|] == AskTimes(front);
      }
    }
  }

  /** How many of the times lie in [from, from + duration). */
  function CountFrom(times: seq<int>, from: int, duration: int): nat {
    if times == [] then 0
    else
      var t := times[|times| - 1];
      CountFrom(times[..|times| - 1], from, duration) + (if from <= t < from + duration then 1 else 0)
  }

  lemma {:induction false} CountFromWindow(times: seq<int>, from: int, duration: int, now: int)
    requires now < from + duration
    ensures CountFrom(times, from, duration) <= InWindow(times, duration, now)
  {
    if times != [] { CountFromWindow(times[..|times| - 1], from, duration, now); }
  }

  /** No window of the given length, wherever it starts, ever holds more than max
      accepted requests. */
  lemma {:induction false} AnyWindowIsBounded(lim: Limit, asks: seq<int>, from: int)
    requires lim.max >= 1
    ensures CountFrom(SpecAccepted(lim, asks), from, lim.duration) <= lim.max
  {
    if asks != [] {
      var front, now := asks[..|asks| - 1], asks[|asks| - 1];
      AnyWindowIsBounded(lim, front, from);
      var before := SpecAccepted(lim, front);
      if SpecAccepted(lim, asks) != before {
        assert (before + [now])[..|before|] == before;
        if now < from + lim.duration { CountFromWindow(before, from, lim.duration, now); }
      }
    }
  }

  lemma WindowsAreBounded(lim: Limit, expiration: int, events: seq<Event>, from: int)
    requires lim.max >= 1 && Covers(expiration, lim) && Ordered(events)
    ensures CountFrom(Run(START, lim, expiration, events).accepted, from, lim.duration) <= lim.max
  {
    AcceptsAsSpecified(lim, expiration, events);
    AnyWindowIsBounded(lim, AskTimes(events), from);
  }
}
