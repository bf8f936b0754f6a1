/**
 Change notification with bounded queues: a full queue counts what it drops, and says so before the next event
 that gets through.
 */
module Watching {
  import opened Wrappers
  import opened Bytes

  datatype Event =
    | Put(key: Key)
    | Deleted(key: Key)
    | Cleared
    | Stale(key: Key)
    | Evicted(key: Key)
    | Lagged(skipped: nat)
  {
    predicate Matches(filter: Option<seq<Key>>)
    {
      filter.None? || Cleared? || Lagged? || key in filter.value
    }
  }

  /**
   One subscriber and its channel. `slots` is the queue depth asked for plus the slot every sender is guaranteed;
   `listening` is false once the receiver has been dropped.
   */
  datatype Subscriber = Subscriber(
    filter: Option<seq<Key>>, slots: nat, queue: seq<Event>, skipped: nat, listening: bool)
  {
    predicate Full() { |queue| >= slots }

    function Push(e: Event): Subscriber { this.(queue := queue + [e]) }

    function Skip(): Subscriber { this.(skipped := if skipped < U64_MAX then skipped + 1 else U64_MAX) }
  }

  /** A clear and a gap notice reach everyone; of the rest, a filtered subscriber hears of its own keys alone. */
  lemma MatchesExactly(e: Event, keys: seq<Key>)
    ensures e.Matches(None)
    ensures e.Cleared? || e.Lagged? ==> e.Matches(Some(keys))
    ensures !e.Cleared? && !e.Lagged? ==>
      (e.Matches(Some(keys)) <==> exists i :: 0 <= i < |keys| && keys[i] == e.key)
  {
    if !e.Cleared? && !e.Lagged? && e.key in keys {
      var i :| 0 <= i < |keys| && keys[i] == e.key;
    }
  }

  /**
   A listener with room hears the event at once, after the notice of whatever it missed; without room the event is
   counted. A receiver that has gone is dropped by the first event it would have heard, and no other event touches
   a subscriber.
   */
  lemma DeliveredExactly(s: Subscriber, e: Event)
    ensures s.filter.Some? && !e.Cleared? && !e.Lagged? && e.key !in s.filter.value ==> Deliver(s, e) == Some(s)
    ensures s.filter.None? || e.Cleared? || (!e.Lagged? && e.key in s.filter.value) ==>
      && (!s.listening ==> Deliver(s, e) == None)
      && (s.listening && s.skipped == 0 && |s.queue| < s.slots ==>
            Deliver(s, e) == Some(s.(queue := s.queue + [e])))
      && (s.listening && s.skipped > 0 && |s.queue| + 1 < s.slots ==>
            Deliver(s, e) == Some(s.(queue := s.queue + [Lagged(s.skipped), e], skipped := 0)))
      && (s.listening && s.skipped > 0 && |s.queue| + 1 == s.slots ==>
            Deliver(s, e) == Some(s.(queue := s.queue + [Lagged(s.skipped)], skipped := 1)))
      && (s.listening && |s.queue| >= s.slots ==>
            Deliver(s, e) == Some(s.(skipped := if s.skipped < U64_MAX then s.skipped + 1 else U64_MAX)))
  {
    assert s.queue + [Lagged(s.skipped)] + [e] == s.queue + [Lagged(s.skipped), e];
  }

  /** What a broadcast does to one subscriber; `None` when it is pruned. */
  function Deliver(s: Subscriber, e: Event): Option<Subscriber>
  {
    if !e.Matches(s.filter) then Some(s)
    else if !s.listening then None
    else if s.skipped > 0 && s.Full() then Some(s.Skip())
    else
      var told := if s.skipped > 0 then s.Push(Lagged(s.skipped)).(skipped := 0) else s;
      Some(if told.Full() then told.Skip() else told.Push(e))
  }

  /** A broadcast treats every subscriber on its own, in order, and keeps those still listening. */
  function Retained(subs: seq<Subscriber>, e: Event): seq<Subscriber>
    decreases |subs|
  {
    if subs == [] then []
    else
      var before := Retained(subs[..|subs| - 1], e);
      match Deliver(subs[|subs| - 1], e)
      case Some(s) => before + [s]
      case None => before
  }

  class Watchers {
    var subscribers: seq<Subscriber>

    constructor ()
      ensures subscribers == []
    {
      subscribers := [];
    }

    method Subscribe(filter: Option<seq<Key>>, capacity: nat)
      modifies this
      ensures subscribers == old(subscribers) + [Subscriber(filter, capacity + 1, [], 0, true)]
    {
      subscribers := subscribers + [Subscriber(filter, capacity + 1, [], 0, true)];
    }

    /** Every subscriber gets the event, a count of it, or is dropped; no queue holds another up. */
    method Broadcast(e: Event)
      modifies this
      ensures subscribers == Retained(old(subscribers), e)
    {
      var kept: seq<Subscriber> := [];
      for i := 0 to |subscribers|
        invariant subscribers == old(subscribers)
        invariant kept == Retained(subscribers[..i], e)
      {
        assert subscribers[..i + 1][..i] == subscribers[..i];
        var s := subscribers[i];
        if !e.Matches(s.filter) {
          kept := kept + [s];
        } else if s.skipped > 0 {
          if !s.listening {
          } else if s.Full() {
            kept := kept + [s.Skip()];
          } else {
            s := s.Push(Lagged(s.skipped)).(skipped := 0);
            s := if s.Full() then s.Skip() else s.Push(e);
            kept := kept + [s];
          }
        } else if s.listening {
          s := if s.Full() then s.Skip() else s.Push(e);
          kept := kept + [s];
        }
      }
      assert subscribers[..|subscribers|] == subscribers;
      subscribers := kept;
    }

    /** The receiver's side of one subscription. */
    method TryRecv(i: nat) returns (r: Option<Event>)
      requires i < |subscribers|
      modifies this
      ensures var s := old(subscribers)[i];
        if s.queue == [] then r == None && subscribers == old(subscribers)
        else r == Some(s.queue[0]) && subscribers == old(subscribers)[i := s.(queue := s.queue[1..])]
    {
      var s := subscribers[i];
      if s.queue == [] { return None; }
      r := Some(s.queue[0]);
      subscribers := subscribers[i := s.(queue := s.queue[1..])];
    }
  }

  /** While every receiver is alive, subscribers neither come, go nor affect one another. */
  lemma {:induction false} EachOnItsOwn(subs: seq<Subscriber>, e: Event)
    requires forall i :: 0 <= i < |subs| ==> subs[i].listening
    ensures |Retained(subs, e)| == |subs|
    ensures forall i :: 0 <= i < |subs| ==> Deliver(subs[i], e) == Some(Retained(subs, e)[i])
    decreases |subs|
  {
    if subs != [] { EachOnItsOwn(subs[..|subs| - 1], e); }
  }

  // ---- one subscription over time ------------------------------------

  datatype Step = Say(e: Event) | Drain

  /** A subscriber, and everything its receiver has taken so far. */
  datatype History = History(sub: Subscriber, heard: seq<Event>)

  function Next(h: History, step: Step): History
  {
    match step
    case Say(e) =>
      (match Deliver(h.sub, e)
       case Some(s) => h.(sub := s)
       case None => h)
    case Drain =>
      if h.sub.queue == [] then h
      else History(h.sub.(queue := h.sub.queue[1..]), h.heard + [h.sub.queue[0]])
  }

  function Run(h: History, steps: seq<Step>): History
    decreases |steps|
  {
    if steps == [] then h else Next(Run(h, steps[..|steps| - 1]), steps[|steps| - 1])
  }

  /** The events said that the subscriber asked for. */
  function Said(filter: Option<seq<Key>>, steps: seq<Step>): seq<Event>
    decreases |steps|
  {
    if steps == [] then []
    else
      var before := Said(filter, steps[..|steps| - 1]);
      var last := steps[|steps| - 1];
      if last.Say? && last.e.Matches(filter) then before + [last.e] else before
  }

  /**
   `msgs` tell the story of `events` in order, each gap notice standing for as many events as it counts, with the last
   `gap` events still untold.
   */
  predicate Explains(msgs: seq<Event>, events: seq<Event>, gap: nat)
    decreases |msgs|
  {
    if msgs == [] then |events| == gap
    else if msgs[0].Lagged? then
      0 < msgs[0].skipped <= |events| && Explains(msgs[1..], events[msgs[0].skipped..], gap)
    else events != [] && events[0] == msgs[0] && Explains(msgs[1..], events[1..], gap)
  }

  lemma {:induction false} ToldOfGap(msgs: seq<Event>, events: seq<Event>, gap: nat)
    requires Explains(msgs, events, gap) && gap > 0
    ensures Explains(msgs + [Lagged(gap)], events, 0)
    decreases |msgs|
  {
    if msgs == [] {
      assert events[gap..] == [];
    } else {
      var n := if msgs[0].Lagged? then msgs[0].skipped else 1;
      ToldOfGap(msgs[1..], events[n..], gap);
      assert (msgs + [Lagged(gap)])[1..] == msgs[1..] + [Lagged(gap)];
    }
  }

  lemma {:induction false} Heard(msgs: seq<Event>, events: seq<Event>, e: Event)
    requires Explains(msgs, events, 0) && !e.Lagged?
    ensures Explains(msgs + [e], events + [e], 0)
    decreases |msgs|
  {
    if msgs != [] {
      var n := if msgs[0].Lagged? then msgs[0].skipped else 1;
      Heard(msgs[1..], events[n..], e);
      assert (msgs + [e])[1..] == msgs[1..] + [e];
      assert (events + [e])[n..] == events[n..] + [e];
    }
  }

  lemma {:induction false} Missed(msgs: seq<Event>, events: seq<Event>, gap: nat, e: Event)
    requires Explains(msgs, events, gap)
    ensures Explains(msgs, events + [e], gap + 1)
    decreases |msgs|
  {
    if msgs != [] {
      var n := if msgs[0].Lagged? then msgs[0].skipped else 1;
      Missed(msgs[1..], events[n..], gap, e);
      assert (events + [e])[n..] == events[n..] + [e];
    }
  }

  lemma {:induction false} GapBounded(msgs: seq<Event>, events: seq<Event>, gap: nat)
    requires Explains(msgs, events, gap)
    ensures gap <= |events|
    decreases |msgs|
  {
    if msgs != [] {
      var n := if msgs[0].Lagged? then msgs[0].skipped else 1;
      GapBounded(msgs[1..], events[n..], gap);
    }
  }

  ghost predicate Conserved(h: History, events: seq<Event>)
  {
    h.sub.listening && |h.sub.queue| <= h.sub.slots && Explains(h.heard + h.sub.queue, events, h.sub.skipped)
  }

  lemma DeliverConserves(h: History, events: seq<Event>, e: Event)
    requires Conserved(h, events) && e.Matches(h.sub.filter) && !e.Lagged? && |events| < U64_MAX
    ensures Conserved(Next(h, Say(e)), events + [e])
  {
    var msgs := h.heard + h.sub.queue;
    GapBounded(msgs, events, h.sub.skipped);
    if h.sub.skipped > 0 && h.sub.Full() {
      Missed(msgs, events, h.sub.skipped, e);
    } else {
      var told := if h.sub.skipped > 0 then h.sub.Push(Lagged(h.sub.skipped)).(skipped := 0) else h.sub;
      if h.sub.skipped > 0 { ToldOfGap(msgs, events, h.sub.skipped); }
      assert h.heard + told.queue == if h.sub.skipped > 0 then msgs + [Lagged(h.sub.skipped)] else msgs;
      if told.Full() {
        Missed(h.heard + told.queue, events, 0, e);
      } else {
        Heard(h.heard + told.queue, events, e);
        assert h.heard + told.Push(e).queue == h.heard + told.queue + [e];
      }
    }
  }

  /**
   Nothing is lost silently: for any queue depth and any drain schedule, what the receiver has taken, then what is
   queued, then the current count of skipped events, tell the exact sequence of events the subscriber asked for.
   The queue never exceeds its depth.
   */
  lemma {:induction false} FanOutConserves(filter: Option<seq<Key>>, capacity: nat, steps: seq<Step>)
    requires |steps| <= U64_MAX
    requires forall i :: 0 <= i < |steps| && steps[i].Say? ==> !steps[i].e.Lagged?
    ensures var h := Run(History(Subscriber(filter, capacity + 1, [], 0, true), []), steps);
      && h.sub.filter == filter && h.sub.slots == capacity + 1
      && Conserved(h, Said(filter, steps)) && |Said(filter, steps)| <= |steps|
    decreases |steps|
  {
    if steps != [] {
      var init, last := steps[..|steps| - 1], steps[|steps| - 1];
      FanOutConserves(filter, capacity, init);
      var h := Run(History(Subscriber(filter, capacity + 1, [], 0, true), []), init);
      match last
      case Say(e) =>
        if e.Matches(filter) { DeliverConserves(h, Said(filter, init), e); }
      case Drain =>
        if h.sub.queue != [] {
          assert h.heard + [h.sub.queue[0]] + h.sub.queue[1..] == h.heard + h.sub.queue;
        }
    }
  }

  /** Once the queue has been drained and one more event fits, the receiver has been told of every gap. */
  lemma DrainedIsTold(h: History, events: seq<Event>, e: Event)
    requires Conserved(h, events) && h.sub.queue == [] && h.sub.slots >= 2 && |events| < U64_MAX
    requires e.Matches(h.sub.filter) && !e.Lagged?
    ensures Next(h, Say(e)).sub.skipped == 0
    ensures Explains(h.heard + Next(h, Say(e)).sub.queue, events + [e], 0)
  {
    DeliverConserves(h, events, e);
  }
}
