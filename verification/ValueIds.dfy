/**
 The bank-wide allocator of chunk value ids: a RAM cursor every locker shares, a persisted counter that a late
 commit may walk backwards, and a floor recomputed from the chunk rows on first use.
 */
module ValueIdCursor {
  import opened Wrappers
  import opened Bytes

  datatype Taken = Exhausted | Unseeded | Id(value: nat)

  function TakeFrom(cursor: Option<nat>): Taken
  {
    match cursor
    case None => Unseeded
    case Some(id) => if id >= U64_MAX then Exhausted else Id(id)
  }

  function SeedFrom(cursor: Option<nat>, stored: nat): nat
  {
    if cursor.Some? && cursor.value > stored then cursor.value else stored
  }

  class ValueIds {
    var next: Option<nat>

    constructor ()
      ensures next == None
    {
      next := None;
    }

    /** Hand out an id, unless the cursor has yet to be seeded or is at its end. */
    method Take() returns (r: Taken)
      modifies this
      ensures r == TakeFrom(old(next))
      ensures next == if r.Id? then Some(r.value + 1) else old(next)
    {
      match next
      case None =>
        return Unseeded;
      case Some(id) =>
        if id >= U64_MAX { return Exhausted; }
        next := Some(id + 1);
        return Id(id);
    }

    /** The cursor only ever moves forward, whatever a stale read brought back. */
    method SeedAndTake(stored: nat) returns (r: Taken)
      modifies this
      ensures var id := SeedFrom(old(next), stored);
              if id >= U64_MAX then r == Exhausted && next == old(next) else r == Id(id) && next == Some(id + 1)
    {
      var id := match next { case Some(current) => if current > stored then current else stored case None => stored };
      if id >= U64_MAX { return Exhausted; }
      next := Some(id + 1);
      return Id(id);
    }

    /** What a commit persists; nothing while the cursor was never seeded. */
    method CounterOp() returns (r: Option<nat>)
      ensures r == next
    {
      r := next;
    }
  }

  // ---- the allocator as a protocol -----------------------------------

  /**
   One caller at work: what it has read so far to seed the cursor (the stored counter, then one past the highest
   stored id), the ids it was handed, and the counter its built op list carries.
   */
  datatype Task = Task(counter: Option<nat>, floor: Option<nat>, ids: set<nat>, counterOp: Option<nat>)

  /**
   `rows` are the ids some stored chunk carries; `hollow` those of stored pointers without chunks (an empty
   streamed value); `issued` everything handed out since the bank was opened.
   */
  datatype State = State(
    cursor: Option<nat>, stored: nat, rows: set<nat>, hollow: set<nat>, tasks: map<nat, Task>, issued: set<nat>)

  datatype Event =
    | Begin(t: nat)
    | Take(t: nat)
    | ReadCounter(t: nat)
    | ReadHighest(t: nat)
    | SeedAndTake(t: nat)
    | Build(t: nat)
    | Land(t: nat, chunked: set<nat>, empty: set<nat>)
    | End(t: nat)
    | Collect(id: nat)
    | Reopen

  ghost function FloorOf(rows: set<nat>): (f: nat)
    ensures forall v :: v in rows ==> v < f
    ensures f == 0 || f - 1 in rows
  {
    if rows == {} then 0
    else
      HighestExists(rows);
      var h: nat :| IsHighest(h, rows);
      h + 1
  }

  ghost predicate IsHighest(h: nat, s: set<nat>)
  {
    h in s && forall v :: v in s ==> v <= h
  }

  lemma {:induction false} HighestExists(s: set<nat>)
    requires s != {}
    ensures exists h :: IsHighest(h, s)
    decreases |s|
  {
    var x :| x in s;
    var rest := s - {x};
    assert forall v :: v in s <==> v == x || v in rest;
    if rest == {} {
      assert IsHighest(x, s);
    } else {
      HighestExists(rest);
      var h :| IsHighest(h, rest);
      assert IsHighest(if h < x then x else h, s);
    }
  }

  /** What a fresh open hands out first. */
  ghost function ReopenFloor(s: State): nat
  {
    if s.stored > FloorOf(s.rows) then s.stored else FloorOf(s.rows)
  }

  ghost predicate Enabled(s: State, e: Event)
  {
    match e
    case Begin(t) => t !in s.tasks
    case Take(t) => t in s.tasks && TakeFrom(s.cursor).Id?
    case ReadCounter(t) => t in s.tasks
    case ReadHighest(t) => t in s.tasks && s.tasks[t].counter.Some?
    case SeedAndTake(t) =>
      && t in s.tasks && s.tasks[t].counter.Some? && s.tasks[t].floor.Some?
      && SeedFrom(s.cursor, SeedOf(s.tasks[t])) < U64_MAX
    case Build(t) => t in s.tasks
    case Land(t, chunked, empty) => t in s.tasks && chunked + empty <= s.tasks[t].ids && empty !! s.rows
    case End(t) => t in s.tasks
    case Collect(_) => true
    case Reopen => true
  }

  function SeedOf(t: Task): nat
    requires t.counter.Some? && t.floor.Some?
  {
    if t.counter.value > t.floor.value then t.counter.value else t.floor.value
  }

  /** The id this step hands out. */
  ghost function HandsOut(s: State, e: Event): Option<nat>
    requires Enabled(s, e)
  {
    match e
    case Take(_) => s.cursor
    case SeedAndTake(t) => Some(SeedFrom(s.cursor, SeedOf(s.tasks[t])))
    case _ => None
  }

  function Handed(s: State, t: nat, id: nat): State
    requires t in s.tasks
  {
    s.(cursor := Some(id + 1), issued := s.issued + {id},
       tasks := s.tasks[t := s.tasks[t].(ids := s.tasks[t].ids + {id})])
  }

  ghost function Next(s: State, e: Event): State
    requires Enabled(s, e)
  {
    match e
    case Begin(t) => s.(tasks := s.tasks[t := Task(None, None, {}, None)])
    case Take(t) => Handed(s, t, s.cursor.value)
    case ReadCounter(t) => s.(tasks := s.tasks[t := s.tasks[t].(counter := Some(s.stored))])
    case ReadHighest(t) => s.(tasks := s.tasks[t := s.tasks[t].(floor := Some(FloorOf(s.rows)))])
    case SeedAndTake(t) => Handed(s, t, SeedFrom(s.cursor, SeedOf(s.tasks[t])))
    case Build(t) => s.(tasks := s.tasks[t := s.tasks[t].(counterOp := s.cursor)])
    case Land(t, chunked, empty) =>
      s.(rows := s.rows + chunked, hollow := s.hollow + empty,
         stored := if s.tasks[t].counterOp.Some? then s.tasks[t].counterOp.value else s.stored)
    case End(t) => s.(tasks := s.tasks - {t})
    case Collect(id) => s.(rows := s.rows - {id}, hollow := s.hollow - {id})
    case Reopen => s.(cursor := None, tasks := map[], issued := {})
  }

  /** Every id that is stored, in use or was issued is behind the cursor; an unseeded cursor issued none. */
  ghost predicate Safe(s: State)
  {
    && (s.cursor.Some? ==> forall v :: v in s.rows || v in s.issued ==> v < s.cursor.value)
    && (s.cursor.None? ==> s.issued == {})
    && (forall t, v :: t in s.tasks && v in s.tasks[t].ids ==> v in s.issued)
    && (forall t, u, v :: t in s.tasks && u in s.tasks && v in s.tasks[t].ids && v in s.tasks[u].ids ==> t == u)
    && (s.cursor.None? ==>
          forall t, v :: t in s.tasks && s.tasks[t].floor.Some? && v in s.rows ==> v < s.tasks[t].floor.value)
  }

  /** The promise: a fresh id is carried by no stored chunk and was handed to nobody else. */
  ghost predicate Fresh(s: State, id: nat)
  {
    && id !in s.rows && id !in s.issued
    && (forall t :: t in s.tasks ==> id !in s.tasks[t].ids)
    && (forall v :: v in s.issued ==> v < id)
  }

  lemma StepSafe(s: State, e: Event)
    requires Safe(s) && Enabled(s, e)
    ensures Safe(Next(s, e))
    ensures HandsOut(s, e).Some? ==> Fresh(s, HandsOut(s, e).value)
  {
    if HandsOut(s, e).Some? {
      HandedSafe(s, e.t, HandsOut(s, e).value);
    }
    if e.Land? {
      forall v | v in e.chunked ensures v in s.issued {
        assert v in s.tasks[e.t].ids;
      }
    }
  }

  lemma HandedSafe(s: State, t: nat, id: nat)
    requires Safe(s) && t in s.tasks
    requires s.cursor.Some? ==> id >= s.cursor.value
    requires s.cursor.None? ==> forall v :: v in s.rows ==> v < id
    ensures Safe(Handed(s, t, id)) && Fresh(s, id)
  {
  }

  /** A run: one state per moment, one event between each two. */
  ghost predicate IsRun(states: seq<State>, events: seq<Event>)
  {
    && |states| == |events| + 1
    && forall i :: 0 <= i < |events| ==> Enabled(states[i], events[i]) && states[i + 1] == Next(states[i], events[i])
  }

  /**
   Whatever the interleaving (concurrent first use, stale reads, commits landing in any order or never, a counter
   walked backwards, a reopen at any point), no id is handed out while a stored chunk carries it, nor twice.
   */
  lemma {:induction false} NeverReissued(states: seq<State>, events: seq<Event>, rows: set<nat>, stored: nat)
    requires IsRun(states, events) && states[0] == State(None, stored, rows, {}, map[], {})
    ensures forall i :: 0 <= i < |states| ==> Safe(states[i])
    ensures forall i :: 0 <= i < |events| && HandsOut(states[i], events[i]).Some? ==>
              Fresh(states[i], HandsOut(states[i], events[i]).value)
  {
    for i := 0 to |events|
      invariant forall j :: 0 <= j <= i ==> Safe(states[j])
    {
      StepSafe(states[i], events[i]);
    }
    forall i | 0 <= i < |events| && HandsOut(states[i], events[i]).Some?
      ensures Fresh(states[i], HandsOut(states[i], events[i]).value)
    {
      StepSafe(states[i], events[i]);
    }
  }

  // ---- values without chunks -----------------------------------------

  /** The first session after a reopen, nothing being removed meanwhile. */
  ghost predicate Session(states: seq<State>, events: seq<Event>, s: State)
  {
    && IsRun(states, events) && states[0] == s && events != [] && events[0] == Reopen
    && forall i :: 1 <= i < |events| ==> !events[i].Reopen? && !events[i].Collect?
  }

  /** Until the cursor is seeded everything a caller reads is what the reopen found. */
  ghost predicate Seeding(s: State, start: State)
  {
    var floor := ReopenFloor(start);
    && (s.cursor.Some? ==> s.cursor.value > floor)
    && (s.cursor.None? ==>
          && s.rows == start.rows && s.stored == start.stored
          && (forall t :: t in s.tasks ==>
                && s.tasks[t].ids == {} && s.tasks[t].counterOp == None
                && (s.tasks[t].counter.Some? ==> s.tasks[t].counter.value == start.stored)
                && (s.tasks[t].floor.Some? ==> s.tasks[t].floor.value == FloorOf(start.rows))))
  }

  lemma SeedingStays(s: State, e: Event, start: State)
    requires Seeding(s, start) && Enabled(s, e) && !e.Reopen? && !e.Collect?
    ensures Seeding(Next(s, e), start)
    ensures HandsOut(s, e).Some? ==> HandsOut(s, e).value >= ReopenFloor(start)
  {
    if e.Land? && s.cursor.None? {
      assert e.chunked == {} by { assert s.tasks[e.t].ids == {}; }
      assert s.rows + e.chunked == s.rows;
    }
  }

  lemma SessionAboveFloor(states: seq<State>, events: seq<Event>, s: State)
    requires Session(states, events, s)
    ensures forall i :: 0 <= i < |events| && HandsOut(states[i], events[i]).Some? ==>
              HandsOut(states[i], events[i]).value >= ReopenFloor(s)
  {
    assert states[1] == Next(states[0], events[0]);
    for i := 1 to |events|
      invariant Seeding(states[i], s)
      invariant forall j :: 0 <= j < i && HandsOut(states[j], events[j]).Some? ==>
                  HandsOut(states[j], events[j]).value >= ReopenFloor(s)
    {
      SeedingStays(states[i], events[i], s);
    }
  }

  /** One caller alone is handed the floor and everything above it in turn. */
  lemma LoneCaller(s: State, n: nat) returns (states: seq<State>, events: seq<Event>)
    requires ReopenFloor(s) + n < U64_MAX
    ensures Session(states, events, s)
    ensures HandsOut(states[|events| - 1], events[|events| - 1]) == Some(ReopenFloor(s) + n)
    ensures states[|events|].cursor == Some(ReopenFloor(s) + n + 1) && 0 in states[|events|].tasks
    decreases n
  {
    if n == 0 {
      events := [Reopen, Begin(0), ReadCounter(0), ReadHighest(0), SeedAndTake(0)];
      var s1 := Next(s, Reopen);
      var s2 := Next(s1, Begin(0));
      var s3 := Next(s2, ReadCounter(0));
      var s4 := Next(s3, ReadHighest(0));
      var s5 := Next(s4, SeedAndTake(0));
      states := [s, s1, s2, s3, s4, s5];
      assert s4.tasks == map[0 := Task(Some(s.stored), Some(FloorOf(s.rows)), {}, None)];
    } else {
      var before, steps := LoneCaller(s, n - 1);
      var last := before[|steps|];
      states, events := before + [Next(last, Take(0))], steps + [Take(0)];
    }
  }

  /**
   A pointer without chunks leaves no row for the floor to see. Its id stays out of circulation in the session
   after a reopen exactly when the stored counter, or some stored row, is still past it.
   */
  lemma HollowSafeExactly(s: State, id: nat)
    requires id < U64_MAX
    ensures (forall states, events :: Session(states, events, s) ==>
               forall i :: 0 <= i < |events| ==> HandsOut(states[i], events[i]) != Some(id))
            <==> id < ReopenFloor(s)
  {
    if id < ReopenFloor(s) {
      forall states, events | Session(states, events, s)
        ensures forall i :: 0 <= i < |events| ==> HandsOut(states[i], events[i]) != Some(id)
      {
        SessionAboveFloor(states, events, s);
      }
    } else {
      var states, events := LoneCaller(s, id - ReopenFloor(s));
      assert HandsOut(states[|events| - 1], events[|events| - 1]) == Some(id);
    }
  }

  const PUT_TASK := Task(Some(0), Some(0), {0}, Some(1))
  const WRITER_TASK := Task(None, None, {1}, Some(2))
  const NEW_TASK := Task(None, None, {}, None)

  /** A put seeds the cursor, takes id 0 and builds its commit. */
  lemma PutBuilds() returns (states: seq<State>, events: seq<Event>)
    ensures IsRun(states, events) && |events| == 5
    ensures states[0] == State(None, 0, {}, {}, map[], {})
    ensures states[5] == State(Some(1), 0, {}, {}, map[0 := PUT_TASK], {0})
  {
    events := [Begin(0), ReadCounter(0), ReadHighest(0), SeedAndTake(0), Build(0)];
    states := [
      State(None, 0, {}, {}, map[], {}),
      State(None, 0, {}, {}, map[0 := NEW_TASK], {}),
      State(None, 0, {}, {}, map[0 := NEW_TASK.(counter := Some(0))], {}),
      State(None, 0, {}, {}, map[0 := NEW_TASK.(counter := Some(0), floor := Some(0))], {}),
      State(Some(1), 0, {}, {}, map[0 := PUT_TASK.(counterOp := None)], {0}),
      State(Some(1), 0, {}, {}, map[0 := PUT_TASK], {0})];
    assert {} + {0} == {0};
    assert FloorOf({}) == 0;
    forall i | 0 <= i < 5 ensures Enabled(states[i], events[i]) && states[i + 1] == Next(states[i], events[i]) {
    }
  }

  /** A writer takes id 1 and publishes an empty value under it; then the put lands, with the older counter. */
  lemma PutLandsLate() returns (states: seq<State>, events: seq<Event>)
    ensures IsRun(states, events) && |events| == 6
    ensures states[0] == State(Some(1), 0, {}, {}, map[0 := PUT_TASK], {0})
    ensures states[6] == State(None, 1, {0}, {1}, map[], {})
  {
    events := [Begin(1), Take(1), Build(1), Land(1, {}, {1}), Land(0, {0}, {}), Reopen];
    var busy := map[0 := PUT_TASK, 1 := WRITER_TASK];
    states := [
      State(Some(1), 0, {}, {}, map[0 := PUT_TASK], {0}),
      State(Some(1), 0, {}, {}, map[0 := PUT_TASK, 1 := NEW_TASK], {0}),
      State(Some(2), 0, {}, {}, map[0 := PUT_TASK, 1 := WRITER_TASK.(counterOp := None)], {0, 1}),
      State(Some(2), 0, {}, {}, busy, {0, 1}),
      State(Some(2), 2, {}, {1}, busy, {0, 1}),
      State(Some(2), 1, {0}, {1}, busy, {0, 1}),
      State(None, 1, {0}, {1}, map[], {})];
    assert {} + {1} == {1};
    forall i | 0 <= i < 6 ensures Enabled(states[i], events[i]) && states[i + 1] == Next(states[i], events[i]) {
    }
  }

  /**
   How it goes wrong: a put takes id 0 and builds its commit; a writer takes id 1, lands its counter and publishes
   an empty value under id 1; the put lands late and walks the stored counter back to 1. After a reopen, id 1 is
   handed out again while a stored pointer carries it.
   */
  lemma EmptyValueReissued() returns (states: seq<State>, events: seq<Event>)
    ensures IsRun(states, events) && states[0] == State(None, 0, {}, {}, map[], {})
    ensures var last := states[|events|]; 1 in last.hollow && last.cursor == None && ReopenFloor(last) == 1
  {
    var before, first := PutBuilds();
    var after, rest := PutLandsLate();
    states, events := before + after[1..], first + rest;
    forall i | 0 <= i < 11 ensures Enabled(states[i], events[i]) && states[i + 1] == Next(states[i], events[i]) {
      if i < 5 {
        assert states[i] == before[i] && states[i + 1] == before[i + 1];
      } else {
        assert states[i] == after[i - 5] && states[i + 1] == after[i - 4];
      }
    }
  }
}
