/** The bank-wide logical clock the least-recently-used order is measured by. */
module LogicalClock {
  import opened Wrappers
  import opened Bytes

  /** `floor` is one past the highest tick read back from stored rows. */
  datatype TickState = TickState(next: Option<nat>, floor: nat)

  function Max(a: nat, b: nat): nat { if a < b then b else a }

  /** Where issuing goes on: the largest of cursor, stored counter and floor; unknown while neither counter is. */
  function CursorOf(t: TickState, stored: Option<nat>): Option<nat>
  {
    match (t.next, stored)
    case (Some(n), Some(s)) => Some(Max(Max(n, s), t.floor))
    case (Some(n), None) => Some(Max(n, t.floor))
    case (None, Some(s)) => Some(Max(s, t.floor))
    case (None, None) => None
  }

  function Issue(t: TickState, tick: nat): TickState { t.(next := Some(tick + 1)) }

  function Observed(t: TickState, seen: nat): TickState
  {
    var floor := Max(t.floor, seen + 1);
    TickState(if t.next.Some? then Some(Max(t.next.value, floor)) else None, floor)
  }

  /** What a commit persists as the high-water mark. */
  function Persisted(t: TickState): nat
  {
    if t.next.Some? then Max(t.next.value, t.floor) else t.floor
  }

  /** What an allocation hands out: the cursor, or on first use the stored counter. */
  function NextTick(t: TickState, stored: Option<nat>): nat
  {
    match CursorOf(t, None)
    case Some(tick) => tick
    case None => Max(if stored.Some? then stored.value else 0, t.floor)
  }

  /** Nothing a cursor does ever moves it back. */
  predicate NotBehind(t: TickState, u: TickState)
  {
    t.floor <= u.floor && (t.next.Some? ==> u.next.Some? && t.next.value <= u.next.value)
  }

  /** Nor does the tick handed out next ever fall back. */
  predicate Onward(t: TickState, u: TickState, stored: Option<nat>)
  {
    NotBehind(t, u) && NextTick(t, stored) <= NextTick(u, stored)
  }

  class Ticks {
    var next: Option<nat>
    var floor: nat

    constructor ()
      ensures State() == TickState(None, 0)
    {
      next, floor := None, 0;
    }

    function State(): TickState
      reads this
    {
      TickState(next, floor)
    }

    /** Take a tick if the cursor is seeded; the outer option is `None` when ticks are exhausted. */
    method Take() returns (r: Option<Option<nat>>)
      modifies this
      ensures match CursorOf(old(State()), None)
              case None => r == Some(None) && State() == old(State())
              case Some(tick) =>
                if tick >= U64_MAX then r == None && State() == old(State())
                else r == Some(Some(tick)) && State() == Issue(old(State()), tick)
    {
      match CursorOf(State(), None)
      case None =>
        return Some(None);
      case Some(tick) =>
        if tick >= U64_MAX { return None; }
        next := Some(tick + 1);
        return Some(Some(tick));
    }

    /** Fold in the stored counter, then take. */
    method SeedAndTake(stored: nat) returns (r: Option<nat>)
      modifies this
      ensures var tick := CursorOf(old(State()), Some(stored)).value;
              if tick >= U64_MAX then r == None && State() == old(State())
              else r == Some(tick) && State() == Issue(old(State()), tick)
      ensures r.Some? ==>
                && r.value >= stored && r.value >= old(floor) && (old(next).Some? ==> r.value >= old(next).value)
                && (r.value == stored || r.value == old(floor) || r == old(next))
    {
      var tick := CursorOf(State(), Some(stored)).value;
      if tick >= U64_MAX { return None; }
      next := Some(tick + 1);
      return Some(tick);
    }

    /** A row read back carries this tick: every tick from now on is later. */
    method ObserveRecorded(seen: nat) returns (ok: bool)
      modifies this
      ensures ok == (seen < U64_MAX)
      ensures State() == if ok then Observed(old(State()), seen) else old(State())
    {
      if seen >= U64_MAX { return false; }
      floor := Max(floor, seen + 1);
      if next.Some? { next := Some(Max(next.value, floor)); }
      return true;
    }

    /** `stored` is the persisted counter, read only when the cursor is not seeded. */
    method Allocate(stored: Option<nat>) returns (r: Option<nat>)
      modifies this
      ensures r == if NextTick(old(State()), stored) >= U64_MAX then None else Some(NextTick(old(State()), stored))
      ensures State() == if r.Some? then Issue(old(State()), r.value) else old(State())
    {
      var taken := Take();
      match taken
      case None => return None;
      case Some(Some(tick)) => return Some(tick);
      case Some(None) => r := SeedAndTake(if stored.Some? then stored.value else 0);
    }

    method Counter() returns (value: nat)
      ensures value == Persisted(State())
    {
      value := match CursorOf(State(), None) { case Some(n) => n case None => floor };
    }
  }

  // ---- the clock as a protocol ---------------------------------------

  /**
   What can happen to one bank's clock. An allocation that finds the cursor unseeded reads the stored
   counter while others proceed, so the value it brings back may be arbitrarily stale.
   */
  datatype ClockStep = Allocate | FinishSeeding(stored: nat) | Observe(seen: nat) | Persist

  /** The run so far: ticks issued, ticks read back from storage, counters written. */
  datatype Clock = Clock(state: TickState, issued: seq<nat>, seen: set<nat>, written: seq<nat>)

  function Next(c: Clock, step: ClockStep): Clock
  {
    match step
    case Allocate =>
      (match CursorOf(c.state, None)
       case None => c
       case Some(tick) => c.(state := Issue(c.state, tick), issued := c.issued + [tick]))
    case FinishSeeding(stored) =>
      var tick := CursorOf(c.state, Some(stored)).value;
      c.(state := Issue(c.state, tick), issued := c.issued + [tick])
    case Observe(seen) => c.(state := Observed(c.state, seen), seen := c.seen + {seen})
    case Persist => c.(written := c.written + [Persisted(c.state)])
  }

  function Run(c: Clock, steps: seq<ClockStep>): Clock
    decreases |steps|
  {
    if steps == [] then c else Next(Run(c, steps[..|steps| - 1]), steps[|steps| - 1])
  }

  ghost predicate Ordered(c: Clock)
  {
    && (forall i, j :: 0 <= i < j < |c.issued| ==> c.issued[i] < c.issued[j])
    && (forall i :: 0 <= i < |c.issued| ==> c.state.next.Some? && c.issued[i] < c.state.next.value)
    && (forall t :: t in c.seen ==> t < c.state.floor)
  }

  const FRESH_CLOCK := Clock(TickState(None, 0), [], {}, [])

  lemma {:induction false} StaysOrdered(c: Clock, steps: seq<ClockStep>)
    requires Ordered(c)
    ensures Ordered(Run(c, steps)) && NotBehind(c.state, Run(c, steps).state)
    decreases |steps|
  {
    if steps != [] {
      StaysOrdered(c, steps[..|steps| - 1]);
      StepOrdered(Run(c, steps[..|steps| - 1]), steps[|steps| - 1]);
    }
  }

  lemma StepOrdered(c: Clock, step: ClockStep)
    requires Ordered(c)
    ensures Ordered(Next(c, step)) && NotBehind(c.state, Next(c, step).state)
  {
  }

  /** Issued ticks strictly increase, over any interleaving. */
  lemma TicksIncrease(steps: seq<ClockStep>)
    ensures var issued := Run(FRESH_CLOCK, steps).issued;
            forall i, j :: 0 <= i < j < |issued| ==> issued[i] < issued[j]
  {
    StaysOrdered(FRESH_CLOCK, steps);
  }

  /** Once a locker's rows have been read back, every tick issued afterwards is above all of them. */
  lemma NewTicksAboveRecorded(before: seq<ClockStep>, after: seq<ClockStep>, step: ClockStep)
    ensures var c := Run(FRESH_CLOCK, before);
            var d := Run(c, after);
            var e := Next(d, step);
            |e.issued| > |d.issued| ==> forall t :: t in c.seen || t in c.issued ==> t < e.issued[|d.issued|]
  {
    StaysOrdered(FRESH_CLOCK, before);
    var c := Run(FRESH_CLOCK, before);
    StaysOrdered(c, after);
    HistoryGrows(c, after);
  }

  lemma {:induction false} HistoryGrows(c: Clock, steps: seq<ClockStep>)
    ensures c.issued <= Run(c, steps).issued && c.seen <= Run(c, steps).seen
    decreases |steps|
  {
    if steps != [] { HistoryGrows(c, steps[..|steps| - 1]); }
  }

  /** A persisted counter is past every tick issued and every tick read back by then. */
  lemma PersistedPastIssued(steps: seq<ClockStep>)
    ensures var c := Run(FRESH_CLOCK, steps);
            var w := Next(c, Persist).written;
            forall t :: t in c.issued || t in c.seen ==> t < w[|w| - 1]
  {
    StaysOrdered(FRESH_CLOCK, steps);
  }
}
