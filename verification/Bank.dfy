/**
 One name, one locker: opens race past a registry check, and the last word on a name is spoken when the locker
 they built is claimed.
 */
module Claims {
  import opened Wrappers

  type Name = string

  /** What the registry still holds once dead and closed lockers are pruned. */
  function Pruned<I(==)>(registry: map<Name, I>, live: set<I>): map<Name, I>
  {
    map n | n in registry && registry[n] in live :: registry[n]
  }

  function Found<I(==)>(registry: map<Name, I>, live: set<I>, name: Name): Option<I>
  {
    var kept := Pruned(registry, live);
    if name in kept then Some(kept[name]) else None
  }

  /** A claim that finds no live winner takes the name. */
  function Claimed<I(==)>(registry: map<Name, I>, live: set<I>, name: Name, mine: I): map<Name, I>
  {
    var kept := Pruned(registry, live);
    if name in kept then kept else kept[name := mine]
  }

  /** The resident state of one open locker; `handles` counts who holds it, the open that built it included. */
  class Inner {
    var closed: bool
    var handles: nat
    var nameShared: bool
    ghost const id: InnerId

    constructor (ghost id: InnerId)
      ensures !closed && handles == 1 && !nameShared && this.id == id
    {
      closed, handles, nameShared := false, 1, false;
      this.id := id;
    }

    predicate Live()
      reads this
    {
      handles > 0 && !closed
    }
  }

  class Registry {
    var open: map<Name, Inner>

    constructor ()
      ensures open == map[]
    {
      open := map[];
    }

    /** What stays is neither closed nor let go by its last holder, and nothing else goes. */
    method Prune()
      modifies this
      ensures forall n :: n in open <==> n in old(open) && !old(open)[n].closed && old(open)[n].handles > 0
      ensures forall n :: n in open ==> open[n] == old(open)[n]
    {
      open := map n | n in open && open[n].Live() :: open[n];
    }

    /** The live state behind a name, if any; whoever asked now holds it as well. */
    method OpenLocker(name: Name) returns (r: Option<Inner>)
      modifies this, open.Values`handles
      ensures forall n :: n in open <==> old(n in open && !open[n].closed && open[n].handles > 0)
      ensures forall n :: n in open ==> open[n] == old(open)[n]
      ensures r.Some? <==> old(name in open && !open[name].closed && open[name].handles > 0)
      ensures r.Some? ==> r.value == old(open)[name] && !r.value.closed
      ensures forall i: Inner :: old(allocated(i)) ==> i.handles == old(i.handles) + if r == Some(i) then 1 else 0
    {
      Prune();
      if name !in open { return None; }
      r := Some(open[name]);
      r.value.handles := r.value.handles + 1;
    }

    /** The loser's locker, and the winner's, are marked as sharing a name, and the loser holds the winner's. */
    method ClaimOpen(name: Name, mine: Inner) returns (winner: Option<Inner>)
      modifies this, mine`nameShared, open.Values`nameShared, open.Values`handles
      ensures forall n :: n in open <==> n == name || old(n in open && !open[n].closed && open[n].handles > 0)
      ensures forall n :: n in open && n != name ==> open[n] == old(open)[n]
      ensures winner.Some? <==> old(name in open && !open[name].closed && open[name].handles > 0)
      ensures winner.Some? ==> winner.value == old(open)[name] && !winner.value.closed
      ensures winner.Some? ==> winner.value.nameShared && mine.nameShared
      ensures name in open && open[name] == if winner.Some? then winner.value else mine
      ensures forall i: Inner :: old(allocated(i)) ==> i.handles == old(i.handles) + if winner == Some(i) then 1 else 0
    {
      Prune();
      if name in open {
        winner := Some(open[name]);
        winner.value.handles := winner.value.handles + 1;
        winner.value.nameShared := true;
        mine.nameShared := true;
      } else {
        winner := None;
        open := open[name := mine];
      }
    }
  }

  // ---- racing opens --------------------------------------------------

  type InnerId = nat

  /** An open under way: past the registry check, then with a locker of its own built. */
  datatype Opener = Preparing(name: Name) | Built(name: Name, mine: InnerId)

  datatype Handle = Handle(name: Name, inner: InnerId)

  /** `handles` are what callers hold; `closed` the lockers closed so far; ids below `used` are taken. */
  datatype State = State(
    registry: map<Name, InnerId>, openers: map<nat, Opener>, handles: map<nat, Handle>,
    closed: set<InnerId>, used: InnerId)

  datatype Event =
    | Check(t: nat, name: Name)
    | Build(t: nat)
    | Claim(t: nat)
    | Fail(t: nat)
    | Copy(t: nat, h: nat)
    | Drop(h: nat)
    | Close(h: nat)
    | LookUp

  /** A locker lives while a handle, or the open that built it, holds it. */
  ghost function Live(s: State): set<InnerId>
  {
    set i: InnerId | i < s.used && i !in s.closed && Held(s, i)
  }

  ghost predicate Held(s: State, i: InnerId)
  {
    || (exists h :: h in s.handles && s.handles[h].inner == i)
    || (exists t :: t in s.openers && s.openers[t].Built? && s.openers[t].mine == i)
  }

  ghost predicate Enabled(s: State, e: Event)
  {
    match e
    case Check(t, _) => t !in s.openers && t !in s.handles
    case Build(t) => t in s.openers && s.openers[t].Preparing? && t !in s.handles
    case Claim(t) => t in s.openers && s.openers[t].Built? && t !in s.handles
    case Fail(t) => t in s.openers
    case Copy(t, h) => t !in s.openers && t !in s.handles && h in s.handles
    case Drop(h) => h in s.handles
    case Close(h) => h in s.handles
    case LookUp => true
  }

  /** A caller's token `t` becomes its handle. */
  ghost function Next(s: State, e: Event): State
    requires Enabled(s, e)
  {
    match e
    case Check(t, name) =>
      var kept := s.(registry := Pruned(s.registry, Live(s)));
      (match Found(s.registry, Live(s), name)
       case Some(winner) => kept.(handles := s.handles[t := Handle(name, winner)])
       case None => kept.(openers := s.openers[t := Preparing(name)]))
    case Build(t) =>
      s.(openers := s.openers[t := Built(s.openers[t].name, s.used)], used := s.used + 1)
    case Claim(t) =>
      var name, mine := s.openers[t].name, s.openers[t].mine;
      var winner := Found(s.registry, Live(s), name);
      s.(registry := Claimed(s.registry, Live(s), name, mine), openers := s.openers - {t},
         handles := s.handles[t := Handle(name, if winner.Some? then winner.value else mine)])
    case Fail(t) => s.(openers := s.openers - {t})
    case Copy(t, h) => s.(handles := s.handles[t := s.handles[h]])
    case Drop(h) => s.(handles := s.handles - {h})
    case Close(h) => s.(closed := s.closed + {s.handles[h].inner})
    case LookUp => s.(registry := Pruned(s.registry, Live(s)))
  }

  /** Every unclosed handle holds the locker the registry finds under its name. */
  ghost predicate OneNameOneLocker(s: State)
  {
    forall h :: h in s.handles && s.handles[h].inner !in s.closed ==>
      Found(s.registry, Live(s), s.handles[h].name) == Some(s.handles[h].inner)
  }

  /** The same without asking who lives: an unclosed handle keeps its locker alive. */
  ghost predicate Registered(s: State)
  {
    forall h :: h in s.handles && s.handles[h].inner !in s.closed ==>
      s.handles[h].name in s.registry && s.registry[s.handles[h].name] == s.handles[h].inner
  }

  /** A locker still being opened is nobody else's, and only lockers already built are about. */
  ghost predicate OpenersApart(s: State)
  {
    && (forall h :: h in s.handles ==> s.handles[h].inner < s.used)
    && (forall i :: i in s.closed ==> i < s.used)
    && (forall t :: t in s.openers && s.openers[t].Built? ==>
          var i := s.openers[t].mine;
          && i < s.used && i !in s.closed && i !in s.registry.Values
          && (forall h :: h in s.handles ==> s.handles[h].inner != i)
          && (forall u :: u in s.openers && s.openers[u].Built? && s.openers[u].mine == i ==> u == t))
    && (forall n :: n in s.registry ==> s.registry[n] < s.used)
  }

  lemma HandleLives(s: State, h: nat)
    requires OpenersApart(s) && h in s.handles && s.handles[h].inner !in s.closed
    ensures s.handles[h].inner in Live(s)
  {
    assert Held(s, s.handles[h].inner);
  }

  lemma FoundByName(s: State)
    requires OpenersApart(s)
    ensures OneNameOneLocker(s) <==> Registered(s)
  {
    forall h | h in s.handles && s.handles[h].inner !in s.closed ensures s.handles[h].inner in Live(s) {
      HandleLives(s, h);
    }
  }

  /** Pruning never removes a locker some unclosed handle holds. */
  lemma PruneSpares(s: State)
    requires Registered(s) && OpenersApart(s)
    ensures Registered(s.(registry := Pruned(s.registry, Live(s))))
  {
    forall h | h in s.handles && s.handles[h].inner !in s.closed ensures s.handles[h].inner in Live(s) {
      HandleLives(s, h);
    }
  }

  lemma ClaimKeeps(s: State, t: nat)
    requires Registered(s) && OpenersApart(s) && Enabled(s, Claim(t))
    ensures Registered(Next(s, Claim(t))) && OpenersApart(Next(s, Claim(t)))
  {
    PruneSpares(s);
    var kept := Pruned(s.registry, Live(s));
    var name, s1 := s.openers[t].name, Next(s, Claim(t));
    forall h | h in s1.handles && s1.handles[h].inner !in s1.closed
      ensures s1.handles[h].name in s1.registry && s1.registry[s1.handles[h].name] == s1.handles[h].inner
    {
      if h != t { assert s.handles[h].name in kept; }
    }
  }

  lemma StepKeeps(s: State, e: Event)
    requires Registered(s) && OpenersApart(s) && Enabled(s, e)
    ensures Registered(Next(s, e)) && OpenersApart(Next(s, e))
  {
    if e.Claim? {
      ClaimKeeps(s, e.t);
    } else if e.Check? || e.LookUp? {
      PruneSpares(s);
    }
  }

  ghost predicate IsRun(states: seq<State>, events: seq<Event>)
  {
    && |states| == |events| + 1
    && forall i :: 0 <= i < |events| ==> Enabled(states[i], events[i]) && states[i + 1] == Next(states[i], events[i])
  }

  /**
   However opens, failures, drops and closes interleave: all unclosed handles on a name share one locker, the one
   the registry finds.
   */
  lemma OneNameOneLockerAlways(states: seq<State>, events: seq<Event>, h: nat, j: nat)
    requires IsRun(states, events) && states[0] == State(map[], map[], map[], {}, 0)
    ensures forall i :: 0 <= i < |states| ==> OneNameOneLocker(states[i])
    ensures var s := states[|events|];
      h in s.handles && j in s.handles && s.handles[h].name == s.handles[j].name
      && s.handles[h].inner !in s.closed && s.handles[j].inner !in s.closed
      ==> s.handles[h].inner == s.handles[j].inner
  {
    for i := 0 to |events|
      invariant forall k :: 0 <= k <= i ==> Registered(states[k]) && OpenersApart(states[k])
    {
      StepKeeps(states[i], events[i]);
    }
    forall i | 0 <= i < |states| ensures OneNameOneLocker(states[i]) { FoundByName(states[i]); }
  }

  // ---- the registry as the protocol's ---------------------------------

  /** What every run keeps. */
  ghost predicate Sane(s: State) { Registered(s) && OpenersApart(s) }

  function HandleSet(s: State, i: InnerId): set<nat> { set h | h in s.handles && s.handles[h].inner == i }

  function OpenerSet(s: State, i: InnerId): set<nat>
  {
    set t | t in s.openers && s.openers[t].Built? && s.openers[t].mine == i
  }

  /** How many hold a locker: its handles, and the open that built it. */
  function Holders(s: State, i: InnerId): nat { |HandleSet(s, i)| + |OpenerSet(s, i)| }

  /** What of the protocol's state the objects show: who has which name, what is closed, how many hold what. */
  datatype View = View(names: map<Name, InnerId>, closed: set<InnerId>, tally: InnerId -> nat)

  ghost function Seen(s: State): View { View(s.registry, s.closed, i => Holders(s, i)) }

  /** One who holds `more`, if any, is new, and one who held `less`, if any, is gone. */
  ghost predicate Recount(v: View, v': View, more: Option<InnerId>, less: Option<InnerId>)
  {
    forall i: nat :: v'.tally(i) + (if less == Some(i) then 1 else 0) == v.tally(i) + (if more == Some(i) then 1 else 0)
  }

  lemma HeldIsCounted(s: State, i: InnerId)
    ensures Held(s, i) <==> Holders(s, i) > 0
  {
    if Holders(s, i) > 0 {
      if HandleSet(s, i) != {} { var h :| h in HandleSet(s, i); } else { var t :| t in OpenerSet(s, i); }
    }
    if h :| h in s.handles && s.handles[h].inner == i { assert h in HandleSet(s, i); }
    if t :| t in s.openers && s.openers[t].Built? && s.openers[t].mine == i { assert t in OpenerSet(s, i); }
  }

  lemma SameHolders(s: State, s': State)
    requires s'.handles == s.handles && s'.openers == s.openers
    ensures Recount(Seen(s), Seen(s'), None, None)
  {
    forall i ensures Holders(s', i) == Holders(s, i) {
      assert HandleSet(s', i) == HandleSet(s, i) && OpenerSet(s', i) == OpenerSet(s, i);
    }
  }

  lemma MoreHandle(s: State, s': State, t: nat, i: InnerId)
    requires t !in s.handles && t in s'.handles && s'.handles == s.handles[t := s'.handles[t]]
    requires s'.openers == s.openers
    ensures Holders(s', i) == Holders(s, i) + if i == s'.handles[t].inner then 1 else 0
  {
    assert HandleSet(s', i) == HandleSet(s, i) + if i == s'.handles[t].inner then {t} else {};
    assert OpenerSet(s', i) == OpenerSet(s, i);
  }

  lemma MoreHandles(s: State, s': State, t: nat)
    requires t !in s.handles && t in s'.handles && s'.handles == s.handles[t := s'.handles[t]]
    requires s'.openers == s.openers
    ensures Recount(Seen(s), Seen(s'), Some(s'.handles[t].inner), None)
  {
    forall i: nat ensures Holders(s', i) == Holders(s, i) + if i == s'.handles[t].inner then 1 else 0 {
      MoreHandle(s, s', t, i);
    }
  }

  lemma OpenerPrepares(s: State, s': State, t: nat)
    requires t !in s.openers && t in s'.openers && s'.openers[t].Preparing?
    requires s'.openers == s.openers[t := s'.openers[t]] && s'.handles == s.handles
    ensures Recount(Seen(s), Seen(s'), None, None)
  {
    forall i ensures Holders(s', i) == Holders(s, i) {
      assert HandleSet(s', i) == HandleSet(s, i) && OpenerSet(s', i) == OpenerSet(s, i);
    }
  }

  lemma OpenerBuilds(s: State, t: nat)
    requires OpenersApart(s) && Enabled(s, Event.Build(t))
    ensures var s' := Next(s, Event.Build(t));
      Holders(s', s.used) == 1 && forall i: nat :: i != s.used ==> Holders(s', i) == Holders(s, i)
  {
    var s' := Next(s, Event.Build(t));
    forall i | i != s.used ensures Holders(s', i) == Holders(s, i) {
      assert HandleSet(s', i) == HandleSet(s, i) && OpenerSet(s', i) == OpenerSet(s, i);
    }
    assert HandleSet(s', s.used) == {} && OpenerSet(s', s.used) == {t};
  }

  lemma HandleGone(s: State, s': State, h: nat)
    requires h in s.handles && s'.handles == s.handles - {h} && s'.openers == s.openers
    ensures Recount(Seen(s), Seen(s'), None, Some(s.handles[h].inner))
  {
    forall i: nat ensures Holders(s, i) == Holders(s', i) + if i == s.handles[h].inner then 1 else 0 {
      LessHandle(s, s', h, i);
    }
  }

  lemma LessHandle(s: State, s': State, h: nat, i: InnerId)
    requires h in s.handles && s'.handles == s.handles - {h} && s'.openers == s.openers
    ensures Holders(s, i) == Holders(s', i) + if i == s.handles[h].inner then 1 else 0
  {
    assert HandleSet(s, i) == HandleSet(s', i) + if i == s.handles[h].inner then {h} else {};
    assert OpenerSet(s', i) == OpenerSet(s, i);
  }

  /** The locker an open built, if it got that far. */
  ghost function BuiltBy(s: State, t: nat): Option<InnerId>
    requires t in s.openers
  {
    if s.openers[t].Built? then Some(s.openers[t].mine) else None
  }

  lemma OpenerGone(s: State, s': State, t: nat)
    requires t in s.openers && s'.openers == s.openers - {t} && s'.handles == s.handles
    ensures Recount(Seen(s), Seen(s'), None, BuiltBy(s, t))
  {
    forall i: nat ensures Holders(s, i) == Holders(s', i) + if BuiltBy(s, t) == Some(i) then 1 else 0 {
      LessOpener(s, s', t, i);
    }
  }

  lemma LessOpener(s: State, s': State, t: nat, i: InnerId)
    requires t in s.openers && s'.openers == s.openers - {t} && s'.handles == s.handles
    ensures Holders(s, i) == Holders(s', i) + if BuiltBy(s, t) == Some(i) then 1 else 0
  {
    assert OpenerSet(s, i) == OpenerSet(s', i) + if BuiltBy(s, t) == Some(i) then {t} else {};
    assert HandleSet(s', i) == HandleSet(s, i);
  }

  /** What a check does to who holds what. */
  lemma Checked(s: State, t: nat, name: Name)
    requires Enabled(s, Event.Check(t, name))
    ensures Recount(Seen(s), Seen(Next(s, Event.Check(t, name))), Found(s.registry, Live(s), name), None)
  {
    var s1 := Next(s, Event.Check(t, name));
    if Found(s.registry, Live(s), name).Some? { MoreHandles(s, s1, t); } else { OpenerPrepares(s, s1, t); }
  }

  /** A claim: the open's own locker is let go for the winner's, if there is one. */
  lemma ClaimSettles(s: State, t: nat)
    requires Enabled(s, Event.Claim(t))
    ensures var (winner, m) := (Found(s.registry, Live(s), s.openers[t].name), s.openers[t].mine);
      Recount(Seen(s), Seen(Next(s, Event.Claim(t))), winner, if winner.Some? then Some(m) else None)
  {
    var s1 := Next(s, Event.Claim(t));
    var mid := s.(openers := s.openers - {t}, registry := s1.registry);
    OpenerGone(s, mid, t);
    MoreHandles(mid, s1, t);
  }

  /** A locker still being opened is held and unclosed. */
  lemma OpenerAlone(s: State, t: nat)
    requires OpenersApart(s) && t in s.openers && s.openers[t].Built?
    ensures var m := s.openers[t].mine; m < s.used && m !in s.closed && Holders(s, m) > 0
  {
    assert t in OpenerSet(s, s.openers[t].mine);
  }

  /**
   Opens, copies, drops and closes as calls on a registry and its lockers. The ghost state is the protocol's; every
   call is one of its steps, so what is proved of its runs is proved of any sequence of calls.
   */
  class Openings {
    const registry: Registry
    ghost var inners: seq<Inner>
    ghost var state: State

    constructor ()
      ensures Valid() && state == State(map[], map[], map[], {}, 0) && fresh(registry) && inners == []
    {
      registry := new Registry();
      inners, state := [], State(map[], map[], map[], {}, 0);
    }

    ghost predicate Valid()
      reads this, registry, inners
    {
      && Sane(state) && Numbered() && |inners| == state.used && Shows(Seen(state))
    }

    ghost predicate Numbered()
      reads this`inners
    {
      forall i :: 0 <= i < |inners| ==> inners[i].id == i
    }

    /** The registry and the lockers are as the protocol has them, locker for number. */
    ghost predicate Shows(v: View)
      reads this`inners, registry, inners
    {
      ShowsNames(v.names) && ShowsInners(v)
    }

    ghost predicate ShowsNames(names: map<Name, InnerId>)
      reads this`inners, registry
    {
      && (forall n :: n in registry.open <==> n in names)
      && (forall n :: n in names ==> names[n] < |inners| && registry.open[n] == inners[names[n]])
    }

    ghost predicate ShowsInners(v: View)
      reads this`inners, inners
    {
      forall i :: 0 <= i < |inners| ==> (inners[i].closed <==> i in v.closed) && inners[i].handles == v.tally(i)
    }

    lemma LiveIs(i: nat)
      requires Valid() && i < |inners|
      ensures inners[i].Live() <==> i in Live(state)
    {
      HeldIsCounted(state, i);
    }

    /** Pruning the registry is pruning the protocol's. */
    lemma PrunedAlike()
      requires Valid()
      ensures forall n :: n in registry.open && !registry.open[n].closed && registry.open[n].handles > 0
                     <==> n in Pruned(state.registry, Live(state))
    {
      forall n ensures n in registry.open && !registry.open[n].closed && registry.open[n].handles > 0
                       <==> n in Pruned(state.registry, Live(state))
      {
        if n in state.registry { LiveIs(state.registry[n]); }
      }
    }

    /** The name is held by the locker so numbered, unclosed, or by none. */
    ghost predicate AnswersWith(name: Name, winner: Option<InnerId>)
      reads this`inners, registry, registry.open.Values, inners
    {
      && (winner.Some? <==> name in registry.open && !registry.open[name].closed && registry.open[name].handles > 0)
      && (winner.Some? ==> winner.value < |inners| && registry.open[name] == inners[winner.value])
    }

    /** `names1` is what pruning leaves of `names`. */
    ghost predicate StaysAs(names: map<Name, InnerId>, names1: map<Name, InnerId>)
      reads this`inners, registry, registry.open.Values
    {
      && (forall n :: n in names1 <==> n in registry.open && !registry.open[n].closed && registry.open[n].handles > 0)
      && (forall n :: n in names1 ==> n in names && names1[n] == names[n])
    }

    /** `names1` is what pruning leaves of `names`, with `m` under the name if nobody won it. */
    ghost predicate StaysBut(names: map<Name, InnerId>, names1: map<Name, InnerId>, name: Name, winner: Option<InnerId>,
                             m: InnerId)
      reads this`inners, registry, registry.open.Values
    {
      && (forall n :: n != name ==>
            (n in names1 <==> n in registry.open && !registry.open[n].closed && registry.open[n].handles > 0))
      && (forall n :: n != name && n in names1 ==> n in names && names1[n] == names[n])
      && name in names1 && names1[name] == if winner.Some? then winner.value else m
    }

    /** The answer to whether a locker is open: an unclosed one is held under the name. */
    method IsOpen(name: Name) returns (yes: bool)
      requires Valid()
      modifies this`state, registry
      ensures Valid() && state == Next(old(state), LookUp) && inners == old(inners)
      ensures yes <==> old(name in registry.open && !registry.open[name].closed && registry.open[name].handles > 0)
    {
      PrunedAlike();
      StepKeeps(state, LookUp);
      registry.Prune();
      state := Next(state, LookUp);
      SameHolders(old(state), state);
      yes := name in registry.open;
    }

    /** The registry's answer when it shows `v`. */
    method Ask(name: Name, ghost v: View, ghost v1: View, ghost winner: Option<InnerId>) returns (found: Option<Inner>)
      requires Numbered() && Shows(v) && v1.closed == v.closed
      requires AnswersWith(name, winner) && StaysAs(v.names, v1.names) && Recount(v, v1, winner, None)
      modifies registry, inners
      ensures Shows(v1)
      ensures found == if winner.Some? then Some(inners[winner.value]) else None
      ensures found.Some? ==> !found.value.closed
    {
      found := registry.OpenLocker(name);
      forall j | 0 <= j < |inners|
        ensures inners[j].handles == old(inners[j].handles) + if winner == Some(j) then 1 else 0
      {
        assert found == Some(inners[j]) <==> winner == Some(j);
      }
    }

    lemma CheckReady(t: nat, name: Name)
      requires Valid() && Enabled(state, Event.Check(t, name))
      ensures var (s1, winner) := (Next(state, Event.Check(t, name)), Found(state.registry, Live(state), name));
        && Sane(s1) && AnswersWith(name, winner) && StaysAs(state.registry, s1.registry)
        && Recount(Seen(state), Seen(s1), winner, None) && s1.closed == state.closed && s1.used == state.used
        && if winner.Some? then t in s1.handles && s1.handles[t].inner == winner.value else t in s1.openers
    {
      var (s, s1, winner) := (state, Next(state, Event.Check(t, name)), Found(state.registry, Live(state), name));
      assert Sane(s1) by { StepKeeps(s, Event.Check(t, name)); }
      assert AnswersWith(name, winner) && StaysAs(s.registry, s1.registry) by { PrunedAlike(); }
      Checked(s, t, name);
    }

    /** The check an open begins with: the locker already open under the name, or leave to go on. */
    method Check(ghost t: nat, name: Name) returns (found: Option<Inner>)
      requires Valid() && Enabled(state, Event.Check(t, name))
      modifies this`state, registry, inners
      ensures Valid() && state == Next(old(state), Event.Check(t, name)) && inners == old(inners)
      ensures found.Some? <==>
              old(name in registry.open && !registry.open[name].closed && registry.open[name].handles > 0)
      ensures found.Some? ==> !found.value.closed && t in state.handles && found.value == inners[state.handles[t].inner]
      ensures found.None? ==> t in state.openers
    {
      ghost var s1 := Next(state, Event.Check(t, name));
      ghost var winner := Found(state.registry, Live(state), name);
      CheckReady(t, name);
      found := Ask(name, Seen(state), Seen(s1), winner);
      state := s1;
    }

    /** An open that went on has built a locker of its own. */
    method Build(ghost t: nat) returns (mine: Inner)
      requires Valid() && Enabled(state, Event.Build(t))
      modifies this
      ensures Valid() && state == Next(old(state), Event.Build(t))
      ensures fresh(mine) && inners == old(inners) + [mine] && state.openers[t].mine == |old(inners)|
    {
      StepKeeps(state, Event.Build(t));
      OpenerBuilds(state, t);
      mine := new Inner(|inners|);
      inners := inners + [mine];
      state := Next(state, Event.Build(t));
    }

    /** The registry's word on a claim. */
    method Settle(name: Name, mine: Inner, ghost m: InnerId, ghost names: map<Name, InnerId>,
                  ghost names1: map<Name, InnerId>, ghost winner: Option<InnerId>) returns (won: Option<Inner>)
      requires Numbered() && ShowsNames(names) && AnswersWith(name, winner) && StaysBut(names, names1, name, winner, m)
      requires m < |inners| && mine == inners[m]
      modifies registry, inners
      ensures ShowsNames(names1)
      ensures won == if winner.Some? then Some(inners[winner.value]) else None
      ensures won.Some? ==> !won.value.closed
      ensures forall j :: 0 <= j < |inners| ==> inners[j].closed == old(inners[j].closed)
      ensures forall j :: 0 <= j < |inners| ==>
        inners[j].handles == old(inners[j].handles) + if winner == Some(j) then 1 else 0
    {
      won := registry.ClaimOpen(name, mine);
      forall j | 0 <= j < |inners|
        ensures inners[j].handles == old(inners[j].handles) + if winner == Some(j) then 1 else 0
      {
        assert won == Some(inners[j]) <==> winner == Some(j);
      }
    }

    /** One who held a locker no longer does. */
    method LetGo(inner: Inner, ghost i: InnerId)
      requires Numbered() && i < |inners| && inner == inners[i] && inner.handles > 0
      modifies inner`handles
      ensures forall j :: 0 <= j < |inners| ==> inners[j].handles + (if j == i then 1 else 0) == old(inners[j].handles)
    {
      inner.handles := inner.handles - 1;
    }

    /** The one who now holds the name, a loser's own locker let go. */
    method Award(name: Name, mine: Inner, ghost m: InnerId, ghost v: View, ghost v1: View,
                 ghost winner: Option<InnerId>) returns (held: Inner)
      requires Numbered() && Shows(v) && v1.closed == v.closed
      requires AnswersWith(name, winner) && StaysBut(v.names, v1.names, name, winner, m)
      requires Recount(v, v1, winner, if winner.Some? then Some(m) else None)
      requires m < |inners| && mine == inners[m] && mine.handles > 0 && !mine.closed
      modifies registry, inners
      ensures Shows(v1)
      ensures held == inners[if winner.Some? then winner.value else m] && !held.closed
      ensures name in registry.open && registry.open[name] == held
    {
      var won := Settle(name, mine, m, v.names, v1.names, winner);
      if won.Some? { LetGo(mine, m); }
      held := if won.Some? then won.value else mine;
    }

    lemma ClaimReady(t: nat)
      requires Valid() && Enabled(state, Event.Claim(t))
      ensures var (s1, name, m) := (Next(state, Event.Claim(t)), state.openers[t].name, state.openers[t].mine);
        var winner := Found(state.registry, Live(state), name);
        && Sane(s1) && AnswersWith(name, winner) && StaysBut(state.registry, s1.registry, name, winner, m)
        && Recount(Seen(state), Seen(s1), winner, if winner.Some? then Some(m) else None)
        && m < |inners| && inners[m].handles > 0 && !inners[m].closed
    {
      var (s, s1, m) := (state, Next(state, Event.Claim(t)), state.openers[t].mine);
      assert Sane(s1) by { StepKeeps(s, Event.Claim(t)); }
      var winner := Found(s.registry, Live(s), s.openers[t].name);
      var name := s.openers[t].name;
      assert AnswersWith(name, winner) && StaysBut(s.registry, s1.registry, name, winner, m) by { PrunedAlike(); }
      OpenerAlone(s, t);
      ClaimSettles(s, t);
    }

    /** The claim an open ends with: its own locker, or the one that got there first, its own let go. */
    method Claim(ghost t: nat, name: Name, mine: Inner) returns (held: Inner)
      requires Valid() && Enabled(state, Event.Claim(t)) && name == state.openers[t].name
      requires mine == inners[state.openers[t].mine]
      modifies this`state, registry, inners
      ensures Valid() && state == Next(old(state), Event.Claim(t)) && inners == old(inners)
      ensures t in state.handles && held == inners[state.handles[t].inner] && !held.closed
      ensures name in registry.open && registry.open[name] == held
    {
      ghost var s, s1, m := state, Next(state, Event.Claim(t)), state.openers[t].mine;
      ghost var winner := Found(s.registry, Live(s), name);
      ClaimReady(t);
      state := s1;
      held := Award(name, mine, m, Seen(s), Seen(s1), winner);
    }

    /** An open that failed lets go of what it had built. */
    method Fail(ghost t: nat, mine: Inner?)
      requires Valid() && Enabled(state, Event.Fail(t))
      requires if state.openers[t].Built? then mine == inners[state.openers[t].mine] else mine == null
      modifies this`state, inners
      ensures Valid() && state == Next(old(state), Event.Fail(t)) && inners == old(inners)
    {
      ghost var s, s1 := state, Next(state, Event.Fail(t));
      assert Sane(s1) by { StepKeeps(s, Event.Fail(t)); }
      OpenerGone(s, s1, t);
      if mine != null { LetGo(mine, s.openers[t].mine); }
      state := s1;
    }

    /** Another handle on the same locker. */
    method Copy(ghost t: nat, ghost h: nat, inner: Inner)
      requires Valid() && Enabled(state, Event.Copy(t, h)) && inner == inners[state.handles[h].inner]
      modifies this`state, inners
      ensures Valid() && state == Next(old(state), Event.Copy(t, h)) && inners == old(inners)
    {
      ghost var s, s1 := state, Next(state, Event.Copy(t, h));
      assert Sane(s1) by { StepKeeps(s, Event.Copy(t, h)); }
      MoreHandles(s, s1, t);
      inner.handles := inner.handles + 1;
      state := s1;
    }

    method Drop(ghost h: nat, inner: Inner)
      requires Valid() && Enabled(state, Event.Drop(h)) && inner == inners[state.handles[h].inner]
      modifies this`state, inners
      ensures Valid() && state == Next(old(state), Event.Drop(h)) && inners == old(inners)
    {
      ghost var s, s1 := state, Next(state, Event.Drop(h));
      assert Sane(s1) by { StepKeeps(s, Event.Drop(h)); }
      HandleGone(s, s1, h);
      LetGo(inner, s.handles[h].inner);
      state := s1;
    }

    /** Closing one handle closes the locker for every other. */
    method Close(ghost h: nat, inner: Inner)
      requires Valid() && Enabled(state, Event.Close(h)) && inner == inners[state.handles[h].inner]
      modifies this`state, inners
      ensures Valid() && state == Next(old(state), Event.Close(h)) && inners == old(inners)
      ensures inner.closed
    {
      ghost var s, s1 := state, Next(state, Event.Close(h));
      assert Sane(s1) by { StepKeeps(s, Event.Close(h)); }
      SameHolders(s, s1);
      inner.closed := true;
      state := s1;
    }
  }
}
