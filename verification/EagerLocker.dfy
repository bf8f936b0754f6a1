/**
 One open eager locker as its caller uses it: writes mirrored into RAM, batches committed as one, its own news sent
 and other tabs' absorbed; and whole runs of it.
 */
module EagerCommits {
  import opened Wrappers
  import opened Bytes
  import opened Storage
  import opened Ownership
  import opened Inner
  import opened Batches
  import opened Transaction
  import opened News
  import opened EagerCoherence
  import Engine
  import Listing
  import L = LockerSteps

  // ---- the ops of a batch --------------------------------------------

  /** One collapsed action. A put is always inline, and passes over an old pointer that does not parse. */
  function EagerOps(s: Store, l: LockerId, k: Key, a: Action): seq<Op>
  {
    match a
    case Assign(payload) => GcOps(ParsedId(RecordAt(s, l, k))) + [PutRecord(l, k, Inline(payload))]
    case Remove => DeleteOps(s, l, k, Unknown)
  }

  function EagerActionOps(s: Store, l: LockerId, acts: map<Key, Action>, keys: seq<Key>): seq<Op>
    requires forall k :: k in keys ==> k in acts
    decreases |keys|
  {
    if keys == [] then []
    else
      EagerActionOps(s, l, acts, keys[..|keys| - 1]) + EagerOps(s, l, keys[|keys| - 1], acts[keys[|keys| - 1]])
  }

  lemma OneActionMore(s: Store, l: LockerId, acts: map<Key, Action>, keys: seq<Key>, i: nat)
    requires i < |keys| && forall k :: k in keys ==> k in acts
    ensures EagerActionOps(s, l, acts, keys[..i + 1]) ==
              EagerActionOps(s, l, acts, keys[..i]) + EagerOps(s, l, keys[i], acts[keys[i]])
  {
    assert keys[..i + 1][..i] == keys[..i];
  }

  ghost function EagerBatchOps(s: Store, l: LockerId, batch: seq<Pending>): seq<Op>
  {
    var acts := Actions(Tail(batch));
    SortedIs(acts.Keys);
    (if HasClear(batch) then ClearOps(s, l) else []) + EagerActionOps(s, l, acts, Sorted(acts.Keys))
  }

  /** What is under a key after a batch: the staged answer, or what was there before. */
  function Left(view: Option<Option<Payload>>, before: Option<Record>): Option<Record>
  {
    match view
    case Some(Some(payload)) => Some(Inline(payload))
    case Some(None) => None
    case None => before
  }

  function ViewOf(a: Action): Option<Payload>
  {
    match a
    case Assign(payload) => Some(payload)
    case Remove => None
  }

  lemma OneActionRecords(s0: Store, s: Store, l: LockerId, k: Key, a: Action)
    ensures var t := ApplyAll(s, EagerOps(s0, l, k, a));
      forall j :: RecordAt(t, l, j) == if j == k then Left(Some(ViewOf(a)), None) else RecordAt(s, l, j)
  {
    var gc := GcOps(if a.Assign? then ParsedId(RecordAt(s0, l, k)) else PointerId(RecordAt(s0, l, k)));
    var op := if a.Assign? then PutRecord(l, k, Inline(a.payload)) else DeleteRecord(l, k);
    assert EagerOps(s0, l, k, a) == gc + [op];
    ApplyAppend(s, gc, [op]);
    DropEffect(s, if a.Assign? then ParsedId(RecordAt(s0, l, k)) else PointerId(RecordAt(s0, l, k)));
    ApplyOne(ApplyAll(s, gc), op);
  }

  lemma {:induction false} ActionRecords(s0: Store, s: Store, l: LockerId, acts: map<Key, Action>, keys: seq<Key>)
    requires forall k :: k in keys ==> k in acts
    ensures var t := ApplyAll(s, EagerActionOps(s0, l, acts, keys));
      forall k :: RecordAt(t, l, k) == if k in keys then Left(Some(ViewOf(acts[k])), None) else RecordAt(s, l, k)
    decreases |keys|
  {
    if keys != [] {
      var init, k := keys[..|keys| - 1], keys[|keys| - 1];
      assert keys == init + [k];
      ActionRecords(s0, s, l, acts, init);
      ApplyAppend(s, EagerActionOps(s0, l, acts, init), EagerOps(s0, l, k, acts[k]));
      OneActionRecords(s0, ApplyAll(s, EagerActionOps(s0, l, acts, init)), l, k, acts[k]);
    }
  }

  /** The newest entry for a key is its collapsed action, if one survives the last clear. */
  lemma {:induction false} ViewIsAction(batch: seq<Pending>, k: Key)
    ensures var acts := Actions(Tail(batch));
      L.StagedView(batch, k) ==
        if k in acts then Some(ViewOf(acts[k])) else if HasClear(batch) then Some(None) else None
    decreases |batch|
  {
    if batch != [] {
      var init, last := batch[..|batch| - 1], batch[|batch| - 1];
      ViewIsAction(init, k);
      ClearsMore(batch);
      LastAction(batch);
    }
  }

  lemma LastAction(batch: seq<Pending>)
    requires batch != []
    ensures var before := Actions(Tail(batch[..|batch| - 1]));
      Actions(Tail(batch)) == match batch[|batch| - 1] {
        case Put(k, payload) => before[k := Assign(payload)]
        case Delete(k) => before[k := Remove]
        case Clear => map[]
      }
  {
    var init, last := batch[..|batch| - 1], batch[|batch| - 1];
    if !last.Clear? {
      assert Tail(batch) == Tail(init) + [last];
      assert (Tail(init) + [last])[..|Tail(init)|] == Tail(init);
    }
  }

  lemma ClearsMore(batch: seq<Pending>)
    requires batch != []
    ensures HasClear(batch) <==> HasClear(batch[..|batch| - 1]) || batch[|batch| - 1].Clear?
  {
    var init := batch[..|batch| - 1];
    if HasClear(init) {
      var i :| 0 <= i < |init| && init[i].Clear?;
      assert batch[i].Clear?;
    }
    if HasClear(batch) {
      var i :| 0 <= i < |batch| && batch[i].Clear?;
      assert i < |init| ==> init[i].Clear?;
    }
  }

  /** A committed batch leaves under every key of the locker what the batch said last of it. */
  lemma BatchRecords(s: Store, l: LockerId, batch: seq<Pending>)
    ensures var t := ApplyAll(s, EagerBatchOps(s, l, batch));
      forall k :: RecordAt(t, l, k) == Left(L.StagedView(batch, k), RecordAt(s, l, k))
  {
    var acts := Actions(Tail(batch));
    SortedIs(acts.Keys);
    var clear, ops := if HasClear(batch) then ClearOps(s, l) else [], EagerActionOps(s, l, acts, Sorted(acts.Keys));
    ApplyAppend(s, clear, ops);
    ClearRows(s, l);
    var s1 := ApplyAll(s, clear);
    ActionRecords(s, s1, l, acts, Sorted(acts.Keys));
    forall k ensures RecordAt(ApplyAll(s1, ops), l, k) == Left(L.StagedView(batch, k), RecordAt(s, l, k)) {
      ViewIsAction(batch, k);
      assert RecordAt(s1, l, k) == if HasClear(batch) then None else RecordAt(s, l, k);
    }
  }

  lemma {:induction false} EagerIsInline(s: Store, l: LockerId, acts: map<Key, Action>, keys: seq<Key>,
                                         next: Option<nat>)
    requires (forall k :: k in keys ==> k in acts) && BoundedActs(acts) && forall k :: Legible(RecordAt(s, l, k))
    ensures ActionOps(s, l, MAX_DECODED_BYTES, acts, keys, next) == Build(EagerActionOps(s, l, acts, keys), next)
    decreases |keys|
  {
    if keys != [] { EagerIsInline(s, l, acts, keys[..|keys| - 1], next); }
  }

  /**
   A batch of an eager locker does what a lazy locker's does: chunk ownership stays exact, the locker's contents are
   the batch replayed, and no other locker is touched, whatever was stored under the name before.
   */
  lemma EagerBatchBuilds(s: Store, ws: Writers, l: LockerId, batch: seq<Pending>, next: Option<nat>)
    requires Bounded(batch) && Sound(s, ws, Cursor(s, next))
    ensures Builds(s, ws, l, batch, Build(EagerBatchOps(s, l, batch), next), next)
  {
    ReadableIsLegible(s, l);
    TailBounded(batch);
    BatchOpsAre(s, l, MAX_DECODED_BYTES, batch, next);
    EagerIsInline(s, l, Actions(Tail(batch)), Sorted(Actions(Tail(batch)).Keys), next);
    BatchOpsEffect(s, ws, l, MAX_DECODED_BYTES, batch, next);
  }

  /** One write committed on its own: a single op, and no look at what it replaces. */
  function OwnOp(l: LockerId, p: Pending): Op
  {
    match p
    case Put(k, payload) => PutRecord(l, k, Inline(payload))
    case Delete(k) => DeleteRecord(l, k)
    case Clear => ClearRecords(l)
  }

  lemma OwnRecords(s: Store, l: LockerId, p: Pending)
    ensures forall k :: RecordAt(ApplyAll(s, [OwnOp(l, p)]), l, k) == Left(L.StagedView([p], k), RecordAt(s, l, k))
  {
    ApplyOne(s, OwnOp(l, p));
    assert [p][..0] == [];
  }

  // ---- what RAM follows ----------------------------------------------

  /** What one write does to the resident state, staged or committed on its own. */
  function Mirror<V>(r: Eager<V>, dec: Decoder<V>, p: Pending): Eager<V>
  {
    match p
    case Put(k, payload) =>
      (match dec(payload)
       case Some(v) => r.(values := r.values[k := v], dropped := r.dropped - {k})
       case None => r)
    case Delete(k) => r.(values := r.values - {k}, dropped := r.dropped - {k})
    case Clear => r.(values := map[], dropped := {})
  }

  /** The same for a write of a transaction, whose puts leave `dropped` as it was. */
  function MirrorTx<V>(r: Eager<V>, dec: Decoder<V>, p: Pending): Eager<V>
  {
    if p.Put? then Mirror(r, dec, p).(dropped := r.dropped) else Mirror(r, dec, p)
  }

  function MirrorAll<V>(r: Eager<V>, dec: Decoder<V>, tx: seq<Pending>): Eager<V>
    decreases |tx|
  {
    if tx == [] then r else MirrorTx(MirrorAll(r, dec, tx[..|tx| - 1]), dec, tx[|tx| - 1])
  }

  /** Every value written is one its own decoder takes back. */
  ghost predicate Decodable<V(!new)>(dec: Decoder<V>, batch: seq<Pending>)
  {
    forall i :: 0 <= i < |batch| && batch[i].Put? ==> dec(batch[i].payload).Some?
  }

  /** Every key stored, or put by `batch`, counts as present for a delete. */
  ghost predicate CoversUnder<V(!new)>(r: Eager<V>, batch: seq<Pending>, recs: Records)
  {
    forall k :: Present(batch, k in recs, k) ==> r.Holds(k)
  }

  /** Every value held is the one `batch` put last, or the one stored. */
  ghost predicate TrueUnder<V(!new)>(r: Eager<V>, batch: seq<Pending>, recs: Records, dec: Decoder<V>)
  {
    forall k :: k in r.values ==>
      Told(L.StagedView(batch, k), if k in recs then Some(recs[k]) else None, dec) == Some(r.values[k])
  }

  /** The value under a key, as the staged answer or the stored record tells it. */
  function Told<V>(view: Option<Option<Payload>>, before: Option<Record>, dec: Decoder<V>): Option<V>
  {
    match Left(view, before)
    case Some(Inline(payload)) => dec(payload)
    case _ => None
  }

  lemma OneMoreView(batch: seq<Pending>, p: Pending, k: Key)
    ensures L.StagedView(batch + [p], k) ==
              match p {
                case Put(j, payload) => if j == k then Some(Some(payload)) else L.StagedView(batch, k)
                case Delete(j) => if j == k then Some(None) else L.StagedView(batch, k)
                case Clear => Some(None)
              }
  {
    assert (batch + [p])[..|batch|] == batch;
  }

  /** One more write, staged or in a transaction, keeps keys accounted for and values true. */
  lemma MirrorKeeps<V(!new)>(r: Eager<V>, dec: Decoder<V>, batch: seq<Pending>, p: Pending, recs: Records)
    requires p.Put? ==> dec(p.payload).Some?
    ensures CoversUnder(r, batch, recs) ==>
              CoversUnder(Mirror(r, dec, p), batch + [p], recs) && CoversUnder(MirrorTx(r, dec, p), batch + [p], recs)
    ensures TrueUnder(r, batch, recs, dec) ==>
              && TrueUnder(Mirror(r, dec, p), batch + [p], recs, dec)
              && TrueUnder(MirrorTx(r, dec, p), batch + [p], recs, dec)
  {
    CoverMore(r, dec, batch, p, recs);
    TrueMore(r, dec, batch, p, recs);
  }

  lemma CoverMore<V(!new)>(r: Eager<V>, dec: Decoder<V>, batch: seq<Pending>, p: Pending, recs: Records)
    requires p.Put? ==> dec(p.payload).Some?
    ensures CoversUnder(r, batch, recs) ==>
              CoversUnder(Mirror(r, dec, p), batch + [p], recs) && CoversUnder(MirrorTx(r, dec, p), batch + [p], recs)
  {
    if CoversUnder(r, batch, recs) {
      forall k | Present(batch + [p], k in recs, k)
        ensures Mirror(r, dec, p).Holds(k) && MirrorTx(r, dec, p).Holds(k)
      {
        OneMoreView(batch, p, k);
        assert Present(batch, k in recs, k) ==> r.Holds(k);
      }
    }
  }

  lemma TrueMore<V(!new)>(r: Eager<V>, dec: Decoder<V>, batch: seq<Pending>, p: Pending, recs: Records)
    requires p.Put? ==> dec(p.payload).Some?
    ensures TrueUnder(r, batch, recs, dec) ==>
              && TrueUnder(Mirror(r, dec, p), batch + [p], recs, dec)
              && TrueUnder(MirrorTx(r, dec, p), batch + [p], recs, dec)
  {
    if TrueUnder(r, batch, recs, dec) {
      forall k | k in MirrorTx(r, dec, p).values
        ensures Told(L.StagedView(batch + [p], k), if k in recs then Some(recs[k]) else None, dec)
             == Some(MirrorTx(r, dec, p).values[k])
      {
        OneMoreView(batch, p, k);
      }
    }
  }

  lemma {:induction false} TransactionKeeps<V(!new)>(r: Eager<V>, dec: Decoder<V>, batch: seq<Pending>,
                                                     tx: seq<Pending>, recs: Records)
    requires Decodable(dec, tx)
    ensures CoversUnder(r, batch, recs) ==> CoversUnder(MirrorAll(r, dec, tx), batch + tx, recs)
    ensures TrueUnder(r, batch, recs, dec) ==> TrueUnder(MirrorAll(r, dec, tx), batch + tx, recs, dec)
    ensures MirrorAll(r, dec, tx).corrupt == r.corrupt
    decreases |tx|
  {
    if tx == [] {
      assert batch + tx == batch;
    } else {
      var init, p := tx[..|tx| - 1], tx[|tx| - 1];
      TransactionKeeps(r, dec, batch, init, recs);
      MirrorKeeps(MirrorAll(r, dec, init), dec, batch + init, p, recs);
      assert batch + tx == batch + init + [p];
    }
  }

  /** What the writes said last of a key is what RAM holds of it; a key they do not name is as it was. */
  ghost predicate HeldAsWritten<V(!new)>(r: Eager<V>, r': Eager<V>, dec: Decoder<V>, tx: seq<Pending>)
  {
    forall k :: WrittenAt(r, r', dec, L.StagedView(tx, k), k)
  }

  predicate WrittenAt<V(==)>(r: Eager<V>, r': Eager<V>, dec: Decoder<V>, view: Option<Option<Payload>>, k: Key)
  {
    match view
    case Some(Some(payload)) =>
      k in r'.values && dec(payload) == Some(r'.values[k]) && (k in r'.dropped ==> k in r.dropped)
    case Some(None) => k !in r'.values && k !in r'.dropped
    case None => AsBefore(r, r', k)
  }

  lemma {:induction false} TransactionHolds<V(!new)>(r: Eager<V>, dec: Decoder<V>, tx: seq<Pending>, k: Key)
    requires Decodable(dec, tx)
    ensures WrittenAt(r, MirrorAll(r, dec, tx), dec, L.StagedView(tx, k), k)
    decreases |tx|
  {
    if tx != [] { TransactionHolds(r, dec, tx[..|tx| - 1], k); }
  }

  /** Only a delete of the key or a clear, not a put, lets a transaction forget that its news was dropped. */
  lemma {:induction false} TransactionDrops<V(!new)>(r: Eager<V>, dec: Decoder<V>, tx: seq<Pending>, k: Key)
    ensures k in MirrorAll(r, dec, tx).dropped <==>
      k in r.dropped && forall i :: 0 <= i < |tx| ==> tx[i] != Clear && tx[i] != Delete(k)
    decreases |tx|
  {
    if tx != [] { TransactionDrops(r, dec, tx[..|tx| - 1], k); }
  }

  /** A put staged or committed on its own is held and no longer dropped. */
  lemma WriteHolds<V(!new)>(r: Eager<V>, dec: Decoder<V>, p: Pending)
    requires p.Put? ==> dec(p.payload).Some?
    ensures HeldAsWritten(r, Mirror(r, dec, p), dec, [p])
    ensures p.Put? ==> p.key !in Mirror(r, dec, p).dropped
  {
    assert [p][..0] == [];
  }

  /** Writes move neither the batch nor the epochs, and do not look at them. */
  lemma {:induction false} MirrorApart<V>(r: Eager<V>, r': Eager<V>, dec: Decoder<V>, tx: seq<Pending>)
    requires r' == r.(staged := r'.staged, local := r'.local)
    ensures MirrorAll(r', dec, tx) == MirrorAll(r, dec, tx).(staged := r'.staged, local := r'.local)
    decreases |tx|
  {
    if tx != [] { MirrorApart(r, r', dec, tx[..|tx| - 1]); }
  }

  // ---- remembering its own epochs ------------------------------------

  /** How many keys are remembered before all are forgotten. */
  const EPOCH_MEMORY: nat := 4096

  function NotedAll(local: map<Key, nat>, changes: seq<Change>, epoch: nat): map<Key, nat>
    decreases |changes|
  {
    if changes == [] then local
    else NotedAll(local, changes[..|changes| - 1], epoch)[changes[|changes| - 1].key := epoch]
  }

  /** The memory after a commit that made this news. */
  function Noted(local: map<Key, nat>, a: Announcement): map<Key, nat>
  {
    var noted := NotedAll(local, a.changes, a.epoch);
    if a.cleared || |noted| > EPOCH_MEMORY then map[] else noted
  }

  function NotedBy(local: map<Key, nat>, news: Option<Announcement>): map<Key, nat>
  {
    if news.None? then local else Noted(local, news.value)
  }

  lemma {:induction false} NotedAt(local: map<Key, nat>, changes: seq<Change>, epoch: nat, k: Key)
    ensures var noted := NotedAll(local, changes, epoch);
      if LastOf(changes, k).Some? then k in noted && noted[k] == epoch
      else (k in noted <==> k in local) && (k in local ==> noted[k] == local[k])
    decreases |changes|
  {
    if changes != [] { NotedAt(local, changes[..|changes| - 1], epoch, k); }
  }

  /**
   After a commit that cleared nothing and left no more keys than the bound, exactly the keys committed now or before
   are remembered, each at the epoch of its last commit; past the bound, or after a clear, none is.
   */
  lemma NotedExactly(local: map<Key, nat>, a: Announcement)
    ensures |Noted(local, a)| <= EPOCH_MEMORY
    ensures var named := set c | c in a.changes :: c.key;
      if a.cleared || |local.Keys + named| > EPOCH_MEMORY then Noted(local, a) == map[]
      else
        && Noted(local, a).Keys == local.Keys + named
        && forall k :: k in Noted(local, a) ==>
             Noted(local, a)[k] == if k in named then a.epoch else local[k]
  {
    var named, noted := set c | c in a.changes :: c.key, NotedAll(local, a.changes, a.epoch);
    forall k ensures k in noted <==> k in local.Keys + named
      ensures k in noted ==> noted[k] == if k in named then a.epoch else local[k]
    {
      NotedAt(local, a.changes, a.epoch, k);
      NamedIsTold(a.changes, k);
    }
    assert noted.Keys == local.Keys + named;
    assert |noted| == |noted.Keys|;
  }

  lemma {:induction false} NamedIsTold(changes: seq<Change>, k: Key)
    ensures k in (set c | c in changes :: c.key) <==> LastOf(changes, k).Some?
    decreases |changes|
  {
    if changes != [] {
      var init, c := changes[..|changes| - 1], changes[|changes| - 1];
      assert changes == init + [c];
      NamedIsTold(init, k);
    }
  }

  // ---- the locker and its tab, step by step --------------------------

  /** The tab's side of coherence: who it is, and which sealed records ride along. */
  datatype Tab = Tab(instance: nat, carries: Carries)

  /** A locker's resident state, the store under it, and the tab's epoch counter. */
  datatype Moment<V> = Moment(r: Eager<V>, store: Store, clock: nat)

  function Ticked(clock: nat): nat { (clock + 1) % (U64_MAX + 1) }

  function NewsOf(tab: Tab, l: LockerId, clock: nat, ops: seq<Op>): Option<Announcement>
  {
    Announce(tab.instance, l, clock, DigestOf(l, ops, tab.carries))
  }

  /** A landed commit of `ops`, after which the resident state is `r`, its own epochs noted. */
  function Committed<V>(m: Moment<V>, tab: Tab, l: LockerId, ops: seq<Op>, r: Eager<V>): Moment<V>
  {
    var clock := Ticked(m.clock);
    Moment(r.(local := NotedBy(m.r.local, NewsOf(tab, l, clock, ops))), ApplyAll(m.store, ops), clock)
  }

  /** A write staged under deferred commits. */
  function StagedOn<V>(m: Moment<V>, dec: Decoder<V>, p: Pending): Moment<V>
  {
    m.(r := Mirror(m.r, dec, p).(staged := m.r.staged + [p]))
  }

  /** A write committed on its own. */
  function Alone<V>(m: Moment<V>, tab: Tab, l: LockerId, dec: Decoder<V>, p: Pending): Moment<V>
  {
    Committed(m, tab, l, [OwnOp(l, p)], Mirror(m.r, dec, p))
  }

  /** Everything staged and a transaction after it, committed as one; a flush is the empty transaction. */
  ghost function Together<V>(m: Moment<V>, tab: Tab, l: LockerId, dec: Decoder<V>, tx: seq<Pending>): Moment<V>
  {
    Committed(m, tab, l, EagerBatchOps(m.store, l, m.r.staged + tx), MirrorAll(m.r, dec, tx).(staged := []))
  }

  // ---- whole runs ----------------------------------------------------

  datatype Event =
    | Stage(p: Pending)
    | Write(p: Pending)
    | Commit(tx: seq<Pending>)
    | Fail
    | Elsewhere(instance: nat, epoch: nat, ops: seq<Op>)
    | Again(news: Announcement)

  /** What another tab's commit says of this locker. */
  function Overheard(tab: Tab, l: LockerId, e: Event): Option<Announcement>
    requires e.Elsewhere?
  {
    Announce(e.instance, l, e.epoch, DigestOf(l, e.ops, tab.carries))
  }

  /**
   One event: a write of this tab staged or committed on its own, a flush or transaction, an attempt that failed;
   another tab's commit, whose news is heard as it lands; or news at or below the highest epoch absorbed coming
   again. What the caller owes is only that written values decode and that news of other tabs passes `Heeds`.
   */
  ghost predicate Step<V(!new)>(m: Moment<V>, e: Event, n: Moment<V>, tab: Tab, l: LockerId, dec: Decoder<V>)
  {
    match e
    case Stage(p) => Decodable(dec, [p]) && n == StagedOn(m, dec, p)
    case Write(p) => Decodable(dec, [p]) && m.r.staged == [] && n == Alone(m, tab, l, dec, p)
    case Commit(tx) => Decodable(dec, tx) && n == Together(m, tab, l, dec, tx)
    case Fail => n == m.(clock := Ticked(m.clock))
    case Elsewhere(_, _, ops) =>
      (match Overheard(tab, l, e)
       case Some(a) => Heeds(m.r, a) && n == Moment(Receive(m.r, dec, a), ApplyAll(m.store, ops), m.clock)
       case None => n == m.(store := ApplyAll(m.store, ops)))
    case Again(a) => a.epoch <= m.r.applied && n == m.(r := Receive(m.r, dec, a))
  }

  lemma RecordsLeft(s: Store, t: Store, l: LockerId, batch: seq<Pending>)
    requires forall k :: RecordAt(t, l, k) == Left(L.StagedView(batch, k), RecordAt(s, l, k))
    ensures forall k :: k in t.Recs(l) <==> Present(batch, k in s.Recs(l), k)
    ensures forall k :: k in t.Recs(l) ==> Some(t.Recs(l)[k]) == Left(L.StagedView(batch, k), RecordAt(s, l, k))
  {
    forall k
      ensures k in t.Recs(l) <==> Present(batch, k in s.Recs(l), k)
      ensures k in t.Recs(l) ==> Some(t.Recs(l)[k]) == Left(L.StagedView(batch, k), RecordAt(s, l, k))
    {
      assert RecordAt(t, l, k) == Left(L.StagedView(batch, k), RecordAt(s, l, k));
    }
  }

  /** Once the batch is in the store, what held over the store and the batch holds over the store alone. */
  lemma LandedKeeps<V(!new)>(r: Eager<V>, dec: Decoder<V>, s: Store, t: Store, l: LockerId, batch: seq<Pending>)
    requires forall k :: RecordAt(t, l, k) == Left(L.StagedView(batch, k), RecordAt(s, l, k))
    ensures CoversUnder(r, batch, s.Recs(l)) ==> CoversUnder(r, [], t.Recs(l))
    ensures TrueUnder(r, batch, s.Recs(l), dec) ==> TrueUnder(r, [], t.Recs(l), dec)
  {
    RecordsLeft(s, t, l, batch);
    forall k | k in r.values && TrueUnder(r, batch, s.Recs(l), dec)
      ensures Told(L.StagedView([], k), RecordAt(t, l, k), dec) == Some(r.values[k])
    {
      assert Told(L.StagedView(batch, k), RecordAt(s, l, k), dec) == Some(r.values[k]);
    }
  }

  /** Every key stored or staged is accounted for. */
  ghost predicate Covered<V(!new)>(m: Moment<V>, l: LockerId) { CoversUnder(m.r, m.r.staged, m.store.Recs(l)) }

  /** Every value `get` would answer is the one staged last, or the one stored. */
  ghost predicate Truthful<V(!new)>(m: Moment<V>, l: LockerId, dec: Decoder<V>)
  {
    TrueUnder(m.r, m.r.staged, m.store.Recs(l), dec)
  }

  lemma WriteKeeps<V(!new)>(m: Moment<V>, tab: Tab, l: LockerId, dec: Decoder<V>, p: Pending)
    requires Decodable(dec, [p]) && m.r.staged == []
    ensures var n := Alone(m, tab, l, dec, p);
      && n.r.staged == []
      && (Covered(m, l) ==> Covered(n, l)) && (Truthful(m, l, dec) ==> Truthful(n, l, dec))
  {
    var t, r1 := ApplyAll(m.store, [OwnOp(l, p)]), Mirror(m.r, dec, p);
    assert [p][0] == p;
    MirrorKeeps(m.r, dec, [], p, m.store.Recs(l));
    assert [] + [p] == [p];
    OwnRecords(m.store, l, p);
    LandedKeeps(r1, dec, m.store, t, l, [p]);
    SameValues(r1, Alone(m, tab, l, dec, p).r, [], t.Recs(l), dec);
  }

  /** Epochs remembered have no bearing on either. */
  lemma SameValues<V(!new)>(r: Eager<V>, r': Eager<V>, batch: seq<Pending>, recs: Records, dec: Decoder<V>)
    requires r'.values == r.values && r'.corrupt == r.corrupt && r'.dropped == r.dropped
    ensures CoversUnder(r, batch, recs) ==> CoversUnder(r', batch, recs)
    ensures TrueUnder(r, batch, recs, dec) ==> TrueUnder(r', batch, recs, dec)
  {
  }

  lemma TogetherKeeps<V(!new)>(m: Moment<V>, tab: Tab, l: LockerId, dec: Decoder<V>, tx: seq<Pending>)
    requires Decodable(dec, tx)
    ensures var n := Together(m, tab, l, dec, tx);
      && n.r.staged == []
      && (Covered(m, l) ==> Covered(n, l)) && (Truthful(m, l, dec) ==> Truthful(n, l, dec))
  {
    var batch, r1 := m.r.staged + tx, MirrorAll(m.r, dec, tx);
    var t := ApplyAll(m.store, EagerBatchOps(m.store, l, batch));
    TransactionKeeps(m.r, dec, m.r.staged, tx, m.store.Recs(l));
    BatchRecords(m.store, l, batch);
    LandedKeeps(r1, dec, m.store, t, l, batch);
    SameValues(r1, Together(m, tab, l, dec, tx).r, [], t.Recs(l), dec);
  }

  /** Every event keeps stored and staged keys accounted for. */
  lemma StepCovers<V(!new)>(m: Moment<V>, e: Event, n: Moment<V>, tab: Tab, l: LockerId, dec: Decoder<V>)
    requires Covered(m, l) && Step(m, e, n, tab, l, dec)
    ensures Covered(n, l)
  {
    match e
    case Stage(p) =>
      assert [p][0] == p;
      MirrorKeeps(m.r, dec, m.r.staged, p, m.store.Recs(l));
    case Write(p) => WriteKeeps(m, tab, l, dec, p);
    case Commit(tx) => TogetherKeeps(m, tab, l, dec, tx);
    case Fail =>
    case Elsewhere(_, _, ops) =>
      NewsIsTrue(m.store, l, ops, tab.carries);
      if Overheard(tab, l, e).Some? {
        HeardCovers(m, n, dec, Overheard(tab, l, e).value, tab.carries, l);
      } else {
        SilenceMeansNothing(m.store, l, ops, tab.carries);
      }
    case Again(a) =>
  }

  lemma HeardCovers<V(!new)>(m: Moment<V>, n: Moment<V>, dec: Decoder<V>, a: Announcement, carries: Carries,
                             l: LockerId)
    requires Covered(m, l) && Heeds(m.r, a) && n.r == Receive(m.r, dec, a)
    requires Tells(Digest(a.cleared, a.changes), m.store.Recs(l), n.store.Recs(l), carries)
    ensures Covered(n, l)
  {
    assert CoversAll(m.r, m.store.Recs(l));
    HeededNewsCovers(m.r, dec, a, m.store.Recs(l), n.store.Recs(l), carries);
  }

  /**
   What an event makes RAM hold: a write, flush or transaction of this tab exactly what it wrote last of each key, and
   fresh news of another tab exactly what it carried; nothing else changes what is held.
   */
  lemma StepHolds<V(!new)>(m: Moment<V>, e: Event, n: Moment<V>, tab: Tab, l: LockerId, dec: Decoder<V>)
    requires Step(m, e, n, tab, l, dec)
    ensures match e
            case Stage(p) => HeldAsWritten(m.r, n.r, dec, [p])
            case Write(p) => HeldAsWritten(m.r, n.r, dec, [p])
            case Commit(tx) => HeldAsWritten(m.r, n.r, dec, tx)
            case Elsewhere(_, _, _) =>
              (match Overheard(tab, l, e)
               case Some(a) =>
                 if a.epoch > m.r.applied then forall k :: Took(m.r, n.r, dec, a, k) else n.r == m.r
               case None => n.r == m.r)
            case _ => n.r == m.r
  {
    match e
    case Stage(p) => assert [p][0] == p; WriteHolds(m.r, dec, p);
    case Write(p) => assert [p][0] == p; WriteHolds(m.r, dec, p);
    case Commit(tx) =>
      forall k ensures WrittenAt(m.r, n.r, dec, L.StagedView(tx, k), k) { TransactionHolds(m.r, dec, tx, k); }
    case Elsewhere(_, _, _) =>
      if Overheard(tab, l, e).Some? && e.epoch > m.r.applied { ReceiveTakes(m.r, dec, Overheard(tab, l, e).value); }
    case _ =>
  }

  /** One moment per event, and one more. */
  ghost predicate IsRun<V(!new)>(moments: seq<Moment<V>>, events: seq<Event>, tab: Tab, l: LockerId, dec: Decoder<V>)
  {
    && |moments| == |events| + 1
    && forall i :: 0 <= i < |events| ==> Step(moments[i], events[i], moments[i + 1], tab, l, dec)
  }

  /**
   Over any run of own writes, flushes, transactions, failures and other tabs' commits, a delete returns early only
   where nothing is stored or staged to remove.
   */
  lemma AlwaysCovered<V(!new)>(moments: seq<Moment<V>>, events: seq<Event>, tab: Tab, l: LockerId, dec: Decoder<V>)
    requires IsRun(moments, events, tab, l, dec) && Covered(moments[0], l)
    ensures forall i :: 0 <= i < |moments| ==> Covered(moments[i], l)
    ensures forall i, k :: 0 <= i < |moments| && Skips(moments[i].r, k) ==>
              k !in moments[i].store.Recs(l) || L.StagedView(moments[i].r.staged, k) == Some(None)
  {
    for i := 0 to |events|
      invariant forall j :: 0 <= j <= i ==> Covered(moments[j], l)
    {
      StepCovers(moments[i], events[i], moments[i + 1], tab, l, dec);
    }
    forall i, k | 0 <= i < |moments| && Skips(moments[i].r, k)
      ensures k !in moments[i].store.Recs(l) || L.StagedView(moments[i].r.staged, k) == Some(None)
    {
      assert Covered(moments[i], l);
      SkipIsSafe(moments[i].r, moments[i].store.Recs(l), k);
    }
  }

  /** The news, if any, is above every epoch absorbed. */
  predicate Fresh<V>(m: Moment<V>, e: Event, tab: Tab, l: LockerId)
  {
    e.Elsewhere? && Overheard(tab, l, e).Some? ==> e.epoch > m.r.applied
  }

  lemma StepTrue<V(!new)>(m: Moment<V>, e: Event, n: Moment<V>, tab: Tab, l: LockerId, dec: Decoder<V>)
    requires Truthful(m, l, dec) && Step(m, e, n, tab, l, dec) && Fresh(m, e, tab, l)
    ensures Truthful(n, l, dec)
  {
    match e
    case Stage(p) =>
      assert [p][0] == p;
      MirrorKeeps(m.r, dec, m.r.staged, p, m.store.Recs(l));
    case Write(p) => WriteKeeps(m, tab, l, dec, p);
    case Commit(tx) => TogetherKeeps(m, tab, l, dec, tx);
    case Fail =>
    case Elsewhere(_, _, ops) =>
      NewsIsTrue(m.store, l, ops, tab.carries);
      if Overheard(tab, l, e).Some? {
        HeardTrue(m, n, dec, Overheard(tab, l, e).value, tab.carries, l);
      } else {
        SilenceMeansNothing(m.store, l, ops, tab.carries);
      }
    case Again(a) =>
  }

  lemma HeardTrue<V(!new)>(m: Moment<V>, n: Moment<V>, dec: Decoder<V>, a: Announcement, carries: Carries, l: LockerId)
    requires Truthful(m, l, dec) && Heeds(m.r, a) && a.epoch > m.r.applied && n.r == Receive(m.r, dec, a)
    requires Tells(Digest(a.cleared, a.changes), m.store.Recs(l), n.store.Recs(l), carries)
    ensures Truthful(n, l, dec)
  {
    var r1 := m.r.(applied := a.epoch);
    var r0 := if a.cleared then Wiped(r1) else r1;
    AbsorbedAt(r0, dec, a.epoch, a.changes, []);
    assert n.r.staged == [];
    forall k | k in n.r.values ensures Told(L.StagedView([], k), RecordAt(n.store, l, k), dec) == Some(n.r.values[k]) {
      AbsorbedAt(r0, dec, a.epoch, a.changes, k);
      assert !r0.Outranks(k, a.epoch);
      assert k in m.r.values ==> Told(L.StagedView([], k), RecordAt(m.store, l, k), dec) == Some(m.r.values[k]);
    }
  }

  /** Where, besides, no news comes late, every value a `get` answers is the one staged last or stored. */
  lemma AlwaysTruthful<V(!new)>(moments: seq<Moment<V>>, events: seq<Event>, tab: Tab, l: LockerId, dec: Decoder<V>)
    requires IsRun(moments, events, tab, l, dec) && Truthful(moments[0], l, dec)
    requires forall i :: 0 <= i < |events| ==> Fresh(moments[i], events[i], tab, l)
    ensures forall i :: 0 <= i < |moments| ==> Truthful(moments[i], l, dec)
  {
    for i := 0 to |events|
      invariant forall j :: 0 <= j <= i ==> Truthful(moments[j], l, dec)
    {
      StepTrue(moments[i], events[i], moments[i + 1], tab, l, dec);
    }
  }

  // ---- the locker as an object ---------------------------------------

  /** The tab's epoch counter, and the news it has posted. */
  class Channel {
    const tab: Tab
    var epoch: nat
    var posted: seq<Announcement>

    constructor (tab: Tab)
      ensures this.tab == tab && epoch == 0 && posted == []
    {
      this.tab, epoch, posted := tab, 0, [];
    }

    /** The news of a commit, made ahead of it; the epoch is spent whether or not the commit lands. */
    method Prepare(l: LockerId, ops: seq<Op>) returns (news: Option<Announcement>)
      modifies this`epoch
      ensures epoch == Ticked(old(epoch)) && news == NewsOf(tab, l, epoch, ops)
    {
      epoch := (epoch + 1) % (U64_MAX + 1);
      news := AnnouncementFromOps(tab.instance, l, epoch, ops, tab.carries);
    }
  }

  class EagerLocker<V(==,!new)> {
    const bank: Engine.Bank
    const channel: Channel
    const id: LockerId
    const dec: Decoder<V>
    /** Whether the sealed value is within the inline limit. */
    const fits: Payload -> bool
    /** How many staged writes make a batch under deferred commits. */
    const after: Option<nat>
    var values: map<Key, V>
    var corrupt: set<Key>
    var dropped: set<Key>
    var staged: seq<Pending>
    var local: map<Key, nat>
    var applied: nat
    var closed: bool

    constructor (bank: Engine.Bank, channel: Channel, id: LockerId, dec: Decoder<V>, fits: Payload -> bool,
                 after: Option<nat>, values: map<Key, V>, corrupt: set<Key>)
      ensures this.bank == bank && this.channel == channel && this.id == id && this.dec == dec && this.fits == fits
      ensures this.after == after && !closed && State() == Eager(values, corrupt, {}, [], map[], 0)
    {
      this.bank, this.channel, this.id, this.dec := bank, channel, id, dec;
      this.fits, this.after := fits, after;
      this.values, this.corrupt := values, corrupt;
      dropped, staged, local, applied, closed := {}, [], map[], 0, false;
    }

    function State(): Eager<V>
      reads this
    {
      Eager(values, corrupt, dropped, staged, local, applied)
    }

    /** The locker, the store and the clock, as a moment of a run. */
    function Now(): Moment<V>
      reads this, bank, channel
    {
      Moment(State(), bank.store, channel.epoch)
    }

    predicate Holds(k: Key)
      reads this
    {
      k in values || k in corrupt || k in dropped
    }

    /** Take another tab's news, change by change. */
    method Apply(a: Announcement)
      modifies this
      ensures State() == if old(closed) then old(State()) else Receive(old(State()), dec, a)
      ensures closed == old(closed)
      ensures old(closed) || a.epoch <= old(applied) ==> State() == old(State())
      ensures !old(closed) && a.epoch > old(applied) ==>
                && applied == a.epoch && staged == old(staged) && corrupt == old(corrupt)
                && local == (if a.cleared then map[] else old(local))
                && forall k :: Took(old(State()), State(), dec, a, k)
    {
      AbsorbedAt(if a.cleared then Wiped(State().(applied := a.epoch)) else State().(applied := a.epoch), dec, a.epoch,
                 a.changes, []);
      if a.epoch > applied { ReceiveTakes(State(), dec, a); }
      if closed || a.epoch <= applied { return; }
      applied := a.epoch;
      if a.cleared { values, dropped, local := map[], {}, map[]; }
      ghost var start := State();
      for i := 0 to |a.changes|
        invariant State() == AbsorbAll(start, dec, a.epoch, a.changes[..i]) && closed == old(closed)
      {
        assert a.changes[..i + 1][..i] == a.changes[..i];
        AbsorbOne(a.epoch, a.changes[i]);
      }
      assert a.changes[..|a.changes|] == a.changes;
    }

    method AbsorbOne(epoch: nat, c: Change)
      modifies this`values, this`dropped
      ensures State() == Absorb(old(State()), dec, epoch, c)
    {
      if c.key in local && epoch <= local[c.key] { return; }
      var decoded := if c.deleted || c.value.None? then None else dec(c.value.value);
      match decoded
      case Some(v) => values, dropped := values[c.key := v], dropped - {c.key};
      case None =>
        values := values - {c.key};
        dropped := if c.deleted then dropped - {c.key} else dropped + {c.key};
    }

    // ---- committing --------------------------------------------------

    /** Remember what has just been committed; past the bound, or after a clear, nothing is remembered. */
    method NoteLocal(news: Announcement)
      modifies this`local
      ensures local == Noted(old(local), news)
    {
      for i := 0 to |news.changes|
        invariant local == NotedAll(old(local), news.changes[..i], news.epoch)
      {
        assert news.changes[..i + 1][..i] == news.changes[..i];
        local := local[news.changes[i].key := news.epoch];
      }
      assert news.changes[..|news.changes|] == news.changes;
      if |local| > EPOCH_MEMORY { local := map[]; }
      if news.cleared { local := map[]; }
    }

    /** Commit, and only then remember the epoch and post the news. */
    method CommitOps(ops: seq<Op>) returns (ok: bool)
      modifies bank`store, bank`landing, channel, this`local
      ensures ok == (old(bank.landing) != Some(0))
      ensures var m := old(Now());
        Now() == if ok then Committed(m, channel.tab, id, ops, m.r) else m.(clock := Ticked(m.clock))
      ensures var news := NewsOf(channel.tab, id, channel.epoch, ops);
        channel.posted == old(channel.posted) + if ok && news.Some? then [news.value] else []
    {
      var news := channel.Prepare(id, ops);
      ok := bank.Commit(ops);
      if ok && news.Some? {
        NoteLocal(news.value);
        channel.posted := channel.posted + [news.value];
      }
    }

    /** Every surviving put is within the inline limit, and every surviving delete finds a record it can parse. */
    ghost predicate Admits(batch: seq<Pending>)
      reads bank
    {
      var acts := Actions(Tail(batch));
      forall k :: k in acts ==> AdmitsOne(bank.store, k, acts[k])
    }

    ghost predicate AdmitsOne(s: Store, k: Key, a: Action)
    {
      match a
      case Assign(payload) => fits(payload)
      case Remove => Legible(RecordAt(s, id, k))
    }

    method OpsForAction(k: Key, a: Action) returns (r: Option<seq<Op>>)
      modifies bank`asked
      ensures r.Some? ==> AdmitsOne(bank.store, k, a) && r.value == EagerOps(bank.store, id, k, a)
      ensures bank.Answering() && AdmitsOne(bank.store, k, a) ==> r.Some?
    {
      match a {
        case Remove => r := bank.DeleteValueOps(id, k, Unknown);
        case Assign(payload) =>
          if !fits(payload) { return None; }
          var found := bank.Fetch(id, k);
          if found.None? { return None; }
          var old' := found.value;
          var gc := if old'.Some? && old'.value.Pointer? && Parses(old'.value.ptr)
                    then [DropChunks(old'.value.ptr.valueId)] else [];
          r := Some(gc + [PutRecord(id, k, Inline(payload))]);
      }
    }

    /** The collapsed ops of a batch: the last action per surviving key, in key order, behind any clear. */
    method OpsForItems(batch: seq<Pending>) returns (r: Option<seq<Op>>)
      modifies bank`asked
      ensures r.Some? ==> Admits(batch) && r.value == EagerBatchOps(bank.store, id, batch)
      ensures bank.Answering() && Admits(batch) ==> r.Some?
    {
      var found, from := Listing.AfterLastClear(batch);
      var ops: seq<Op> := [];
      if found {
        var cleared := bank.ClearValueOps(id);
        if cleared.None? { return None; }
        ops := cleared.value;
      }
      var acts := Engine.CollectActions(batch[from..]);
      var keys := KeysInOrder(acts.Keys);
      SortedIs(acts.Keys);
      var acted := OpsForActions(acts, keys);
      if acted.None? { return None; }
      r := Some(ops + acted.value);
    }

    ghost predicate AdmitsAll(s: Store, acts: map<Key, Action>, keys: seq<Key>)
    {
      forall i :: 0 <= i < |keys| && keys[i] in acts ==> AdmitsOne(s, keys[i], acts[keys[i]])
    }

    method OpsForActions(acts: map<Key, Action>, keys: seq<Key>) returns (r: Option<seq<Op>>)
      requires forall k :: k in keys ==> k in acts
      modifies bank`asked
      ensures r.Some? ==>
                && AdmitsAll(bank.store, acts, keys)
                && r.value == EagerActionOps(bank.store, id, acts, keys)
      ensures bank.Answering() && AdmitsAll(bank.store, acts, keys) ==> r.Some?
    {
      ghost var s := bank.store;
      var ops: seq<Op> := [];
      for i := 0 to |keys|
        invariant bank.store == s && ops == EagerActionOps(s, id, acts, keys[..i])
        invariant forall j :: 0 <= j < i ==> AdmitsOne(s, keys[j], acts[keys[j]])
      {
        var k := keys[i];
        assert k in keys;
        OneActionMore(s, id, acts, keys, i);
        var more := OpsForAction(k, acts[k]);
        if more.None? { return None; }
        ops := ops + more.value;
      }
      assert keys[..|keys|] == keys;
      r := Some(ops);
    }

    /** Nothing stands in the way of committing `batch`. */
    ghost predicate Able(batch: seq<Pending>)
      reads bank
    {
      bank.Answering() && bank.landing != Some(0) && Admits(batch)
    }

    /** What an attempt that did not land leaves: at most an epoch is spent. */
    ghost predicate Untouched(m: Moment<V>, n: Moment<V>)
    {
      n == m || n == m.(clock := Ticked(m.clock))
    }

    /** Commit a batch as one, whatever is staged meanwhile. */
    method CommitBatch(batch: seq<Pending>) returns (ok: bool)
      modifies this`local, bank`store, bank`landing, bank`asked, channel
      ensures var m := old(Now());
        if ok then Now() == Committed(m, channel.tab, id, EagerBatchOps(m.store, id, batch), m.r)
        else Untouched(m, Now())
      ensures (old(Able(batch)) ==> ok) && (ok ==> old(Admits(batch)))
    {
      var ops := OpsForItems(batch);
      if ops.None? { return false; }
      ok := CommitOps(ops.value);
    }

    /** Commit everything staged; a batch that does not land is put back as it was. */
    method FlushLocked() returns (ok: bool)
      modifies this`staged, this`local, bank`store, bank`landing, bank`asked, channel
      ensures var m := old(Now());
        if !ok then Untouched(m, Now()) else if m.r.staged == [] then Now() == m
        else Now() == Together(m, channel.tab, id, dec, [])
      ensures old(staged) == [] || old(Able(staged)) ==> ok
      ensures ok && old(staged) != [] ==> old(Admits(staged))
    {
      if staged == [] { return true; }
      var entries := staged;
      assert entries + [] == entries;
      staged := [];
      ok := CommitBatch(entries);
      if !ok { staged := entries; }
    }

    /** Everything staged and the transaction in one commit; RAM follows once it has landed. */
    method Transact(tx: seq<Pending>) returns (ok: bool)
      requires Decodable(dec, tx)
      modifies this`staged, this`local, this`values, this`dropped, bank`store, bank`landing, bank`asked, channel
      ensures var m := old(Now());
        if !ok then Untouched(m, Now()) else if tx == [] then Now() == m
        else Now() == Together(m, channel.tab, id, dec, tx)
      ensures ok ==> HeldAsWritten(old(State()), State(), dec, tx)
      ensures !old(closed) && (tx == [] || old(Able(staged + tx))) ==> ok
      ensures ok ==> !old(closed) && (tx == [] || old(Admits(staged + tx)))
    {
      if closed { return false; }
      if tx == [] { return true; }
      var before := staged;
      ghost var m := Now();
      staged := [];
      ok := CommitBatch(before + tx);
      MirrorApart(m.r, State(), dec, tx);
      if ok { FollowTx(tx); } else { staged := before; }
    }

    /** Mirror a transaction that has landed. */
    method FollowTx(tx: seq<Pending>)
      requires Decodable(dec, tx)
      modifies this`values, this`dropped
      ensures State() == MirrorAll(old(State()), dec, tx)
      ensures HeldAsWritten(old(State()), State(), dec, tx)
    {
      for i := 0 to |tx|
        invariant State() == MirrorAll(old(State()), dec, tx[..i])
      {
        assert tx[..i + 1][..i] == tx[..i];
        match tx[i]
        case Put(k, payload) => values := values[k := dec(payload).value];
        case Delete(k) => values, dropped := values - {k}, dropped - {k};
        case Clear => values, dropped := map[], {};
      }
      assert tx[..|tx|] == tx;
      forall k ensures WrittenAt(old(State()), State(), dec, L.StagedView(tx, k), k) {
        TransactionHolds(old(State()), dec, tx, k);
      }
    }

    // ---- the public calls --------------------------------------------

    /** Mirror a write into RAM: at once when it is staged, after its commit has landed otherwise. */
    method Note(p: Pending)
      requires p.Put? ==> dec(p.payload).Some?
      modifies this`values, this`dropped
      ensures State() == Mirror(old(State()), dec, p)
    {
      match p
      case Put(k, payload) => values, dropped := values[k := dec(payload).value], dropped - {k};
      case Delete(k) => values, dropped := values - {k}, dropped - {k};
      case Clear => values, dropped := map[], {};
    }

    /** One write: staged, and the batch committed once it is full, or committed at once. */
    ghost predicate Wrote(m: Moment<V>, p: Pending, n: Moment<V>, ok: bool)
    {
      var tab, staged := channel.tab, StagedOn(m, dec, p);
      if after.None? then (if ok then n == Alone(m, tab, id, dec, p) else n == m.(clock := Ticked(m.clock)))
      else if |staged.r.staged| < after.value then ok && n == staged
      else if ok then n == Together(staged, tab, id, dec, [])
      else Untouched(staged, n)
    }

    /** Stage or commit one write; RAM is touched only once it is staged or stored. */
    method WriteOne(p: Pending) returns (ok: bool)
      requires p.Put? ==> dec(p.payload).Some?
      modifies this`staged, this`local, this`values, this`dropped, bank`store, bank`landing, bank`asked, channel
      ensures Wrote(old(Now()), p, Now(), ok)
      ensures after.None? ==> ok == (old(bank.landing) != Some(0))
      ensures after.Some? && old(Able(staged + [p])) ==> ok
    {
      if after.None? {
        ok := CommitOps([OwnOp(id, p)]);
        if ok { Note(p); }
        return;
      }
      staged := staged + [p];
      Note(p);
      if |staged| < after.value { return true; }
      ok := FlushLocked();
    }

    /** Refuses a value over the inline limit. */
    method PutBy(k: Key, payload: Payload) returns (ok: bool)
      requires dec(payload).Some?
      modifies this`staged, this`local, this`values, this`dropped, bank`store, bank`landing, bank`asked, channel
      ensures if old(closed) || !fits(payload) then !ok && Now() == old(Now())
              else Wrote(old(Now()), Put(k, payload), Now(), ok)
      ensures ok ==> k in values && dec(payload) == Some(values[k]) && k !in dropped
      ensures !old(closed) && fits(payload) && after.None? ==> ok == (old(bank.landing) != Some(0))
      ensures !old(closed) && fits(payload) && after.Some? && old(Able(staged + [Put(k, payload)])) ==> ok
    {
      if closed || !fits(payload) { return false; }
      ok := WriteOne(Put(k, payload));
    }

    /** Nothing held, nothing to remove: storage is not even asked. */
    method DeleteBy(k: Key) returns (ok: bool)
      modifies this`staged, this`local, this`values, this`dropped, bank`store, bank`landing, bank`asked, channel
      ensures if old(closed) then !ok && Now() == old(Now())
              else if Skips(old(State()), k) then ok && Now() == old(Now())
              else Wrote(old(Now()), Delete(k), Now(), ok)
      ensures ok ==> k !in values && k !in dropped
      ensures !old(closed) && after.None? ==> ok == (Skips(old(State()), k) || old(bank.landing) != Some(0))
      ensures !old(closed) && after.Some? && old(Able(staged + [Delete(k)])) ==> ok
    {
      if closed { return false; }
      if !Holds(k) { return true; }
      ok := WriteOne(Delete(k));
    }

    method ClearAll() returns (ok: bool)
      modifies this`staged, this`local, this`values, this`dropped, bank`store, bank`landing, bank`asked, channel
      ensures if old(closed) then !ok && Now() == old(Now()) else Wrote(old(Now()), Clear, Now(), ok)
      ensures ok ==> values == map[] && dropped == {}
      ensures !old(closed) && after.None? ==> ok == (old(bank.landing) != Some(0))
      ensures !old(closed) && after.Some? && old(Able(staged + [Clear])) ==> ok
    {
      if closed { return false; }
      ok := WriteOne(Clear);
    }
  }
}
