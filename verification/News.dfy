/**
 Coherence between tabs: the news a commit makes for the other tabs.
 */
module News {
  import opened Wrappers
  import opened Bytes
  import opened Storage

  /**
   What a commit did to one key. `value` is carried only when the sealed record is small; `bytes` is the length a chunk
   pointer declares, if it parses.
   */
  datatype Change = Change(key: Key, value: Option<Payload>, bytes: Option<nat>, deleted: bool)

  datatype Announcement = Announcement(instance: nat, locker: LockerId, epoch: nat, cleared: bool, changes: seq<Change>)

  type Records = map<Key, Record>

  /** Whether the sealed form of a payload is small enough to ride along; that is the filter chain's to say. */
  type Carries = Payload -> bool

  datatype Digest = Digest(cleared: bool, changes: seq<Change>)

  function ChangeFor(k: Key, r: Record, carries: Carries): Change
  {
    match r
    case Inline(p) => Change(k, if carries(p) then Some(p) else None, None, false)
    case Pointer(p) => Change(k, None, if Parses(p) then Some(p.totalLen) else None, false)
  }

  /** What a commit's ops amount to for one locker. */
  function DigestOf(l: LockerId, ops: seq<Op>, carries: Carries): Digest
    decreases |ops|
  {
    if ops == [] then Digest(false, [])
    else
      var d := DigestOf(l, ops[..|ops| - 1], carries);
      match ops[|ops| - 1]
      case PutRecord(j, k, r) => if j == l then d.(changes := d.changes + [ChangeFor(k, r, carries)]) else d
      case DeleteRecord(j, k) => if j == l then d.(changes := d.changes + [Change(k, None, None, true)]) else d
      case ClearRecords(j) => if j == l then Digest(true, []) else d
      case _ => d
  }

  function Announce(instance: nat, l: LockerId, epoch: nat, d: Digest): Option<Announcement>
  {
    if !d.cleared && d.changes == [] then None else Some(Announcement(instance, l, epoch, d.cleared, d.changes))
  }

  method AnnouncementFromOps(instance: nat, l: LockerId, epoch: nat, ops: seq<Op>, carries: Carries)
    returns (r: Option<Announcement>)
    ensures r == Announce(instance, l, epoch, DigestOf(l, ops, carries))
  {
    var cleared, changes: seq<Change> := false, [];
    for i := 0 to |ops|
      invariant Digest(cleared, changes) == DigestOf(l, ops[..i], carries)
    {
      assert ops[..i + 1][..i] == ops[..i];
      match ops[i]
      case PutRecord(j, k, record) =>
        if j == l { changes := changes + [ChangeFor(k, record, carries)]; }
      case DeleteRecord(j, k) =>
        if j == l { changes := changes + [Change(k, None, None, true)]; }
      case ClearRecords(j) =>
        if j == l { cleared, changes := true, []; }
      case _ =>
    }
    assert ops[..|ops|] == ops;
    if !cleared && changes == [] { return None; }
    return Some(Announcement(instance, l, epoch, cleared, changes));
  }

  /** The last thing said about a key. */
  function LastOf(changes: seq<Change>, k: Key): Option<Change>
    decreases |changes|
  {
    if changes == [] then None
    else if changes[|changes| - 1].key == k then Some(changes[|changes| - 1])
    else LastOf(changes[..|changes| - 1], k)
  }

  /** The digest is the truth about `before` turning into `after`, key by key. */
  ghost predicate Tells(d: Digest, before: Records, after: Records, carries: Carries)
  {
    forall k ::
      match LastOf(d.changes, k)
      case None =>
        if d.cleared then k !in after else (k in after <==> k in before) && (k in after ==> after[k] == before[k])
      case Some(c) =>
        c.key == k && if c.deleted then k !in after else k in after && c == ChangeFor(k, after[k], carries)
  }

  /** A commit's news tells exactly what it did to the locker: nothing missed, nothing invented. */
  lemma {:induction false} NewsIsTrue(s: Store, l: LockerId, ops: seq<Op>, carries: Carries)
    ensures Tells(DigestOf(l, ops, carries), s.Recs(l), ApplyAll(s, ops).Recs(l), carries)
    decreases |ops|
  {
    if ops != [] {
      var init, op := ops[..|ops| - 1], ops[|ops| - 1];
      NewsIsTrue(s, l, init, carries);
      OneOpTold(s.Recs(l), ApplyAll(s, init), l, DigestOf(l, init, carries), op, carries);
    }
  }

  /**
   What the news says last of a stored key: its payload exactly when the record is inline and small enough to ride
   along, a length exactly when it is a pointer that parses.
   */
  lemma NewsCarries(s: Store, l: LockerId, ops: seq<Op>, carries: Carries, k: Key)
    ensures var c, t := LastOf(DigestOf(l, ops, carries).changes, k), ApplyAll(s, ops).Recs(l);
      c.Some? && !c.value.deleted ==>
        && k in t && (t[k].Inline? && carries(t[k].payload) ==> c.value.value == Some(t[k].payload))
        && (!t[k].Inline? || !carries(t[k].payload) ==> c.value.value == None)
        && (t[k].Pointer? && Parses(t[k].ptr) ==> c.value.bytes == Some(t[k].ptr.totalLen))
        && (!t[k].Pointer? || !Parses(t[k].ptr) ==> c.value.bytes == None)
  {
    NewsIsTrue(s, l, ops, carries);
  }

  lemma OneOpTold(before: Records, t: Store, l: LockerId, d: Digest, op: Op, carries: Carries)
    requires Tells(d, before, t.Recs(l), carries)
    ensures var d' := match op {
              case PutRecord(j, k, r) => if j == l then d.(changes := d.changes + [ChangeFor(k, r, carries)]) else d
              case DeleteRecord(j, k) => if j == l then d.(changes := d.changes + [Change(k, None, None, true)]) else d
              case ClearRecords(j) => if j == l then Digest(true, []) else d
              case _ => d
            };
      Tells(d', before, Apply(t, op).Recs(l), carries)
  {
    var after, after' := t.Recs(l), Apply(t, op).Recs(l);
    if op.PutRecord? && op.locker == l {
      ChangeTold(before, after, after', d, ChangeFor(op.key, op.record, carries), carries);
    } else if op.DeleteRecord? && op.locker == l {
      ChangeTold(before, after, after', d, Change(op.key, None, None, true), carries);
    } else if op.ClearRecords? && op.locker == l {
      assert after' == map[];
    } else {
      assert after' == after;
    }
  }

  lemma ChangeTold(before: Records, after: Records, after': Records, d: Digest, c: Change, carries: Carries)
    requires Tells(d, before, after, carries)
    requires if c.deleted then after' == after - {c.key}
             else && c.key in after' && after' == after[c.key := after'[c.key]]
                  && c == ChangeFor(c.key, after'[c.key], carries)
    ensures Tells(d.(changes := d.changes + [c]), before, after', carries)
  {
    forall k ensures LastOf(d.changes + [c], k) == if c.key == k then Some(c) else LastOf(d.changes, k) {
      assert (d.changes + [c])[..|d.changes|] == d.changes;
    }
  }

  /** No news means nothing of this locker changed. */
  lemma SilenceMeansNothing(s: Store, l: LockerId, ops: seq<Op>, carries: Carries)
    requires Announce(0, l, 0, DigestOf(l, ops, carries)) == None
    ensures ApplyAll(s, ops).Recs(l) == s.Recs(l)
  {
    NewsIsTrue(s, l, ops, carries);
    forall k ensures k in ApplyAll(s, ops).Recs(l) <==> k in s.Recs(l) {
      assert LastOf([], k) == None;
    }
    forall k | k in s.Recs(l) ensures ApplyAll(s, ops).Recs(l)[k] == s.Recs(l)[k] {
      assert LastOf([], k) == None;
    }
  }
}
