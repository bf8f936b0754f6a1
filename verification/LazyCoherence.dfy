/** One open lazy locker: another tab's news moves its key index and forgets what it knew of shapes. */
module LazyCoherence {
  import opened Wrappers
  import opened Bytes
  import opened Storage
  import opened News
  import opened Lru
  import LruAccounts

  datatype Resident = Resident(index: set<Key>, knownInline: set<Key>)

  function Heard(r: Resident, d: Digest): Resident
    decreases |d.changes|
  {
    if d.changes == [] then (if d.cleared then Resident({}, {}) else r)
    else
      var r1 := Heard(r, d.(changes := d.changes[..|d.changes| - 1]));
      var c := d.changes[|d.changes| - 1];
      Resident(if c.deleted then r1.index - {c.key} else r1.index + {c.key}, r1.knownInline - {c.key})
  }

  /** The accounts as news leaves them: a size per key, and whether some size is not known. */
  datatype Sizes = Sizes(bytes: map<Key, nat>, dirty: bool)

  /** The size a change states: of the value it carries, or the length a pointer declares. */
  function StatedSize(c: Change): Option<nat> { if c.value.Some? then Some(|c.value.value|) else c.bytes }

  function HeardSizes(a: Sizes, d: Digest): Sizes
    decreases |d.changes|
  {
    if d.changes == [] then (if d.cleared then Sizes(map[], false) else a)
    else
      var c, before := d.changes[|d.changes| - 1], HeardSizes(a, d.(changes := d.changes[..|d.changes| - 1]));
      if c.deleted then before.(bytes := before.bytes - {c.key})
      else if StatedSize(c).Some? then before.(bytes := before.bytes[c.key := StatedSize(c).value])
      else Sizes(if c.key in before.bytes then before.bytes else before.bytes[c.key := 0], true)
  }

  /** What the changes may add to the total. */
  function StatedBytes(changes: seq<Change>): nat
    decreases |changes|
  {
    if changes == [] then 0
    else
      var c := changes[|changes| - 1];
      StatedBytes(changes[..|changes| - 1]) + if !c.deleted && StatedSize(c).Some? then StatedSize(c).value else 0
  }

  function BytesOf(m: Entries): map<Key, nat> { map k | k in m :: m[k].bytes }

  class LazySink {
    var index: set<Key>
    var knownInline: set<Key>
    /** The accounts of an evictable locker. */
    const accounts: LruAccounts.Accounts?
    /** The epochs of this tab's own commits. */
    var local: map<Key, nat>
    var closed: bool

    constructor (index: set<Key>, accounts: LruAccounts.Accounts?)
      ensures this.index == index && this.accounts == accounts
      ensures knownInline == {} && local == map[] && !closed
    {
      this.index, this.accounts := index, accounts;
      knownInline, local, closed := {}, map[], false;
    }

    ghost function Budget(): Sizes
      requires accounts != null
      reads this, accounts
    {
      Sizes(BytesOf(accounts.entries), accounts.dirty)
    }

    /** Index, markers and accounts follow another tab's commit; after a clear no epoch of this tab's is remembered. */
    method Apply(a: Announcement)
      modifies this, accounts
      ensures closed == old(closed)
      ensures old(closed) ==>
                && Resident(index, knownInline) == old(Resident(index, knownInline)) && local == old(local)
                && (accounts != null ==> Budget() == old(Budget()))
      ensures !old(closed) ==>
                && Resident(index, knownInline)
                   == Heard(old(Resident(index, knownInline)), Digest(a.cleared, a.changes))
                && local == (if a.cleared then map[] else old(local))
                && (accounts != null ==> Budget() == HeardSizes(old(Budget()), Digest(a.cleared, a.changes)))
      ensures (&& accounts != null && old(accounts.total) == Sum(old(accounts.entries))
               && old(accounts.total) + StatedBytes(a.changes) <= U64_MAX) ==> accounts.total == Sum(accounts.entries)
    {
      if closed { return; }
      ghost var start := Resident(index, knownInline);
      ghost var sizes := if accounts != null then Budget() else Sizes(map[], false);
      ghost var total := if accounts != null then Sum(accounts.entries) else 0;
      if a.cleared {
        index, knownInline, local := {}, {}, map[];
        if accounts != null { accounts.RemoteClear(); }
      }
      ghost var exact := accounts != null && old(accounts.total) == Sum(old(accounts.entries));
      for i := 0 to |a.changes|
        invariant closed == old(closed) && local == (if a.cleared then map[] else old(local))
        invariant Resident(index, knownInline) == Heard(start, Digest(a.cleared, a.changes[..i]))
        invariant accounts != null ==> Follows(sizes, a, i)
        invariant exact ==> Counted(total, a, i)
      {
        OneMoreChange(start, sizes, a, i);
        Fold(a.changes[i]);
      }
      assert a.changes[..|a.changes|] == a.changes;
    }

    ghost predicate Follows(before: Sizes, a: Announcement, i: nat)
      requires accounts != null && i <= |a.changes|
      reads this, accounts
    {
      Budget() == HeardSizes(before, Digest(a.cleared, a.changes[..i]))
    }

    ghost predicate Counted(before: nat, a: Announcement, i: nat)
      requires accounts != null && i <= |a.changes|
      reads this, accounts
    {
      && Sum(accounts.entries) <= before + StatedBytes(a.changes[..i])
      && (before + StatedBytes(a.changes[..i]) <= U64_MAX ==> accounts.total == Sum(accounts.entries))
    }

    /** Fold one change into index, markers and accounts. */
    method Fold(c: Change)
      modifies this`index, this`knownInline, accounts
      ensures Resident(index, knownInline) == Heard(old(Resident(index, knownInline)), Digest(false, [c]))
      ensures accounts != null ==>
                && Budget() == HeardSizes(old(Budget()), Digest(false, [c]))
                && Sum(accounts.entries) <= Sum(old(accounts.entries)) + StatedBytes([c])
                && (old(accounts.total) == Sum(old(accounts.entries))
                    && old(accounts.total) + StatedBytes([c]) <= U64_MAX
                    ==> accounts.total == Sum(accounts.entries))
    {
      assert [c][..0] == [];
      index := if c.deleted then index - {c.key} else index + {c.key};
      knownInline := knownInline - {c.key};
      if accounts != null { Account(c); }
    }

    /** Fold one change into the accounts. */
    method Account(c: Change)
      requires accounts != null
      modifies accounts
      ensures Budget() == HeardSizes(old(Budget()), Digest(false, [c]))
      ensures Sum(accounts.entries) <= Sum(old(accounts.entries)) + StatedBytes([c])
      ensures old(accounts.total) == Sum(old(accounts.entries)) && old(accounts.total) + StatedBytes([c]) <= U64_MAX ==>
                accounts.total == Sum(accounts.entries)
    {
      assert [c][..0] == [];
      assert StatedBytes([]) == 0;
      if c.deleted {
        accounts.RemoteDelete(c.key);
        if c.key in old(accounts.entries) {
          SumRemove(old(accounts.entries), c.key);
        } else {
          assert accounts.entries == old(accounts.entries);
        }
      } else {
        accounts.RemotePut(c.key, StatedSize(c));
      }
    }
  }

  /** The changes one at a time. */
  lemma OneMoreChange(r: Resident, b: Sizes, a: Announcement, i: nat)
    requires i < |a.changes|
    ensures var init, c := a.changes[..i], a.changes[i];
      && Heard(r, Digest(a.cleared, a.changes[..i + 1])) == Heard(Heard(r, Digest(a.cleared, init)), Digest(false, [c]))
      && HeardSizes(b, Digest(a.cleared, a.changes[..i + 1]))
      == HeardSizes(HeardSizes(b, Digest(a.cleared, init)), Digest(false, [c]))
      && StatedBytes(a.changes[..i + 1]) == StatedBytes(init) + StatedBytes([c])
  {
    var more, c := a.changes[..i + 1], a.changes[i];
    assert more[..i] == a.changes[..i] && more[i] == c && [c][..0] == [];
    assert StatedBytes([]) == 0;
  }

  lemma {:induction false} HeardAt(r: Resident, d: Digest, k: Key)
    ensures var c := LastOf(d.changes, k);
      && (k in Heard(r, d).index <==> if c.Some? then !c.value.deleted else !d.cleared && k in r.index)
      && (k in Heard(r, d).knownInline <==> c.None? && !d.cleared && k in r.knownInline)
    decreases |d.changes|
  {
    if d.changes != [] { HeardAt(r, d.(changes := d.changes[..|d.changes| - 1]), k); }
  }

  /** True news keeps the index the key set of what is stored, and every inline marker true. */
  lemma IndexFollowsNews(r: Resident, d: Digest, before: Records, after: Records, carries: Carries)
    requires Tells(d, before, after, carries) && r.index == before.Keys
    requires forall k :: k in r.knownInline ==> k in before && before[k].Inline?
    ensures Heard(r, d).index == after.Keys
    ensures forall k :: k in Heard(r, d).knownInline ==> k in after && after[k].Inline?
  {
    forall k
      ensures k in Heard(r, d).index <==> k in after
      ensures k in Heard(r, d).knownInline ==> k in after && after[k].Inline?
    {
      HeardAt(r, d, k);
    }
  }

  /** The size a stored record accounts for. */
  function SizeOf(r: Record): nat
  {
    match r
    case Inline(p) => |p|
    case Pointer(p) => p.totalLen
  }

  lemma {:induction false} HeardSizesAt(a: Sizes, d: Digest, k: Key)
    ensures var c, h := LastOf(d.changes, k), HeardSizes(a, d);
      && (!d.cleared && a.dirty ==> h.dirty)
      && (k in h.bytes <==> if c.Some? then !c.value.deleted else !d.cleared && k in a.bytes)
      && (k in h.bytes && !h.dirty ==>
            if c.Some? then StatedSize(c.value) == Some(h.bytes[k]) else k in a.bytes && h.bytes[k] == a.bytes[k])
    decreases |d.changes|
  {
    if d.changes != [] { HeardSizesAt(a, d.(changes := d.changes[..|d.changes| - 1]), k); }
  }

  /**
   What marks the accounts: a put whose news neither carries a value nor states a length. A clear lifts the mark that
   was there before.
   */
  lemma {:induction false} MarkedExactly(a: Sizes, d: Digest)
    ensures HeardSizes(a, d).dirty <==>
      || (!d.cleared && a.dirty)
      || exists i :: 0 <= i < |d.changes|
           && !d.changes[i].deleted && d.changes[i].value.None? && d.changes[i].bytes.None?
    decreases |d.changes|
  {
    if d.changes != [] { MarkedExactly(a, d.(changes := d.changes[..|d.changes| - 1])); }
  }

  /** An account that news names last is of the value carried, or else of the length declared, if either is told. */
  lemma SizeHeard(a: Sizes, d: Digest, k: Key)
    requires LastOf(d.changes, k).Some? && !LastOf(d.changes, k).value.deleted
    ensures var c, h := LastOf(d.changes, k).value, HeardSizes(a, d);
      && k in h.bytes
      && (c.value.Some? ==> h.bytes[k] == |c.value.value|)
      && (c.value.None? && c.bytes.Some? ==> h.bytes[k] == c.bytes.value)
    decreases |d.changes|
  {
    if d.changes[|d.changes| - 1].key != k { SizeHeard(a, d.(changes := d.changes[..|d.changes| - 1]), k); }
  }

  /**
   True news keeps one account per stored key; and while nothing is marked dirty, every account holds the size of
   what is stored. A value too large to ride along, or a pointer over the reader's limit, is what marks them.
   */
  lemma AccountsFollowNews(a: Sizes, d: Digest, before: Records, after: Records, carries: Carries)
    requires Tells(d, before, after, carries) && a.bytes.Keys == before.Keys
    requires !a.dirty ==> forall k :: k in before ==> a.bytes[k] == SizeOf(before[k])
    ensures HeardSizes(a, d).bytes.Keys == after.Keys
    ensures !HeardSizes(a, d).dirty ==> forall k :: k in after ==> HeardSizes(a, d).bytes[k] == SizeOf(after[k])
  {
    var h := HeardSizes(a, d);
    forall k
      ensures k in h.bytes <==> k in after
      ensures k in after && !h.dirty ==> h.bytes[k] == SizeOf(after[k])
    {
      HeardSizesAt(a, d, k);
    }
  }
}
