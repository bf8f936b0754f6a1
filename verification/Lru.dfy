/**
 The byte budget of an evictable locker: planning an eviction, and what a plan does to the accounts.
 */
module Lru {
  import opened Bytes
  import opened Storage

  /** At most this many postponed ticks are written out with a commit. */
  const PENDING_PER_COMMIT: nat := 64

  type Entries = map<Key, Entry>

  datatype Update = Update(key: Key, entry: Entry)

  datatype Plan = Plan(victims: seq<Key>, total: nat)

  // ---- saturating u64 arithmetic -------------------------------------

  function SatSub(a: nat, b: nat): nat { if a >= b then a - b else 0 }

  function SatAdd(a: nat, b: nat): nat { if a + b <= U64_MAX then a + b else U64_MAX }

  // ---- sums ----------------------------------------------------------

  ghost function Sum(m: Entries): nat
    decreases |m|
  {
    if m == map[] then 0 else
      var k :| k in m;
      m[k].bytes + Sum(m - {k})
  }

  lemma {:induction false} SumRemove(m: Entries, k: Key)
    requires k in m
    ensures Sum(m) == m[k].bytes + Sum(m - {k})
    decreases |m|
  {
    var j :| j in m && Sum(m) == m[j].bytes + Sum(m - {j});
    if j != k {
      SumRemove(m - {j}, k);
      SumRemove(m - {k}, j);
      assert m - {j} - {k} == m - {k} - {j};
    }
  }

  lemma SumPut(m: Entries, k: Key, e: Entry)
    ensures Sum(m[k := e]) == (if k in m then Sum(m) - m[k].bytes else Sum(m)) + e.bytes
    ensures k in m ==> m[k].bytes <= Sum(m)
  {
    SumRemove(m[k := e], k);
    assert m[k := e] - {k} == m - {k};
    if k in m { SumRemove(m, k); } else { assert m - {k} == m; }
  }

  // ---- the running total ---------------------------------------------

  predicate DistinctKeys(keys: seq<Key>)
  {
    forall i, j :: 0 <= i < j < |keys| ==> keys[i] != keys[j]
  }

  function KeysOf(updates: seq<Update>): (ks: seq<Key>)
    ensures |ks| == |updates| && forall i :: 0 <= i < |ks| ==> ks[i] == updates[i].key
  {
    seq(|updates|, i requires 0 <= i < |updates| => updates[i].key)
  }

  function TotalRemoved(entries: Entries, total: nat, removals: seq<Key>): nat
    decreases |removals|
  {
    if removals == [] then total
    else
      var t := TotalRemoved(entries, total, removals[..|removals| - 1]);
      var k := removals[|removals| - 1];
      if k in entries then SatSub(t, entries[k].bytes) else t
  }

  /** `prior` holds the entries an update replaces; it is empty after a clear. */
  function TotalUpdated(prior: Entries, total: nat, updates: seq<Update>): nat
    decreases |updates|
  {
    if updates == [] then total
    else
      var t := TotalUpdated(prior, total, updates[..|updates| - 1]);
      var u := updates[|updates| - 1];
      SatAdd(if u.key in prior then SatSub(t, prior[u.key].bytes) else t, u.entry.bytes)
  }

  function TotalBefore(entries: Entries, total: nat, updates: seq<Update>, removals: seq<Key>, cleared: bool): nat
  {
    if cleared then TotalUpdated(map[], 0, updates)
    else TotalUpdated(entries, TotalRemoved(entries, total, removals), updates)
  }

  function PutAll(m: Entries, updates: seq<Update>): Entries
    decreases |updates|
  {
    if updates == [] then m
    else PutAll(m, updates[..|updates| - 1])[updates[|updates| - 1].key := updates[|updates| - 1].entry]
  }

  function RemoveAll(m: Entries, keys: seq<Key>): Entries
  {
    m - set k | k in keys
  }

  function UpdateBytes(updates: seq<Update>): nat
    decreases |updates|
  {
    if updates == [] then 0 else UpdateBytes(updates[..|updates| - 1]) + updates[|updates| - 1].entry.bytes
  }

  lemma {:induction false} RemovedTotal(entries: Entries, removals: seq<Key>)
    requires DistinctKeys(removals)
    ensures TotalRemoved(entries, Sum(entries), removals) == Sum(RemoveAll(entries, removals))
    decreases |removals|
  {
    if removals == [] {
      assert RemoveAll(entries, []) == entries;
    } else {
      var init, k := removals[..|removals| - 1], removals[|removals| - 1];
      assert removals == init + [k];
      RemovedTotal(entries, init);
      assert RemoveAll(entries, removals) == RemoveAll(entries, init) - {k};
      if k in entries {
        assert k !in init;
        SumRemove(RemoveAll(entries, init), k);
      } else {
        assert RemoveAll(entries, init) - {k} == RemoveAll(entries, init);
      }
    }
  }

  lemma {:induction false} PutAllAt(m: Entries, updates: seq<Update>)
    ensures forall k :: k in PutAll(m, updates) <==> k in m || k in KeysOf(updates)
    ensures forall k :: k in m && k !in KeysOf(updates) ==> PutAll(m, updates)[k] == m[k]
    ensures DistinctKeys(KeysOf(updates)) ==>
              forall u :: u in updates ==> PutAll(m, updates)[u.key] == u.entry
    decreases |updates|
  {
    if updates != [] {
      var init, u := updates[..|updates| - 1], updates[|updates| - 1];
      PutAllAt(m, init);
      assert updates == init + [u] && KeysOf(updates) == KeysOf(init) + [u.key];
      if DistinctKeys(KeysOf(updates)) {
        forall w | w in init ensures w.key != u.key {
          var i :| 0 <= i < |init| && init[i] == w;
          assert KeysOf(updates)[i] == w.key;
        }
      }
    }
  }

  lemma {:induction false} UpdatedTotal(prior: Entries, m: Entries, updates: seq<Update>)
    requires DistinctKeys(KeysOf(updates))
    requires forall u :: u in updates ==> Same(prior, m, u.key)
    requires Sum(m) + UpdateBytes(updates) <= U64_MAX
    ensures TotalUpdated(prior, Sum(m), updates) == Sum(PutAll(m, updates)) <= Sum(m) + UpdateBytes(updates)
    decreases |updates|
  {
    if updates != [] {
      var init, u := updates[..|updates| - 1], updates[|updates| - 1];
      SplitUpdates(updates);
      UpdatedTotal(prior, m, init);
      NotYetPut(m, init, u);
      OneUpdate(prior, m, PutAll(m, init), u, Sum(m) + UpdateBytes(init));
    }
  }

  lemma SplitUpdates(updates: seq<Update>)
    requires updates != [] && DistinctKeys(KeysOf(updates))
    ensures var init, u := updates[..|updates| - 1], updates[|updates| - 1];
      && u in updates && (forall w :: w in init ==> w in updates)
      && DistinctKeys(KeysOf(init)) && DistinctKeys(KeysOf(init) + [u.key])
  {
    var init, u := updates[..|updates| - 1], updates[|updates| - 1];
    assert KeysOf(updates) == KeysOf(init) + [u.key];
    assert KeysOf(init) == KeysOf(updates)[..|init|];
  }

  lemma OneUpdate(prior: Entries, m: Entries, m1: Entries, u: Update, bound: nat)
    requires Same(prior, m, u.key) && Same(m1, m, u.key)
    requires Sum(m1) <= bound && bound + u.entry.bytes <= U64_MAX
    ensures SatAdd(if u.key in prior then SatSub(Sum(m1), prior[u.key].bytes) else Sum(m1), u.entry.bytes)
         == Sum(m1[u.key := u.entry]) <= bound + u.entry.bytes
  {
    SumPut(m1, u.key, u.entry);
  }

  ghost predicate Same(a: Entries, b: Entries, k: Key)
  {
    (k in a <==> k in b) && (k in a ==> a[k] == b[k])
  }

  lemma NotYetPut(m: Entries, init: seq<Update>, u: Update)
    requires DistinctKeys(KeysOf(init) + [u.key])
    ensures Same(PutAll(m, init), m, u.key)
  {
    PutAllAt(m, init);
    var keys := KeysOf(init) + [u.key];
    forall i | 0 <= i < |init| ensures KeysOf(init)[i] != u.key {
      assert keys[i] != keys[|init|];
    }
  }

  // ---- who has to go -------------------------------------------------

  datatype Candidate = Candidate(tick: nat, key: Key, bytes: nat)

  /** Least recently used first; equal ticks by key. */
  predicate Older(a: Candidate, b: Candidate)
  {
    a.tick < b.tick || (a.tick == b.tick && Less(a.key, b.key))
  }

  lemma OlderTotal(a: Candidate, b: Candidate)
    ensures a.key != b.key ==> Older(a, b) || Older(b, a)
    ensures !(Older(a, b) && Older(b, a))
  {
    LessTotal(a.key, b.key);
    if Less(a.key, b.key) { LessAsymmetric(a.key, b.key); }
  }

  lemma OlderTransitive(a: Candidate, b: Candidate, c: Candidate)
    requires Older(a, b) && Older(b, c)
    ensures Older(a, c)
  {
    if a.tick == b.tick == c.tick { LessTransitive(a.key, b.key, c.key); }
  }

  function Insert(c: Candidate, sorted: seq<Candidate>): (r: seq<Candidate>)
    ensures multiset(r) == multiset(sorted) + multiset{c}
  {
    if sorted == [] then [c]
    else if Older(sorted[0], c) then
      assert sorted == [sorted[0]] + sorted[1..];
      [sorted[0]] + Insert(c, sorted[1..])
    else [c] + sorted
  }

  /** The stable sort by age. */
  function ByAge(cs: seq<Candidate>): (r: seq<Candidate>)
    ensures multiset(r) == multiset(cs)
  {
    if cs == [] then []
    else
      assert cs == [cs[0]] + cs[1..];
      Insert(cs[0], ByAge(cs[1..]))
  }

  ghost predicate AgeSorted(cs: seq<Candidate>)
  {
    forall i, j :: 0 <= i < j < |cs| ==> Older(cs[i], cs[j])
  }

  ghost predicate OneEach(cs: seq<Candidate>)
  {
    forall i, j :: 0 <= i < j < |cs| ==> cs[i].key != cs[j].key
  }

  lemma {:induction false} InsertSorted(c: Candidate, sorted: seq<Candidate>)
    requires AgeSorted(sorted) && OneEach(sorted) && forall x :: x in sorted ==> x.key != c.key
    ensures AgeSorted(Insert(c, sorted)) && OneEach(Insert(c, sorted))
    decreases |sorted|
  {
    if sorted == [] {
    } else if Older(sorted[0], c) {
      var rest := sorted[1..];
      InsertSorted(c, rest);
      forall x | x in Insert(c, rest) ensures Older(sorted[0], x) && x.key != sorted[0].key {
        assert x in multiset(Insert(c, rest));
        assert x == c || x in rest;
      }
      ConsSorted(sorted[0], Insert(c, rest));
    } else {
      OlderTotal(c, sorted[0]);
      forall x | x in sorted ensures Older(c, x) {
        if x != sorted[0] { OlderTransitive(c, sorted[0], x); }
      }
      ConsSorted(c, sorted);
    }
  }

  lemma ConsSorted(x: Candidate, rest: seq<Candidate>)
    requires AgeSorted(rest) && OneEach(rest)
    requires forall y :: y in rest ==> Older(x, y) && y.key != x.key
    ensures AgeSorted([x] + rest) && OneEach([x] + rest)
  {
  }

  lemma {:induction false} ByAgeSorted(cs: seq<Candidate>)
    requires OneEach(cs)
    ensures AgeSorted(ByAge(cs)) && OneEach(ByAge(cs))
    ensures forall c :: c in ByAge(cs) <==> c in cs
    decreases |cs|
  {
    SameMembers(ByAge(cs), cs);
    if cs != [] {
      var rest := ByAge(cs[1..]);
      ByAgeSorted(cs[1..]);
      SameMembers(rest, cs[1..]);
      InsertSorted(cs[0], rest);
    }
  }

  lemma SameMembers(a: seq<Candidate>, b: seq<Candidate>)
    requires multiset(a) == multiset(b)
    ensures forall c :: c in a <==> c in b
  {
    forall c ensures c in a <==> c in b {
      assert c in a <==> c in multiset(a);
      assert c in b <==> c in multiset(b);
    }
  }

  /** The shortest prefix whose removal brings the total within the budget. */
  function Shed(cs: seq<Candidate>, total: nat, budget: nat): Plan
  {
    if cs == [] || total <= budget then Plan([], total)
    else
      var p := Shed(cs[1..], SatSub(total, cs[0].bytes), budget);
      Plan([cs[0].key] + p.victims, p.total)
  }

  /** Stored keys this commit neither removes, rewrites nor protects, in key order. */
  function OldCandidates(entries: Entries, keys: seq<Key>, updates: seq<Update>, removals: seq<Key>, keep: seq<Key>)
    : seq<Candidate>
    requires forall k :: k in keys ==> k in entries
    decreases |keys|
  {
    if keys == [] then []
    else
      var k := keys[|keys| - 1];
      var before := OldCandidates(entries, keys[..|keys| - 1], updates, removals, keep);
      if k in removals || k in KeysOf(updates) || k in keep then before
      else before + [Candidate(entries[k].tick, k, entries[k].bytes)]
  }

  function NewCandidates(updates: seq<Update>, keep: seq<Key>): seq<Candidate>
    decreases |updates|
  {
    if updates == [] then []
    else
      var u := updates[|updates| - 1];
      var before := NewCandidates(updates[..|updates| - 1], keep);
      if u.key in keep then before else before + [Candidate(u.entry.tick, u.key, u.entry.bytes)]
  }

  ghost function Candidates(entries: Entries, updates: seq<Update>, removals: seq<Key>, cleared: bool,
                            keep: seq<Key>): seq<Candidate>
  {
    SortedIs(entries.Keys);
    (if cleared then [] else OldCandidates(entries, Sorted(entries.Keys), updates, removals, keep))
    + NewCandidates(updates, keep)
  }

  ghost function PlanFor(entries: Entries, total: nat, updates: seq<Update>, removals: seq<Key>, cleared: bool,
                         budget: nat, keep: seq<Key>): Plan
  {
    Shed(ByAge(Candidates(entries, updates, removals, cleared, keep)),
         TotalBefore(entries, total, updates, removals, cleared), budget)
  }

  /** The accounts once the commit has landed, before any eviction. */
  function Kept(entries: Entries, updates: seq<Update>, removals: seq<Key>, cleared: bool): Entries
  {
    PutAll(if cleared then map[] else RemoveAll(entries, removals), updates)
  }

  /** The accounts once the commit has landed. */
  function EntriesAfter(entries: Entries, updates: seq<Update>, removals: seq<Key>, cleared: bool,
                        victims: seq<Key>): Entries
  {
    RemoveAll(Kept(entries, updates, removals, cleared), victims)
  }

  // ---- the plan is sound and minimal ---------------------------------

  lemma {:induction false} OldCandidatesAre(entries: Entries, keys: seq<Key>, updates: seq<Update>,
                                            removals: seq<Key>, keep: seq<Key>)
    requires forall k :: k in keys ==> k in entries
    requires DistinctKeys(keys)
    ensures var cs := OldCandidates(entries, keys, updates, removals, keep);
      && OneEach(cs)
      && forall c :: c in cs <==>
           c.key in keys && c.key !in removals && c.key !in KeysOf(updates) && c.key !in keep
           && entries[c.key] == Entry(c.tick, c.bytes)
    decreases |keys|
  {
    if keys != [] {
      var init, k := keys[..|keys| - 1], keys[|keys| - 1];
      assert keys == init + [k];
      OldCandidatesAre(entries, init, updates, removals, keep);
      var before := OldCandidates(entries, init, updates, removals, keep);
      forall i | 0 <= i < |before| ensures before[i].key != k { assert before[i] in before; }
    }
  }

  lemma {:induction false} NewCandidatesAre(updates: seq<Update>, keep: seq<Key>)
    requires DistinctKeys(KeysOf(updates))
    ensures var cs := NewCandidates(updates, keep);
      && OneEach(cs)
      && forall c :: c in cs <==> c.key !in keep && Update(c.key, Entry(c.tick, c.bytes)) in updates
    decreases |updates|
  {
    if updates != [] {
      var init, u := updates[..|updates| - 1], updates[|updates| - 1];
      assert updates == init + [u] && KeysOf(updates) == KeysOf(init) + [u.key];
      NewCandidatesAre(init, keep);
      var before := NewCandidates(init, keep);
      forall i | 0 <= i < |before| ensures before[i].key != u.key {
        assert before[i] in before;
        var j :| 0 <= j < |init| && init[j] == Update(before[i].key, Entry(before[i].tick, before[i].bytes));
        assert KeysOf(updates)[j] != KeysOf(updates)[|init|];
      }
    }
  }

  /** Candidates are exactly the surviving accounts outside `keep`. */
  lemma CandidatesAre(entries: Entries, updates: seq<Update>, removals: seq<Key>, cleared: bool, keep: seq<Key>)
    requires DistinctKeys(KeysOf(updates))
    requires forall k :: k in removals ==> k !in KeysOf(updates)
    ensures var cs := Candidates(entries, updates, removals, cleared, keep);
            var kept := Kept(entries, updates, removals, cleared);
      && OneEach(cs)
      && forall c :: c in cs <==> c.key in kept && c.key !in keep && kept[c.key] == Entry(c.tick, c.bytes)
  {
    var keys := Sorted(entries.Keys);
    SortedIs(entries.Keys);
    AscendingDistinct(keys);
    OldCandidatesAre(entries, keys, updates, removals, keep);
    NewCandidatesAre(updates, keep);
    var base := if cleared then map[] else RemoveAll(entries, removals);
    PutAllAt(base, updates);
    var olds := if cleared then [] else OldCandidates(entries, keys, updates, removals, keep);
    var news := NewCandidates(updates, keep);
    forall i, j | 0 <= i < |olds| && 0 <= j < |news| ensures olds[i].key != news[j].key {
      assert olds[i] in olds && news[j] in news;
      UpdateKeyListed(updates, Update(news[j].key, Entry(news[j].tick, news[j].bytes)));
    }
    var kept := Kept(entries, updates, removals, cleared);
    forall c ensures c in olds + news <==> c.key in kept && c.key !in keep && kept[c.key] == Entry(c.tick, c.bytes) {
      if c.key in KeysOf(updates) {
        var j :| 0 <= j < |updates| && KeysOf(updates)[j] == c.key;
        assert updates[j] in updates;
        assert c in news <==> c.key !in keep && updates[j].entry == Entry(c.tick, c.bytes) by {
          if c in news { SameUpdate(updates, j, Update(c.key, Entry(c.tick, c.bytes))); }
        }
      } else if c in news {
        UpdateKeyListed(updates, Update(c.key, Entry(c.tick, c.bytes)));
      }
    }
  }

  lemma UpdateKeyListed(updates: seq<Update>, u: Update)
    requires u in updates
    ensures u.key in KeysOf(updates)
  {
    var i :| 0 <= i < |updates| && updates[i] == u;
    assert KeysOf(updates)[i] == u.key;
  }

  lemma SameUpdate(updates: seq<Update>, j: nat, u: Update)
    requires DistinctKeys(KeysOf(updates)) && j < |updates| && u in updates && updates[j].key == u.key
    ensures updates[j] == u
  {
    var i :| 0 <= i < |updates| && updates[i] == u;
    assert KeysOf(updates)[i] == KeysOf(updates)[j];
  }

  /** Victims are a prefix of the candidates. */
  lemma {:induction false} ShedPrefix(cs: seq<Candidate>, total: nat, budget: nat)
    ensures var p := Shed(cs, total, budget);
      |p.victims| <= |cs| && forall i :: 0 <= i < |p.victims| ==> p.victims[i] == cs[i].key
    decreases |cs|
  {
    if cs != [] && total > budget {
      ShedPrefix(cs[1..], SatSub(total, cs[0].bytes), budget);
    }
  }

  /** What shedding a candidate list does to the accounts. */
  lemma {:induction false} ShedIs(cs: seq<Candidate>, m: Entries, budget: nat)
    requires OneEach(cs)
    requires forall c :: c in cs ==> c.key in m && m[c.key] == Entry(c.tick, c.bytes)
    ensures var p := Shed(cs, Sum(m), budget);
      && |p.victims| <= |cs|
      && p.total == Sum(RemoveAll(m, p.victims))
      && (p.total <= budget || |p.victims| == |cs|)
      && (|p.victims| > 0 ==> p.total + cs[|p.victims| - 1].bytes > budget)
    decreases |cs|
  {
    if cs == [] || Sum(m) <= budget {
      assert RemoveAll(m, []) == m;
    } else {
      var c, rest := cs[0], cs[1..];
      SumRemove(m, c.key);
      RestFits(cs, m);
      ShedIs(rest, m - {c.key}, budget);
      var p := Shed(rest, Sum(m - {c.key}), budget);
      RemoveFirst(m, c.key, p.victims);
      if |p.victims| > 0 { assert cs[|p.victims|] == rest[|p.victims| - 1]; }
    }
  }

  lemma RestFits(cs: seq<Candidate>, m: Entries)
    requires OneEach(cs) && cs != []
    requires forall c :: c in cs ==> c.key in m && m[c.key] == Entry(c.tick, c.bytes)
    ensures OneEach(cs[1..])
    ensures forall c :: c in cs[1..] ==> c.key in m - {cs[0].key} && m[c.key] == Entry(c.tick, c.bytes)
  {
    forall d | d in cs[1..] ensures d in cs && d.key != cs[0].key {
      var i :| 0 <= i < |cs| - 1 && cs[1..][i] == d;
      assert cs[i + 1] == d;
    }
  }

  lemma RemoveFirst(m: Entries, k: Key, keys: seq<Key>)
    ensures RemoveAll(m, [k] + keys) == RemoveAll(m - {k}, keys)
  {
  }

  /** What every caller of a plan guarantees. */
  ghost predicate PlanInput(entries: Entries, total: nat, updates: seq<Update>, removals: seq<Key>, cleared: bool)
  {
    && total == Sum(entries)
    && DistinctKeys(KeysOf(updates))
    && (cleared || DistinctKeys(removals))
    && (forall k :: k in removals ==> k !in KeysOf(updates))
    && total + UpdateBytes(updates) <= U64_MAX
  }

  lemma TotalBeforeIs(entries: Entries, total: nat, updates: seq<Update>, removals: seq<Key>, cleared: bool)
    requires PlanInput(entries, total, updates, removals, cleared)
    ensures TotalBefore(entries, total, updates, removals, cleared) == Sum(Kept(entries, updates, removals, cleared))
  {
    if cleared {
      assert Sum(map[]) == 0;
      UpdatedTotal(map[], map[], updates);
    } else {
      RemovedTotal(entries, removals);
      RemoveShrinks(entries, removals);
      forall u | u in updates ensures u.key !in removals {
        UpdateKeyListed(updates, u);
      }
      UpdatedTotal(entries, RemoveAll(entries, removals), updates);
    }
  }

  lemma {:induction false} RemoveShrinks(m: Entries, keys: seq<Key>)
    ensures Sum(RemoveAll(m, keys)) <= Sum(m)
    decreases |keys|
  {
    if keys == [] {
      assert RemoveAll(m, []) == m;
    } else {
      var init, k := keys[..|keys| - 1], keys[|keys| - 1];
      assert keys == init + [k];
      RemoveShrinks(m, init);
      assert RemoveAll(m, keys) == RemoveAll(m, init) - {k};
      if k in RemoveAll(m, init) {
        SumRemove(RemoveAll(m, init), k);
      } else {
        assert RemoveAll(m, init) - {k} == RemoveAll(m, init);
      }
    }
  }

  /**
   The eviction plan is sound and minimal: the new total is exactly what the surviving accounts add up to;
   victims are distinct surviving keys outside `keep`, every one older than every candidate that stays;
   the budget is met unless only protected keys remain; and sparing the last victim would have missed it.
   */
  lemma PlanSoundAndMinimal(entries: Entries, total: nat, updates: seq<Update>, removals: seq<Key>, cleared: bool,
                            budget: nat, keep: seq<Key>)
    requires PlanInput(entries, total, updates, removals, cleared)
    ensures var p := PlanFor(entries, total, updates, removals, cleared, budget, keep);
            var kept := Kept(entries, updates, removals, cleared);
            var after := EntriesAfter(entries, updates, removals, cleared, p.victims);
      && p.total == Sum(after)
      && (forall v :: v in p.victims ==> v in kept && v !in keep && (cleared || v !in removals))
      && DistinctKeys(p.victims)
      && (forall v, k :: v in p.victims && k in after && k !in keep ==> Older(Account(kept, v), Account(kept, k)))
      && (p.total <= budget || forall k :: k in after ==> k in keep)
      && (p.victims != [] ==>
            var last := p.victims[|p.victims| - 1]; last in kept && p.total + kept[last].bytes > budget)
  {
    var kept := Kept(entries, updates, removals, cleared);
    var cs := Candidates(entries, updates, removals, cleared, keep);
    TotalBeforeIs(entries, total, updates, removals, cleared);
    CandidatesAre(entries, updates, removals, cleared, keep);
    ByAgeSorted(cs);
    ShedIs(ByAge(cs), kept, budget);
    ShedSpares(ByAge(cs), kept, budget, keep);
    var p := PlanFor(entries, total, updates, removals, cleared, budget, keep);
    forall v | v in p.victims && !cleared ensures v !in removals {
      PutAllAt(RemoveAll(entries, removals), updates);
    }
  }

  /** Whatever the total says, victims are distinct surviving keys outside `keep`. */
  lemma VictimsAre(entries: Entries, total: nat, updates: seq<Update>, removals: seq<Key>, cleared: bool,
                   budget: nat, keep: seq<Key>)
    requires DistinctKeys(KeysOf(updates))
    requires forall k :: k in removals ==> k !in KeysOf(updates)
    ensures var p := PlanFor(entries, total, updates, removals, cleared, budget, keep);
      && DistinctKeys(p.victims)
      && forall v :: v in p.victims ==>
           v in Kept(entries, updates, removals, cleared) && v !in keep && (cleared || v !in removals)
  {
    var cs := Candidates(entries, updates, removals, cleared, keep);
    CandidatesAre(entries, updates, removals, cleared, keep);
    ByAgeSorted(cs);
    ShedPrefix(ByAge(cs), TotalBefore(entries, total, updates, removals, cleared), budget);
    var p := PlanFor(entries, total, updates, removals, cleared, budget, keep);
    forall v | v in p.victims
      ensures v in Kept(entries, updates, removals, cleared) && v !in keep
    {
      var i :| 0 <= i < |p.victims| && p.victims[i] == v;
      assert ByAge(cs)[i] in ByAge(cs);
    }
    forall v | v in p.victims && !cleared ensures v !in removals {
      PutAllAt(RemoveAll(entries, removals), updates);
    }
  }

  /** Whatever the total says, no account is evicted while an older one that could be stays. */
  lemma OlderGoFirst(entries: Entries, total: nat, updates: seq<Update>, removals: seq<Key>, cleared: bool,
                     budget: nat, keep: seq<Key>, j: Key, k: Key)
    requires DistinctKeys(KeysOf(updates)) && forall r :: r in removals ==> r !in KeysOf(updates)
    requires var kept := Kept(entries, updates, removals, cleared);
      && j in kept && k in kept && j !in keep && k !in keep
      && (kept[j].tick < kept[k].tick || (kept[j].tick == kept[k].tick && Less(j, k)))
    ensures var victims := PlanFor(entries, total, updates, removals, cleared, budget, keep).victims;
      k in victims ==> j in victims
  {
    var kept, cs := Kept(entries, updates, removals, cleared), Candidates(entries, updates, removals, cleared, keep);
    var sorted, victims := ByAge(cs), PlanFor(entries, total, updates, removals, cleared, budget, keep).victims;
    CandidatesAre(entries, updates, removals, cleared, keep);
    ByAgeSorted(cs);
    ShedPrefix(sorted, TotalBefore(entries, total, updates, removals, cleared), budget);
    assert Account(kept, j) in sorted;
    if k in victims {
      var n :| 0 <= n < |victims| && victims[n] == k;
      var i :| 0 <= i < |sorted| && sorted[i] == Account(kept, j);
      assert sorted[n] in sorted && sorted[n] == Account(kept, k);
      OlderTotal(sorted[i], sorted[n]);
      assert i < n && victims[i] == j;
    }
  }

  function Account(m: Entries, k: Key): Candidate
  {
    if k in m then Candidate(m[k].tick, k, m[k].bytes) else Candidate(0, k, 0)
  }

  /** Shedding a sorted candidate list spares only younger accounts and protected ones. */
  lemma ShedSpares(cs: seq<Candidate>, m: Entries, budget: nat, keep: seq<Key>)
    requires AgeSorted(cs) && OneEach(cs)
    requires forall c :: c in cs <==> c.key in m && c.key !in keep && m[c.key] == Entry(c.tick, c.bytes)
    ensures var p := Shed(cs, Sum(m), budget);
            var after := RemoveAll(m, p.victims);
      && (forall v :: v in p.victims ==> v in m && v !in keep)
      && DistinctKeys(p.victims)
      && (forall v, k :: v in p.victims && k in after && k !in keep ==> Older(Account(m, v), Account(m, k)))
      && (p.total <= budget || forall k :: k in after ==> k in keep)
      && (p.victims != [] ==>
            var last := p.victims[|p.victims| - 1]; last in m && p.total + m[last].bytes > budget)
  {
    ShedIs(cs, m, budget);
    ShedPrefix(cs, Sum(m), budget);
    var p := Shed(cs, Sum(m), budget);
    var n := |p.victims|;
    forall i | 0 <= i < n ensures cs[i] == Account(m, p.victims[i]) && p.victims[i] in m && p.victims[i] !in keep {
      assert cs[i] in cs;
    }
    forall i | 0 <= i < n ensures cs[i].key in p.victims {
      assert p.victims[i] in p.victims;
    }
    forall k | k in RemoveAll(m, p.victims) && k !in keep
      ensures exists j :: n <= j < |cs| && cs[j] == Account(m, k)
    {
      assert Account(m, k) in cs;
      var j :| 0 <= j < |cs| && cs[j] == Account(m, k);
    }
  }
}
