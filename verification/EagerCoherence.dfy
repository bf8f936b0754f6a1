/** One open eager locker: its resident values, and the news it absorbs. */
module EagerCoherence {
  import opened Wrappers
  import opened Bytes
  import opened Storage
  import opened Batches
  import opened News
  import L = LockerSteps

  /** Decoding belongs to the value type and the filter chain. */
  type Decoder<!V> = Payload -> Option<V>

  /**
   `corrupt` are keys whose stored bytes would not decode at open, `dropped` those whose news this tab could not
   take on; `local` remembers the epoch of this tab's own last commit of a key, `applied` the highest absorbed.
   */
  datatype Eager<V> = Eager(
    values: map<Key, V>, corrupt: set<Key>, dropped: set<Key>, staged: seq<Pending>,
    local: map<Key, nat>, applied: nat)
  {
    /** What `delete` takes for present. */
    predicate Holds(k: Key) { k in values || k in corrupt || k in dropped }

    /** This tab has committed the key at the news's epoch or later. */
    predicate Outranks(k: Key, epoch: nat) { k in local && epoch <= local[k] }
  }

  function Decoded<V>(dec: Decoder<V>, c: Change): Option<V>
  {
    if c.deleted || c.value.None? then None else dec(c.value.value)
  }

  function Absorb<V>(r: Eager<V>, dec: Decoder<V>, epoch: nat, c: Change): Eager<V>
  {
    if r.Outranks(c.key, epoch) then r
    else
      match Decoded(dec, c)
      case Some(v) => r.(values := r.values[c.key := v], dropped := r.dropped - {c.key})
      case None =>
        r.(values := r.values - {c.key}, dropped := if c.deleted then r.dropped - {c.key} else r.dropped + {c.key})
  }

  function AbsorbAll<V>(r: Eager<V>, dec: Decoder<V>, epoch: nat, changes: seq<Change>): Eager<V>
    decreases |changes|
  {
    if changes == [] then r
    else Absorb(AbsorbAll(r, dec, epoch, changes[..|changes| - 1]), dec, epoch, changes[|changes| - 1])
  }

  function Wiped<V>(r: Eager<V>): Eager<V> { r.(values := map[], dropped := {}, local := map[]) }

  /** A message at or below the highest epoch absorbed tells nothing new. */
  function Receive<V>(r: Eager<V>, dec: Decoder<V>, a: Announcement): Eager<V>
  {
    if a.epoch <= r.applied then r
    else
      var r1 := r.(applied := a.epoch);
      AbsorbAll(if a.cleared then Wiped(r1) else r1, dec, a.epoch, a.changes)
  }

  // ---- what holds between resident state and storage -----------------

  /** Every value held is the stored one. */
  ghost predicate Agrees<V(!new)>(r: Eager<V>, recs: Records, dec: Decoder<V>)
  {
    forall k :: k in r.values ==> k in recs && recs[k].Inline? && dec(recs[k].payload) == Some(r.values[k])
  }

  /** Every stored key is held, known corrupt, or known dropped. */
  ghost predicate Covers<V(!new)>(r: Eager<V>, recs: Records)
  {
    (forall k :: k in recs ==> r.Holds(k)) && (forall k :: k in r.dropped ==> k in recs)
  }

  /** What absorbing does to one key. */
  lemma {:induction false} AbsorbedAt<V>(r: Eager<V>, dec: Decoder<V>, epoch: nat, changes: seq<Change>, k: Key)
    ensures var r1, c := AbsorbAll(r, dec, epoch, changes), LastOf(changes, k);
      && r1.corrupt == r.corrupt && r1.local == r.local && r1.applied == r.applied && r1.staged == r.staged
      && (if c.None? || r.Outranks(k, epoch) then
            (k in r1.values <==> k in r.values) && (k in r.values ==> r1.values[k] == r.values[k])
            && (k in r1.dropped <==> k in r.dropped)
          else
            match Decoded(dec, c.value)
            case Some(v) => k in r1.values && r1.values[k] == v && k !in r1.dropped
            case None => k !in r1.values && (k in r1.dropped <==> !c.value.deleted))
    decreases |changes|
  {
    if changes != [] { AbsorbedAt(r, dec, epoch, changes[..|changes| - 1], k); }
  }

  /** The change carries a value this tab can hold. */
  predicate Usable<V>(c: Change, dec: Decoder<V>)
  {
    !c.deleted && c.value.Some? && dec(c.value.value).Some?
  }

  /** The key is held with the value the change carries, if that is usable, and otherwise not held at all. */
  predicate HeldAs<V(==)>(r: Eager<V>, k: Key, c: Change, dec: Decoder<V>)
  {
    if Usable(c, dec) then k in r.values && dec(c.value.value) == Some(r.values[k]) && k !in r.dropped
    else k !in r.values && (k in r.dropped <==> !c.deleted)
  }

  /** Nothing about the key has changed. */
  predicate AsBefore<V(==)>(r: Eager<V>, r': Eager<V>, k: Key)
  {
    && (k in r'.values <==> k in r.values) && (k in r.values ==> r'.values[k] == r.values[k])
    && (k in r'.dropped <==> k in r.dropped)
  }

  /**
   What fresh news does to one key, said on the fields: its last change is taken over, unless this tab has committed
   the key at that epoch or later and nothing was cleared; a key it does not name stays, or goes with a clear.
   */
  predicate Took<V(==)>(r: Eager<V>, r': Eager<V>, dec: Decoder<V>, a: Announcement, k: Key)
  {
    match LastOf(a.changes, k)
    case Some(c) =>
      if !a.cleared && k in r.local && a.epoch <= r.local[k] then AsBefore(r, r', k) else HeldAs(r', k, c, dec)
    case None =>
      if a.cleared then k !in r'.values && k !in r'.dropped else AsBefore(r, r', k)
  }

  lemma ReceiveTakes<V(!new)>(r: Eager<V>, dec: Decoder<V>, a: Announcement)
    requires a.epoch > r.applied
    ensures forall k :: Took(r, Receive(r, dec, a), dec, a, k)
  {
    var r0 := if a.cleared then Wiped(r.(applied := a.epoch)) else r.(applied := a.epoch);
    forall k ensures Took(r, Receive(r, dec, a), dec, a, k) {
      AbsorbedAt(r0, dec, a.epoch, a.changes, k);
    }
  }

  /** Nothing this tab has committed stands in the way of the news. */
  ghost predicate Unopposed<V(!new)>(r: Eager<V>, epoch: nat)
  {
    forall k :: k in r.local ==> r.local[k] < epoch
  }

  /**
   Absorbing fresh news keeps values true and stored keys covered, when none of it is refused: this is the whole of
   convergence with one writer.
   */
  lemma ReceiveConverges<V(!new)>(r: Eager<V>, dec: Decoder<V>, a: Announcement, before: Records, after: Records,
                                  carries: Carries)
    requires Tells(Digest(a.cleared, a.changes), before, after, carries)
    requires Agrees(r, before, dec) && Covers(r, before) && a.epoch > r.applied && Unopposed(r, a.epoch)
    ensures var r1 := Receive(r, dec, a);
      Agrees(r1, after, dec) && Covers(r1, after) && r1.applied == a.epoch && Unopposed(r1, a.epoch)
  {
    var r1 := r.(applied := a.epoch);
    var r0 := if a.cleared then Wiped(r1) else r1;
    var r2 := Receive(r, dec, a);
    forall k
      ensures k in r2.values ==> k in after && after[k].Inline? && dec(after[k].payload) == Some(r2.values[k])
      ensures k in after ==> r2.Holds(k)
      ensures k in r2.dropped ==> k in after
      ensures r2.local == r0.local && r2.applied == a.epoch
    {
      AbsorbedAt(r0, dec, a.epoch, a.changes, k);
      assert !r0.Outranks(k, a.epoch);
    }
    AbsorbedAt(r0, dec, a.epoch, a.changes, []);
  }

  // ---- deliveries ----------------------------------------------------

  function DeliverAll<V>(r: Eager<V>, dec: Decoder<V>, msgs: seq<Announcement>): Eager<V>
    decreases |msgs|
  {
    if msgs == [] then r else Receive(DeliverAll(r, dec, msgs[..|msgs| - 1]), dec, msgs[|msgs| - 1])
  }

  /** The highest epoch after the messages, starting from `high`. */
  function HighAfter(high: nat, msgs: seq<Announcement>): nat
    decreases |msgs|
  {
    if msgs == [] then high
    else
      var before := HighAfter(high, msgs[..|msgs| - 1]);
      if msgs[|msgs| - 1].epoch > before then msgs[|msgs| - 1].epoch else before
  }

  /** The messages that each set a new record. */
  function RecordHighs(high: nat, msgs: seq<Announcement>): seq<Announcement>
    decreases |msgs|
  {
    if msgs == [] then []
    else
      var init, last := msgs[..|msgs| - 1], msgs[|msgs| - 1];
      if last.epoch > HighAfter(high, init) then RecordHighs(high, init) + [last] else RecordHighs(high, init)
  }

  /** Repeats and late arrivals change nothing: a delivery has the effect of its record-high messages alone. */
  lemma {:induction false} OnlyRecordHighsCount<V>(r: Eager<V>, dec: Decoder<V>, msgs: seq<Announcement>)
    ensures DeliverAll(r, dec, msgs) == DeliverAll(r, dec, RecordHighs(r.applied, msgs))
    ensures DeliverAll(r, dec, msgs).applied == HighAfter(r.applied, msgs)
    decreases |msgs|
  {
    if msgs != [] {
      var init, last := msgs[..|msgs| - 1], msgs[|msgs| - 1];
      OnlyRecordHighsCount(r, dec, init);
      var r1 := DeliverAll(r, dec, init);
      var r2 := if last.cleared then Wiped(r1.(applied := last.epoch)) else r1.(applied := last.epoch);
      AbsorbedAt(r2, dec, last.epoch, last.changes, []);
      var highs := RecordHighs(r.applied, init);
      assert (highs + [last])[..|highs|] == highs;
    }
  }

  /** One writer's commits to the locker: each with its epoch, its news, and the records before and after. */
  ghost predicate IsHistory(recs: seq<Records>, news: seq<Announcement>, carries: Carries)
  {
    && |recs| == |news| + 1
    && (forall i :: 0 <= i < |news| ==> Tells(Digest(news[i].cleared, news[i].changes), recs[i], recs[i + 1], carries))
    && (forall i :: 0 <= i < |news| ==> Rises(news, i))
  }

  /** Each commit's epoch is above the one before. */
  predicate Rises(news: seq<Announcement>, i: nat)
    requires i < |news|
  {
    news[i].epoch > if i == 0 then 0 else news[i - 1].epoch
  }

  /** The last thing the messages say of a key; a clear says of every key that it is gone. */
  function LastNews(news: seq<Announcement>, k: Key): Option<Change>
    decreases |news|
  {
    if news == [] then None
    else
      var last := news[|news| - 1];
      if LastOf(last.changes, k).Some? then LastOf(last.changes, k)
      else if last.cleared then Some(Change(k, None, None, true))
      else LastNews(news[..|news| - 1], k)
  }

  /** Every key the messages name is held as they last told of it; every other is as it was. */
  ghost predicate HeldAsTold<V(!new)>(r: Eager<V>, r': Eager<V>, dec: Decoder<V>, news: seq<Announcement>)
  {
    forall k ::
      match LastNews(news, k) {
        case Some(c) => HeldAs(r', k, c, dec)
        case None => AsBefore(r, r', k)
      }
  }

  /** Every stored key the messages name, inline and small enough to be carried, is held if it decodes. */
  ghost predicate HoldsCarried<V(!new)>(r: Eager<V>, dec: Decoder<V>, recs: Records, carries: Carries,
                                        news: seq<Announcement>)
  {
    forall k :: k in recs && recs[k].Inline? && carries(recs[k].payload) && LastNews(news, k).Some?
                && dec(recs[k].payload).Some? ==>
      k in r.values && Some(r.values[k]) == dec(recs[k].payload) && k !in r.dropped
  }

  /**
   With one remote writer and no commits of its own in the way, a receiver that has heard the first `n` commits in
   order, with any repeats and late arrivals in between, holds only true values, accounts for every stored key, holds
   every value that was carried and decodes, and has dropped only keys whose last news carried nothing usable.
   */
  lemma {:induction false} Converges<V(!new)>(r: Eager<V>, dec: Decoder<V>, recs: seq<Records>, news: seq<Announcement>,
                                              carries: Carries, msgs: seq<Announcement>, n: nat)
    requires IsHistory(recs, news, carries) && n <= |news| && RecordHighs(r.applied, msgs) == news[..n]
    requires Agrees(r, recs[0], dec) && Covers(r, recs[0]) && r.applied == 0 && r.local == map[]
    ensures var r1 := DeliverAll(r, dec, msgs);
      && Agrees(r1, recs[n], dec) && Covers(r1, recs[n])
      && HeldAsTold(r, r1, dec, news[..n]) && HoldsCarried(r1, dec, recs[n], carries, news[..n])
  {
    OnlyRecordHighsCount(r, dec, msgs);
    InOrder(r, dec, recs, news, carries, n);
    ToldInOrder(r, dec, recs, news, carries, n);
    forall k | LastNews(news[..n], k).Some? && k in recs[n]
      ensures LastNews(news[..n], k) == Some(ChangeFor(k, recs[n][k], carries))
    {
      LastNewsTrue(recs, news, carries, n, k);
    }
  }

  lemma {:induction false} LastNewsTrue(recs: seq<Records>, news: seq<Announcement>, carries: Carries, n: nat, k: Key)
    requires IsHistory(recs, news, carries) && n <= |news|
    ensures match LastNews(news[..n], k)
            case Some(c) => if k in recs[n] then c == ChangeFor(k, recs[n][k], carries) else c.deleted
            case None => (k in recs[n] <==> k in recs[0]) && (k in recs[n] ==> recs[n][k] == recs[0][k])
    decreases n
  {
    if n > 0 {
      LastNewsTrue(recs, news, carries, n - 1, k);
      FirstOfFirst(news, n);
      assert Tells(Digest(news[n - 1].cleared, news[n - 1].changes), recs[n - 1], recs[n], carries);
    }
  }

  lemma {:induction false} ToldInOrder<V(!new)>(r: Eager<V>, dec: Decoder<V>, recs: seq<Records>,
                                                news: seq<Announcement>, carries: Carries, n: nat)
    requires IsHistory(recs, news, carries) && n <= |news|
    requires Agrees(r, recs[0], dec) && Covers(r, recs[0]) && r.applied == 0 && r.local == map[]
    ensures HeldAsTold(r, DeliverAll(r, dec, news[..n]), dec, news[..n])
    decreases n
  {
    if n > 0 {
      ToldInOrder(r, dec, recs, news, carries, n - 1);
      InOrder(r, dec, recs, news, carries, n - 1);
      FirstOfFirst(news, n);
      var r1, a := DeliverAll(r, dec, news[..n - 1]), news[n - 1];
      assert Rises(news, n - 1);
      ReceiveTakes(r1, dec, a);
      OneMoreTold(r, r1, Receive(r1, dec, a), dec, news[..n - 1], a);
      assert news[..n - 1] + [a] == news[..n];
    }
  }

  lemma OneMoreTold<V(!new)>(r: Eager<V>, r1: Eager<V>, r2: Eager<V>, dec: Decoder<V>, news: seq<Announcement>,
                             a: Announcement)
    requires HeldAsTold(r, r1, dec, news) && Unopposed(r1, a.epoch) && forall k :: Took(r1, r2, dec, a, k)
    ensures HeldAsTold(r, r2, dec, news + [a])
  {
    assert (news + [a])[..|news|] == news;
    forall k
      ensures match LastNews(news + [a], k) { case Some(c) => HeldAs(r2, k, c, dec) case None => AsBefore(r, r2, k) }
    {
      assert Took(r1, r2, dec, a, k);
      assert match LastNews(news, k) { case Some(c) => HeldAs(r1, k, c, dec) case None => AsBefore(r, r1, k) };
    }
  }

  lemma FirstOfFirst(news: seq<Announcement>, n: nat)
    requires 0 < n <= |news|
    ensures news[..n][..n - 1] == news[..n - 1] && news[..n][n - 1] == news[n - 1]
  {
  }

  lemma {:induction false} InOrder<V(!new)>(r: Eager<V>, dec: Decoder<V>, recs: seq<Records>, news: seq<Announcement>,
                                            carries: Carries, n: nat)
    requires IsHistory(recs, news, carries) && n <= |news|
    requires Agrees(r, recs[0], dec) && Covers(r, recs[0]) && r.applied == 0 && r.local == map[]
    ensures var r1 := DeliverAll(r, dec, news[..n]);
      && Agrees(r1, recs[n], dec) && Covers(r1, recs[n])
      && r1.applied == (if n == 0 then 0 else news[n - 1].epoch) && Unopposed(r1, r1.applied + 1)
    decreases n
  {
    if n > 0 {
      InOrder(r, dec, recs, news, carries, n - 1);
      FirstOfFirst(news, n);
      var r1 := DeliverAll(r, dec, news[..n - 1]);
      assert Rises(news, n - 1);
      ReceiveConverges(r1, dec, news[n - 1], recs[n - 1], recs[n], carries);
    }
  }

  // ---- a delete never skips a stored record --------------------------

  /** Whether the locker, staged writes included, has a record under `k`. */
  function Present(staged: seq<Pending>, stored: bool, k: Key): bool
  {
    match L.StagedView(staged, k)
    case Some(view) => view.Some?
    case None => stored
  }

  /** Every stored or staged key counts as present for a delete. */
  ghost predicate CoversAll<V(!new)>(r: Eager<V>, recs: Records)
  {
    forall k :: Present(r.staged, k in recs, k) ==> r.Holds(k)
  }

  /** The early return of `delete`: nothing held, nothing to remove. */
  function Skips<V>(r: Eager<V>, k: Key): bool { !r.Holds(k) }

  /** The message leaves a stored or staged key unaccounted for nowhere. */
  ghost predicate Unhurt<V(!new)>(r: Eager<V>, a: Announcement)
  {
    forall k :: UnhurtAt(r, a, k)
  }

  predicate UnhurtAt<V(!new)>(r: Eager<V>, a: Announcement, k: Key)
  {
    match LastOf(a.changes, k)
    case None => a.cleared && Present(r.staged, false, k) ==> k in r.corrupt
    case Some(c) =>
      if !a.cleared && r.Outranks(k, a.epoch) then Present(r.staged, !c.deleted, k) ==> r.Holds(k)
      else c.deleted && Present(r.staged, false, k) ==> k in r.corrupt
  }

  /**
   Fresh news keeps the cover exactly when no refused put is of a key not held already, and no absorbed removal is
   of a key a staged write will bring back.
   */
  lemma NewsCoverExact<V(!new)>(r: Eager<V>, dec: Decoder<V>, a: Announcement, before: Records, after: Records,
                                carries: Carries)
    requires Tells(Digest(a.cleared, a.changes), before, after, carries) && CoversAll(r, before)
    requires a.epoch > r.applied
    ensures CoversAll(Receive(r, dec, a), after) <==> Unhurt(r, a)
  {
    forall k ensures (Present(r.staged, k in after, k) ==> Receive(r, dec, a).Holds(k)) <==> UnhurtAt(r, a, k) {
      NewsCoverAt(r, dec, a, before, after, carries, k);
    }
    var r1 := Receive(r, dec, a);
    var r0 := r.(applied := a.epoch);
    AbsorbedAt(if a.cleared then Wiped(r0) else r0, dec, a.epoch, a.changes, []);
    assert r1.staged == r.staged;
    if Unhurt(r, a) {
      forall k | Present(r1.staged, k in after, k) ensures r1.Holds(k) { assert UnhurtAt(r, a, k); }
    }
    if CoversAll(r1, after) {
      forall k ensures UnhurtAt(r, a, k) { assert Present(r1.staged, k in after, k) ==> r1.Holds(k); }
    }
  }

  lemma NewsCoverAt<V(!new)>(r: Eager<V>, dec: Decoder<V>, a: Announcement, before: Records, after: Records,
                             carries: Carries, k: Key)
    requires Tells(Digest(a.cleared, a.changes), before, after, carries) && CoversAll(r, before)
    requires a.epoch > r.applied
    ensures (Present(r.staged, k in after, k) ==> Receive(r, dec, a).Holds(k)) <==> UnhurtAt(r, a, k)
  {
    var r0 := if a.cleared then Wiped(r.(applied := a.epoch)) else r.(applied := a.epoch);
    AbsorbedAt(r0, dec, a.epoch, a.changes, k);
    assert Present(r.staged, k in before, k) ==> r.Holds(k);
  }

  /** The message leaves a record under the key, and no staged removal hides it. */
  predicate PutsUnhidden<V>(r: Eager<V>, a: Announcement, k: Key)
  {
    LastOf(a.changes, k).Some? && !LastOf(a.changes, k).value.deleted && Present(r.staged, true, k)
  }

  /** Late news is ignored, which is harmless exactly when every put it names is of a key held already. */
  lemma LateNewsCoverExact<V(!new)>(r: Eager<V>, dec: Decoder<V>, a: Announcement, before: Records, after: Records,
                                    carries: Carries)
    requires Tells(Digest(a.cleared, a.changes), before, after, carries) && CoversAll(r, before)
    requires a.epoch <= r.applied
    ensures CoversAll(Receive(r, dec, a), after) <==>
              forall k :: PutsUnhidden(r, a, k) ==> r.Holds(k)
  {
    forall k
      ensures Present(r.staged, k in after, k) && !r.Holds(k) <==>
              PutsUnhidden(r, a, k) && !r.Holds(k)
    {
      assert Present(r.staged, k in before, k) ==> r.Holds(k);
    }
  }

  /** A delete returns early only when there is nothing stored or staged to remove. */
  lemma SkipIsSafe<V(!new)>(r: Eager<V>, recs: Records, k: Key)
    requires CoversAll(r, recs) && Skips(r, k)
    ensures k !in recs || L.StagedView(r.staged, k) == Some(None)
  {
    assert !Present(r.staged, k in recs, k);
  }

  /**
   What a receiver can check before it takes a message: fresh news is above every epoch of its own, with nothing
   staged to be brought back; late news, which it will ignore, puts no key it does not hold already.
   */
  ghost predicate Heeds<V(!new)>(r: Eager<V>, a: Announcement)
  {
    if a.epoch > r.applied then Unopposed(r, a.epoch) && r.staged == []
    else
      forall k :: PutsUnhidden(r, a, k) ==> r.Holds(k)
  }

  /** Under that rule no message leaves a stored or staged key unaccounted for. */
  lemma HeededNewsCovers<V(!new)>(r: Eager<V>, dec: Decoder<V>, a: Announcement, before: Records, after: Records,
                                  carries: Carries)
    requires Tells(Digest(a.cleared, a.changes), before, after, carries) && CoversAll(r, before) && Heeds(r, a)
    ensures CoversAll(Receive(r, dec, a), after)
  {
    if a.epoch > r.applied {
      NewsCoverExact(r, dec, a, before, after, carries);
    } else {
      LateNewsCoverExact(r, dec, a, before, after, carries);
    }
  }

  /**
   How it goes wrong: this tab deleted a key at its own epoch 10; another tab, whose counter stands at 3, then puts
   it. The news is refused, the key is held nowhere, and a delete here returns without touching the stored record.
   */
  lemma RefusedNewsHidesRecord()
    ensures var k: Key, p: Payload := [1], [7];
            var r: Eager<Payload> := Eager(map[], {}, {}, [], map[k := 10], 0);
            var a := Announcement(2, 0, 3, false, [Change(k, Some(p), None, false)]);
            var dec: Decoder<Payload> := p => Some(p);
      && Tells(Digest(false, a.changes), map[], map[k := Inline(p)], p => true)
      && CoversAll(r, map[])
      && Skips(Receive(r, dec, a), k) && !CoversAll(Receive(r, dec, a), map[k := Inline(p)])
  {
    var k: Key, p: Payload := [1], [7];
    var r: Eager<Payload> := Eager(map[], {}, {}, [], map[k := 10], 0);
    var a := Announcement(2, 0, 3, false, [Change(k, Some(p), None, false)]);
    var dec: Decoder<Payload> := p => Some(p);
    var after: Records := map[k := Inline(p)];
    forall j ensures LastOf(a.changes, j) == if j == k then Some(a.changes[0]) else None {
      assert a.changes[..0] == [];
    }
    NewsCoverExact(r, dec, a, map[], after, p => true);
    assert !UnhurtAt(r, a, k);
    AbsorbedAt(r.(applied := 3), dec, 3, a.changes, k);
  }
}
