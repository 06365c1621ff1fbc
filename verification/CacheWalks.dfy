/**
 Background walks: a job that visits every account in turn must leave the cache as it found
 it. One visit at a time it does; two overlapping walks need not.
 */
module CacheWalks {
  import opened Common
  import opened HandleCache
  import opened CacheRuns

  /** No release is half done. */
  ghost predicate Quiet(w: World) {
    forall g :: g in w.guards ==> !w.guards[g].ended
  }

  datatype Visit = Visit(guard: nat, id: Id, now: int, probe: Probe, outcome: Outcome)

  /** A scan's acquisition: the handle this process holds if it can be used, else an open. */
  function Acquisition(c: Cache, v: Visit): Event {
    if AcquireCached(c, v.id, false, v.now).1.Some? then Cached(v.guard, v.id, false, v.now)
    else Event.Open(v.guard, v.id, false, v.now, v.probe, v.outcome)
  }

  /** Account ids are positive; any other is refused before anything is looked at. */
  ghost predicate Acquired(w: World, v: Visit, a: World, cap: nat) {
    && v.id >= 1
    && Next(w, Acquisition(w.cache, v), a, cap)
    && var held := AcquireCached(w.cache, v.id, false, v.now).1;
       (held.Some? ==> held.value == v.outcome)
  }

  /** One visit of a walk: acquire, and if that succeeded release, with nothing in between. */
  ghost predicate VisitedBy(w: World, v: Visit, a: World, b: World, w': World, cap: nat) {
    && Acquired(w, v, a, cap)
    && if v.outcome.Got? then Next(a, End(v.guard), b, cap) && Next(b, Settle(v.guard), w', cap) else b == a == w'
  }

  ghost predicate Visited(w: World, v: Visit, w': World, cap: nat) {
    exists a, b :: VisitedBy(w, v, a, b, w', cap)
  }

  /** The visit goes to the disk and finds the account's deletion marker. */
  predicate FindsMarker(c: Cache, v: Visit) {
    v.probe.Marked? && v.id !in c.blocked && AcquireCached(c, v.id, false, v.now).1.None?
  }

  /** Everything about the cache that a later acquisition or eviction of an account not being
      deleted can depend on. */
  ghost predicate Unnoticed(w: World, w': World) {
    && w'.guards == w.guards
    && w'.cache.open == w.cache.open && w'.cache.tick == w.cache.tick
    && w'.cache.stats.evictions == w.cache.stats.evictions
    && w'.cache.stats.idleCloses == w.cache.stats.idleCloses
    && w'.cache.stats.overshoots == w.cache.stats.overshoots
  }

  lemma ChoosingUnderTheCap(c: Cache, c': Cache, cap: nat)
    requires Chosen(c, c', cap) && |c.open| <= cap
    ensures c' == c
  {
    EvictionMeetsTheCap(c.open, c'.open, cap);
    assert c.open.Keys - c'.open.Keys == {};
  }

  lemma AHeldHandleIsAcquired(w: World, v: Visit, a: World, cap: nat)
    requires Acquired(w, v, a, cap) && v.id in w.cache.open && v.outcome.Got?
    ensures a.cache == BeginUse(w.cache, v.id) && v.guard !in w.guards
    ensures a.guards == w.guards[v.guard := Guard(v.id, w.cache.open[v.id].serial, w.cache.open[v.id].rank == 0, false)]
  {}

  lemma AHeldHandleIsEnded(w: World, v: Visit, a: World, b: World, cap: nat)
    requires Acquired(w, v, a, cap) && v.id in w.cache.open && v.outcome.Got? && Next(a, End(v.guard), b, cap)
    ensures b.cache == w.cache && b.guards - {v.guard} == w.guards
    ensures b.guards[v.guard].id == v.id && b.guards[v.guard].borrowed == (w.cache.open[v.id].rank == 0)
  {
    AHeldHandleIsAcquired(w, v, a, cap);
    assert b.cache.open == w.cache.open;
  }

  lemma AnUnpromotedHandleIsHeld(w: World, id: Id)
    requires Inv(w) && Quiet(w) && id in w.cache.open && w.cache.open[id].rank == 0
    ensures w.cache.open[id].uses > 0
  {
    var serial := w.cache.open[id].serial;
    assert HasGuard(w, serial);
    var g :| g in w.guards && w.guards[g].serial == serial;
    assert g in Holders(w.guards, serial);
  }

  lemma AHeldHandleIsVisited(w: World, v: Visit, a: World, b: World, w': World, cap: nat)
    requires Inv(w) && Quiet(w) && |w.cache.open| <= cap && v.id in w.cache.open && v.outcome.Got?
    requires VisitedBy(w, v, a, b, w', cap)
    ensures w' == w
  {
    AHeldHandleIsEnded(w, v, a, b, cap);
    if w.cache.open[v.id].rank == 0 {
      AnUnpromotedHandleIsHeld(w, v.id);
    } else {
      ChoosingUnderTheCap(b.cache, w'.cache, cap);
    }
  }

  lemma AnUnheldHandleIsEnded(w: World, v: Visit, a: World, b: World, cap: nat)
    requires Acquired(w, v, a, cap) && v.id !in w.cache.open && v.outcome.Got? && Next(a, End(v.guard), b, cap)
    ensures var inserted := Inserted(w.cache, v.id, false, v.now);
            b.cache == inserted.(open := inserted.open[v.id := inserted.open[v.id].(uses := 0)])
    ensures b.guards - {v.guard} == w.guards
    ensures b.guards[v.guard].id == v.id && b.guards[v.guard].borrowed
  {
    assert a.cache == Inserted(w.cache, v.id, false, v.now);
    assert a.guards[v.guard].serial == a.cache.open[v.id].serial;
  }

  lemma AnUnheldHandleIsVisited(w: World, v: Visit, a: World, b: World, w': World, cap: nat)
    requires v.id !in w.cache.open && v.outcome.Got?
    requires VisitedBy(w, v, a, b, w', cap)
    ensures Unnoticed(w, w') && w'.cache.blocked == w.cache.blocked && !FindsMarker(w.cache, v)
  {
    AnUnheldHandleIsEnded(w, v, a, b, cap);
    assert w'.cache.open == w.cache.open;
  }

  lemma AFailedVisit(w: World, v: Visit, a: World, b: World, w': World, cap: nat)
    requires Inv(w) && !v.outcome.Got? && VisitedBy(w, v, a, b, w', cap)
    ensures Unnoticed(w, w')
    ensures w'.cache.blocked == if FindsMarker(w.cache, v) then w.cache.blocked + {v.id} else w.cache.blocked
  {
    assert v.id in w.cache.open ==> !w.cache.open[v.id].closing;
    if FindsMarker(w.cache, v) { assert w'.cache.open == w.cache.open; }
  }

  /** From a cache at or under its cap with no release half done, a visit to any account,
      open or not, goes unnoticed, whatever it finds; an account is refused from then on
      exactly when the visit found its deletion marker. */
  lemma AVisitIsUnnoticed(w: World, v: Visit, w': World, cap: nat)
    requires Inv(w) && Quiet(w) && |w.cache.open| <= cap
    requires Visited(w, v, w', cap)
    ensures Unnoticed(w, w')
    ensures w'.cache.blocked == if FindsMarker(w.cache, v) then w.cache.blocked + {v.id} else w.cache.blocked
  {
    var a, b :| VisitedBy(w, v, a, b, w', cap);
    if !v.outcome.Got? { AFailedVisit(w, v, a, b, w', cap); }
    else if v.id in w.cache.open { AHeldHandleIsVisited(w, v, a, b, w', cap); }
    else { AnUnheldHandleIsVisited(w, v, a, b, w', cap); }
  }

  lemma AVisitKeeps(w: World, v: Visit, w': World, cap: nat)
    requires Inv(w) && Visited(w, v, w', cap)
    ensures Inv(w')
  {
    var a, b :| VisitedBy(w, v, a, b, w', cap);
    StepKeeps(w, Acquisition(w.cache, v), a, cap);
    if v.outcome.Got? {
      StepKeeps(a, End(v.guard), b, cap);
      StepKeeps(b, Settle(v.guard), w', cap);
    }
  }

  ghost predicate Walked(ws: seq<World>, vs: seq<Visit>, cap: nat) {
    && |ws| == |vs| + 1
    && forall i :: 0 <= i < |vs| ==> Visited(ws[i], vs[i], ws[i + 1], cap)
  }

  /** One of the first i visits found this account's marker. */
  ghost predicate MarkerFound(ws: seq<World>, vs: seq<Visit>, i: nat, id: Id) {
    exists j :: 0 <= j < i && j < |vs| && j < |ws| && FindsMarker(ws[j].cache, vs[j]) && vs[j].id == id
  }

  lemma MarkerFoundNext(ws: seq<World>, vs: seq<Visit>, i: nat, id: Id)
    requires 0 < i <= |vs| && i < |ws|
    ensures MarkerFound(ws, vs, i, id) <==>
              MarkerFound(ws, vs, i - 1, id) || (FindsMarker(ws[i - 1].cache, vs[i - 1]) && vs[i - 1].id == id)
  {
    hide FindsMarker;
  }

  /** A walk over any accounts, however long, goes unnoticed, and the accounts refused after
      it are those refused before and those whose marker it found. */
  lemma {:induction false} AWalkIsInvisible(ws: seq<World>, vs: seq<Visit>, cap: nat, i: nat)
    requires Walked(ws, vs, cap) && i < |ws|
    requires Inv(ws[0]) && Quiet(ws[0]) && |ws[0].cache.open| <= cap
    ensures Inv(ws[i]) && Unnoticed(ws[0], ws[i])
    ensures forall id :: id in ws[i].cache.blocked <==> id in ws[0].cache.blocked || MarkerFound(ws, vs, i, id)
  {
    hide Inv, Visited, FindsMarker;
    if i > 0 {
      AWalkIsInvisible(ws, vs, cap, i - 1);
      assert Visited(ws[i - 1], vs[i - 1], ws[i - 1 + 1], cap);
      AVisitIsUnnoticed(ws[i - 1], vs[i - 1], ws[i], cap);
      AVisitKeeps(ws[i - 1], vs[i - 1], ws[i], cap);
      hide Walked, MarkerFound;
      forall id
        ensures id in ws[i].cache.blocked <==> id in ws[0].cache.blocked || MarkerFound(ws, vs, i, id)
      {
        MarkerFoundNext(ws, vs, i, id);
      }
    }
  }

  // ---- overlapping walks ----

  lemma ChoosingLeavesAlone(c: Cache, c': Cache, cap: nat)
    requires Chosen(c, c', cap)
    ensures c' == c <==> |c.open| <= cap
    ensures c'.open == c.open <==> |c.open| <= cap || IdleIds(c.open) == {}
  {
    var victims := c.open.Keys - c'.open.Keys;
    if |c.open| <= cap {
      ChoosingUnderTheCap(c, c', cap);
    } else if c'.open == c.open {
      assert |victims| == 0 && |IdleIds(c.open)| == 0;
    } else {
      assert victims != {};
    }
  }

  /** Releasing a guard that was not borrowed leaves the cache alone exactly when the map is
      at or under its cap, and closes nothing exactly then or when every handle is in use. */
  lemma ReleaseOfAnUnborrowedGuard(w: World, guard: nat, w': World, cap: nat)
    requires Next(w, Settle(guard), w', cap) && !w.guards[guard].borrowed
    ensures w'.cache == w.cache <==> |w.cache.open| <= cap
    ensures w'.cache.open == w.cache.open <==> |w.cache.open| <= cap || IdleIds(w.cache.open) == {}
  {
    ChoosingLeavesAlone(w.cache, w'.cache, cap);
  }

  // A cache of one, holding account 1 for real traffic; a scan borrows account 2, and another
  // scan takes account 1 and releases it.

  function Traffic(now: int): Handle { Handle(0, 1, now, 0, false) }

  function Borrowed(): Handle { Handle(1, 0, 0, 1, false) }

  function Before(now: int): World { World(Cache(map[1 := Traffic(now)], {}, 1, 1, true, Stats(1, 0, 0, 0)), map[]) }

  function Over(now: int): World {
    World(Cache(map[1 := Traffic(now), 2 := Borrowed()], {}, 1, 2, true, Stats(2, 0, 0, 0)),
          map[0 := Guard(2, 1, true, false)])
  }

  function Both(now: int): World {
    World(BeginUse(Over(now).cache, 1), Over(now).guards[1 := Guard(1, 0, false, false)])
  }

  function Ended(now: int): World { World(Over(now).cache, Over(now).guards[1 := Guard(1, 0, false, true)]) }

  function After(now: int): World {
    World(Over(now).cache.(open := map[2 := Borrowed()], stats := Stats(2, 1, 0, 0)), Over(now).guards)
  }

  lemma TheFirstScanBorrows(now: int)
    ensures Inv(Before(now)) && Next(Before(now), Event.Open(0, 2, false, now, Clear(true), Got(1, true)), Over(now), 1)
  {
    assert Holders(Before(now).guards, 0) == {};
    assert Over(now).cache == Inserted(Before(now).cache, 2, false, now);
  }

  lemma TheSecondScanReleases(now: int)
    ensures Next(Over(now), Cached(1, 1, false, now), Both(now), 1)
    ensures Next(Both(now), End(1), Ended(now), 1)
  {
    assert AcquireCached(Over(now).cache, 1, false, now).1 == Some(Got(0, false));
    assert EndUse(Both(now).cache, 1, 0).open == Over(now).cache.open;
  }

  lemma TheReleaseEvicts(now: int)
    ensures Next(Ended(now), Settle(1), After(now), 1)
  {
    var over, left := Ended(now).cache.open, After(now).cache.open;
    assert over.Keys == {1, 2} && left.Keys == {2};
    assert over.Keys - left.Keys == {1};
    assert IdleIds(over) == {1} && IdleIds(left) == {};
    assert left == over - {1};
    assert Evicted(over, left, 1);
    assert Ended(now).guards - {1} == After(now).guards;
  }

  /** Two scans that overlap can evict an account that real traffic promoted: the handle one
      of them borrows puts the map over its cap, and the other's release evicts. */
  lemma OverlappingScansEvict(now: int)
    ensures exists w0: World, w1: World, w2: World, w3: World, w4: World ::
              && Inv(w0) && Quiet(w0) && |w0.cache.open| == 1
              && Next(w0, Event.Open(0, 2, false, now, Clear(true), Got(1, true)), w1, 1)
              && Next(w1, Cached(1, 1, false, now), w2, 1)
              && Next(w2, End(1), w3, 1)
              && Next(w3, Settle(1), w4, 1)
              && 1 in w0.cache.open && w0.cache.open[1].rank > 0 && 1 !in w4.cache.open
  {
    TheFirstScanBorrows(now);
    TheSecondScanReleases(now);
    TheReleaseEvicts(now);
  }
}
