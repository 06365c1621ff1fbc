/**
 The rank counter implements a recency list.

 The cache keeps no list: promotion stamps a handle with a fresh tick, and eviction looks
 for the smallest stamp. Here the list is kept instead, most recent first, by rules that
 never look at a rank, and is shown to describe the cache at every point of every run.
 */
module RecencyList {
  import opened Common
  import opened HandleCache
  import opened CacheRuns

  function Members(order: seq<Id>): set<Id> { set id | id in order }

  function Without(order: seq<Id>, drop: set<Id>): seq<Id> {
    if order == [] then []
    else
      var rest, last := Without(order[..|order| - 1], drop), order[|order| - 1];
      if last in drop then rest else rest + [last]
  }

  function MoveToFront(order: seq<Id>, id: Id): seq<Id> { [id] + Without(order, {id}) }

  /** Drops up to n of the idle ids, starting from the least recent. */
  function EvictBack(order: seq<Id>, idle: set<Id>, n: nat): seq<Id> {
    if order == [] || n == 0 then order
    else
      var rest, last := order[..|order| - 1], order[|order| - 1];
      if last in idle then EvictBack(rest, idle, n - 1) else EvictBack(rest, idle, n) + [last]
  }

  /** Eviction on the list: idle handles that were never promoted go first and are not listed;
      what is then still over the cap comes off the back, skipping what is in use. */
  function EvictOrder(order: seq<Id>, idle: set<Id>, size: nat, cap: nat): seq<Id> {
    EvictBack(order, idle, FromTheList(order, idle, size, cap))
  }

  /** How many of the handles to evict are on the list, once the idle ones that are not have gone. */
  function FromTheList(order: seq<Id>, idle: set<Id>, size: nat, cap: nat): nat {
    var unlisted := |idle - Members(order)|;
    var over := Excess(size, cap);
    over - Min(over, unlisted)
  }

  /** The recency rules, on the list alone. */
  function NextOrder(order: seq<Id>, c: Cache, guards: map<nat, Guard>, e: Event, cap: nat): seq<Id> {
    match e
    case Cached(_, id, promote, now) =>
      if promote && AcquireCached(c, id, promote, now).1.Some? then MoveToFront(order, id) else order
    case Open(_, id, promote, _, probe, outcome) =>
      if id !in c.blocked && probe.Marked? then Without(order, {id})
      else if !promote || !outcome.Got? then order
      else if id in c.open then MoveToFront(order, id)
      else EvictOrder([id] + order, IdleIds(c.open), |c.open| + 1, cap)
    case End(_) => order
    case Settle(guard) =>
      if guard !in guards || guards[guard].borrowed then order
      else EvictOrder(order, IdleIds(c.open), |c.open|, cap)
    case Sweep(cutoff) =>
      var idle := IdleSince(c.open, cutoff);
      EvictOrder(Without(order, idle), IdleIds(c.open) - idle, |c.open - idle|, cap)
    case Watch(deleted) => Without(order, deleted * IdleIds(c.open))
    case Drop(id, _) => Without(order, {id})
    case SwapMap => []
    case StopWatching => order
  }

  ghost predicate Decreasing(open: map<Id, Handle>, order: seq<Id>) {
    && (forall i :: 0 <= i < |order| ==> order[i] in open)
    && (forall i, j :: 0 <= i < j < |order| ==> open[order[i]].rank > open[order[j]].rank)
  }

  /** The list holds exactly the promoted handles, most recently promoted first. */
  ghost predicate Tracks(open: map<Id, Handle>, order: seq<Id>) {
    && Decreasing(open, order)
    && (forall i :: 0 <= i < |order| ==> open[order[i]].rank > 0)
    && (forall id :: id in open && open[id].rank > 0 ==> id in order)
  }

  // ---- facts about dropping from a list ----

  lemma {:induction false} WithoutMembers(order: seq<Id>, drop: set<Id>)
    ensures forall id :: id in Without(order, drop) <==> id in order && id !in drop
  {
    if order != [] {
      var rest, last := order[..|order| - 1], order[|order| - 1];
      WithoutMembers(rest, drop);
      assert order == rest + [last];
    }
  }

  /** Whatever is kept stands at some place of the list it came from. */
  lemma WithoutAt(order: seq<Id>, drop: set<Id>, i: nat) returns (j: nat)
    requires i < |Without(order, drop)|
    ensures j < |order| && order[j] == Without(order, drop)[i] && order[j] !in drop
  {
    WithoutMembers(order, drop);
    assert Without(order, drop)[i] in Without(order, drop);
    j :| 0 <= j < |order| && order[j] == Without(order, drop)[i];
  }

  lemma {:induction false} WithoutDecreasing(open: map<Id, Handle>, order: seq<Id>, drop: set<Id>)
    requires Decreasing(open, order)
    ensures Decreasing(open, Without(order, drop))
  {
    if order != [] {
      var rest, last := order[..|order| - 1], order[|order| - 1];
      WithoutDecreasing(open, rest, drop);
      var kept := Without(rest, drop);
      forall i | 0 <= i < |kept| ensures open[kept[i]].rank > open[last].rank {
        var j := WithoutAt(rest, drop, i);
        assert order[j] == rest[j];
      }
    }
  }

  /** Dropping handles from the map drops them from the list. */
  lemma DroppedTracks(open: map<Id, Handle>, order: seq<Id>, drop: set<Id>)
    requires Tracks(open, order)
    ensures Tracks(open - drop, Without(order, drop))
  {
    WithoutMembers(order, drop);
    WithoutDecreasing(open, order, drop);
    var kept := Without(order, drop);
    forall i | 0 <= i < |kept| ensures kept[i] in open - drop && open[kept[i]].rank > 0 {
      var j := WithoutAt(order, drop, i);
    }
  }

  lemma PromotedTracks(c: Cache, id: Id, now: int, order: seq<Id>)
    requires Tracks(c.open, order) && Ranks(c) && id in c.open
    ensures Tracks(Promote(c, id, now).open, MoveToFront(order, id))
  {
    WithoutMembers(order, {id});
    DroppedTracks(c.open, order, {id});
    var rest := Without(order, {id});
    var open' := Promote(c, id, now).open;
    assert forall k :: k in c.open - {id} ==> k in open' && open'[k] == c.open[k];
    FrontTracks(c.open - {id}, open', id, rest);
  }

  /** A handle stamped above all others joins at the front. */
  lemma FrontTracks(open: map<Id, Handle>, open': map<Id, Handle>, id: Id, order: seq<Id>)
    requires Tracks(open, order) && id !in open
    requires id in open' && open' - {id} == open
    requires open'[id].rank > 0 && forall k :: k in open ==> open[k].rank < open'[id].rank
    ensures Tracks(open', [id] + order)
  {
    forall k | k in open' && open'[k].rank > 0 ensures k in [id] + order {
      if k != id { assert k in open && open[k] == open'[k]; }
    }
    var front := [id] + order;
    assert forall i :: 0 <= i < |order| ==> order[i] in open && open'[order[i]] == open[order[i]];
    forall i, j | 0 <= i < j < |front| ensures open'[front[i]].rank > open'[front[j]].rank {
      assert front[j] == order[j - 1];
      if i > 0 { assert front[i] == order[i - 1]; }
    }
  }

  // ---- eviction ----

  ghost predicate NoRepeats(order: seq<Id>) {
    forall i, j :: 0 <= i < j < |order| ==> order[i] != order[j]
  }

  /** Every idle id listed after one that goes, goes too. */
  ghost predicate Backmost(order: seq<Id>, idle: set<Id>, gone: set<Id>) {
    forall i, j :: 0 <= i < j < |order| && order[i] in gone && order[j] in idle ==> order[j] in gone
  }

  lemma LastGoesFirst(order: seq<Id>, idle: set<Id>, gone: set<Id>)
    requires order != [] && order[|order| - 1] in idle && gone <= Members(order) && gone != {}
    requires Backmost(order, idle, gone)
    ensures order[|order| - 1] in gone
  {
    var id := Pick(gone);
    var i :| 0 <= i < |order| && order[i] == id;
    if i < |order| - 1 { assert order[i] in gone; }
  }

  /** What is asked of a set of idle ids for dropping it to be the same as taking n of them
      off the back: it has that size or is all of them, and none listed after one is spared. */
  ghost predicate Takes(order: seq<Id>, idle: set<Id>, n: nat, gone: set<Id>) {
    && Backmost(order, idle, gone)
    && gone <= idle * Members(order)
    && (|gone| == n || (|gone| <= n && gone == idle * Members(order)))
  }

  /** Without its last id, and that id gone, the list still gives up its backmost. */
  lemma BackmostButLast(order: seq<Id>, idle: set<Id>, gone: set<Id>)
    requires order != [] && NoRepeats(order) && Backmost(order, idle, gone)
    ensures Backmost(order[..|order| - 1], idle, gone - {order[|order| - 1]})
  {
    var rest, fewer := order[..|order| - 1], gone - {order[|order| - 1]};
    forall i, j | 0 <= i < j < |rest| && rest[i] in fewer && rest[j] in idle
      ensures rest[j] in fewer
    {
      assert order[i] in gone && order[j] in idle;
    }
  }

  lemma TakesLast(order: seq<Id>, idle: set<Id>, n: nat, gone: set<Id>)
    requires order != [] && n > 0 && NoRepeats(order) && Takes(order, idle, n, gone)
    requires order[|order| - 1] in idle
    ensures order[|order| - 1] in gone
    ensures Takes(order[..|order| - 1], idle, n - 1, gone - {order[|order| - 1]})
  {
    var rest, last := order[..|order| - 1], order[|order| - 1];
    assert last !in Members(rest);
    assert Members(order) == Members(rest) + {last} by { assert order == rest + [last]; }
    assert gone != {} by { assert last in idle * Members(order); }
    LastGoesFirst(order, idle, gone);
    BackmostButLast(order, idle, gone);
    hide Backmost, NoRepeats, Members;
    assert gone == idle * Members(order) ==> gone - {last} == idle * Members(rest);
  }

  lemma SkipsLast(order: seq<Id>, idle: set<Id>, n: nat, gone: set<Id>)
    requires order != [] && Takes(order, idle, n, gone) && order[|order| - 1] !in idle
    ensures Takes(order[..|order| - 1], idle, n, gone)
  {
    var rest, last := order[..|order| - 1], order[|order| - 1];
    assert idle * Members(rest) == idle * Members(order) by { assert order == rest + [last]; }
    forall i, j | 0 <= i < j < |rest| && rest[i] in gone && rest[j] in idle ensures rest[j] in gone {
      assert order[i] in gone && order[j] in idle;
    }
  }

  lemma {:induction false} EvictBackDrops(order: seq<Id>, idle: set<Id>, n: nat, gone: set<Id>)
    requires NoRepeats(order) && Takes(order, idle, n, gone)
    ensures EvictBack(order, idle, n) == Without(order, gone)
  {
    if order == [] {
    } else if n == 0 {
      assert gone == {};
      WithoutNothing(order);
    } else {
      var rest, last := order[..|order| - 1], order[|order| - 1];
      assert last !in rest;
      if last in idle {
        TakesLast(order, idle, n, gone);
        hide Takes;
        WithoutElsewhere(rest, gone, last);
        EvictBackDrops(rest, idle, n - 1, gone - {last});
      } else {
        SkipsLast(order, idle, n, gone);
        EvictBackDrops(rest, idle, n, gone);
      }
    }
  }

  lemma {:induction false} WithoutNothing(order: seq<Id>)
    ensures Without(order, {}) == order
  {
    if order != [] {
      WithoutNothing(order[..|order| - 1]);
      assert order == order[..|order| - 1] + [order[|order| - 1]];
    }
  }

  lemma {:induction false} WithoutElsewhere(order: seq<Id>, drop: set<Id>, id: Id)
    requires id !in order
    ensures Without(order, drop) == Without(order, drop - {id})
  {
    if order != [] { WithoutElsewhere(order[..|order| - 1], drop, id); }
  }

  /** An unpromoted handle that is kept keeps every promoted one. */
  lemma KeptScanKeepsTheRest(before: map<Id, Handle>, after: map<Id, Handle>, cap: nat)
    requires Evicted(before, after, cap) && !(UnpromotedIdle(before) <= before.Keys - after.Keys)
    ensures before.Keys - after.Keys <= UnpromotedIdle(before)
  {
    var kept := Pick(UnpromotedIdle(before) - (before.Keys - after.Keys));
    assert kept in after;
    forall v | v in before.Keys - after.Keys
      ensures v in UnpromotedIdle(before)
    {
      VictimIsNoYounger(before, after, cap, v, kept);
    }
  }

  lemma OverlapSize(victims: set<Id>, scans: set<Id>, idle: set<Id>, over: nat)
    requires victims <= idle && scans <= idle && |victims| == Min(|idle|, over)
    requires scans <= victims || victims <= scans
    ensures |victims * scans| == Min(over, |scans|)
  {
    SubsetSize(scans, idle);
    if scans <= victims {
      assert victims * scans == scans;
      SubsetSize(scans, victims);
    } else {
      assert victims * scans == victims;
      SubsetSize(victims, scans);
      if |victims| == |idle| { SubsetOfSameSize(victims, idle); }
    }
  }

  /** How the victims of an eviction divide: unpromoted handles first. */
  lemma UnpromotedGoFirst(before: map<Id, Handle>, after: map<Id, Handle>, cap: nat)
    requires Evicted(before, after, cap)
    ensures var over, scans := Excess(|before|, cap), UnpromotedIdle(before);
            |(before.Keys - after.Keys) * scans| == Min(over, |scans|)
  {
    var victims, scans := before.Keys - after.Keys, UnpromotedIdle(before);
    assert scans <= IdleIds(before);
    if !(scans <= victims) { KeptScanKeepsTheRest(before, after, cap); }
    OverlapSize(victims, scans, IdleIds(before), Excess(|before|, cap));
  }

  lemma TracksMembers(open: map<Id, Handle>, order: seq<Id>)
    requires Tracks(open, order)
    ensures Members(order) == set id | id in open && open[id].rank > 0
    ensures NoRepeats(order)
    ensures IdleIds(open) - Members(order) == UnpromotedIdle(open)
  {
    var promoted := set id | id in open && open[id].rank > 0;
    forall id ensures id in Members(order) <==> id in promoted {
      if id in order { var i :| 0 <= i < |order| && order[i] == id; }
    }
  }

  lemma VictimsAreBackmost(before: map<Id, Handle>, after: map<Id, Handle>, cap: nat, order: seq<Id>)
    requires Evicted(before, after, cap) && Tracks(before, order)
    ensures Backmost(order, IdleIds(before), (before.Keys - after.Keys) * Members(order))
  {
    var victims := before.Keys - after.Keys;
    forall i, j | 0 <= i < j < |order| && order[i] in victims * Members(order) && order[j] in IdleIds(before)
      ensures order[j] in victims * Members(order)
    {
      if order[j] !in victims { VictimIsNoYounger(before, after, cap, order[i], order[j]); }
    }
  }

  lemma PartSize(victims: set<Id>, idle: set<Id>, members: set<Id>, scans: set<Id>)
    requires victims <= idle && idle - members == scans
    ensures |victims * members| == |victims| - |victims * scans|
  {
    var listed, others := victims * members, victims * scans;
    forall id
      ensures id in victims <==> id in listed || id in others
      ensures !(id in listed && id in others)
    {
      assert id in idle && id !in members <==> id in scans;
    }
    assert listed + others == victims && listed !! others;
  }

  lemma ListedVictims(before: map<Id, Handle>, after: map<Id, Handle>, cap: nat, order: seq<Id>)
    requires Evicted(before, after, cap) && IdleIds(before) - Members(order) == UnpromotedIdle(before)
    ensures var over, scans := Excess(|before|, cap), UnpromotedIdle(before);
            |(before.Keys - after.Keys) * Members(order)| == |before.Keys - after.Keys| - Min(over, |scans|)
  {
    UnpromotedGoFirst(before, after, cap);
    var victims := before.Keys - after.Keys;
    assert victims <= IdleIds(before);
    hide Excess, UnpromotedIdle, Evicted, IdleIds, Members;
    PartSize(victims, IdleIds(before), Members(order), UnpromotedIdle(before));
  }

  lemma VictimsOnTheList(before: map<Id, Handle>, after: map<Id, Handle>, cap: nat, order: seq<Id>)
    requires Evicted(before, after, cap) && Tracks(before, order)
    ensures var gone := (before.Keys - after.Keys) * Members(order);
            var listed := FromTheList(order, IdleIds(before), |before|, cap);
            |gone| == listed || (|gone| < listed && gone == IdleIds(before) * Members(order))
    ensures NoRepeats(order)
  {
    var victims, idle := before.Keys - after.Keys, IdleIds(before);
    TracksMembers(before, order);
    ListedVictims(before, after, cap, order);
    hide Tracks, Members, IdleIds, UnpromotedIdle, NoRepeats;
    if |victims| != Excess(|before|, cap) {
      SubsetOfSameSize(victims, idle);
    }
  }

  lemma VictimsAreTaken(before: map<Id, Handle>, after: map<Id, Handle>, cap: nat, order: seq<Id>)
    requires Evicted(before, after, cap) && Tracks(before, order)
    ensures NoRepeats(order)
    ensures Takes(order, IdleIds(before), FromTheList(order, IdleIds(before), |before|, cap),
              (before.Keys - after.Keys) * Members(order))
  {
    hide FromTheList;
    VictimsOnTheList(before, after, cap, order);
    VictimsAreBackmost(before, after, cap, order);
  }

  lemma EvictOrderIs(order: seq<Id>, idle: set<Id>, size: nat, cap: nat, victims: set<Id>)
    requires NoRepeats(order) && Takes(order, idle, FromTheList(order, idle, size, cap), victims * Members(order))
    ensures EvictOrder(order, idle, size, cap) == Without(order, victims)
  {
    hide Takes, NoRepeats, EvictBack, Without, Members, FromTheList;
    EvictBackDrops(order, idle, FromTheList(order, idle, size, cap), victims * Members(order));
    OnlyMembersMatter(order, victims);
  }

  lemma EvictOrderDrops(before: map<Id, Handle>, after: map<Id, Handle>, cap: nat, order: seq<Id>)
    requires Evicted(before, after, cap) && Tracks(before, order)
    ensures EvictOrder(order, IdleIds(before), |before|, cap) == Without(order, before.Keys - after.Keys)
  {
    hide Takes, Evicted, Tracks, IdleIds, UnpromotedIdle, EvictBack, Without;
    hide Members, EvictOrder, NoRepeats, FromTheList;
    VictimsAreTaken(before, after, cap, order);
    EvictOrderIs(order, IdleIds(before), |before|, cap, before.Keys - after.Keys);
  }

  lemma EvictedTracks(before: map<Id, Handle>, after: map<Id, Handle>, cap: nat, order: seq<Id>)
    requires Evicted(before, after, cap) && Tracks(before, order)
    ensures Tracks(after, EvictOrder(order, IdleIds(before), |before|, cap))
  {
    EvictOrderDrops(before, after, cap, order);
    hide Tracks, EvictOrder, IdleIds, Without;
    DroppedTracks(before, order, before.Keys - after.Keys);
  }

  lemma OnlyMembersMatter(order: seq<Id>, drop: set<Id>)
    ensures Without(order, drop * Members(order)) == Without(order, drop)
  {
    WithoutOutside(order, drop * Members(order), drop);
  }

  lemma {:induction false} WithoutOutside(order: seq<Id>, a: set<Id>, b: set<Id>)
    requires a * Members(order) == b * Members(order)
    ensures Without(order, a) == Without(order, b)
  {
    if order != [] {
      var rest, last := order[..|order| - 1], order[|order| - 1];
      assert last in Members(order);
      assert Members(rest) <= Members(order);
      assert a * Members(rest) == (a * Members(order)) * Members(rest);
      assert b * Members(rest) == (b * Members(order)) * Members(rest);
      WithoutOutside(rest, a, b);
      assert last in a <==> last in a * Members(order);
      assert last in b <==> last in b * Members(order);
    }
  }

  // ---- steps and runs ----

  lemma InsertedFront(c: Cache, id: Id, now: int, order: seq<Id>)
    requires Ranks(c) && Tracks(c.open, order) && id !in c.open
    ensures var open := Inserted(c, id, true, now).open;
            Tracks(open, [id] + order) && IdleIds(open) == IdleIds(c.open) && |open| == |c.open| + 1
  {
    var open := Inserted(c, id, true, now).open;
    assert open - {id} == c.open;
    FrontTracks(c.open, open, id, order);
    assert IdleIds(open) == IdleIds(c.open);
    assert open.Keys == c.open.Keys + {id};
  }

  lemma InsertedTracks(c: Cache, id: Id, now: int, c': Cache, cap: nat, order: seq<Id>)
    requires Ranks(c) && Tracks(c.open, order) && id !in c.open
    requires Evicted(Inserted(c, id, true, now).open, c'.open, cap)
    ensures Tracks(c'.open, EvictOrder([id] + order, IdleIds(c.open), |c.open| + 1, cap))
  {
    InsertedFront(c, id, now, order);
    EvictedTracks(Inserted(c, id, true, now).open, c'.open, cap, [id] + order);
  }

  lemma OpenTracks(w: World, e: Event, w': World, cap: nat, order: seq<Id>)
    requires Ranks(w.cache) && Next(w, e, w', cap) && Tracks(w.cache.open, order) && e.Open?
    ensures Tracks(w'.cache.open, NextOrder(order, w.cache, w.guards, e, cap))
  {
    hide Tracks, Evicted, EvictOrder, MoveToFront, Without, IdleIds;
    var c := w.cache;
    if e.id !in c.blocked && e.probe.Marked? {
      DroppedTracks(c.open, order, {e.id});
    } else if e.outcome.Got? {
      if e.id in c.open {
        if e.promote { UsedTracks(c, e.id, e.now, order); } else { UnpromotedTracks(c, BeginUse(c, e.id), order); }
      } else if e.promote {
        InsertedTracks(c, e.id, e.now, w'.cache, cap, order);
      } else {
        UnpromotedTracks(c, Inserted(c, e.id, false, e.now), order);
      }
    }
  }

  /** Handles that join or change without a rank do not show in the list. */
  lemma UnpromotedTracks(c: Cache, c': Cache, order: seq<Id>)
    requires Tracks(c.open, order)
    requires forall id :: id in c.open ==> id in c'.open && c'.open[id].rank == c.open[id].rank
    requires forall id :: id in c'.open && c'.open[id].rank > 0 ==> id in c.open
    ensures Tracks(c'.open, order)
  {
    forall i | 0 <= i < |order|
      ensures order[i] in c.open && order[i] in c'.open && c'.open[order[i]].rank == c.open[order[i]].rank
    {
      var id := order[i];
      assert id in c.open;
    }
  }

  lemma UsedTracks(c: Cache, id: Id, now: int, order: seq<Id>)
    requires Ranks(c) && Tracks(c.open, order) && id in c.open
    ensures Tracks(Use(c, id, true, now).open, MoveToFront(order, id))
  {
    PromotedTracks(BeginUse(c, id), id, now, order);
  }

  lemma SweepTracks(w: World, cutoff: int, w': World, cap: nat, order: seq<Id>)
    requires Next(w, Sweep(cutoff), w', cap) && Tracks(w.cache.open, order)
    ensures Tracks(w'.cache.open, NextOrder(order, w.cache, w.guards, Sweep(cutoff), cap))
  {
    var idle := IdleSince(w.cache.open, cutoff);
    var swept := w.cache.open - idle;
    DroppedTracks(w.cache.open, order, idle);
    assert IdleIds(swept) == IdleIds(w.cache.open) - idle;
    EvictedTracks(swept, w'.cache.open, cap, Without(order, idle));
  }

  lemma SettleTracks(w: World, guard: nat, w': World, cap: nat, order: seq<Id>)
    requires Next(w, Settle(guard), w', cap) && Tracks(w.cache.open, order)
    ensures Tracks(w'.cache.open, NextOrder(order, w.cache, w.guards, Settle(guard), cap))
  {
    if !w.guards[guard].borrowed { EvictedTracks(w.cache.open, w'.cache.open, cap, order); }
  }

  lemma WatchTracks(w: World, deleted: set<Id>, w': World, cap: nat, order: seq<Id>)
    requires Next(w, Watch(deleted), w', cap) && Tracks(w.cache.open, order)
    ensures Tracks(w'.cache.open, NextOrder(order, w.cache, w.guards, Watch(deleted), cap))
  {
    DroppedTracks(w.cache.open, order, deleted * IdleIds(w.cache.open));
    assert w'.cache.open == w.cache.open - (deleted * IdleIds(w.cache.open));
  }

  lemma CachedTracks(w: World, e: Event, w': World, cap: nat, order: seq<Id>)
    requires e.Cached? && Ranks(w.cache) && Next(w, e, w', cap) && Tracks(w.cache.open, order)
    ensures Tracks(w'.cache.open, NextOrder(order, w.cache, w.guards, e, cap))
  {
    if e.promote && AcquireCached(w.cache, e.id, e.promote, e.now).1.Some? {
      UsedTracks(w.cache, e.id, e.now, order);
    }
  }

  lemma StepTracks(w: World, e: Event, w': World, cap: nat, order: seq<Id>)
    requires Ranks(w.cache) && Next(w, e, w', cap) && Tracks(w.cache.open, order)
    ensures Tracks(w'.cache.open, NextOrder(order, w.cache, w.guards, e, cap))
  {
    match e
    case Cached(_, _, _, _) => CachedTracks(w, e, w', cap, order);
    case Open(_, _, _, _, _, _) => OpenTracks(w, e, w', cap, order);
    case End(_) =>
    case Settle(guard) => SettleTracks(w, guard, w', cap, order);
    case Sweep(cutoff) => SweepTracks(w, cutoff, w', cap, order);
    case Watch(deleted) => WatchTracks(w, deleted, w', cap, order);
    case Drop(id, _) => DroppedTracks(w.cache.open, order, {id});
    case SwapMap =>
    case StopWatching =>
  }

  /** The lists a run goes through, starting empty. */
  ghost predicate Listed(ws: seq<World>, es: seq<Event>, orders: seq<seq<Id>>, cap: nat) {
    && |orders| == |ws| == |es| + 1
    && orders[0] == []
    && forall i :: 0 <= i < |es| ==> orders[i + 1] == NextOrder(orders[i], ws[i].cache, ws[i].guards, es[i], cap)
  }

  lemma OrderStep(ws: seq<World>, es: seq<Event>, cap: nat, i: nat, order: seq<Id>)
    requires Run(ws, es, cap) && i < |es| && Tracks(ws[i].cache.open, order)
    ensures Tracks(ws[i + 1].cache.open, NextOrder(order, ws[i].cache, ws[i].guards, es[i], cap))
  {
    RunKeeps(ws, es, cap, i);
    StepTracks(ws[i], es[i], ws[i + 1], cap, order);
  }

  /** At every point of every run the cache holds the handles the recency list says, in the
      order it says. */
  lemma {:induction false} RankCounterIsARecencyList(
    ws: seq<World>, es: seq<Event>, orders: seq<seq<Id>>, cap: nat, i: nat)
    requires Run(ws, es, cap) && Listed(ws, es, orders, cap) && i < |ws|
    ensures Tracks(ws[i].cache.open, orders[i])
  {
    if i > 0 {
      RankCounterIsARecencyList(ws, es, orders, cap, i - 1);
      OrderStep(ws, es, cap, i - 1, orders[i - 1]);
    }
  }
}
