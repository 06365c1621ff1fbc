/**
 Promotions that overlap.

 A handle found in the map is promoted under the shared lock, in two atomic steps: drawing the
 next tick, and storing it as the handle's rank. Several promotions may be under way at once;
 none can be when the exclusive lock is held. Beside the cache, each world carries the cache
 and the recency list as they would be had every promotion been one step, at its draw. First
 one shared phase is considered, and then whole runs of shared and exclusive sections.
 */
module Promotions {
  import opened Common
  import opened HandleCache
  import CacheRuns
  import RecencyList

  datatype Promoter = Promoter(n: nat)

  datatype Ticket = Ticket(id: Id, rank: nat)

  datatype World = World(cache: Cache, pending: map<Promoter, Ticket>, atomic: Cache, order: seq<Id>)

  datatype Event = Draw(p: Promoter, id: Id, now: int) | Store(p: Promoter)

  function Stored(c: Cache, t: Ticket): Cache
    requires t.id in c.open
  {
    c.(open := c.open[t.id := c.open[t.id].(rank := t.rank)])
  }

  ghost predicate Next(w: World, e: Event, w': World) {
    match e
    case Draw(p, id, now) =>
      && p !in w.pending && id in w.cache.open && id in w.atomic.open
      && w' == World(
           w.cache.(tick := w.cache.tick + 1),
           w.pending[p := Ticket(id, w.cache.tick + 1)],
           Promote(w.atomic, id, now),
           RecencyList.MoveToFront(w.order, id))
    case Store(p) =>
      && p in w.pending && w.pending[p].id in w.cache.open
      && w' == w.(cache := Stored(w.cache, w.pending[p]), pending := w.pending - {p})
  }

  /** Where the shared phase starts: nothing under way, and the list describing the cache. */
  ghost predicate Start(w: World) {
    && w.pending == map[] && w.atomic == w.cache
    && CacheRuns.Ranks(w.cache) && RecencyList.Tracks(w.cache.open, w.order)
  }

  ghost predicate Run(ws: seq<World>, es: seq<Event>) {
    && |ws| == |es| + 1 && Start(ws[0])
    && forall i :: 0 <= i < |es| ==> Next(ws[i], es[i], ws[i + 1])
  }

  // ---- what every step keeps ----

  /** One promotion at a time keeps the list, and the real ranks never run ahead. */
  ghost predicate Beside(w: World) {
    && w.cache.open.Keys == w.atomic.open.Keys && w.cache.tick == w.atomic.tick
    && CacheRuns.Ranks(w.atomic) && RecencyList.Tracks(w.atomic.open, w.order)
    && (forall x :: x in w.cache.open ==> w.cache.open[x].rank <= w.atomic.open[x].rank)
  }

  ghost predicate Tickets(w: World) {
    && (forall p :: p in w.pending ==>
          && w.pending[p].id in w.cache.open && w.pending[p].id in w.atomic.open
          && 0 < w.pending[p].rank <= w.atomic.open[w.pending[p].id].rank)
    && (forall x :: x in w.cache.open && w.cache.open[x].rank == 0 && x in w.atomic.open && w.atomic.open[x].rank > 0
          ==> exists p :: p in w.pending && w.pending[p].id == x)
  }

  /** A tick is one ticket's or one handle's, never two. */
  ghost predicate Unique(w: World) {
    && (forall p, q :: p in w.pending && q in w.pending && p != q ==> w.pending[p].rank != w.pending[q].rank)
    && (forall p, y :: p in w.pending && y in w.cache.open ==> w.cache.open[y].rank != w.pending[p].rank)
    && (forall x, y :: x in w.cache.open && y in w.cache.open && x != y && w.cache.open[x].rank > 0
          ==> w.cache.open[x].rank != w.cache.open[y].rank)
  }

  ghost predicate Inv(w: World) { Beside(w) && Tickets(w) && Unique(w) }

  /** What drawing does, handle by handle and ticket by ticket. */
  ghost predicate Drew(w: World, p: Promoter, id: Id, w': World) {
    var t := Ticket(id, w.cache.tick + 1);
    && w'.cache.open == w.cache.open && w'.cache.tick == w.cache.tick + 1
    && id in w.cache.open && id in w.atomic.open && w'.atomic.open.Keys == w.atomic.open.Keys
    && w'.atomic.open[id].rank == t.rank
    && (forall x :: x in w.atomic.open && x != id ==> w'.atomic.open[x] == w.atomic.open[x])
    && p !in w.pending && p in w'.pending && w'.pending[p] == t
    && (forall q :: q in w'.pending && q != p ==> q in w.pending)
    && (forall q :: q in w.pending ==> q in w'.pending && w'.pending[q] == w.pending[q])
  }

  /** And what storing does. */
  ghost predicate Kept(w: World, p: Promoter, w': World) {
    && p in w.pending && w'.cache.tick == w.cache.tick && w'.atomic == w.atomic && w'.order == w.order
    && var t := w.pending[p];
    && t.id in w.cache.open && w'.cache.open.Keys == w.cache.open.Keys && w'.cache.open[t.id].rank == t.rank
    && (forall x :: x in w.cache.open && x != t.id ==> w'.cache.open[x] == w.cache.open[x])
    && p !in w'.pending
    && (forall q :: q in w'.pending ==> q in w.pending)
    && (forall q :: q in w.pending && q != p ==> q in w'.pending && w'.pending[q] == w.pending[q])
  }

  lemma Effects(w: World, e: Event, w': World)
    requires Next(w, e, w') && w.cache.tick == w.atomic.tick
    ensures e.Draw? ==> Drew(w, e.p, e.id, w')
    ensures e.Store? ==> Kept(w, e.p, w')
  {
    hide RecencyList.MoveToFront;
  }

  lemma DrawKeepsBeside(w: World, p: Promoter, id: Id, now: int, w': World)
    requires Beside(w) && Next(w, Draw(p, id, now), w')
    ensures Beside(w')
  {
    hide RecencyList.Tracks, RecencyList.MoveToFront;
    RecencyList.PromotedTracks(w.atomic, id, now, w.order);
    Effects(w, Draw(p, id, now), w');
  }

  lemma StoreKeepsBeside(w: World, p: Promoter, w': World)
    requires Beside(w) && Tickets(w) && Kept(w, p, w')
    ensures Beside(w')
  {
    hide RecencyList.Tracks;
    assert w.pending[p].id in w.cache.open;
  }

  lemma DrawKeepsTickets(w: World, p: Promoter, id: Id, w': World)
    requires Beside(w) && Tickets(w) && Drew(w, p, id, w')
    ensures Tickets(w')
  {
    hide RecencyList.Tracks;
    forall x | x in w'.cache.open && w'.cache.open[x].rank == 0 && x in w'.atomic.open && w'.atomic.open[x].rank > 0
      ensures exists q :: q in w'.pending && w'.pending[q].id == x
    {
      if x == id {
        assert w'.pending[p].id == x;
      } else {
        var q :| q in w.pending && w.pending[q].id == x;
        assert q in w'.pending && w'.pending[q].id == x;
      }
    }
  }

  lemma StoreKeepsTickets(w: World, p: Promoter, w': World)
    requires Tickets(w) && Kept(w, p, w')
    ensures Tickets(w')
  {
    forall x | x in w'.cache.open && w'.cache.open[x].rank == 0 && x in w'.atomic.open && w'.atomic.open[x].rank > 0
      ensures exists q :: q in w'.pending && w'.pending[q].id == x
    {
      assert x != w.pending[p].id && w.cache.open[x].rank == 0;
      var q :| q in w.pending && w.pending[q].id == x;
      assert q in w'.pending && w'.pending[q].id == x;
    }
  }

  lemma DrawKeepsUnique(w: World, p: Promoter, id: Id, w': World)
    requires Beside(w) && Tickets(w) && Unique(w) && Drew(w, p, id, w')
    ensures Unique(w')
  {
    hide RecencyList.Tracks;
    assert forall q :: q in w.pending ==> w.pending[q].rank <= w.cache.tick;
  }

  lemma StoreKeepsUnique(w: World, p: Promoter, w': World)
    requires Unique(w) && Kept(w, p, w')
    ensures Unique(w')
  {}

  lemma StepKeeps(w: World, e: Event, w': World)
    requires Inv(w) && Next(w, e, w')
    ensures Inv(w')
  {
    Effects(w, e, w');
    hide Beside, Tickets, Unique, Next, Drew, Kept;
    if e.Draw? {
      DrawKeepsBeside(w, e.p, e.id, e.now, w');
      DrawKeepsTickets(w, e.p, e.id, w');
      DrawKeepsUnique(w, e.p, e.id, w');
    } else {
      StoreKeepsBeside(w, e.p, w');
      StoreKeepsTickets(w, e.p, w');
      StoreKeepsUnique(w, e.p, w');
    }
  }

  lemma {:induction false} RunKeeps(ws: seq<World>, es: seq<Event>, n: nat)
    requires Run(ws, es) && n < |ws|
    ensures Inv(ws[n])
  {
    hide Next, Inv;
    if n == 0 {
      StartKeeps(ws[0]);
    } else {
      RunKeeps(ws, es, n - 1);
      assert Next(ws[n - 1], es[n - 1], ws[n - 1 + 1]);
      StepKeeps(ws[n - 1], es[n - 1], ws[n]);
    }
  }

  lemma StartKeeps(w: World)
    requires Start(w)
    ensures Inv(w)
  {}

  // ---- when they amount to one promotion at a time ----

  /** Every handle has the rank it would have, or the ticket with it is still to be stored. */
  ghost predicate NothingLost(w: World) {
    forall x :: x in w.cache.open && x in w.atomic.open ==>
      || w.cache.open[x].rank == w.atomic.open[x].rank
      || Due(w, x)
  }

  ghost predicate Due(w: World, x: Id)
    requires x in w.atomic.open
  {
    exists p :: p in w.pending && w.pending[p] == Ticket(x, w.atomic.open[x].rank)
  }

  /** Storing a ticket over a later one of the same handle. */
  predicate Overwrites(w: World, e: Event) {
    && e.Store? && e.p in w.pending
    && var t := w.pending[e.p];
       t.id in w.cache.open && w.cache.open[t.id].rank > t.rank
  }

  /** An earlier ticket over one that is not the handle's last does no harm by itself. */
  predicate OverwritesTheLast(w: World, e: Event) {
    && Overwrites(w, e) && w.pending[e.p].id in w.atomic.open
    && w.cache.open[w.pending[e.p].id].rank == w.atomic.open[w.pending[e.p].id].rank
  }

  lemma DrawLosesNothing(w: World, p: Promoter, id: Id, w': World)
    requires NothingLost(w) && Drew(w, p, id, w')
    ensures NothingLost(w')
  {
    forall x | x in w'.cache.open && x in w'.atomic.open && w'.cache.open[x].rank != w'.atomic.open[x].rank
      ensures Due(w', x)
    {
      if x == id {
        assert w'.pending[p] == Ticket(x, w'.atomic.open[x].rank);
      } else {
        assert Due(w, x);
        var q :| q in w.pending && w.pending[q] == Ticket(x, w.atomic.open[x].rank);
        assert w'.pending[q] == Ticket(x, w'.atomic.open[x].rank);
      }
    }
  }

  lemma StoreLosesNothing(w: World, p: Promoter, w': World)
    requires NothingLost(w) && Tickets(w) && Kept(w, p, w') && !OverwritesTheLast(w, Store(p))
    ensures NothingLost(w')
  {
    forall x | x in w'.cache.open && x in w'.atomic.open && w'.cache.open[x].rank != w'.atomic.open[x].rank
      ensures Due(w', x)
    {
      assert Due(w, x);
      var q :| q in w.pending && w.pending[q] == Ticket(x, w.atomic.open[x].rank);
      assert w'.pending[q] == Ticket(x, w'.atomic.open[x].rank);
    }
  }

  lemma OverwritingLoses(w: World, p: Promoter, w': World)
    requires Tickets(w) && Unique(w) && Kept(w, p, w') && OverwritesTheLast(w, Store(p))
    ensures !NothingLost(w')
  {
    var x := w.pending[p].id;
    forall q | q in w'.pending
      ensures w'.pending[q] != Ticket(x, w'.atomic.open[x].rank)
    {
      assert w.cache.open[x].rank != w.pending[q].rank;
    }
    assert !Due(w', x);
  }

  lemma StepLosesExactlyWhen(w: World, e: Event, w': World)
    requires Inv(w) && NothingLost(w) && Next(w, e, w')
    ensures NothingLost(w') <==> !OverwritesTheLast(w, e)
  {
    Effects(w, e, w');
    hide Next, Drew, Kept, NothingLost, Beside, Tickets, Unique;
    if e.Draw? { DrawLosesNothing(w, e.p, e.id, w'); }
    else if OverwritesTheLast(w, e) { OverwritingLoses(w, e.p, w'); }
    else { StoreLosesNothing(w, e.p, w'); }
  }

  lemma {:induction false} NothingLostSoFar(ws: seq<World>, es: seq<Event>, n: nat)
    requires Run(ws, es) && n < |ws|
    requires forall i :: 0 <= i < n ==> !OverwritesTheLast(ws[i], es[i])
    ensures NothingLost(ws[n])
  {
    hide Next, OverwritesTheLast, Inv;
    if n == 0 {
      assert NothingLost(ws[0]);
    } else {
      hide NothingLost;
      NothingLostSoFar(ws, es, n - 1);
      RunKeeps(ws, es, n - 1);
      assert Next(ws[n - 1], es[n - 1], ws[n - 1 + 1]);
      StepLosesExactlyWhen(ws[n - 1], es[n - 1], ws[n]);
    }
  }

  /** No promotion is ever lost exactly when no step stores a ticket over the handle's last. */
  lemma NoPromotionIsLostExactlyWhen(ws: seq<World>, es: seq<Event>)
    requires Run(ws, es)
    ensures (forall n :: 0 <= n < |ws| ==> NothingLost(ws[n])) <==>
            (forall i :: 0 <= i < |es| ==> !OverwritesTheLast(ws[i], es[i]))
  {
    hide Next, Start, OverwritesTheLast, NothingLost, Inv;
    if forall i :: 0 <= i < |es| ==> !OverwritesTheLast(ws[i], es[i]) {
      forall n | 0 <= n < |ws| ensures NothingLost(ws[n]) { NothingLostSoFar(ws, es, n); }
    } else {
      var i :| 0 <= i < |es| && OverwritesTheLast(ws[i], es[i]);
      if NothingLost(ws[i]) {
        RunKeeps(ws, es, i);
        assert Next(ws[i], es[i], ws[i + 1]);
        StepLosesExactlyWhen(ws[i], es[i], ws[i + 1]);
      }
    }
  }

  /** Once everything is stored, the next exclusive section then finds the ranks, the tick and
      the order that one promotion at a time would have left. */
  lemma QuietIsOneAtATime(ws: seq<World>, es: seq<Event>, n: nat, x: Id)
    requires Run(ws, es) && n < |ws| && ws[n].pending == map[]
    requires forall i :: 0 <= i < n ==> !OverwritesTheLast(ws[i], es[i])
    ensures ws[n].cache.open.Keys == ws[n].atomic.open.Keys && ws[n].cache.tick == ws[n].atomic.tick
    ensures x in ws[n].cache.open ==> ws[n].cache.open[x].rank == ws[n].atomic.open[x].rank
    ensures RecencyList.Tracks(ws[n].cache.open, ws[n].order)
  {
    hide Next;
    NothingLostSoFar(ws, es, n);
    RunKeeps(ws, es, n);
    var w := ws[n];
    forall y | y in w.cache.open
      ensures w.cache.open[y].rank == w.atomic.open[y].rank
    {
      assert !Due(w, y);
    }
    SameRanksTrack(w.atomic.open, w.cache.open, w.order);
  }

  lemma SameRanksTrack(a: map<Id, Handle>, b: map<Id, Handle>, order: seq<Id>)
    requires RecencyList.Tracks(a, order) && a.Keys == b.Keys && forall x :: x in a ==> b[x].rank == a[x].rank
    ensures RecencyList.Tracks(b, order)
  {
    forall i | 0 <= i < |order|
      ensures order[i] in a && order[i] in b && b[order[i]].rank == a[order[i]].rank
    {
      var id := order[i];
      assert id in a && id in a.Keys;
    }
  }

  /** One handle ranks below another although its last promotion was drawn later. */
  predicate Overtaken(w: World, x: Id, y: Id) {
    && x in w.cache.open && y in w.cache.open && x in w.atomic.open && y in w.atomic.open
    && w.cache.open[x].rank < w.cache.open[y].rank && w.atomic.open[y].rank < w.atomic.open[x].rank
  }

  /** The order itself is the list's exactly when no handle has been overtaken: a lost ticket
      only shows if another handle's rank lies between it and the one that was kept. */
  lemma OrderIsTheListsExactlyWhen(ws: seq<World>, es: seq<Event>, n: nat)
    requires Run(ws, es) && n < |ws| && ws[n].pending == map[]
    ensures RecencyList.Tracks(ws[n].cache.open, ws[n].order) <==> forall x, y :: !Overtaken(ws[n], x, y)
  {
    hide Next;
    RunKeeps(ws, es, n);
    hide Run;
    hide RecencyList.Tracks, Inv;
    if forall x, y :: !Overtaken(ws[n], x, y) { NotOvertakenTracks(ws[n]); }
    if RecencyList.Tracks(ws[n].cache.open, ws[n].order) { TracksNotOvertaken(ws[n]); }
  }

  lemma NotOvertakenTracks(w: World)
    requires Inv(w) && w.pending == map[] && forall x, y :: !Overtaken(w, x, y)
    ensures RecencyList.Tracks(w.cache.open, w.order)
  {
    var order := w.order;
    forall i | 0 <= i < |order|
      ensures order[i] in w.cache.open && w.cache.open[order[i]].rank > 0
    {
      var id := order[i];
      assert id in w.atomic.open && id in w.atomic.open.Keys && w.atomic.open[id].rank > 0;
      assert forall p :: p !in w.pending;
    }
    forall i, j | 0 <= i < j < |order|
      ensures w.cache.open[order[i]].rank > w.cache.open[order[j]].rank
    {
      assert !Overtaken(w, order[i], order[j]);
    }
  }

  lemma TracksNotOvertaken(w: World)
    requires Inv(w) && RecencyList.Tracks(w.cache.open, w.order)
    ensures forall x, y :: !Overtaken(w, x, y)
  {
    forall x, y
      ensures !Overtaken(w, x, y)
    {
      if x in w.order && y in w.order {
        var i :| 0 <= i < |w.order| && w.order[i] == x;
        var j :| 0 <= j < |w.order| && w.order[j] == y;
      }
    }
  }

  // ---- what overtaking is in terms of the events ----

  predicate Draws(e: Event, x: Id) { e.Draw? && e.id == x }

  predicate Stores(w: World, e: Event, x: Id) { e.Store? && e.p in w.pending && w.pending[e.p].id == x }

  /** A handle's rank is the ticket stored last, */
  lemma {:induction false} RankIsStoredLast(ws: seq<World>, es: seq<Event>, i: nat, n: nat, x: Id)
    requires Run(ws, es) && i < n < |ws| && Stores(ws[i], es[i], x)
    requires forall k :: i < k < n ==> !Stores(ws[k], es[k], x)
    ensures x in ws[n].cache.open && ws[n].cache.open[x].rank == ws[i].pending[es[i].p].rank
    decreases n
  {
    hide Next;
    assert Next(ws[n - 1], es[n - 1], ws[n - 1 + 1]);
    RunKeeps(ws, es, n - 1);
    Effects(ws[n - 1], es[n - 1], ws[n]);
    hide Inv, RecencyList.Tracks;
    if i < n - 1 {
      RankIsStoredLast(ws, es, i, n - 1, x);
      assert !Stores(ws[n - 1], es[n - 1], x);
    }
  }

  /** and the rank it should have is the tick drawn last. */
  lemma {:induction false} ShouldBeDrawnLast(ws: seq<World>, es: seq<Event>, i: nat, n: nat, x: Id)
    requires Run(ws, es) && i < n < |ws| && Draws(es[i], x)
    requires forall k :: i < k < n ==> !Draws(es[k], x)
    ensures x in ws[n].atomic.open && ws[n].atomic.open[x].rank == ws[i].cache.tick + 1 <= ws[n].cache.tick
    decreases n
  {
    hide Next;
    assert Next(ws[n - 1], es[n - 1], ws[n - 1 + 1]);
    RunKeeps(ws, es, n - 1);
    Effects(ws[n - 1], es[n - 1], ws[n]);
    hide Inv, RecencyList.Tracks;
    if i < n - 1 {
      ShouldBeDrawnLast(ws, es, i, n - 1, x);
      assert !Draws(es[n - 1], x);
    }
  }

  lemma {:induction false} TicksGrow(ws: seq<World>, es: seq<Event>, i: nat, n: nat)
    requires Run(ws, es) && i <= n < |ws|
    ensures ws[i].cache.tick <= ws[n].cache.tick
    decreases n
  {
    if i < n {
      TicksGrow(ws, es, i, n - 1);
      assert Next(ws[n - 1], es[n - 1], ws[n - 1 + 1]);
    }
  }

  /** A handle is overtaken exactly when its last draw comes after the other's and the ticket it
      stored last is older than the other's. */
  lemma OvertakenExactlyWhen(ws: seq<World>, es: seq<Event>, n: nat, x: Id, y: Id, dx: nat, dy: nat, sx: nat, sy: nat)
    requires Run(ws, es) && n < |ws| && dx < n && dy < n && sx < n && sy < n
    requires Draws(es[dx], x) && forall k :: dx < k < n ==> !Draws(es[k], x)
    requires Draws(es[dy], y) && forall k :: dy < k < n ==> !Draws(es[k], y)
    requires Stores(ws[sx], es[sx], x) && forall k :: sx < k < n ==> !Stores(ws[k], es[k], x)
    requires Stores(ws[sy], es[sy], y) && forall k :: sy < k < n ==> !Stores(ws[k], es[k], y)
    ensures Overtaken(ws[n], x, y) <==>
              dy < dx && ws[sx].pending[es[sx].p].rank < ws[sy].pending[es[sy].p].rank
  {
    hide Next;
    RankIsStoredLast(ws, es, sx, n, x);
    RankIsStoredLast(ws, es, sy, n, y);
    ShouldBeDrawnLast(ws, es, dx, n, x);
    ShouldBeDrawnLast(ws, es, dy, n, y);
    DrawsAreOrdered(ws, es, dx, dy);
    DrawsAreOrdered(ws, es, dy, dx);
  }

  lemma DrawsAreOrdered(ws: seq<World>, es: seq<Event>, a: nat, b: nat)
    requires Run(ws, es) && a < |es| && b < |es| && es[a].Draw?
    ensures a < b ==> ws[a].cache.tick < ws[b].cache.tick
  {
    if a < b {
      assert Next(ws[a], es[a], ws[a + 1]);
      hide Next;
      TicksGrow(ws, es, a + 1, b);
    }
  }

  // ---- a run in which one is lost ----

  const IDLE := Handle(0, 0, 0, 1, false)
  const FIRST := Cache(map[1 := IDLE, 2 := IDLE], {}, 0, 1, true, Stats(2, 0, 0, 0))
  const START := World(FIRST, map[], FIRST, [])
  const A := Promoter(0)
  const B := Promoter(1)

  lemma Extend(ws: seq<World>, es: seq<Event>, e: Event, w: World) returns (longer: seq<World>, events: seq<Event>)
    requires Run(ws, es) && Next(ws[|ws| - 1], e, w)
    ensures Run(longer, events) && longer[|longer| - 1] == w
  {
    longer, events := ws + [w], es + [e];
  }

  /** Account 1 is promoted, then account 2, then account 1 again; the first promoter of account 1
      stores its ticket last, and account 1 ends up behind account 2. */
  lemma AStalledPromotionFallsBehind()
    ensures exists ws: seq<World>, es: seq<Event>, n: nat ::
              && Run(ws, es) && n < |ws| && ws[n].pending == map[] && ws[n].order == [1, 2]
              && Overtaken(ws[n], 1, 2)
  {
    var w1 := World(FIRST.(tick := 1), map[A := Ticket(1, 1)], Promote(FIRST, 1, 0), [1]);
    var w2 := World(FIRST.(tick := 2), map[A := Ticket(1, 1), B := Ticket(2, 2)], Promote(w1.atomic, 2, 0), [2, 1]);
    var w3 := w2.(cache := Stored(w2.cache, Ticket(2, 2)), pending := map[A := Ticket(1, 1)]);
    var w4 := World(w3.cache.(tick := 3), map[A := Ticket(1, 1), B := Ticket(1, 3)], Promote(w3.atomic, 1, 0), [1, 2]);
    var w5 := w4.(cache := Stored(w4.cache, Ticket(1, 3)), pending := map[A := Ticket(1, 1)]);
    var w6 := w5.(cache := Stored(w5.cache, Ticket(1, 1)), pending := map[]);
    assert Next(START, Draw(A, 1, 0), w1);
    assert Next(w1, Draw(B, 2, 0), w2);
    assert Next(w2, Store(B), w3);
    assert Next(w3, Draw(B, 1, 0), w4);
    assert Next(w4, Store(B), w5);
    assert Next(w5, Store(A), w6);
    var ws, es := [START], [];
    assert Run(ws, es);
    assert Overtaken(w6, 1, 2);
    hide Next, Overtaken;
    ws, es := Extend(ws, es, Draw(A, 1, 0), w1);
    ws, es := Extend(ws, es, Draw(B, 2, 0), w2);
    ws, es := Extend(ws, es, Store(B), w3);
    ws, es := Extend(ws, es, Draw(B, 1, 0), w4);
    ws, es := Extend(ws, es, Store(B), w5);
    ws, es := Extend(ws, es, Store(A), w6);
    assert Overtaken(ws[|ws| - 1], 1, 2);
  }

  // ---- whole runs, of shared and exclusive sections ----

  /** A phase, and the guards handed out so far. */
  datatype Whole = Whole(phase: World, guards: map<nat, CacheRuns.Guard>)

  /** A section under the exclusive lock waits for every promotion to be stored. The others go on
      side by side: ending a use, borrowing or promoting a handle found in the map, and storing. */
  datatype Section =
    | Exclusive(e: CacheRuns.Event)
    | Finish(guard: nat)
    | Borrow(guard: nat, id: Id, now: int)
    | Take(guard: nat, p: Promoter, id: Id, now: int)
    | Keep(p: Promoter)

  function Process(f: Whole): CacheRuns.World { CacheRuns.World(f.phase.cache, f.guards) }

  /** Found in the map, open to use. */
  predicate Servable(c: Cache, id: Id) { AcquireCached(c, id, true, 0).1.Some? }

  function Using(w: World, id: Id): World
    requires id in w.cache.open && id in w.atomic.open
  {
    w.(cache := BeginUse(w.cache, id), atomic := BeginUse(w.atomic, id))
  }

  ghost predicate ExclusiveNext(f: Whole, e: CacheRuns.Event, f': Whole, cap: nat) {
    && !e.Cached? && !e.End? && f.phase.pending == map[]
    && CacheRuns.Next(Process(f), e, Process(f'), cap)
    && f'.phase.pending == map[] && f'.phase.atomic == f'.phase.cache
    && f'.phase.order == RecencyList.NextOrder(f.phase.order, f.phase.cache, f.guards, e, cap)
  }

  ghost predicate SharedNext(f: Whole, s: Section, f': Whole, cap: nat) {
    match s
    case Exclusive(_) => false
    case Finish(guard) =>
      && CacheRuns.Next(Process(f), CacheRuns.End(guard), Process(f'), cap)
      && f'.phase == f.phase.(cache := f'.phase.cache,
                              atomic := EndUse(f.phase.atomic, f.guards[guard].id, f.guards[guard].serial))
    case Borrow(guard, id, now) =>
      && guard !in f.guards && Servable(f.phase.cache, id) && id in f.phase.atomic.open
      && f' == Whole(Using(f.phase, id),
                     CacheRuns.Granted(Process(f), guard, id, AcquireCached(f.phase.cache, id, false, now).1.value))
    case Take(guard, p, id, now) =>
      && guard !in f.guards && Servable(f.phase.cache, id) && id in f.phase.atomic.open
      && Next(Using(f.phase, id), Draw(p, id, now), f'.phase)
      && f'.guards == CacheRuns.Granted(Process(f), guard, id, AcquireCached(f.phase.cache, id, true, now).1.value)
    case Keep(p) => Next(f.phase, Store(p), f'.phase) && f'.guards == f.guards
  }

  ghost predicate WholeNext(f: Whole, s: Section, f': Whole, cap: nat) {
    if s.Exclusive? then ExclusiveNext(f, s.e, f', cap) else SharedNext(f, s, f', cap)
  }

  ghost predicate WholeRun(fs: seq<Whole>, ss: seq<Section>, cap: nat) {
    && |fs| == |ss| + 1 && Start(fs[0].phase)
    && forall i :: 0 <= i < |ss| ==> WholeNext(fs[i], ss[i], fs[i + 1], cap)
  }

  /** Whatever else changes, ranks do not. */
  ghost predicate SameRanks(w: World, v: World) {
    && w.pending == v.pending && w.order == v.order
    && w.cache.tick == v.cache.tick && w.atomic.tick == v.atomic.tick
    && w.cache.open.Keys == v.cache.open.Keys && w.atomic.open.Keys == v.atomic.open.Keys
    && (forall x :: x in w.cache.open ==> v.cache.open[x].rank == w.cache.open[x].rank)
    && (forall x :: x in w.atomic.open ==> v.atomic.open[x].rank == w.atomic.open[x].rank)
  }

  lemma SameRanksKeep(w: World, v: World)
    requires Inv(w) && SameRanks(w, v)
    ensures Inv(v)
    ensures NothingLost(w) ==> NothingLost(v)
    ensures NothingLost(v) ==> NothingLost(w)
  {
    SameRanksTrack(w.atomic.open, v.atomic.open, w.order);
    hide RecencyList.Tracks;
    SameRanksBeside(w, v);
    assert Unique(v);
    forall x | x in w.atomic.open
      ensures Due(w, x) <==> Due(v, x)
    {}
  }

  lemma SameRanksBeside(w: World, v: World)
    requires Beside(w) && Tickets(w) && SameRanks(w, v) && RecencyList.Tracks(v.atomic.open, v.order)
    ensures Beside(v) && Tickets(v)
  {
    hide RecencyList.Tracks;
    assert forall x :: x in v.cache.open ==> x in w.cache.open && x in w.cache.open.Keys;
    assert forall x :: x in v.atomic.open ==> x in w.atomic.open;
  }

  /** In shared sections, promotions are as in one phase. */
  lemma SharedIsPhase(f: Whole, s: Section, f': Whole, cap: nat) returns (mid: World)
    requires SharedNext(f, s, f', cap)
    ensures s.Keep? ==> mid == f.phase && Next(mid, Store(s.p), f'.phase)
    ensures !s.Keep? ==> SameRanks(f.phase, mid)
    ensures s.Take? ==> Next(mid, Draw(s.p, s.id, s.now), f'.phase)
    ensures s.Finish? || s.Borrow? ==> mid == f'.phase
  {
    hide Next;
    match s
    case Finish(_) => mid := f'.phase;
    case Borrow(_, _, _) => mid := f'.phase;
    case Take(_, _, id, _) => mid := Using(f.phase, id);
    case Keep(_) => mid := f.phase;
  }

  /** Storing a ticket over the handle's last, in a section. */
  predicate Loses(f: Whole, s: Section) { s.Keep? && OverwritesTheLast(f.phase, Store(s.p)) }

  lemma SharedKeeps(f: Whole, s: Section, f': Whole, cap: nat)
    requires Inv(f.phase) && SharedNext(f, s, f', cap)
    ensures Inv(f'.phase)
    ensures NothingLost(f.phase) ==> (NothingLost(f'.phase) <==> !Loses(f, s))
  {
    var mid := SharedIsPhase(f, s, f', cap);
    hide SharedNext, Inv, Next, NothingLost, SameRanks, OverwritesTheLast;
    if !s.Keep? { SameRanksKeep(f.phase, mid); }
    if s.Take? {
      var e := Draw(s.p, s.id, s.now);
      StepKeeps(mid, e, f'.phase);
      if NothingLost(mid) { StepLosesExactlyWhen(mid, e, f'.phase); NoOverwriting(mid, e); }
    } else if s.Keep? {
      StepKeeps(mid, Store(s.p), f'.phase);
      if NothingLost(mid) { StepLosesExactlyWhen(mid, Store(s.p), f'.phase); }
    }
  }

  lemma NoOverwriting(w: World, e: Event)
    requires e.Draw?
    ensures !OverwritesTheLast(w, e)
  {}

  lemma FewerRanks(c: Cache, c': Cache)
    requires CacheRuns.Ranks(c) && c'.tick == c.tick
    requires forall id :: id in c'.open ==> id in c.open && c'.open[id] == c.open[id]
    ensures CacheRuns.Ranks(c')
  {}

  lemma EvictedIsFewer(before: map<Id, Handle>, after: map<Id, Handle>, cap: nat)
    requires Evicted(before, after, cap)
    ensures forall id :: id in after ==> id in before && after[id] == before[id]
  {}

  lemma UseRanks(c: Cache, id: Id, promote: bool, now: int)
    requires CacheRuns.Ranks(c) && id in c.open
    ensures CacheRuns.Ranks(Use(c, id, promote, now))
  {
    var u := BeginUse(c, id);
    assert forall x :: x in u.open ==> u.open[x].rank == c.open[x].rank;
    assert CacheRuns.Ranks(u);
  }

  lemma InsertedRanks(c: Cache, id: Id, promote: bool, now: int)
    requires CacheRuns.Ranks(c) && id !in c.open
    ensures CacheRuns.Ranks(Inserted(c, id, promote, now))
  {}

  lemma OpenRanks(c: Cache, e: CacheRuns.Event, c': Cache, cap: nat)
    requires CacheRuns.Ranks(c) && e.Open?
    requires OpenGuarded(c, e.id, e.promote, e.now, e.probe, cap, c', e.outcome)
    ensures CacheRuns.Ranks(c')
  {
    hide CacheRuns.Ranks, Evicted, Use, Inserted;
    if e.outcome.Got? && e.id in c.open {
      UseRanks(c, e.id, e.promote, e.now);
    } else if e.outcome.Got? {
      InsertedRanks(c, e.id, e.promote, e.now);
      var inserted := Inserted(c, e.id, e.promote, e.now);
      if e.promote {
        EvictedIsFewer(inserted.open, c'.open, cap);
        FewerRanks(inserted, c');
      }
    } else {
      FewerRanks(c, c');
    }
  }

  lemma ExclusiveRanks(w: CacheRuns.World, e: CacheRuns.Event, w': CacheRuns.World, cap: nat)
    requires CacheRuns.Ranks(w.cache) && CacheRuns.Next(w, e, w', cap) && !e.Cached? && !e.End?
    ensures CacheRuns.Ranks(w'.cache)
  {
    hide Evicted, OpenGuarded, CacheRuns.Ranks;
    if e.Open? {
      OpenRanks(w.cache, e, w'.cache, cap);
    } else {
      if e.Sweep? { EvictedIsFewer(SweptIdle(w.cache, e.cutoff).open, w'.cache.open, cap); }
      if e.Settle? && !w.guards[e.guard].borrowed { EvictedIsFewer(w.cache.open, w'.cache.open, cap); }
      FewerRanks(w.cache, w'.cache);
    }
  }

  lemma QuietRanks(w: World)
    requires Inv(w)
    ensures CacheRuns.Ranks(w.cache)
  {
    hide RecencyList.Tracks;
  }

  /** An exclusive section that finds the order the list's leaves it so, and a new phase begins. */
  lemma ExclusiveStarts(f: Whole, e: CacheRuns.Event, f': Whole, cap: nat)
    requires Inv(f.phase) && ExclusiveNext(f, e, f', cap)
    requires RecencyList.Tracks(f.phase.cache.open, f.phase.order)
    ensures Start(f'.phase)
  {
    QuietRanks(f.phase);
    hide Inv, RecencyList.Tracks, RecencyList.NextOrder, CacheRuns.Next, CacheRuns.Ranks;
    ExclusiveRanks(Process(f), e, Process(f'), cap);
    RecencyList.StepTracks(Process(f), e, Process(f'), cap, f.phase.order);
  }

  lemma QuietTracksExactlyWhen(w: World)
    requires Inv(w) && w.pending == map[]
    ensures RecencyList.Tracks(w.cache.open, w.order) <==> forall x, y :: !Overtaken(w, x, y)
    ensures NothingLost(w) ==> RecencyList.Tracks(w.cache.open, w.order)
  {
    if forall x, y :: !Overtaken(w, x, y) { NotOvertakenTracks(w); }
    if RecencyList.Tracks(w.cache.open, w.order) { TracksNotOvertaken(w); }
    hide RecencyList.Tracks;
    if NothingLost(w) {
      forall x, y
        ensures !Overtaken(w, x, y)
      {
        if x in w.atomic.open && x in w.cache.open { assert !Due(w, x); }
        if y in w.atomic.open && y in w.cache.open { assert !Due(w, y); }
      }
    }
  }

  /** As long as no quiet point has had a handle overtaken, promotions are as in one phase. */
  lemma {:induction false} WholeKeeps(fs: seq<Whole>, ss: seq<Section>, cap: nat, n: nat)
    requires WholeRun(fs, ss, cap) && n < |fs|
    requires forall m, x, y :: 0 <= m < n && fs[m].phase.pending == map[] ==> !Overtaken(fs[m].phase, x, y)
    ensures Inv(fs[n].phase)
  {
    hide WholeNext, Inv, Overtaken;
    if n == 0 {
      StartKeeps(fs[0].phase);
    } else {
      WholeKeeps(fs, ss, cap, n - 1);
      assert WholeNext(fs[n - 1], ss[n - 1], fs[n - 1 + 1], cap);
      WholeStep(fs[n - 1], ss[n - 1], fs[n], cap);
    }
  }

  lemma WholeStep(f: Whole, s: Section, f': Whole, cap: nat)
    requires Inv(f.phase) && WholeNext(f, s, f', cap)
    requires f.phase.pending == map[] ==> forall x, y :: !Overtaken(f.phase, x, y)
    ensures Inv(f'.phase)
  {
    hide Inv, Overtaken, Start, SharedNext, RecencyList.Tracks;
    if s.Exclusive? {
      QuietTracksExactlyWhen(f.phase);
      ExclusiveStarts(f, s.e, f', cap);
      StartKeeps(f'.phase);
    } else {
      SharedKeeps(f, s, f', cap);
    }
  }

  /** Over whole runs of shared and exclusive sections, whatever promotions overlap: whenever none
      is under way the cache holds the handles the recency list says, in the order it says, if and
      only if at no such moment a handle has been overtaken. */
  lemma WholeRunsAreARecencyListExactlyWhen(fs: seq<Whole>, ss: seq<Section>, cap: nat)
    requires WholeRun(fs, ss, cap)
    ensures (forall n :: 0 <= n < |fs| && fs[n].phase.pending == map[] ==>
               RecencyList.Tracks(fs[n].phase.cache.open, fs[n].phase.order)) <==>
            (forall n, x, y :: 0 <= n < |fs| && fs[n].phase.pending == map[] ==> !Overtaken(fs[n].phase, x, y))
  {
    hide WholeRun, Inv, Overtaken, RecencyList.Tracks;
    if forall n, x, y :: 0 <= n < |fs| && fs[n].phase.pending == map[] ==> !Overtaken(fs[n].phase, x, y) {
      forall n | 0 <= n < |fs| && fs[n].phase.pending == map[]
        ensures RecencyList.Tracks(fs[n].phase.cache.open, fs[n].phase.order)
      {
        WholeKeeps(fs, ss, cap, n);
        QuietTracksExactlyWhen(fs[n].phase);
      }
    } else {
      var n, x, y :| 0 <= n < |fs| && fs[n].phase.pending == map[] && Overtaken(fs[n].phase, x, y);
      var first := FirstOvertaken(fs, n, x, y);
      WholeKeeps(fs, ss, cap, first);
      QuietTracksExactlyWhen(fs[first].phase);
    }
  }

  lemma {:induction false} FirstOvertaken(fs: seq<Whole>, n: nat, x: Id, y: Id) returns (first: nat)
    requires n < |fs| && fs[n].phase.pending == map[] && Overtaken(fs[n].phase, x, y)
    ensures first < |fs| && fs[first].phase.pending == map[]
    ensures exists a, b :: Overtaken(fs[first].phase, a, b)
    ensures forall m, a, b :: 0 <= m < first && fs[m].phase.pending == map[] ==> !Overtaken(fs[m].phase, a, b)
  {
    hide Overtaken;
    first := n;
    if m, a, b :| 0 <= m < n && fs[m].phase.pending == map[] && Overtaken(fs[m].phase, a, b) {
      first := FirstOvertaken(fs, m, a, b);
    }
  }

  lemma {:induction false} WholeNothingLost(fs: seq<Whole>, ss: seq<Section>, cap: nat, n: nat)
    requires WholeRun(fs, ss, cap) && n < |fs|
    requires forall i :: 0 <= i < n ==> !Loses(fs[i], ss[i])
    ensures Inv(fs[n].phase) && NothingLost(fs[n].phase)
  {
    hide WholeNext, Inv, Loses, NothingLost;
    if n == 0 {
      StartKeeps(fs[0].phase);
      StartLost(fs[0].phase);
    } else {
      WholeNothingLost(fs, ss, cap, n - 1);
      assert WholeNext(fs[n - 1], ss[n - 1], fs[n - 1 + 1], cap);
      WholeStepLoses(fs[n - 1], ss[n - 1], fs[n], cap);
    }
  }

  lemma StartLost(w: World)
    requires Start(w)
    ensures NothingLost(w)
  {}

  lemma WholeStepLoses(f: Whole, s: Section, f': Whole, cap: nat)
    requires Inv(f.phase) && NothingLost(f.phase) && WholeNext(f, s, f', cap)
    ensures NothingLost(f'.phase) <==> !Loses(f, s)
    ensures NothingLost(f'.phase) ==> Inv(f'.phase)
  {
    hide Inv, NothingLost, Start, SharedNext, RecencyList.Tracks;
    if s.Exclusive? {
      QuietTracksExactlyWhen(f.phase);
      ExclusiveStarts(f, s.e, f', cap);
      StartKeeps(f'.phase);
      StartLost(f'.phase);
    } else {
      SharedKeeps(f, s, f', cap);
    }
  }

  /** No promotion of a whole run is ever lost exactly when no store overwrites its handle's last
      ticket; and then the rank counter is the recency list whenever nothing is under way. */
  lemma WholeRunsLoseNothingExactlyWhen(fs: seq<Whole>, ss: seq<Section>, cap: nat)
    requires WholeRun(fs, ss, cap)
    ensures (forall n :: 0 <= n < |fs| ==> NothingLost(fs[n].phase)) <==>
            (forall i :: 0 <= i < |ss| ==> !Loses(fs[i], ss[i]))
    ensures (forall i :: 0 <= i < |ss| ==> !Loses(fs[i], ss[i])) ==>
              forall n :: 0 <= n < |fs| && fs[n].phase.pending == map[] ==>
                RecencyList.Tracks(fs[n].phase.cache.open, fs[n].phase.order)
  {
    hide WholeNext, Inv, Loses, NothingLost, RecencyList.Tracks, Start;
    if forall i :: 0 <= i < |ss| ==> !Loses(fs[i], ss[i]) {
      forall n | 0 <= n < |fs|
        ensures NothingLost(fs[n].phase)
        ensures fs[n].phase.pending == map[] ==> RecencyList.Tracks(fs[n].phase.cache.open, fs[n].phase.order)
      {
        WholeNothingLost(fs, ss, cap, n);
        if fs[n].phase.pending == map[] { QuietTracksExactlyWhen(fs[n].phase); }
      }
    } else {
      var i := FirstLoss(fs, ss);
      WholeNothingLost(fs, ss, cap, i);
      assert WholeNext(fs[i], ss[i], fs[i + 1], cap);
      WholeStepLoses(fs[i], ss[i], fs[i + 1], cap);
    }
  }

  lemma FirstLoss(fs: seq<Whole>, ss: seq<Section>) returns (i: nat)
    requires |fs| == |ss| + 1 && exists k :: 0 <= k < |ss| && Loses(fs[k], ss[k])
    ensures i < |ss| && Loses(fs[i], ss[i]) && forall k :: 0 <= k < i ==> !Loses(fs[k], ss[k])
  {
    hide Loses;
    var k :| 0 <= k < |ss| && Loses(fs[k], ss[k]);
    i := 0;
    while !Loses(fs[i], ss[i])
      invariant i <= k && forall j :: 0 <= j < i ==> !Loses(fs[j], ss[j])
      decreases k - i
    {
      i := i + 1;
    }
  }
}
