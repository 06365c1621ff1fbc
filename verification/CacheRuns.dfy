/**
 Every interleaving of the handle cache's critical sections in one process: use accounting,
 what may be closed and when, deletion that is not starved, and walks nobody notices.
 */
module CacheRuns {
  import opened Common
  import opened HandleCache

  /** One operation's claim on a handle. A release ends the use first and settles the cache
      in a later critical section; between the two the guard is ended. */
  datatype Guard = Guard(id: Id, serial: nat, borrowed: bool, ended: bool)

  datatype World = World(cache: Cache, guards: map<nat, Guard>)

  datatype Event =
    | Cached(guard: nat, id: Id, promote: bool, now: int)
    | Open(guard: nat, id: Id, promote: bool, now: int, probe: Probe, outcome: Outcome)
    | End(guard: nat)
    | Settle(guard: nat)
    | Sweep(cutoff: int)
    | Watch(deleted: set<Id>)
    | Drop(id: Id, block: bool)  // a refused write, the start of a deletion, or an explicit close
    | SwapMap                    // the first half of closing everything
    | StopWatching               // the second half

  function Granted(w: World, guard: nat, id: Id, outcome: Outcome): map<nat, Guard> {
    if outcome.Got? then w.guards[guard := Guard(id, outcome.serial, outcome.borrowed, false)] else w.guards
  }

  ghost predicate Next(w: World, e: Event, w': World, cap: nat) {
    match e
    case Cached(guard, id, promote, now) =>
      var (c', result) := AcquireCached(w.cache, id, promote, now);
      && guard !in w.guards
      && w' == World(c', if result.Some? then Granted(w, guard, id, result.value) else w.guards)
    case Open(guard, id, promote, now, probe, outcome) =>
      && guard !in w.guards
      && OpenGuarded(w.cache, id, promote, now, probe, cap, w'.cache, outcome)
      && w'.guards == Granted(w, guard, id, outcome)
    case End(guard) =>
      && guard in w.guards && !w.guards[guard].ended
      && var g := w.guards[guard];
         w' == World(EndUse(w.cache, g.id, g.serial), w.guards[guard := g.(ended := true)])
    case Settle(guard) =>
      && guard in w.guards && w.guards[guard].ended
      && Settled(w.cache, w.guards[guard].id, w.guards[guard].borrowed, cap, w'.cache)
      && w'.guards == w.guards - {guard}
    case Sweep(cutoff) => IdleSwept(w.cache, cutoff, cap, w'.cache) && w'.guards == w.guards
    case Watch(deleted) => w' == w.(cache := WatchPass(w.cache, deleted))
    case Drop(id, block) =>
      w' == w.(cache := if block then Block(Forget(w.cache, id), id) else Forget(w.cache, id))
    case SwapMap => w' == w.(cache := w.cache.(open := map[]))
    case StopWatching => w' == w.(cache := w.cache.(watching := false))
  }

  // ---- the invariant ----

  /** The unreleased guards on the handle with this serial. */
  function Holders(guards: map<nat, Guard>, serial: nat): set<nat> {
    set g | g in guards && guards[g].serial == serial && !guards[g].ended
  }

  /** The guards on an account's handle, or none once the handle is gone. */
  function GuardsOn(w: World, id: Id): set<nat> {
    if id in w.cache.open then Holders(w.guards, w.cache.open[id].serial) else {}
  }

  ghost predicate Serials(w: World) {
    && (forall id :: id in w.cache.open ==> w.cache.open[id].serial < w.cache.nextSerial)
    && (forall g :: g in w.guards ==> w.guards[g].serial < w.cache.nextSerial)
    && (forall i, j :: i in w.cache.open && j in w.cache.open && i != j ==>
          w.cache.open[i].serial != w.cache.open[j].serial)
    && (forall g, id :: g in w.guards && id in w.cache.open && w.guards[g].serial == w.cache.open[id].serial ==>
          w.guards[g].id == id)
  }

  ghost predicate Uses(w: World) {
    forall id :: id in w.cache.open ==>
      && !w.cache.open[id].closing
      && w.cache.open[id].uses == |Holders(w.guards, w.cache.open[id].serial)|
  }

  ghost predicate Ranks(c: Cache) {
    && (forall id :: id in c.open ==> c.open[id].rank <= c.tick)
    && (forall i, j :: i in c.open && j in c.open && i != j && c.open[i].rank > 0 ==> c.open[i].rank != c.open[j].rank)
  }

  ghost predicate HasGuard(w: World, serial: nat) {
    exists g :: g in w.guards && w.guards[g].serial == serial
  }

  /** A rank of zero says that only scans hold the handle, and that one still does: some
      guard on it has yet to put it back. */
  ghost predicate Scans(w: World) {
    forall id :: id in w.cache.open && w.cache.open[id].rank == 0 ==>
      && HasGuard(w, w.cache.open[id].serial)
      && forall g :: g in w.guards && w.guards[g].serial == w.cache.open[id].serial ==> w.guards[g].borrowed
  }

  ghost predicate Inv(w: World) {
    Serials(w) && Uses(w) && Ranks(w.cache) && Scans(w)
  }

  // ---- each kind of step keeps it ----

  lemma HoldersAfterGrant(guards: map<nat, Guard>, guard: nat, g: Guard, serial: nat)
    requires guard !in guards && !g.ended
    ensures |Holders(guards[guard := g], serial)| == |Holders(guards, serial)| + if g.serial == serial then 1 else 0
  {
    var added: set<nat> := if g.serial == serial then {guard} else {};
    assert Holders(guards[guard := g], serial) == Holders(guards, serial) + added;
  }

  lemma HoldersAfterEnd(guards: map<nat, Guard>, guard: nat, serial: nat)
    requires guard in guards && !guards[guard].ended
    ensures var g := guards[guard];
            |Holders(guards[guard := g.(ended := true)], serial)|
            == |Holders(guards, serial)| - if g.serial == serial then 1 else 0
  {
    var g := guards[guard];
    var dropped: set<nat> := if g.serial == serial then {guard} else {};
    assert Holders(guards[guard := g.(ended := true)], serial) == Holders(guards, serial) - dropped;
  }

  lemma ScansAfter(w: World, w': World, id: Id)
    requires Scans(w)
    requires id in w'.cache.open && id in w.cache.open && w'.cache.open[id].rank == 0
    requires w.cache.open[id].rank == 0 && w'.cache.open[id].serial == w.cache.open[id].serial
    requires forall g :: g in w.guards ==> g in w'.guards && w'.guards[g].serial == w.guards[g].serial
    ensures HasGuard(w', w'.cache.open[id].serial)
  {
    assert HasGuard(w, w.cache.open[id].serial);
    var g :| g in w.guards && w.guards[g].serial == w.cache.open[id].serial;
    assert g in w'.guards && w'.guards[g].serial == w'.cache.open[id].serial;
  }

  lemma ShrinkingKeeps(w: World, w': World)
    requires Inv(w) && w'.guards == w.guards
    requires w'.cache.tick == w.cache.tick && w'.cache.nextSerial == w.cache.nextSerial
    requires forall id :: id in w'.cache.open ==> id in w.cache.open && w'.cache.open[id] == w.cache.open[id]
    ensures Inv(w')
  {
    forall id | id in w'.cache.open && w'.cache.open[id].rank == 0
      ensures HasGuard(w', w'.cache.open[id].serial)
    {
      ScansAfter(w, w', id);
    }
  }

  ghost predicate Used(w: World, guard: nat, id: Id, promote: bool, now: int, w': World) {
    && Inv(w) && guard !in w.guards && id in w.cache.open
    && w'.cache == Use(w.cache, id, promote, now)
    && w'.guards ==
       w.guards[guard := Guard(id, w.cache.open[id].serial, !promote && w.cache.open[id].rank == 0, false)]
  }

  lemma UseKeepsSerials(w: World, guard: nat, id: Id, promote: bool, now: int, w': World)
    requires Used(w, guard, id, promote, now, w')
    ensures Serials(w')
  {}

  lemma UseKeepsUses(w: World, guard: nat, id: Id, promote: bool, now: int, w': World)
    requires Used(w, guard, id, promote, now, w')
    ensures Uses(w')
  {
    forall k | k in w'.cache.open
      ensures w'.cache.open[k].uses == |Holders(w'.guards, w'.cache.open[k].serial)|
    {
      HoldersAfterGrant(w.guards, guard, w'.guards[guard], w.cache.open[k].serial);
      assert k != id ==> w.cache.open[k].serial != w.cache.open[id].serial;
    }
  }

  lemma UseKeepsScans(w: World, guard: nat, id: Id, promote: bool, now: int, w': World)
    requires Used(w, guard, id, promote, now, w')
    ensures Scans(w')
  {
    forall k | k in w'.cache.open && w'.cache.open[k].rank == 0
      ensures HasGuard(w', w'.cache.open[k].serial)
      ensures forall g :: g in w'.guards && w'.guards[g].serial == w'.cache.open[k].serial ==> w'.guards[g].borrowed
    {
      ScansAfter(w, w', k);
      assert k != id ==> w.cache.open[k].serial != w.cache.open[id].serial;
    }
  }

  lemma UseKeeps(w: World, guard: nat, id: Id, promote: bool, now: int, w': World)
    requires Used(w, guard, id, promote, now, w')
    ensures Inv(w')
  {
    UseKeepsSerials(w, guard, id, promote, now, w');
    UseKeepsUses(w, guard, id, promote, now, w');
    UseKeepsScans(w, guard, id, promote, now, w');
  }

  ghost predicate Opened(w: World, guard: nat, id: Id, promote: bool, now: int, w': World) {
    && Inv(w) && guard !in w.guards && id !in w.cache.open
    && w'.cache == Inserted(w.cache, id, promote, now)
    && w'.guards == w.guards[guard := Guard(id, w.cache.nextSerial, !promote, false)]
  }

  lemma InsertKeepsSerials(w: World, guard: nat, id: Id, promote: bool, now: int, w': World)
    requires Opened(w, guard, id, promote, now, w')
    ensures Serials(w')
  {}

  lemma InsertKeepsUses(w: World, guard: nat, id: Id, promote: bool, now: int, w': World)
    requires Opened(w, guard, id, promote, now, w')
    ensures Uses(w')
  {
    assert Holders(w.guards, w.cache.nextSerial) == {};
    forall k | k in w'.cache.open
      ensures w'.cache.open[k].uses == |Holders(w'.guards, w'.cache.open[k].serial)|
    {
      HoldersAfterGrant(w.guards, guard, w'.guards[guard], w'.cache.open[k].serial);
    }
  }

  lemma InsertKeepsScans(w: World, guard: nat, id: Id, promote: bool, now: int, w': World)
    requires Opened(w, guard, id, promote, now, w')
    ensures Scans(w')
  {
    forall k | k in w'.cache.open && w'.cache.open[k].rank == 0
      ensures HasGuard(w', w'.cache.open[k].serial)
      ensures forall g :: g in w'.guards && w'.guards[g].serial == w'.cache.open[k].serial ==> w'.guards[g].borrowed
    {
      if k == id {
        assert guard in w'.guards && w'.guards[guard].serial == w'.cache.open[k].serial;
      } else {
        ScansAfter(w, w', k);
      }
    }
  }

  lemma InsertKeeps(w: World, guard: nat, id: Id, promote: bool, now: int, w': World)
    requires Opened(w, guard, id, promote, now, w')
    ensures Inv(w')
  {
    InsertKeepsSerials(w, guard, id, promote, now, w');
    InsertKeepsUses(w, guard, id, promote, now, w');
    InsertKeepsScans(w, guard, id, promote, now, w');
  }

  lemma EndKeepsUses(w: World, guard: nat, w': World, cap: nat)
    requires Inv(w) && Next(w, End(guard), w', cap)
    ensures Uses(w')
  {
    var g := w.guards[guard];
    assert guard in Holders(w.guards, g.serial);
    forall k | k in w'.cache.open
      ensures w'.cache.open[k].uses == |Holders(w'.guards, w'.cache.open[k].serial)|
    {
      HoldersAfterEnd(w.guards, guard, w.cache.open[k].serial);
      assert w.cache.open[k].serial == g.serial ==> k == g.id;
    }
  }

  lemma EndKeepsScans(w: World, guard: nat, w': World, cap: nat)
    requires Inv(w) && Next(w, End(guard), w', cap)
    ensures Scans(w')
  {
    forall k | k in w'.cache.open && w'.cache.open[k].rank == 0
      ensures HasGuard(w', w'.cache.open[k].serial)
    {
      ScansAfter(w, w', k);
    }
  }

  lemma EndKeeps(w: World, guard: nat, w': World, cap: nat)
    requires Inv(w) && Next(w, End(guard), w', cap)
    ensures Inv(w')
  {
    EndKeepsUses(w, guard, w', cap);
    EndKeepsScans(w, guard, w', cap);
  }

  lemma SettleShrinks(w: World, guard: nat, w': World, cap: nat)
    requires Next(w, Settle(guard), w', cap)
    ensures forall k :: k in w'.cache.open ==> k in w.cache.open && w'.cache.open[k] == w.cache.open[k]
    ensures w'.cache.tick == w.cache.tick && w'.cache.nextSerial == w.cache.nextSerial
  {}

  lemma SettleKeepsScans(w: World, guard: nat, w': World, cap: nat, id: Id)
    requires Inv(w) && Next(w, Settle(guard), w', cap)
    requires id in w'.cache.open && id in w.cache.open && w'.cache.open[id] == w.cache.open[id]
    requires w.cache.open[id].rank == 0
    ensures HasGuard(w', w'.cache.open[id].serial)
  {
    var serial := w.cache.open[id].serial;
    assert HasGuard(w, serial);
    var h :| h in w.guards && w.guards[h].serial == serial;
    if h == guard {
      assert w.guards[guard].borrowed && w.guards[guard].id == id;
      assert w.cache.open[id].uses > 0;
      h :| h in Holders(w.guards, serial);
    }
    assert h in w'.guards && w'.guards[h].serial == serial;
  }

  lemma SettleKeepsUses(w: World, guard: nat, w': World)
    requires Serials(w) && Uses(w) && Ranks(w.cache)
    requires guard in w.guards && w.guards[guard].ended && w'.guards == w.guards - {guard}
    requires w'.cache.tick == w.cache.tick && w'.cache.nextSerial == w.cache.nextSerial
    requires forall k :: k in w'.cache.open ==> k in w.cache.open && w'.cache.open[k] == w.cache.open[k]
    ensures Serials(w') && Uses(w') && Ranks(w'.cache)
  {
    forall s ensures Holders(w'.guards, s) == Holders(w.guards, s) {}
  }

  lemma SettleKeeps(w: World, guard: nat, w': World, cap: nat)
    requires Inv(w) && Next(w, Settle(guard), w', cap)
    ensures Inv(w')
  {
    SettleShrinks(w, guard, w', cap);
    SettleKeepsUses(w, guard, w');
    assert Scans(w') by {
      forall k | k in w'.cache.open && w'.cache.open[k].rank == 0
        ensures HasGuard(w', w'.cache.open[k].serial)
      {
        SettleKeepsScans(w, guard, w', cap, k);
      }
      hide Settled;
    }
  }

  lemma StepKeeps(w: World, e: Event, w': World, cap: nat)
    requires Inv(w) && Next(w, e, w', cap)
    ensures Inv(w')
  {
    match e
    case Cached(guard, id, promote, now) =>
      if w' != w { UseKeeps(w, guard, id, promote, now, w'); }
    case Open(guard, id, promote, now, probe, outcome) =>
      if !outcome.Got? {
        ShrinkingKeeps(w, w');
      } else if id in w.cache.open {
        UseKeeps(w, guard, id, promote, now, w');
      } else {
        var middle := World(Inserted(w.cache, id, promote, now), w'.guards);
        InsertKeeps(w, guard, id, promote, now, middle);
        ShrinkingKeeps(middle, w');
      }
    case End(guard) => EndKeeps(w, guard, w', cap);
    case Settle(guard) => SettleKeeps(w, guard, w', cap);
    case Sweep(_) => ShrinkingKeeps(w, w');
    case Watch(_) => ShrinkingKeeps(w, w');
    case Drop(_, _) => ShrinkingKeeps(w, w');
    case SwapMap => ShrinkingKeeps(w, w');
    case StopWatching => ShrinkingKeeps(w, w');
  }

  // ---- runs ----

  ghost predicate Fresh(w: World) {
    && w.cache.open == map[] && w.cache.blocked == {} && w.guards == map[] && !w.cache.watching
  }

  ghost predicate Run(ws: seq<World>, es: seq<Event>, cap: nat) {
    && |ws| == |es| + 1
    && Fresh(ws[0])
    && (forall i :: 0 <= i < |es| ==> Next(ws[i], es[i], ws[i + 1], cap))
    && (forall i :: 0 <= i < |es| && es[i].StopWatching? ==> HalfClosed(es[..i]) > 0)
  }

  /** How many calls that close everything have done their first half and not their second. */
  function HalfClosed(es: seq<Event>): int {
    if es == [] then 0
    else
      HalfClosed(es[..|es| - 1]) +
      match es[|es| - 1]
      case SwapMap => 1
      case StopWatching => -1
      case _ => 0
  }

  /** Use accounting holds at every point of every run. */
  lemma {:induction false} RunKeeps(ws: seq<World>, es: seq<Event>, cap: nat, i: nat)
    requires Run(ws, es, cap) && i < |ws|
    ensures Inv(ws[i])
  {
    if i > 0 {
      RunKeeps(ws, es, cap, i - 1);
      StepKeeps(ws[i - 1], es[i - 1], ws[i], cap);
    }
  }

  /** The steps that close an account's handle on somebody's demand: dropping it, closing
      everything, and an open that finds its marker. Eviction, put-back, the idle sweep and the
      watcher close handles on their own account. */
  predicate Demanded(c: Cache, e: Event, id: Id) {
    || (e.Drop? && e.id == id)
    || e.SwapMap?
    || (e.Open? && e.id == id && e.probe.Marked? && id !in c.blocked)
  }

  lemma ChoosingSparesTheHeld(c: Cache, c': Cache, cap: nat, id: Id)
    requires Chosen(c, c', cap) && id in c.open && c.open[id].uses > 0
    ensures id in c'.open && c'.open[id] == c.open[id]
  {
    assert id !in IdleIds(c.open);
  }

  lemma OpeningSparesTheHeld(c: Cache, e: Event, c': Cache, cap: nat, id: Id)
    requires e.Open? && id in c.open && c.open[id].uses > 0
    requires OpenGuarded(c, e.id, e.promote, e.now, e.probe, cap, c', e.outcome)
    ensures Demanded(c, e, id) ==> id !in c'.open
    ensures !Demanded(c, e, id) ==> id in c'.open && c'.open[id].serial == c.open[id].serial
  {
    if e.outcome.Got? && e.id !in c.open && e.promote {
      ChoosingSparesTheHeld(Inserted(c, e.id, true, e.now), c', cap, id);
    }
  }

  lemma SettlingSparesTheHeld(w: World, e: Event, w': World, cap: nat, id: Id)
    requires Next(w, e, w', cap) && (e.Settle? || e.Sweep?) && id in w.cache.open && w.cache.open[id].uses > 0
    ensures id in w'.cache.open && w'.cache.open[id] == w.cache.open[id]
  {
    hide Evicted, Chosen;
    match e
    case Settle(guard) =>
      if !w.guards[guard].borrowed { ChoosingSparesTheHeld(w.cache, w'.cache, cap, id); }
    case Sweep(cutoff) => ChoosingSparesTheHeld(SweptIdle(w.cache, cutoff), w'.cache, cap, id);
  }

  /** A handle in use leaves the map exactly on demand. */
  lemma AHeldHandleLeavesExactlyWhen(w: World, e: Event, w': World, cap: nat, id: Id)
    requires Next(w, e, w', cap) && id in w.cache.open && w.cache.open[id].uses > 0
    ensures id !in w'.cache.open <==> Demanded(w.cache, e, id)
    ensures id in w'.cache.open ==> w'.cache.open[id].serial == w.cache.open[id].serial
  {
    hide Evicted, Chosen, OpenGuarded, Settled;
    match e
    case Open(_, _, _, _, _, _) => OpeningSparesTheHeld(w.cache, e, w'.cache, cap, id);
    case Settle(_) => SettlingSparesTheHeld(w, e, w', cap, id);
    case Sweep(_) => SettlingSparesTheHeld(w, e, w', cap, id);
    case _ =>
  }

  /** Over every run: a handle somebody holds is closed exactly when somebody demands it, and is
      otherwise still the same handle. */
  lemma HeldHandlesAreClosedExactlyWhen(ws: seq<World>, es: seq<Event>, cap: nat, i: nat, id: Id)
    requires Run(ws, es, cap) && i < |es| && GuardsOn(ws[i], id) != {}
    ensures id !in ws[i + 1].cache.open <==> Demanded(ws[i].cache, es[i], id)
    ensures id in ws[i + 1].cache.open ==> ws[i + 1].cache.open[id].serial == ws[i].cache.open[id].serial
  {
    RunKeeps(ws, es, cap, i);
    assert ws[i].cache.open[id].uses > 0;
    AHeldHandleLeavesExactlyWhen(ws[i], es[i], ws[i + 1], cap, id);
  }

  /** Refusing to serve a tombstoned account drops its handle even while it is held, so the
      exception for demanded closes is a real one. */
  lemma ARefusedWriteDropsAHeldHandle(now: int)
    ensures exists ws: seq<World>, es: seq<Event> ::
              && Run(ws, es, 1) && |es| == 2
              && 7 in ws[1].cache.open && Holders(ws[1].guards, ws[1].cache.open[7].serial) != {}
              && 7 !in ws[2].cache.open
  {
    var w0 := World(Cache(map[], {}, 0, 0, false, Stats(0, 0, 0, 0)), map[]);
    var inserted := Inserted(w0.cache, 7, true, now);
    var c1 := inserted.(stats := inserted.stats);
    assert inserted.open.Keys == {7};
    var e0 := Event.Open(0, 7, true, now, Clear(true), Got(0, false));
    var w1 := World(c1, map[0 := Guard(7, 0, false, false)]);
    assert Chosen(inserted, c1, 1) by { assert inserted.open.Keys - c1.open.Keys == {}; }
    assert w1.guards == Granted(w0, 0, 7, Got(0, false));
    var w2 := w1.(cache := Block(Forget(w1.cache, 7), 7));
    var ws, es := [w0, w1, w2], [e0, Drop(7, true)];
    assert Next(ws[0], es[0], ws[1], 1) && Next(ws[1], es[1], ws[2], 1);
    assert Run(ws, es, 1);
    assert 0 in Holders(w1.guards, 0);
  }

  // ---- deletion is not starved ----

  /** From w to w' the account stays blocked, no handle for it appears, and the guards on the
      one it had only go away. */
  ghost predicate Draining(w: World, w': World, id: Id) {
    && (id in w.cache.blocked ==> id in w'.cache.blocked)
    && (id in w'.cache.open ==> id in w.cache.open && w'.cache.open[id].serial == w.cache.open[id].serial)
    && GuardsOn(w', id) <= GuardsOn(w, id)
  }

  lemma GrantElsewhere(guards: map<nat, Guard>, guard: nat, g: Guard, serial: nat)
    requires guard !in guards && g.serial != serial
    ensures Holders(guards[guard := g], serial) == Holders(guards, serial)
  {}

  lemma BlockedCached(w: World, e: Event, w': World, cap: nat, id: Id)
    requires Inv(w) && Next(w, e, w', cap) && id in w.cache.blocked && e.Cached?
    ensures Draining(w, w', id)
  {
    if w' != w {
      assert w'.cache == Use(w.cache, e.id, e.promote, e.now) && e.id != id;
      if id in w.cache.open { GrantElsewhere(w.guards, e.guard, w'.guards[e.guard], w.cache.open[id].serial); }
    }
  }

  /** Opening one account creates, changes or unblocks no other. */
  lemma OpenElsewhere(c: Cache, e: Event, cap: nat, c': Cache, id: Id)
    requires e.Open? && OpenGuarded(c, e.id, e.promote, e.now, e.probe, cap, c', e.outcome) && e.id != id
    ensures id in c'.open ==> id in c.open && c'.open[id] == c.open[id]
    ensures id in c.blocked ==> id in c'.blocked
    ensures e.outcome.Got? ==> e.outcome.serial == if e.id in c.open then c.open[e.id].serial else c.nextSerial
  {}

  lemma BlockedOpen(w: World, e: Event, w': World, cap: nat, id: Id)
    requires Serials(w) && Next(w, e, w', cap) && id in w.cache.blocked && e.Open?
    ensures Draining(w, w', id)
  {
    if e.id == id {
      assert w' == w;
    } else {
      OpenElsewhere(w.cache, e, cap, w'.cache, id);
      hide OpenGuarded;
      if e.outcome.Got? && id in w.cache.open {
        GrantElsewhere(w.guards, e.guard, w'.guards[e.guard], w.cache.open[id].serial);
      }
    }
  }

  lemma BlockedEnd(w: World, e: Event, w': World, cap: nat, id: Id)
    requires Next(w, e, w', cap) && (e.End? || e.Settle?)
    ensures Draining(w, w', id)
  {}

  lemma BlockedStep(w: World, e: Event, w': World, cap: nat, id: Id)
    requires Inv(w) && Next(w, e, w', cap) && id in w.cache.blocked
    ensures Draining(w, w', id)
  {
    match e
    case Cached(_, _, _, _) => BlockedCached(w, e, w', cap, id);
    case Open(_, _, _, _, _, _) => BlockedOpen(w, e, w', cap, id);
    case End(_) => BlockedEnd(w, e, w', cap, id);
    case Settle(_) => BlockedEnd(w, e, w', cap, id);
    case _ =>
  }

  lemma DrainingComposes(a: World, b: World, c: World, id: Id)
    requires Draining(a, b, id) && Draining(b, c, id)
    ensures Draining(a, c, id)
  {}

  lemma BlockedAt(ws: seq<World>, es: seq<Event>, cap: nat, i: nat, id: Id)
    requires Run(ws, es, cap) && i < |es| && id in ws[i].cache.blocked
    ensures Draining(ws[i], ws[i + 1], id)
  {
    RunKeeps(ws, es, cap, i);
    BlockedStep(ws[i], es[i], ws[i + 1], cap, id);
  }

  lemma {:induction false} BlockedRun(ws: seq<World>, es: seq<Event>, cap: nat, i: nat, j: nat, id: Id)
    requires Run(ws, es, cap) && i <= j < |ws| && id in ws[i].cache.blocked
    ensures Draining(ws[i], ws[j], id)
    decreases j
  {
    hide Next, GuardsOn;
    if i < j {
      BlockedRun(ws, es, cap, i, j - 1, id);
      BlockedAt(ws, es, cap, j - 1, id);
      DrainingComposes(ws[i], ws[j - 1], ws[j], id);
    }
  }

  lemma WatchDrains(w: World, e: Event, w': World, cap: nat, id: Id)
    requires Inv(w) && Next(w, e, w', cap) && e.Watch? && id in e.deleted && id in w.cache.open
    ensures id in w'.cache.blocked && Draining(w, w', id)
    ensures GuardsOn(w, id) == {} ==> id !in w'.cache.open
  {}

  /** A watcher pass that sees the account's tombstone and finds nobody on its handle. */
  ghost predicate Emptied(w: World, e: Event, id: Id) {
    e.Watch? && id in e.deleted && GuardsOn(w, id) == {}
  }

  /** From the first watcher pass that sees an account's tombstone, the guards on its handle
      only go away; and the first pass to find none left closes it, for good. */
  lemma DeletionIsNotStarved(ws: seq<World>, es: seq<Event>, cap: nat, i: nat, id: Id)
    requires Run(ws, es, cap) && i < |es|
    requires es[i].Watch? && id in es[i].deleted && id in ws[i].cache.open
    ensures forall k :: i < k < |ws| ==> Draining(ws[i], ws[k], id)
    ensures forall j, k :: i < j < k < |ws| && Emptied(ws[j], es[j], id) ==> id !in ws[k].cache.open
  {
    RunKeeps(ws, es, cap, i);
    WatchDrains(ws[i], es[i], ws[i + 1], cap, id);
    forall k | i < k < |ws| ensures Draining(ws[i], ws[k], id) {
      BlockedRun(ws, es, cap, i + 1, k, id);
    }
    forall j, k | i < j < k < |ws| && Emptied(ws[j], es[j], id)
      ensures id !in ws[k].cache.open
    {
      RunKeeps(ws, es, cap, j);
      BlockedRun(ws, es, cap, i + 1, j, id);
      BlockedRun(ws, es, cap, j, k, id);
      if id in ws[j].cache.open {
        WatchDrains(ws[j], es[j], ws[j + 1], cap, id);
        BlockedRun(ws, es, cap, j + 1, k, id);
      }
    }
  }

  // ---- the watcher runs while anything is open ----

  ghost predicate Watched(w: World) { w.cache.open != map[] ==> w.cache.watching }

  /** Every step keeps the watcher running while a handle is open, with one exception: the
      second half of closing everything, exactly when the map is not empty. */
  lemma WatchedStep(w: World, e: Event, w': World, cap: nat)
    requires Watched(w) && Next(w, e, w', cap)
    ensures Watched(w') <==> !(e.StopWatching? && w.cache.open != map[])
  {
    hide Evicted;
    match e
    case Cached(_, id, _, _) => if w.cache.open != map[] { assert w'.cache.watching; } else { assert w' == w; }
    case Open(_, _, _, _, _, _) => WatchedOpen(w, e, w', cap);
    case End(_) => if w.cache.open == map[] { assert w'.cache == w.cache; }
    case Settle(_) => WatchedShrink(w, e, w', cap);
    case Sweep(_) => WatchedShrink(w, e, w', cap);
    case Watch(_) => WatchedShrink(w, e, w', cap);
    case Drop(_, _) => WatchedShrink(w, e, w', cap);
    case SwapMap =>
    case StopWatching =>
  }

  lemma WatchedShrink(w: World, e: Event, w': World, cap: nat)
    requires Watched(w) && Next(w, e, w', cap) && (e.Settle? || e.Sweep? || e.Watch? || e.Drop?)
    ensures Watched(w')
  {
    hide Evicted;
    match e
    case Settle(guard) =>
      if !w.guards[guard].borrowed { EvictedShrinks(w.cache.open, w'.cache.open, cap); }
      StillEmpty(w.cache, w'.cache);
    case Sweep(cutoff) =>
      EvictedShrinks(SweptIdle(w.cache, cutoff).open, w'.cache.open, cap);
      StillEmpty(w.cache, w'.cache);
    case Watch(_) => StillEmpty(w.cache, w'.cache);
    case Drop(_, _) => StillEmpty(w.cache, w'.cache);
  }

  lemma EvictedShrinks(before: map<Id, Handle>, after: map<Id, Handle>, cap: nat)
    requires Evicted(before, after, cap)
    ensures after.Keys <= before.Keys
  {}

  lemma StillEmpty(c: Cache, c': Cache)
    requires c'.open.Keys <= c.open.Keys
    ensures c.open == map[] ==> c'.open == map[]
  {
    if c.open == map[] { assert c'.open.Keys == {}; }
  }

  lemma WatchedOpen(w: World, e: Event, w': World, cap: nat)
    requires Watched(w) && Next(w, e, w', cap) && e.Open?
    ensures Watched(w')
  {
    if !e.outcome.Got? {
      StillEmpty(w.cache, w'.cache);
    }
  }

  lemma {:induction false} WatchedUnlessStopped(ws: seq<World>, es: seq<Event>, cap: nat, n: nat)
    requires Run(ws, es, cap) && n < |ws|
    requires forall i :: 0 <= i < n && es[i].StopWatching? ==> ws[i].cache.open == map[]
    ensures Watched(ws[n])
  {
    if n > 0 {
      WatchedUnlessStopped(ws, es, cap, n - 1);
      WatchedStep(ws[n - 1], es[n - 1], ws[n], cap);
    }
  }

  /** Over a whole run a watcher is running whenever anything is open exactly when no second half
      of closing everything finds a handle in the map. */
  lemma WatchedExactlyWhen(ws: seq<World>, es: seq<Event>, cap: nat)
    requires Run(ws, es, cap)
    ensures (forall n :: 0 <= n < |ws| ==> Watched(ws[n])) <==>
            forall i :: 0 <= i < |es| && es[i].StopWatching? ==> ws[i].cache.open == map[]
  {
    if forall i :: 0 <= i < |es| && es[i].StopWatching? ==> ws[i].cache.open == map[] {
      forall n | 0 <= n < |ws| ensures Watched(ws[n]) { WatchedUnlessStopped(ws, es, cap, n); }
    }
    if forall n :: 0 <= n < |ws| ==> Watched(ws[n]) {
      forall i | 0 <= i < |es| && es[i].StopWatching?
        ensures ws[i].cache.open == map[]
      {
        assert Next(ws[i], es[i], ws[i + 1], cap) && Watched(ws[i + 1]);
      }
    }
  }

  /** A new handle for the account is opened. */
  ghost predicate Opens(w: World, e: Event, id: Id, serial: nat) {
    e.Open? && e.id == id && id !in w.cache.open && e.outcome.Got? && e.outcome.serial == serial
  }

  lemma OpenKeepsOrOpens(w: World, e: Event, w': World, cap: nat, id: Id)
    requires Next(w, e, w', cap) && e.Open? && id in w'.cache.open
    ensures || (id in w.cache.open && w.cache.open[id].serial == w'.cache.open[id].serial)
            || Opens(w, e, id, w'.cache.open[id].serial)
  {
    hide Evicted;
    if e.outcome.Got? && e.id !in w.cache.open && e.promote {
      EvictedKeeps(Inserted(w.cache, e.id, true, e.now).open, w'.cache.open, cap, id);
    }
  }

  lemma SettlingKeepsSerials(w: World, e: Event, w': World, cap: nat, id: Id)
    requires Next(w, e, w', cap) && (e.Settle? || e.Sweep?) && id in w'.cache.open
    ensures id in w.cache.open && w.cache.open[id].serial == w'.cache.open[id].serial
  {
    hide Evicted;
    if e.Sweep? {
      EvictedKeeps(SweptIdle(w.cache, e.cutoff).open, w'.cache.open, cap, id);
    } else if !w.guards[e.guard].borrowed {
      EvictedKeeps(w.cache.open, w'.cache.open, cap, id);
    }
  }

  lemma HandlesComeFromOpens(w: World, e: Event, w': World, cap: nat, id: Id)
    requires Next(w, e, w', cap) && id in w'.cache.open
    ensures || (id in w.cache.open && w.cache.open[id].serial == w'.cache.open[id].serial)
            || Opens(w, e, id, w'.cache.open[id].serial)
  {
    hide Evicted, OpenGuarded, Settled, Opens;
    if e.Open? { OpenKeepsOrOpens(w, e, w', cap, id); }
    else if e.Settle? || e.Sweep? { SettlingKeepsSerials(w, e, w', cap, id); }
  }

  lemma EvictedKeeps(before: map<Id, Handle>, after: map<Id, Handle>, cap: nat, id: Id)
    requires Evicted(before, after, cap) && id in after
    ensures id in before && after[id] == before[id]
  {}

  ghost predicate OpenedBetween(ws: seq<World>, es: seq<Event>, m: nat, n: nat, id: Id, serial: nat) {
    exists k :: m <= k < n && k < |ws| && k < |es| && Opens(ws[k], es[k], id, serial)
  }

  lemma {:induction false} OpenSince(ws: seq<World>, es: seq<Event>, cap: nat, m: nat, n: nat, id: Id)
    requires Run(ws, es, cap) && m <= n < |ws| && id in ws[n].cache.open && id !in ws[m].cache.open
    ensures OpenedBetween(ws, es, m, n, id, ws[n].cache.open[id].serial)
    decreases n
  {
    hide Next, Opens;
    var serial := ws[n].cache.open[id].serial;
    HandlesComeFromOpens(ws[n - 1], es[n - 1], ws[n], cap, id);
    if id in ws[n - 1].cache.open && ws[n - 1].cache.open[id].serial == serial {
      OpenSince(ws, es, cap, m, n - 1, id);
      var k :| m <= k < n - 1 && k < |ws| && k < |es| && Opens(ws[k], es[k], id, serial);
    } else {
      assert Opens(ws[n - 1], es[n - 1], id, serial);
    }
  }

  lemma {:induction false} SwappedBefore(es: seq<Event>)
    requires HalfClosed(es) > 0
    ensures exists j :: 0 <= j < |es| && es[j].SwapMap?
  {
    var front := es[..|es| - 1];
    if !es[|es| - 1].SwapMap? {
      SwappedBefore(front);
      var j :| 0 <= j < |front| && front[j].SwapMap?;
      assert es[j].SwapMap?;
    }
  }

  /** What a second half finds in the map was opened since the first. */
  lemma StoppedHandlesWereOpenedSinceTheSwap(ws: seq<World>, es: seq<Event>, cap: nat, i: nat, id: Id)
    requires Run(ws, es, cap) && i < |es| && es[i].StopWatching? && id in ws[i].cache.open
    ensures exists j :: 0 <= j < i && es[j].SwapMap? && OpenedBetween(ws, es, j + 1, i, id, ws[i].cache.open[id].serial)
  {
    SwappedBefore(es[..i]);
    var j :| 0 <= j < |es[..i]| && es[..i][j].SwapMap?;
    assert Next(ws[j], es[j], ws[j + 1], cap);
    OpenSince(ws, es, cap, j + 1, i, id);
  }

  /** An open that lands between the two halves is left without a watcher. */
  lemma AnOpenDuringCloseAllIsUnwatched(now: int)
    ensures exists ws: seq<World>, es: seq<Event> ::
              && Run(ws, es, 1) && !Watched(ws[|ws| - 1])
              && |es| == 3 && es[0].SwapMap? && es[1].Open? && es[2].StopWatching?
  {
    var w0 := World(Cache(map[], {}, 0, 0, false, Stats(0, 0, 0, 0)), map[]);
    var inserted := Inserted(w0.cache, 7, false, now);
    var w2 := World(inserted, map[0 := Guard(7, 0, true, false)]);
    var w3 := World(inserted.(watching := false), w2.guards);
    var ws, es := [w0, w0, w2, w3], [SwapMap, Event.Open(0, 7, false, now, Clear(true), Got(0, true)), StopWatching];
    assert w2.guards == Granted(w0, 0, 7, Got(0, true));
    assert Next(ws[0], es[0], ws[1], 1) && Next(ws[1], es[1], ws[2], 1) && Next(ws[2], es[2], ws[3], 1);
    assert es[..2] == [SwapMap, es[1]] && es[..2][..1] == [SwapMap] && [SwapMap][..0] == [];
    assert HalfClosed([SwapMap]) == 1 && HalfClosed(es[..2]) == 1;
    assert Run(ws, es, 1);
    assert 7 in w3.cache.open;
  }

  // ---- what the idle sweep goes by ----

  /** The guard that an acquisition of the account for real traffic has just been given. */
  predicate Acquires(w: World, e: Event, w': World, id: Id, serial: nat) {
    && (e.Cached? || e.Open?) && e.promote && e.id == id
    && e.guard !in w.guards && e.guard in w'.guards && w'.guards[e.guard].serial == serial
  }

  /** When the handle with this serial was last acquired for real traffic, by the clock that
      acquisition read; zero if it never was. */
  function LastUsed(ws: seq<World>, es: seq<Event>, n: nat, id: Id, serial: nat): int
    requires n < |ws| && |ws| == |es| + 1
  {
    if n == 0 then 0
    else if Acquires(ws[n - 1], es[n - 1], ws[n], id, serial) then es[n - 1].now
    else LastUsed(ws, es, n - 1, id, serial)
  }

  lemma EvictedKeepsHandles(before: map<Id, Handle>, after: map<Id, Handle>, cap: nat)
    requires Evicted(before, after, cap)
    ensures forall id :: id in after ==> id in before && after[id] == before[id]
  {}

  /** What one step does to the use time of a handle that is in the map afterwards. */
  ghost predicate UseTimeMoves(w: World, e: Event, w': World, id: Id)
    requires id in w'.cache.open
  {
    var h := w'.cache.open[id];
    if Acquires(w, e, w', id, h.serial) then h.usedAt == e.now
    else if id in w.cache.open && w.cache.open[id].serial == h.serial then h.usedAt == w.cache.open[id].usedAt
    else h.usedAt == 0
  }

  lemma CachedMovesUseTime(w: World, e: Event, w': World, cap: nat, id: Id)
    requires Serials(w) && Next(w, e, w', cap) && e.Cached? && id in w'.cache.open
    ensures UseTimeMoves(w, e, w', id)
  {}

  lemma OpenMovesUseTime(w: World, e: Event, w': World, cap: nat, id: Id)
    requires Serials(w) && Next(w, e, w', cap) && e.Open? && id in w'.cache.open
    ensures UseTimeMoves(w, e, w', id)
  {
    hide Evicted;
    if e.outcome.Got? && e.id !in w.cache.open && e.promote {
      EvictedKeepsHandles(Inserted(w.cache, e.id, true, e.now).open, w'.cache.open, cap);
    }
  }

  lemma StepMovesUseTime(w: World, e: Event, w': World, cap: nat, id: Id)
    requires Serials(w) && Next(w, e, w', cap) && id in w'.cache.open
    ensures UseTimeMoves(w, e, w', id)
  {
    hide Evicted, Serials;
    match e
    case Cached(_, _, _, _) => CachedMovesUseTime(w, e, w', cap, id);
    case Open(_, _, _, _, _, _) => OpenMovesUseTime(w, e, w', cap, id);
    case Settle(guard) =>
      if !w.guards[guard].borrowed { EvictedKeepsHandles(w.cache.open, w'.cache.open, cap); }
    case Sweep(cutoff) => EvictedKeepsHandles(SweptIdle(w.cache, cutoff).open, w'.cache.open, cap);
    case _ =>
  }

  lemma ChoosingOpensNothing(c: Cache, c': Cache, cap: nat)
    requires Chosen(c, c', cap)
    ensures c'.nextSerial == c.nextSerial
  {}

  lemma OpeningTakesSerials(c: Cache, e: Event, c': Cache, cap: nat)
    requires e.Open? && OpenGuarded(c, e.id, e.promote, e.now, e.probe, cap, c', e.outcome)
    ensures c.nextSerial <= c'.nextSerial
  {
    hide Chosen;
    if e.outcome.Got? && e.id !in c.open && e.promote {
      ChoosingOpensNothing(Inserted(c, e.id, true, e.now), c', cap);
    }
  }

  lemma SerialsGrow(w: World, e: Event, w': World, cap: nat)
    requires Next(w, e, w', cap)
    ensures w.cache.nextSerial <= w'.cache.nextSerial
  {
    hide Chosen, OpenGuarded;
    match e
    case Open(_, _, _, _, _, _) => OpeningTakesSerials(w.cache, e, w'.cache, cap);
    case Settle(guard) => if !w.guards[guard].borrowed { ChoosingOpensNothing(w.cache, w'.cache, cap); }
    case Sweep(cutoff) => ChoosingOpensNothing(SweptIdle(w.cache, cutoff), w'.cache, cap);
    case _ =>
  }

  /** A handle not opened yet has not been used. */
  lemma {:induction false} NotUsedYet(ws: seq<World>, es: seq<Event>, cap: nat, n: nat, id: Id, serial: nat)
    requires Run(ws, es, cap) && n < |ws| && ws[n].cache.nextSerial <= serial
    ensures LastUsed(ws, es, n, id, serial) == 0
  {
    if n > 0 {
      RunKeeps(ws, es, cap, n);
      assert Next(ws[n - 1], es[n - 1], ws[n - 1 + 1], cap);
      SerialsGrow(ws[n - 1], es[n - 1], ws[n], cap);
      hide Next;
      NotUsedYet(ws, es, cap, n - 1, id, serial);
    }
  }

  lemma {:induction false} UseTimeIsTheLastUse(ws: seq<World>, es: seq<Event>, cap: nat, n: nat, id: Id)
    requires Run(ws, es, cap) && n < |ws| && id in ws[n].cache.open
    ensures ws[n].cache.open[id].usedAt == LastUsed(ws, es, n, id, ws[n].cache.open[id].serial)
  {
    hide Next, Acquires, OpenGuarded;
    assert n > 0;
    var w, e, w', serial := ws[n - 1], es[n - 1], ws[n], ws[n].cache.open[id].serial;
    RunKeeps(ws, es, cap, n - 1);
    assert Next(ws[n - 1], es[n - 1], ws[n - 1 + 1], cap);
    StepMovesUseTime(w, e, w', cap, id);
    if id in w.cache.open && w.cache.open[id].serial == serial {
      UseTimeIsTheLastUse(ws, es, cap, n - 1, id);
    } else if !Acquires(w, e, w', id, serial) {
      HandlesComeFromOpens(w, e, w', cap, id);
      OpenedSerial(w, e, w', cap, id);
      NotUsedYet(ws, es, cap, n - 1, id, serial);
    }
  }

  lemma OpenedSerial(w: World, e: Event, w': World, cap: nat, id: Id)
    requires Next(w, e, w', cap) && id in w'.cache.open && Opens(w, e, id, w'.cache.open[id].serial)
    ensures w'.cache.open[id].serial == w.cache.nextSerial
  {
    hide Evicted;
  }

  /** Over every run: an idle sweep that evicts nothing closes a handle nobody holds exactly when
      the last acquisition of it for real traffic, if any since it was opened, read a clock no
      later than the cutoff. */
  lemma IdleSweepClosesExactlyWhen(ws: seq<World>, es: seq<Event>, cap: nat, i: nat, id: Id)
    requires Run(ws, es, cap) && i < |es| && es[i].Sweep? && id in ws[i].cache.open
    requires ws[i + 1].cache.stats.evictions == ws[i].cache.stats.evictions
    ensures GuardsOn(ws[i], id) != {} ==> id in ws[i + 1].cache.open
    ensures GuardsOn(ws[i], id) == {} ==>
              (id !in ws[i + 1].cache.open <==>
               LastUsed(ws, es, i, id, ws[i].cache.open[id].serial) <= es[i].cutoff)
  {
    UseTimeIsTheLastUse(ws, es, cap, i, id);
    RunKeeps(ws, es, cap, i);
    assert Next(ws[i], es[i], ws[i + 1], cap);
    hide Run, LastUsed;
    var swept := SweptIdle(ws[i].cache, es[i].cutoff);
    assert Chosen(swept, ws[i + 1].cache, cap);
    assert swept.open.Keys - ws[i + 1].cache.open.Keys == {};
    assert ws[i + 1].cache.open == swept.open;
  }

  /** The clocks that acquisitions of this handle read never went back. */
  ghost predicate UsedInOrder(ws: seq<World>, es: seq<Event>, n: nat, id: Id, serial: nat)
    requires n < |ws| && |ws| == |es| + 1
  {
    forall j, k :: 0 <= j < k < n && Acquires(ws[j], es[j], ws[j + 1], id, serial) ==>
      Acquires(ws[k], es[k], ws[k + 1], id, serial) ==> es[j].now <= es[k].now
  }

  lemma {:induction false} LastUsedIsLatest(ws: seq<World>, es: seq<Event>, n: nat, id: Id, serial: nat, cutoff: int)
    requires n < |ws| && |ws| == |es| + 1 && UsedInOrder(ws, es, n, id, serial) && 0 <= cutoff
    ensures LastUsed(ws, es, n, id, serial) <= cutoff <==>
              forall j :: 0 <= j < n && Acquires(ws[j], es[j], ws[j + 1], id, serial) ==> es[j].now <= cutoff
  {
    hide Acquires;
    if n > 0 {
      LastUsedIsLatest(ws, es, n - 1, id, serial, cutoff);
      if Acquires(ws[n - 1], es[n - 1], ws[n], id, serial) {
        assert Acquires(ws[n - 1], es[n - 1], ws[n - 1 + 1], id, serial);
      }
    }
  }

  /** With clocks in order it closes it exactly when no such acquisition read a clock after the
      cutoff. */
  lemma IdleSweepSparesTheUsed(ws: seq<World>, es: seq<Event>, cap: nat, i: nat, id: Id)
    requires Run(ws, es, cap) && i < |es| && es[i].Sweep? && id in ws[i].cache.open && es[i].cutoff >= 0
    requires ws[i + 1].cache.stats.evictions == ws[i].cache.stats.evictions
    requires UsedInOrder(ws, es, i, id, ws[i].cache.open[id].serial) && GuardsOn(ws[i], id) == {}
    ensures id !in ws[i + 1].cache.open <==>
              forall j :: 0 <= j < i && Acquires(ws[j], es[j], ws[j + 1], id, ws[i].cache.open[id].serial) ==>
                es[j].now <= es[i].cutoff
  {
    hide Next, LastUsed, Acquires, UsedInOrder;
    IdleSweepClosesExactlyWhen(ws, es, cap, i, id);
    LastUsedIsLatest(ws, es, i, id, ws[i].cache.open[id].serial, es[i].cutoff);
  }

  // ---- the counters ----

  /** How many handles a step took out of the map, but for idle sweeps and evictions. */
  function TakenOtherwise(w: World, e: Event, w': World): int {
    match e
    case Open(_, _, _, _, probe, outcome) => if outcome.Got? then 0 else |w.cache.open| - |w'.cache.open|
    case Settle(guard) =>
      if guard in w.guards && w.guards[guard].borrowed then |w.cache.open| - |w'.cache.open| else 0
    case Watch(_) => |w.cache.open| - |w'.cache.open|
    case Drop(_, _) => |w.cache.open| - |w'.cache.open|
    case SwapMap => |w.cache.open|
    case _ => 0
  }

  function Accounted(c: Cache): int { c.stats.opens - c.stats.evictions - c.stats.idleCloses - |c.open| }

  lemma ChoosingBalances(c: Cache, c': Cache, cap: nat)
    requires Chosen(c, c', cap)
    ensures Accounted(c') == Accounted(c)
  {
    var victims := c.open.Keys - c'.open.Keys;
    assert c'.open.Keys == c.open.Keys - victims;
    SubtractSize(c.open.Keys, victims);
    assert |c.open.Keys| == |c.open| && |c'.open.Keys| == |c'.open|;
  }

  lemma SweepingBalances(c: Cache, cutoff: int)
    ensures Accounted(SweptIdle(c, cutoff)) == Accounted(c)
  {
    var idle := IdleSince(c.open, cutoff);
    assert (c.open - idle).Keys == c.open.Keys - idle;
    SubtractSize(c.open.Keys, idle);
    assert |c.open.Keys| == |c.open| && |(c.open - idle).Keys| == |c.open - idle|;
  }

  lemma SameKeysSameSize(a: map<Id, Handle>, b: map<Id, Handle>)
    requires a.Keys == b.Keys
    ensures |a| == |b|
  {
    assert |a.Keys| == |a| && |b.Keys| == |b|;
  }

  lemma InsertingBalances(c: Cache, id: Id, promote: bool, now: int)
    requires id !in c.open
    ensures Accounted(Inserted(c, id, promote, now)) == Accounted(c)
  {
    var after := Inserted(c, id, promote, now).open;
    assert after.Keys == c.open.Keys + {id};
    assert |after.Keys| == |after| && |c.open.Keys| == |c.open|;
  }

  lemma OpeningBalances(w: World, e: Event, w': World, cap: nat)
    requires Next(w, e, w', cap) && e.Open?
    ensures Accounted(w'.cache) == Accounted(w.cache) + TakenOtherwise(w, e, w')
  {
    hide Chosen;
    if e.outcome.Got? && e.id in w.cache.open {
      SameKeysSameSize(w.cache.open, w'.cache.open);
    } else if e.outcome.Got? {
      InsertingBalances(w.cache, e.id, e.promote, e.now);
      if e.promote { ChoosingBalances(Inserted(w.cache, e.id, true, e.now), w'.cache, cap); }
    }
  }

  lemma StepBalances(w: World, e: Event, w': World, cap: nat)
    requires Next(w, e, w', cap)
    ensures Accounted(w'.cache) == Accounted(w.cache) + TakenOtherwise(w, e, w')
  {
    hide Chosen;
    match e
    case Cached(_, _, _, _) => SameKeysSameSize(w.cache.open, w'.cache.open);
    case Open(_, _, _, _, _, _) => OpeningBalances(w, e, w', cap);
    case End(_) => SameKeysSameSize(w.cache.open, w'.cache.open);
    case Settle(guard) => if !w.guards[guard].borrowed { ChoosingBalances(w.cache, w'.cache, cap); }
    case Sweep(cutoff) =>
      SweepingBalances(w.cache, cutoff);
      ChoosingBalances(SweptIdle(w.cache, cutoff), w'.cache, cap);
    case _ =>
  }

  function AllTakenOtherwise(ws: seq<World>, es: seq<Event>, n: nat): int
    requires n < |ws| && |ws| == |es| + 1
  {
    if n == 0 then 0 else AllTakenOtherwise(ws, es, n - 1) + TakenOtherwise(ws[n - 1], es[n - 1], ws[n])
  }

  /** Over every run: what was opened is what was evicted, what the idle sweep closed, what was
      taken out otherwise and what is still open. */
  lemma {:induction false} CountersBalance(ws: seq<World>, es: seq<Event>, cap: nat, n: nat)
    requires Run(ws, es, cap) && n < |ws|
    ensures var a, z := ws[0].cache.stats, ws[n].cache.stats;
            z.opens - a.opens == (z.evictions - a.evictions) + (z.idleCloses - a.idleCloses)
                                 + AllTakenOtherwise(ws, es, n) + |ws[n].cache.open|
  {
    hide Next, TakenOtherwise;
    if n > 0 {
      CountersBalance(ws, es, cap, n - 1);
      assert Next(ws[n - 1], es[n - 1], ws[n - 1 + 1], cap);
      StepBalances(ws[n - 1], es[n - 1], ws[n], cap);
    }
  }
}
