/**
 The account handle cache of one process, on values.

 A Cache is what the manager's lock protects. The functions and relations below say what
 each critical section does to it; Manager.dfy implements them on mutable objects, and
 CacheRuns.dfy proves what every interleaving of them keeps.
 */
module HandleCache {
  import opened Common

  type Id = int

  /** One open handle. Rank zero means that only background scans have used it. */
  datatype Handle = Handle(serial: nat, rank: nat, usedAt: int, uses: nat, closing: bool)

  datatype Stats = Stats(opens: nat, evictions: nat, idleCloses: nat, overshoots: nat)

  datatype Cache = Cache(
    open: map<Id, Handle>,
    blocked: set<Id>,
    tick: nat,
    nextSerial: nat,
    watching: bool,
    stats: Stats)

  /** What opening a shard under the account lock meets: the lock itself, the deletion
      marker, and the database behind it. */
  datatype Probe = LockFailed | Marked | StatFailed | Clear(usable: bool)

  /** How an acquisition ends for its caller. */
  datatype Outcome = Deleted | Failed | Got(serial: nat, borrowed: bool)

  function Excess(size: nat, cap: nat): nat { if size > cap then size - cap else 0 }

  // ---- single-handle updates ----

  function BeginUse(c: Cache, id: Id): Cache
    requires id in c.open
  {
    c.(open := c.open[id := c.open[id].(uses := c.open[id].uses + 1)])
  }

  function Promote(c: Cache, id: Id, now: int): Cache
    requires id in c.open
  {
    c.(tick := c.tick + 1, open := c.open[id := c.open[id].(rank := c.tick + 1, usedAt := now)])
  }

  /** A handle found in the map is used, and promoted unless a scan is asking. */
  function Use(c: Cache, id: Id, promote: bool, now: int): Cache
    requires id in c.open
  {
    if promote then Promote(BeginUse(c, id), id, now) else BeginUse(c, id)
  }

  function Forget(c: Cache, id: Id): Cache { c.(open := c.open - {id}) }

  function Block(c: Cache, id: Id): Cache { c.(blocked := c.blocked + {id}) }

  /** Ending a use through a guard whose handle has the given serial; a handle that has left
      the map is no longer the cache's business. */
  function EndUse(c: Cache, id: Id, serial: nat): Cache {
    if id in c.open && c.open[id].serial == serial && c.open[id].uses > 0
    then c.(open := c.open[id := c.open[id].(uses := c.open[id].uses - 1)])
    else c
  }

  // ---- eviction ----

  function IdleIds(open: map<Id, Handle>): set<Id> {
    set id | id in open && open[id].uses == 0
  }

  /** The handles a scan opened, that nobody has promoted and nobody is using. */
  function UnpromotedIdle(open: map<Id, Handle>): set<Id> {
    set id | id in open && open[id].uses == 0 && open[id].rank == 0
  }

  /** Eviction to a cap closes as many idle handles as the map is over, or all of them, and
      never one that was promoted after an idle handle it keeps. */
  ghost predicate Evicted(before: map<Id, Handle>, after: map<Id, Handle>, cap: nat) {
    var victims := before.Keys - after.Keys;
    && after == before - victims
    && victims <= IdleIds(before)
    && |victims| == Min(|IdleIds(before)|, Excess(|before|, cap))
    && forall v, k :: v in victims && k in IdleIds(after) ==> before[v].rank <= before[k].rank
  }

  /** One run of the eviction loop, with its counters. */
  ghost predicate Chosen(c: Cache, c': Cache, cap: nat) {
    && Evicted(c.open, c'.open, cap)
    && c' == c.(open := c'.open, stats := c.stats.(
         evictions := c.stats.evictions + |c.open.Keys - c'.open.Keys|,
         overshoots := c.stats.overshoots + if |c'.open| > cap then 1 else 0))
  }

  function Counted(stats: Stats, evicted: nat, overshot: bool): Stats {
    stats.(evictions := stats.evictions + evicted, overshoots := stats.overshoots + if overshot then 1 else 0)
  }

  lemma CountedIsChosen(c: Cache, open: map<Id, Handle>, cap: nat, evicted: nat, overshot: bool)
    requires Evicted(c.open, open, cap)
    requires evicted == |c.open.Keys - open.Keys| && overshot == (|open| > cap)
    ensures Chosen(c, c.(open := open, stats := Counted(c.stats, evicted, overshot)), cap)
  {}

  // ---- critical sections ----

  /** Handing back a handle this process already holds, without touching the filesystem. */
  function AcquireCached(c: Cache, id: Id, promote: bool, now: int): (Cache, Option<Outcome>) {
    if id < 1 || id in c.blocked || id !in c.open || c.open[id].closing then (c, None)
    else (Use(c, id, promote, now), Some(Got(c.open[id].serial, !promote && c.open[id].rank == 0)))
  }

  /** The cache with a newly opened handle in it, already used by its opener. */
  function Inserted(c: Cache, id: Id, promote: bool, now: int): Cache {
    var handle := Handle(c.nextSerial, 0, 0, 1, false);
    var inserted := c.(open := c.open[id := handle], nextSerial := c.nextSerial + 1, watching := true,
                       stats := c.stats.(opens := c.stats.opens + 1));
    if promote then Promote(inserted, id, now) else inserted
  }

  /** Opening under the cross-process guard. */
  ghost predicate OpenGuarded(c: Cache, id: Id, promote: bool, now: int, probe: Probe, cap: nat,
                              c': Cache, outcome: Outcome)
  {
    if id in c.blocked then c' == c && outcome == Deleted
    else if probe.LockFailed? || probe.StatFailed? then c' == c && outcome == Failed
    else if probe.Marked? then c' == Block(Forget(c, id), id) && outcome == Deleted
    else if id in c.open && c.open[id].closing then c' == c && outcome == Deleted
    else if id in c.open then (
      && c' == Use(c, id, promote, now)
      && outcome == Got(c.open[id].serial, !promote && c.open[id].rank == 0))
    else if !probe.usable then c' == c && outcome == Failed
    else (
      && outcome == Got(c.nextSerial, !promote)
      && (if promote then Chosen(Inserted(c, id, true, now), c', cap) else c' == Inserted(c, id, false, now)))
  }

  /** What follows the end of a use: a borrowed handle is put back if nobody promoted or
      holds it, and any other release brings the cache back to its cap. */
  ghost predicate Settled(c: Cache, id: Id, borrowed: bool, cap: nat, c': Cache) {
    if borrowed then
      c' == if id in c.open && c.open[id].rank == 0 && c.open[id].uses == 0 then Forget(c, id) else c
    else Chosen(c, c', cap)
  }

  /** The handles the idle sweep takes before it evicts. */
  function IdleSince(open: map<Id, Handle>, cutoff: int): set<Id> {
    set id | id in open && open[id].uses == 0 && open[id].usedAt <= cutoff
  }

  /** What the sweep's loop has taken, with rest still to visit. */
  ghost predicate SweptSoFar(open: map<Id, Handle>, cutoff: int, rest: set<Id>, gone: set<Id>) {
    rest <= open.Keys && gone == IdleSince(open, cutoff) - rest
  }

  lemma SweepStart(open: map<Id, Handle>, cutoff: int)
    ensures SweptSoFar(open, cutoff, open.Keys, {})
  {}

  lemma SweepTurn(open: map<Id, Handle>, cutoff: int, rest: set<Id>, gone: set<Id>, id: Id)
    requires SweptSoFar(open, cutoff, rest, gone) && id in rest
    ensures id in open && id !in gone && |gone + {id}| == |gone| + 1
    ensures SweptSoFar(open, cutoff, rest - {id},
                       if id in IdleIds(open) && open[id].usedAt <= cutoff then gone + {id} else gone)
  {}

  lemma SweepEnd(open: map<Id, Handle>, cutoff: int, gone: set<Id>)
    requires SweptSoFar(open, cutoff, {}, gone)
    ensures gone == IdleSince(open, cutoff)
  {}

  function SweptIdle(c: Cache, cutoff: int): Cache {
    var idle := IdleSince(c.open, cutoff);
    c.(open := c.open - idle, stats := c.stats.(idleCloses := c.stats.idleCloses + |idle|))
  }

  ghost predicate IdleSwept(c: Cache, cutoff: int, cap: nat, c': Cache) {
    Chosen(SweptIdle(c, cutoff), c', cap)
  }

  /** One pass of the tombstone watcher: every tombstoned account it holds is refused from
      now on, and closed if nobody is using it. */
  function WatchPass(c: Cache, deleted: set<Id>): Cache {
    var seen := set id | id in deleted && id in c.open;
    c.(blocked := c.blocked + seen, open := c.open - (seen * IdleIds(c.open)))
  }

  /** What the watcher's loop has blocked and taken, with rest still to visit. */
  ghost predicate WatchedSoFar(open: map<Id, Handle>, deleted: set<Id>, rest: set<Id>, seen: set<Id>, gone: set<Id>) {
    && rest <= deleted
    && seen == (deleted - rest) * open.Keys
    && gone == (deleted - rest) * IdleIds(open)
  }

  lemma WatchStart(open: map<Id, Handle>, deleted: set<Id>)
    ensures WatchedSoFar(open, deleted, deleted, {}, {})
  {}

  lemma WatchTurn(open: map<Id, Handle>, deleted: set<Id>, rest: set<Id>, seen: set<Id>, gone: set<Id>, id: Id)
    requires WatchedSoFar(open, deleted, rest, seen, gone) && id in rest
    ensures id !in gone && (id in IdleIds(open) ==> id in open)
    ensures WatchedSoFar(open, deleted, rest - {id}, if id in open then seen + {id} else seen,
                         if id in IdleIds(open) then gone + {id} else gone)
  {}

  lemma WatchEnd(open: map<Id, Handle>, deleted: set<Id>, seen: set<Id>, gone: set<Id>)
    requires WatchedSoFar(open, deleted, {}, seen, gone)
    ensures seen == (set id | id in deleted && id in open)
    ensures gone == seen * IdleIds(open)
  {
    assert deleted - {} == deleted;
  }

  // ---- what eviction means ----

  /** Eviction closes nothing at or under the cap, and otherwise leaves the map at the cap or
      with every remaining handle in use. */
  lemma EvictionMeetsTheCap(before: map<Id, Handle>, after: map<Id, Handle>, cap: nat)
    requires Evicted(before, after, cap)
    ensures |before| <= cap ==> after == before
    ensures |after| <= cap || IdleIds(after) == {}
    ensures |before| > cap ==> |after| >= cap
  {
    var victims := before.Keys - after.Keys;
    assert after.Keys == before.Keys - victims;
    assert |after| == |before| - |victims| by {
      assert victims <= before.Keys;
      SubtractSize(before.Keys, victims);
      assert |after.Keys| == |after| && |before.Keys| == |before|;
    }
    if |before| <= cap {
      assert |victims| == 0;
      assert victims == {};
      assert after == before;
    } else if |after| > cap {
      assert |victims| == |IdleIds(before)|;
      SubsetOfSameSize(victims, IdleIds(before));
      assert IdleIds(after) <= IdleIds(before) - victims;
    }
  }

  /** An idle sweep that ends at or under the cap without evicting closes exactly the idle handles
      nothing has touched since the cutoff; any other it closes is closed for the cap. */
  lemma SweepSparesTheRecent(c: Cache, cutoff: int, cap: nat, c': Cache, id: Id)
    requires IdleSwept(c, cutoff, cap, c') && id in c.open
    ensures c.open[id].uses > 0 ==> id in c'.open
    ensures c.open[id].uses == 0 && c.open[id].usedAt <= cutoff ==> id !in c'.open
    ensures |c.open| <= cap + |IdleSince(c.open, cutoff)| ==>
              (id in c'.open <==> c.open[id].uses > 0 || c.open[id].usedAt > cutoff)
  {
    var swept := SweptIdle(c, cutoff).open;
    SubtractSize(c.open.Keys, IdleSince(c.open, cutoff));
    assert swept.Keys == c.open.Keys - IdleSince(c.open, cutoff);
    assert |swept.Keys| == |swept| && |c.open.Keys| == |c.open|;
    EvictionMeetsTheCap(swept, c'.open, cap);
  }

  /** Whatever it evicts besides, it ends at the cap or with every handle in use, and closes a handle
      touched since the cutoff only if that many are left. */
  lemma SweepMeetsTheCap(c: Cache, cutoff: int, cap: nat, c': Cache, id: Id)
    requires IdleSwept(c, cutoff, cap, c')
    ensures |c'.open| <= cap || IdleIds(c'.open) == {}
    ensures id in c.open && id !in c'.open && c.open[id].usedAt > cutoff ==> |c'.open| >= cap
  {
    EvictionMeetsTheCap(SweptIdle(c, cutoff).open, c'.open, cap);
  }

  lemma SubtractSize<T>(whole: set<T>, part: set<T>)
    requires part <= whole
    ensures |whole - part| == |whole| - |part|
  {
    assert whole == part + (whole - part);
  }

  lemma {:induction false} SubsetOfSameSize<T>(part: set<T>, whole: set<T>)
    requires part <= whole && |part| == |whole|
    ensures part == whole
  {
    SubtractSize(whole, part);
    assert whole - part == {};
  }

  lemma ProperSubset<T>(part: set<T>, whole: set<T>)
    requires part <= whole && part != whole
    ensures whole - part != {}
  {
    assert whole == part + (whole - part);
  }

  lemma {:induction false} SubsetSize<T>(part: set<T>, whole: set<T>)
    requires part <= whole
    ensures |part| <= |whole|
  {
    SubtractSize(whole, part);
  }

  lemma NoneIdle(open: map<Id, Handle>)
    requires forall id :: id in open ==> open[id].uses > 0
    ensures IdleIds(open) == {}
  {
    if IdleIds(open) != {} { var id := Pick(IdleIds(open)); }
  }

  lemma Pick<T>(s: set<T>) returns (x: T)
    requires s != {}
    ensures x in s
  {
    x :| x in s;
  }

  // ---- the eviction loop, one victim at a time ----

  /** Some victims chosen so far: idle, no more than the excess, none younger than an idle
      handle still there. */
  ghost predicate Evicting(before: map<Id, Handle>, gone: set<Id>, cap: nat) {
    && gone <= IdleIds(before)
    && |gone| <= Excess(|before|, cap)
    && forall v, k :: v in gone && k in IdleIds(before - gone) ==> before[v].rank <= before[k].rank
  }

  ghost predicate IsOldest(open: map<Id, Handle>, id: Id)
    requires id in open
  {
    forall k :: k in IdleIds(open) ==> open[id].rank <= open[k].rank
  }

  lemma EvictingNone(before: map<Id, Handle>, cap: nat)
    ensures Evicting(before, {}, cap) && before - {} == before
  {}

  lemma EvictingStep(before: map<Id, Handle>, gone: set<Id>, cap: nat, oldest: Id)
    requires Evicting(before, gone, cap) && |before - gone| > cap
    requires oldest in IdleIds(before - gone) && IsOldest(before - gone, oldest)
    ensures Evicting(before, gone + {oldest}, cap)
    ensures |gone + {oldest}| == |gone| + 1
    ensures before - (gone + {oldest}) == (before - gone) - {oldest}
  {
    LeftSize(before, gone);
    assert forall k :: k in IdleIds(before - (gone + {oldest})) ==> k in IdleIds(before - gone);
  }

  lemma LeftSize(before: map<Id, Handle>, gone: set<Id>)
    requires gone <= before.Keys
    ensures |before - gone| == |before| - |gone|
    ensures before.Keys - (before - gone).Keys == gone
  {
    SubtractSize(before.Keys, gone);
    assert (before - gone).Keys == before.Keys - gone;
  }

  /** The loop may stop at the cap or when nothing idle is left, and has then evicted. */
  lemma EvictingDone(before: map<Id, Handle>, gone: set<Id>, cap: nat)
    requires Evicting(before, gone, cap)
    requires |before - gone| <= cap || IdleIds(before - gone) == {}
    ensures Evicted(before, before - gone, cap)
    ensures before.Keys - (before - gone).Keys == gone
  {
    LeftSize(before, gone);
    var idle := IdleIds(before);
    SubsetSize(gone, idle);
    if IdleIds(before - gone) == {} {
      assert idle <= gone + IdleIds(before - gone);
      assert gone == idle;
    }
  }

  /** Where idle handles have different ranks there is one way to evict: the order in which
      the map is walked does not matter. */
  lemma EvictionIsDetermined(before: map<Id, Handle>, a: map<Id, Handle>, b: map<Id, Handle>, cap: nat)
    requires Evicted(before, a, cap) && Evicted(before, b, cap)
    requires forall i, j :: i in IdleIds(before) && j in IdleIds(before) && i != j ==> before[i].rank != before[j].rank
    ensures a == b
  {
    var va, vb := before.Keys - a.Keys, before.Keys - b.Keys;
    if !(va <= vb) && !(vb <= va) {
      var i :| i in va && i !in vb;
      var j :| j in vb && j !in va;
      VictimIsNoYounger(before, a, cap, i, j);
      VictimIsNoYounger(before, b, cap, j, i);
      assert false;
    }
    if va <= vb { SubsetOfSameSize(va, vb); } else { SubsetOfSameSize(vb, va); }
  }

  lemma VictimIsNoYounger(before: map<Id, Handle>, after: map<Id, Handle>, cap: nat, victim: Id, kept: Id)
    requires Evicted(before, after, cap)
    requires victim in before && victim !in after && kept in IdleIds(before) && kept in after
    ensures before[victim].rank <= before[kept].rank
  {
    assert kept in IdleIds(after);
  }
}
