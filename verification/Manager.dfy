/**
 The account manager on mutable objects: each method is one critical section of the handle
 cache, or a caller's sequence of them, proved to do what HandleCache says. Closing a handle's
 database happens after the critical section that chose it, so each method also says exactly
 which handles it closes.

 The manager's clock, the deletion marker on disk and the outcome of opening a database are
 parameters.
 */
module AccountManager {
  import opened Common
  import opened HandleCache

  /** One open account database. */
  class Account {
    const id: Id
    ghost const serial: nat
    var rank: nat
    var usedAt: int
    var activeUses: nat
    var closing: bool
    var closed: bool

    ghost function Value(): Handle
      reads `rank, `usedAt, `activeUses, `closing
    {
      Handle(serial, rank, usedAt, activeUses, closing)
    }

    /** A database just opened, with its opener's use registered. */
    constructor Used(id: Id, ghost serial: nat)
      ensures this.id == id && this.serial == serial
      ensures Value() == Handle(serial, 0, 0, 1, false) && !closed
    {
      this.id, this.serial := id, serial;
      rank, usedAt, activeUses, closing, closed := 0, 0, 0, false, false;
      new;
      var ok := BeginUse();
    }

    method BeginUse() returns (ok: bool)
      modifies `activeUses
      ensures ok == !closing
      ensures activeUses == old(activeUses) + if ok then 1 else 0
    {
      if closing { return false; }
      activeUses := activeUses + 1;
      return true;
    }

    method EndUse()
      modifies `activeUses
      ensures activeUses == if old(activeUses) > 0 then old(activeUses) - 1 else 0
    {
      if activeUses > 0 { activeUses := activeUses - 1; }
    }

    /** Claims the handle for closing, unless something is using it. */
    method MarkClosing() returns (ok: bool)
      modifies `closing
      ensures ok == (activeUses == 0)
      ensures closing == (old(closing) || ok)
    {
      if activeUses > 0 { return false; }
      closing := true;
      return true;
    }

    /** Closes the database and then gives up the shared lifetime lock, once. */
    method CloseResources()
      modifies `closed
      ensures closed
    {
      closed := true;
    }

    /** Closes on demand, whoever is using the handle. */
    method Close()
      modifies `closing, `closed
      ensures closing && closed
    {
      closing := true;
      CloseResources();
    }
  }

  /** A set of handles as exactly the ones a map has lost. */
  ghost predicate Lost(victims: set<Account>, before: map<Id, Account>, after: map<Id, Account>) {
    && (forall a :: a in victims ==> a.id in before && before[a.id] == a && a.id !in after)
    && (forall id :: id in before && id !in after ==> before[id] in victims)
  }

  lemma LostOneMore(victims: set<Account>, before: map<Id, Account>, after: map<Id, Account>, account: Account)
    requires Lost(victims, before, after) && account.id in before && before[account.id] == account
    ensures Lost(victims + {account}, before, after - {account.id})
  {}

  /** Handles that have been claimed for closing, and that nobody was using. */
  ghost predicate Claimed(victims: set<Account>)
    reads victims`closing, victims`activeUses
  {
    forall a :: a in victims ==> a.closing && a.activeUses == 0
  }

  lemma LostBoth(first: set<Account>, second: set<Account>,
                 before: map<Id, Account>, middle: map<Id, Account>, after: map<Id, Account>)
    requires Lost(first, before, middle) && Lost(second, middle, after)
    requires forall id :: id in after ==> id in middle
    requires forall id :: id in middle ==> id in before && middle[id] == before[id]
    ensures Lost(first + second, before, after)
  {}

  lemma {:induction false} LostSize(victims: set<Account>, before: map<Id, Account>, after: map<Id, Account>)
    requires Lost(victims, before, after) && after.Keys <= before.Keys
    requires forall id :: id in before ==> before[id].id == id
    ensures |victims| == |before| - |after|
    decreases before.Keys - after.Keys
  {
    if before.Keys == after.Keys {
      assert victims == {};
      assert |before.Keys| == |after.Keys|;
    } else {
      ProperSubset(after.Keys, before.Keys);
      var id := Pick(before.Keys - after.Keys);
      var fewer := before - {id};
      assert before.Keys == fewer.Keys + {id};
      LostSize(victims - {before[id]}, fewer, after);
    }
  }

  // Times are in nanoseconds.
  const DEFAULT_MAX_OPEN: nat := 500
  const DEFAULT_IDLE_TIMEOUT: int := 3_600_000_000_000

  class Manager {
    var open: map<Id, Account>
    var blocked: set<Id>
    var tick: nat
    var watching: bool
    var stats: Stats
    const maxOpen: int
    const idleTimeout: int

    /** Every handle this manager has ever opened. */
    ghost var handles: set<Account>
    ghost var registry: map<nat, Account>
    ghost var nextSerial: nat

    ghost predicate Held()
      reads `open, `handles
    {
      forall id :: id in open ==> open[id] in handles
    }

    ghost predicate Valid()
      reads `open, `handles, `registry, `nextSerial, `watching, handles`closing, handles`closed
      ensures Valid() ==> Held()
    {
      && Held()
      && (forall id :: id in open ==> open[id].id == id)
      && (forall id :: id in open ==> !open[id].closing && !open[id].closed)
      && (forall a :: a in handles ==> a.serial < nextSerial && a.serial in registry && registry[a.serial] == a)
      && (open != map[] ==> watching)
    }

    ghost function Handles(): map<Id, Handle>
      requires Held()
      reads `open, `handles, handles`rank, handles`usedAt, handles`activeUses, handles`closing
    {
      map id | id in open :: open[id].Value()
    }

    ghost function View(): Cache
      requires Held()
      reads this, handles`rank, handles`usedAt, handles`activeUses, handles`closing
    {
      Cache(Handles(), blocked, tick, nextSerial, watching, stats)
    }

    /** The configured cap, or the default. */
    function Cap(): (cap: nat)
      ensures cap == maxOpen || (maxOpen <= 0 && cap == 500)
    {
      if maxOpen > 0 then maxOpen else DEFAULT_MAX_OPEN
    }

    constructor (maxOpen: int, idleTimeout: int)
      ensures Valid() && handles == {}
      ensures View() == Cache(map[], {}, 0, 0, false, Stats(0, 0, 0, 0))
      ensures this.maxOpen == maxOpen && this.idleTimeout == idleTimeout
    {
      open, blocked, tick, watching := map[], {}, 0, false;
      stats := Stats(0, 0, 0, 0);
      this.maxOpen, this.idleTimeout := maxOpen, idleTimeout;
      handles, registry, nextSerial := {}, map[], 0;
    }

    method Promote(account: Account, now: int)
      requires Valid() && account.id in open && open[account.id] == account
      modifies `tick, account`rank, account`usedAt
      ensures Valid() && View() == HandleCache.Promote(old(View()), account.id, now)
    {
      tick := tick + 1;
      account.rank := tick;
      account.usedAt := now;
      assert forall id :: id in open && id != account.id ==> open[id] != account;
      assert Handles() == HandleCache.Promote(old(View()), account.id, now).open;
    }

    /** Removes one handle from the cache and claims it for closing, unless it is in use. */
    method TakeLocked(id: Id) returns (account: Account?)
      requires Valid()
      modifies `open, handles`closing
      ensures Valid()
      ensures account != null <==> id in old(open) && old(open)[id].activeUses == 0
      ensures account != null ==> account == old(open)[id] && account.closing && open == old(open) - {id}
      ensures account == null ==> open == old(open)
      ensures Handles() == if account != null then old(Handles()) - {id} else old(Handles())
      ensures forall a :: a in handles && a != account ==> a.closing == old(a.closing)
    {
      if id !in open { return null; }
      account := open[id];
      var claimed := account.MarkClosing();
      if !claimed { return null; }
      ForgetLocked(id);
      assert forall k :: k in open ==> open[k] == old(open)[k] && open[k] != account;
      assert Handles() == old(Handles()) - {id};
    }

    method ForgetLocked(id: Id)
      modifies `open
      ensures open == old(open) - {id}
    {
      open := open - {id};
    }

    /** The idle handle with the smallest rank, looking at the handles in no particular order. */
    method Oldest() returns (found: bool, oldest: Id)
      requires Valid()
      ensures found ==> oldest in IdleIds(Handles())
      ensures !found ==> IdleIds(Handles()) == {}
      ensures found ==> IsOldest(Handles(), oldest)
    {
      found, oldest := false, 0;
      var oldestAt := 0;
      var rest := open.Keys;
      while rest != {}
        invariant rest <= open.Keys
        invariant found ==> oldest in open && open[oldest].activeUses == 0 && open[oldest].rank == oldestAt
        invariant forall id :: id in open && id !in rest && open[id].activeUses == 0 ==>
                    found && oldestAt <= open[id].rank
        decreases rest
      {
        var id := AnyOf(rest);
        rest := rest - {id};
        if open[id].activeUses > 0 { continue; }
        if !found || open[id].rank < oldestAt {
          oldest, oldestAt, found := id, open[id].rank, true;
        }
      }
      if !found {
        assert forall id :: id in Handles() ==> Handles()[id].uses > 0;
        NoneIdle(Handles());
      }
    }

    // ---- loops that take one handle after another ----

    /** What such a loop keeps: gone are the ids taken so far and victims their handles, out of
        the map that was open when it began. */
    ghost predicate TakenSoFar(was: map<Id, Account>, before: map<Id, Handle>, gone: set<Id>, victims: set<Account>)
      reads `open, `handles, `registry, `nextSerial, `watching
      reads handles`rank, handles`usedAt, handles`activeUses, handles`closing, handles`closed
      reads victims`closing, victims`activeUses
    {
      && Valid()
      && gone <= IdleIds(before) && Handles() == before - gone
      && victims <= handles && Lost(victims, was, open) && Claimed(victims)
      && open.Keys <= was.Keys && (forall id :: id in open ==> id in was && was[id] == open[id])
    }

    lemma TakenNothing()
      requires Valid()
      ensures TakenSoFar(open, Handles(), {}, {})
      ensures Handles().Keys == open.Keys
    {
      assert Handles() - {} == Handles();
    }

    /** What has been taken so far says about the map as it now is. */
    lemma TakenMeans(was: map<Id, Account>, before: map<Id, Handle>, gone: set<Id>, victims: set<Account>)
      requires TakenSoFar(was, before, gone, victims)
      ensures Valid() && Handles() == before - gone && Handles().Keys == open.Keys
      ensures victims <= handles && Lost(victims, was, open) && Claimed(victims)
      ensures open.Keys <= was.Keys && forall id :: id in open ==> id in was && was[id] == open[id]
    {}

    /** One turn of such a loop. */
    method TakeOne(id: Id, ghost was: map<Id, Account>, ghost before: map<Id, Handle>, ghost gone: set<Id>,
                   ghost victims: set<Account>)
      returns (account: Account?)
      requires TakenSoFar(was, before, gone, victims)
      modifies `open, handles`closing
      ensures account != null <==> id in IdleIds(before) && id !in gone
      ensures account == null ==> TakenSoFar(was, before, gone, victims) && open == old(open)
      ensures account != null ==> TakenSoFar(was, before, gone + {id}, victims + {account}) && open == old(open) - {id}
    {
      assert id in open <==> id in Handles();
      assert id in open ==> Handles()[id].uses == open[id].activeUses;
      account := TakeLocked(id);
      if account != null {
        LostOneMore(victims, was, old(open), account);
        assert before - (gone + {id}) == (before - gone) - {id};
      }
    }

    /** One turn of the eviction loop: takes the oldest idle handle, if there is one. */
    method EvictOne(ghost was: map<Id, Account>, ghost before: map<Id, Handle>, ghost gone: set<Id>,
                    ghost victims: set<Account>)
      returns (account: Account?, ghost more: set<Id>)
      requires TakenSoFar(was, before, gone, victims) && Evicting(before, gone, Cap()) && |open| > Cap()
      modifies `open, handles`closing
      ensures Evicting(before, more, Cap())
      ensures account == null ==> more == gone && IdleIds(before - gone) == {} && open == old(open)
      ensures account == null ==> TakenSoFar(was, before, gone, victims)
      ensures account != null ==> TakenSoFar(was, before, more, victims + {account})
      ensures account != null ==> |more| == |gone| + 1 && |open| < |old(open)|
    {
      hide Evicting, Lost, Claimed, Account.Value;
      HandlesSize();
      var found, oldest := Oldest();
      if !found { return null, gone; }
      EvictingStep(before, gone, Cap(), oldest);
      more := gone + {oldest};
      account := TakeOne(oldest, was, before, gone, victims);
    }

    lemma EvictedSoFar(was: map<Id, Account>, before: map<Id, Handle>, gone: set<Id>, victims: set<Account>)
      requires TakenSoFar(was, before, gone, victims) && Evicting(before, gone, Cap())
      requires |open| <= Cap() || IdleIds(before - gone) == {}
      ensures Valid() && Evicted(before, Handles(), Cap()) && |gone| == |before.Keys - Handles().Keys|
      ensures victims <= handles && Lost(victims, was, open) && Claimed(victims)
      ensures open.Keys <= was.Keys && forall id :: id in open ==> id in was && was[id] == open[id]
    {
      HandlesSize();
      EvictingDone(before, gone, Cap());
    }

    /** The eviction loop, which counts as it goes. */
    method EvictLoop() returns (victims: set<Account>, evicted: nat, overshot: bool)
      requires Valid()
      modifies `open, handles`closing
      ensures Valid() && Evicted(old(Handles()), Handles(), Cap())
      ensures evicted == |old(Handles()).Keys - Handles().Keys| && overshot == (|open| > Cap())
      ensures victims <= handles && Lost(victims, old(open), open) && Claimed(victims)
      ensures open.Keys <= old(open.Keys) && forall id :: id in open ==> id in old(open) && old(open)[id] == open[id]
    {
      hide Valid, TakenSoFar, Evicting, Evicted, Lost, Claimed, IdleIds, IsOldest, Handles, Held;
      victims, evicted, overshot := {}, 0, false;
      ghost var before, gone: set<Id> := Handles(), {};
      TakenNothing();
      EvictingNone(before, Cap());
      while |open| > Cap()
        invariant TakenSoFar(old(open), before, gone, victims) && Evicting(before, gone, Cap())
        invariant evicted == |gone| && !overshot
        decreases |open|
      {
        ghost var more;
        var account;
        account, more := EvictOne(old(open), before, gone, victims);
        if account == null {
          overshot := true;
          break;
        }
        victims, evicted := victims + {account}, evicted + 1;
        gone := more;
      }
      EvictedSoFar(old(open), before, gone, victims);
    }

    method CountEvictions(evicted: nat, overshot: bool)
      requires Valid()
      modifies `stats
      ensures Valid() && View() == old(View()).(stats := Counted(old(stats), evicted, overshot))
    {
      stats := stats.(evictions := stats.evictions + evicted,
                      overshoots := stats.overshoots + if overshot then 1 else 0);
    }

    /** Picks least recently used handles to close until the cap is met or everything left is
        in use, and hands them back to be closed outside the lock. */
    method ChooseLocked() returns (victims: set<Account>)
      requires Valid()
      modifies `open, `stats, handles`closing
      ensures Valid() && Chosen(old(View()), View(), Cap())
      ensures victims <= handles && Lost(victims, old(open), open) && Claimed(victims)
      ensures open.Keys <= old(open.Keys) && forall id :: id in open ==> id in old(open) && old(open)[id] == open[id]
    {
      hide Valid, Chosen, Evicted, Counted, Lost, Claimed, Handles;
      ghost var was := View();
      var evicted, overshot;
      victims, evicted, overshot := EvictLoop();
      HandlesSize();
      ghost var left := Handles();
      assert View() == was.(open := left);
      CountedIsChosen(was, left, Cap(), evicted, overshot);
      CountEvictions(evicted, overshot);
    }

    lemma HandleAt(id: Id)
      requires Held() && (id in open || id in Handles())
      ensures id in open && id in Handles() && Handles()[id] == open[id].Value()
    {}

    lemma HandlesMatch()
      requires Valid()
      ensures forall id :: id in open <==> id in Handles()
      ensures forall id :: id in open ==> open[id].id == id && open[id] in handles && !open[id].closing
      ensures forall id :: id in open ==> Handles()[id] == open[id].Value()
    {}

    lemma Named()
      requires Valid()
      ensures forall id :: id in open ==> open[id].id == id
    {}

    lemma HandlesSize()
      requires Held()
      ensures |Handles()| == |open|
    {
      assert Handles().Keys == open.Keys;
    }

    /** Ends a use of a handle, which may have left the map since. */
    method EndUseOf(account: Account)
      requires Valid() && account in handles
      modifies account`activeUses
      ensures Valid() && View() == EndUse(old(View()), account.id, account.serial)
    {
      account.EndUse();
      assert forall id :: id in open && id != account.id ==> open[id] != account;
      assert Handles() == EndUse(old(View()), account.id, account.serial).open;
    }

    // ---- closing what was chosen, outside the lock ----

    /** The handles closed since are exactly the ones that left the map. */
    twostate predicate ClosedWhatLeft()
      reads `open, `handles, handles`closed
    {
      forall a :: a in handles && old(allocated(a)) ==>
        (a.closed <==> old(a.closed) || (a.id in old(open) && old(open)[a.id] == a && a.id !in open))
    }

    method CloseVictims(victims: set<Account>, ghost was: map<Id, Account>)
      requires Valid() && victims <= handles && Lost(victims, was, open)
      requires forall id :: id in was ==> was[id].id == id
      modifies victims`closed
      ensures Valid() && View() == old(View())
      ensures forall a :: a in handles ==>
                a.closed == (old(a.closed) || (a.id in was && was[a.id] == a && a.id !in open))
    {
      var rest := victims;
      while rest != {}
        invariant rest <= victims
        invariant forall a :: a in handles ==> a.closed == (old(a.closed) || (a in victims && a !in rest))
        decreases rest
      {
        var account := AnyOf(rest);
        rest := rest - {account};
        account.CloseResources();
      }
    }

    /** Brings the cache back to its cap. */
    method Evict()
      requires Valid()
      modifies `open, `stats, handles`closing, handles`closed
      ensures Valid() && Chosen(old(View()), View(), Cap())
      ensures ClosedWhatLeft()
    {
      hide Chosen, Claimed, Valid, Handles, Lost;
      Named();
      var victims := ChooseLocked();
      CloseVictims(victims, old(open));
    }

    lemma AllInUse()
      requires Valid() && IdleIds(Handles()) == {}
      ensures forall id :: id in open ==> open[id].activeUses > 0
    {
      forall id | id in open
        ensures open[id].activeUses > 0
      {
        HandleAt(id);
        assert id !in IdleIds(Handles());
      }
    }

    /** What a sweep that leaves these handles has done to one that was open. */
    lemma SweepMeets(was: Cache, cutoff: int)
      requires Valid() && IdleSwept(was, cutoff, Cap(), View())
      ensures WithinOrInUse(Cap())
      ensures forall id :: id in was.open ==>
                && (was.open[id].uses > 0 ==> id in open)
                && (was.open[id].uses == 0 && was.open[id].usedAt <= cutoff ==> id !in open)
                && (was.open[id].usedAt > cutoff && id !in open ==> |open| >= Cap())
    {
      HandlesSize();
      HandlesMatch();
      hide Handles, Valid, IdleSwept, IdleIds;
      forall id | id in was.open
        ensures was.open[id].uses > 0 ==> id in open
        ensures was.open[id].uses == 0 && was.open[id].usedAt <= cutoff ==> id !in open
        ensures was.open[id].usedAt > cutoff && id !in open ==> |open| >= Cap()
      {
        SweepSparesTheRecent(was, cutoff, Cap(), View(), id);
        SweepMeetsTheCap(was, cutoff, Cap(), View(), id);
      }
      SweepMeetsTheCap(was, cutoff, Cap(), View(), 0);
      if IdleIds(Handles()) == {} { AllInUse(); }
    }

    /** At most this many are open, or every one of them is in use. */
    predicate WithinOrInUse(cap: nat)
      requires Held()
      reads `open, `handles, handles`activeUses
    {
      |open| <= cap || forall id :: id in open ==> open[id].activeUses > 0
    }

    /** Closes a handle a scan opened, if nobody has promoted or taken it since. */
    method PutBack(id: Id)
      requires Valid()
      modifies `open, handles`closing, handles`closed
      ensures Valid() && Settled(old(View()), id, true, Cap(), View())
      ensures ClosedWhatLeft()
    {
      var account: Account? := null;
      if id in open && open[id].rank == 0 {
        account := TakeLocked(id);
      }
      if account != null {
        CloseVictims({account}, old(open));
      }
    }

    // ---- the idle sweep and the watcher ----

    /** The configured timeout, or the default of one hour. */
    function IdleLimit(): (limit: int)
      ensures limit > 0 && (limit == idleTimeout || (idleTimeout <= 0 && limit == 3_600_000_000_000))
    {
      if idleTimeout > 0 then idleTimeout else DEFAULT_IDLE_TIMEOUT
    }

    /** One turn of the sweep. */
    method SweepOne(id: Id, cutoff: int, ghost was: map<Id, Account>, ghost before: map<Id, Handle>,
            ghost rest: set<Id>, ghost gone: set<Id>, ghost victims: set<Account>)
      returns (account: Account?, ghost more: set<Id>)
      requires TakenSoFar(was, before, gone, victims) && SweptSoFar(before, cutoff, rest, gone) && id in rest
      modifies `open, handles`closing
      ensures SweptSoFar(before, cutoff, rest - {id}, more)
      ensures account == null ==> TakenSoFar(was, before, more, victims) && more == gone
      ensures account != null ==> TakenSoFar(was, before, more, victims + {account}) && |more| == |gone| + 1
    {
      hide Lost, Claimed, SweptSoFar;
      SweepTurn(before, cutoff, rest, gone, id);
      HandleAt(id);
      assert before[id] == Handles()[id];
      account, more := null, gone;
      if open[id].usedAt <= cutoff {
        account := TakeOne(id, was, before, gone, victims);
        if account != null { more := gone + {id}; }
      }
    }

    /** Takes every handle nothing has touched since the cutoff and nobody is using. */
    method TakeIdleSince(cutoff: int) returns (victims: set<Account>, taken: nat)
      requires Valid()
      modifies `open, handles`closing
      ensures Valid() && Handles() == old(Handles()) - IdleSince(old(Handles()), cutoff)
      ensures taken == |IdleSince(old(Handles()), cutoff)|
      ensures victims <= handles && Lost(victims, old(open), open) && Claimed(victims)
      ensures open.Keys <= old(open.Keys) && forall id :: id in open ==> id in old(open) && old(open)[id] == open[id]
    {
      hide Valid, TakenSoFar, SweptSoFar, Lost, Claimed, Handles, IdleSince, IdleIds, Held;
      victims, taken := {}, 0;
      ghost var before, gone: set<Id> := Handles(), {};
      TakenNothing();
      var rest := open.Keys;
      SweepStart(before, cutoff);
      while rest != {}
        invariant TakenSoFar(old(open), before, gone, victims)
        invariant SweptSoFar(before, cutoff, rest, gone) && taken == |gone|
        decreases rest
      {
        ghost var more;
        var account;
        var id := AnyOf(rest);
        account, more := SweepOne(id, cutoff, old(open), before, rest, gone, victims);
        rest := rest - {id};
        if account != null { victims, taken := victims + {account}, taken + 1; }
        gone := more;
      }
      SweepEnd(before, cutoff, gone);
      TakenMeans(old(open), before, gone, victims);
    }

    method CountIdle(taken: nat)
      requires Valid()
      modifies `stats
      ensures Valid() && View() == old(View()).(stats := old(stats).(idleCloses := old(stats).idleCloses + taken))
    {
      stats := stats.(idleCloses := stats.idleCloses + taken);
    }

    /** Everything the idle sweep does under the lock. */
    method TakeIdle(now: int) returns (victims: set<Account>)
      requires Valid()
      modifies `open, `stats, handles`closing
      ensures Valid() && IdleSwept(old(View()), now - IdleLimit(), Cap(), View())
      ensures victims <= handles && Lost(victims, old(open), open)
      ensures open.Keys <= old(open.Keys) && forall id :: id in open ==> id in old(open) && old(open)[id] == open[id]
    {
      hide Valid, Chosen, Lost, Claimed, Handles, IdleSince;
      var idle, taken := TakeIdleSince(now - IdleLimit());
      CountIdle(taken);
      ghost var swept := open;
      assert View() == SweptIdle(old(View()), now - IdleLimit());
      var evicted := ChooseLocked();
      LostBoth(idle, evicted, old(open), swept, open);
      victims := idle + evicted;
    }

    /** Closes every handle nothing has touched for the idle timeout, then brings what a burst
        left over the cap back down. */
    method CloseIdle(now: int) returns (n: nat)
      requires Valid()
      modifies `open, `stats, handles`closing, handles`closed
      ensures Valid() && IdleSwept(old(View()), now - IdleLimit(), Cap(), View())
      ensures ClosedWhatLeft() && n == |old(open)| - |open|
      ensures var cutoff := now - if idleTimeout > 0 then idleTimeout else 3_600_000_000_000;
              var cap, was := if maxOpen > 0 then maxOpen else 500, old(Handles());
              && WithinOrInUse(cap)
              && forall id :: id in was ==>
                   && (was[id].uses > 0 ==> id in open)
                   && (was[id].uses == 0 && was[id].usedAt <= cutoff ==> id !in open)
                   && (was[id].usedAt > cutoff && id !in open ==> |open| >= cap)
    {
      hide Valid, Chosen, Lost, Claimed, Handles, IdleSince, IdleSwept, Account.Value;
      Named();
      ghost var was := View();
      var victims := TakeIdle(now);
      LostSize(victims, old(open), open);
      n := |victims|;
      SweepMeets(was, now - IdleLimit());
      CloseVictims(victims, old(open));
    }

    /** One turn of the watcher's loop. */
    method WatchOne(id: Id, deleted: set<Id>, ghost was: map<Id, Account>, ghost before: map<Id, Handle>,
                    ghost rest: set<Id>, ghost seen: set<Id>, ghost gone: set<Id>, ghost victims: set<Account>)
      returns (account: Account?, ghost sawMore: set<Id>, ghost more: set<Id>)
      requires TakenSoFar(was, before, gone, victims) && WatchedSoFar(before, deleted, rest, seen, gone) && id in rest
      modifies `open, `blocked, handles`closing
      ensures WatchedSoFar(before, deleted, rest - {id}, sawMore, more)
      ensures (blocked == old(blocked) && sawMore == seen) || (blocked == old(blocked) + {id} && sawMore == seen + {id})
      ensures account == null ==> TakenSoFar(was, before, more, victims)
      ensures account != null ==> TakenSoFar(was, before, more, victims + {account})
    {
      hide Lost, Claimed, WatchedSoFar;
      WatchTurn(before, deleted, rest, seen, gone, id);
      assert id in open <==> id in Handles();
      assert id in Handles() <==> id in before;
      account, sawMore, more := null, seen, gone;
      if id in open {
        blocked, sawMore := blocked + {id}, seen + {id};
        account := TakeOne(id, was, before, gone, victims);
        if account != null { more := gone + {id}; }
      }
    }

    /** Blocks and takes the tombstoned accounts it holds. */
    method TakeTombstoned(deleted: set<Id>) returns (victims: set<Account>, ghost seen: set<Id>)
      requires Valid()
      modifies `open, `blocked, handles`closing
      ensures Valid() && Handles() == old(Handles()) - seen * IdleIds(old(Handles()))
      ensures blocked == old(blocked) + seen && seen == set id | id in deleted && id in old(Handles())
      ensures victims <= handles && Lost(victims, old(open), open)
    {
      hide Valid, TakenSoFar, WatchedSoFar, Lost, Claimed, Handles, IdleIds, Held;
      victims, seen := {}, {};
      ghost var before, gone: set<Id> := Handles(), {};
      TakenNothing();
      var rest := deleted;
      WatchStart(before, deleted);
      while rest != {}
        invariant TakenSoFar(old(open), before, gone, victims)
        invariant WatchedSoFar(before, deleted, rest, seen, gone) && blocked == old(blocked) + seen
        decreases rest
      {
        ghost var more, sawMore;
        var account;
        var id := AnyOf(rest);
        account, sawMore, more := WatchOne(id, deleted, old(open), before, rest, seen, gone, victims);
        rest := rest - {id};
        if account != null { victims := victims + {account}; }
        gone, seen := more, sawMore;
      }
      WatchEnd(before, deleted, seen, gone);
      TakenMeans(old(open), before, gone, victims);
    }

    /** One pass of the tombstone watcher, given what the directory scan found. */
    method CloseTombstoned(deleted: set<Id>)
      requires Valid()
      modifies `open, `blocked, handles`closing, handles`closed
      ensures Valid() && View() == WatchPass(old(View()), deleted)
      ensures ClosedWhatLeft()
    {
      var victims, seen := TakeTombstoned(deleted);
      CloseVictims(victims, old(open));
    }

    // ---- taking a handle ----

    /** The cached path: a handle already held, with no look at the filesystem. */
    method AcquireCached(id: Id, promote: bool, now: int) returns (account: Account?, borrowed: bool)
      requires Valid()
      modifies `tick, handles`rank, handles`usedAt, handles`activeUses
      ensures Valid()
      ensures HandleCache.AcquireCached(old(View()), id, promote, now) == (View(), Granted(account, borrowed))
      ensures account != null ==> id in open && open[id] == account
    {
      account, borrowed := null, false;
      if id < 1 || id in blocked || id !in open { return; }
      account, borrowed := UseHeld(id, promote, now);
    }

    /** A handle in the map is used, and promoted unless a scan asks; a scan borrows it while
        nobody has promoted it. */
    method UseHeld(id: Id, promote: bool, now: int) returns (account: Account, borrowed: bool)
      requires Valid() && id in open
      modifies `tick, handles`rank, handles`usedAt, handles`activeUses
      ensures Valid() && View() == Use(old(View()), id, promote, now)
      ensures account == open[id] && borrowed == (!promote && old(open[id].rank) == 0)
    {
      account, borrowed := open[id], false;
      BeginUseOf(account);
      if promote {
        Promote(account, now);
      } else {
        borrowed := account.rank == 0;
      }
    }

    method BeginUseOf(account: Account)
      requires Valid() && account.id in open && open[account.id] == account
      modifies account`activeUses
      ensures Valid() && View() == BeginUse(old(View()), account.id)
    {
      var ok := account.BeginUse();
      assert forall id :: id in open && id != account.id ==> open[id] != account;
      assert Handles() == BeginUse(old(View()), account.id).open;
    }

    /** Puts a newly opened database in the map, used by its opener, and makes sure a watcher
        is running. */
    method Insert(id: Id, promote: bool, now: int) returns (account: Account)
      requires Valid() && id !in open
      modifies this
      ensures Valid() && View() == Inserted(old(View()), id, promote, now)
      ensures fresh(account) && account.id == id && account.serial == old(nextSerial)
      ensures handles == old(handles) + {account} && open == old(open)[id := account]
    {
      account := Register(id);
      if promote { Promote(account, now); }
    }

    method Register(id: Id) returns (account: Account)
      requires Valid() && id !in open
      modifies this
      ensures Valid() && View() == Inserted(old(View()), id, false, 0)
      ensures fresh(account) && account.id == id && account.serial == old(nextSerial)
      ensures handles == old(handles) + {account} && open == old(open)[id := account]
    {
      hide Valid, Handles;
      account := new Account.Used(id, nextSerial);
      Put(account);
    }

    method Put(account: Account)
      requires Valid() && account.id !in open && account !in handles
      requires account.Value() == Handle(nextSerial, 0, 0, 1, false) && !account.closed
      modifies this
      ensures Valid() && View() == Inserted(old(View()), account.id, false, 0)
      ensures handles == old(handles) + {account} && open == old(open)[account.id := account]
    {
      ghost var was := Handles();
      handles, registry, nextSerial := handles + {account}, registry[nextSerial := account], nextSerial + 1;
      open := open[account.id := account];
      stats := stats.(opens := stats.opens + 1);
      watching := true;
      assert Handles() == was[account.id := account.Value()];
    }

    /** Drops a handle for good, closing it whoever is using it, and refuses the account from
        now on. */
    method Refuse(id: Id)
      requires Valid()
      modifies `open, `blocked, handles`closing, handles`closed
      ensures Valid() && View() == Block(Forget(old(View()), id), id)
      ensures ClosedWhatLeft()
    {
      Close(id);
      blocked := blocked + {id};
    }

    /** Closes one account on demand, whoever is using it. */
    method Close(id: Id)
      requires Valid()
      modifies `open, handles`closing, handles`closed
      ensures Valid() && View() == Forget(old(View()), id)
      ensures ClosedWhatLeft()
    {
      if id !in open {
        assert Handles() == Handles() - {id};
        return;
      }
      var account := open[id];
      ForgetLocked(id);
      account.Close();
      assert forall k :: k in open ==> open[k] == old(open)[k] && open[k] != account;
      assert Handles() == old(Handles()) - {id};
    }

    /** Opening while the caller holds the account's shared guard. */
    method OpenGuarded(id: Id, promote: bool, now: int, probe: Probe)
      returns (account: Account?, borrowed: bool, deleted: bool)
      requires Valid()
      modifies this, handles
      ensures Valid() && fresh(handles - old(handles))
      ensures HandleCache.OpenGuarded(old(View()), id, promote, now, probe, Cap(), View(),
                                      OutcomeOf(account, borrowed, deleted))
      ensures account != null ==> account in handles && account.id == id
      ensures ClosedWhatLeft()
    {
      hide Valid, Chosen, Inserted, Handles, Evicted;
      account, borrowed, deleted := null, false, true;
      HandlesMatch();
      if id in blocked { return; }
      match probe {
        case LockFailed => deleted := false; return;
        case Marked => Refuse(id); return;
        case StatFailed => deleted := false; return;
        case Clear(usable) =>
          deleted := false;
          if id in open {
            account, borrowed := UseHeld(id, promote, now);
            return;
          }
          if !usable { return; }
          account := OpenFresh(id, promote, now);
          borrowed := !promote;
      }
    }

    /** Adds a handle nobody held. A borrowed one goes back the moment its scan releases it,
        so no room is made for it. */
    method OpenFresh(id: Id, promote: bool, now: int) returns (account: Account)
      requires Valid() && id !in open
      modifies this, handles
      ensures Valid() && fresh(account) && handles == old(handles) + {account}
      ensures if promote then Chosen(Inserted(old(View()), id, true, now), View(), Cap())
                else View() == Inserted(old(View()), id, false, now)
      ensures account.id == id && account.serial == old(nextSerial)
      ensures ClosedWhatLeft()
    {
      hide Valid, Chosen, Inserted, Handles, Evicted;
      ghost var was := open;
      ghost var closed := set a | a in handles && a.closed;
      account := Insert(id, promote, now);
      assert forall a :: a in handles && a != account ==> a.closed == (a in closed);
      if promote { Evict(); }
    }

    /** Closes everything and stops the watcher, with no other activity in between. */
    method CloseAll()
      requires Valid()
      modifies `open, `watching, handles`closing, handles`closed
      ensures Valid() && View() == old(View()).(open := map[], watching := false)
      ensures ClosedWhatLeft()
    {
      var rest := open.Keys;
      ghost var was := open;
      var accounts := open;
      open := map[];
      watching := false;
      while rest != {}
        invariant rest <= was.Keys && open == map[] && !watching
        invariant forall a :: a in handles ==>
          a.closed == (old(a.closed) || (a.id in was && was[a.id] == a && a.id !in rest))
        decreases rest
      {
        var id := AnyOf(rest);
        rest := rest - {id};
        accounts[id].Close();
      }
      assert Handles() == map[];
    }
  }

  // ---- guards and leases ----

  /** How an attempt to take a handle ends, as the caller sees it. */
  ghost function OutcomeOf(account: Account?, borrowed: bool, deleted: bool): Outcome {
    if account != null then Got(account.serial, borrowed) else if deleted then Deleted else Failed
  }

  ghost function Granted(account: Account?, borrowed: bool): Option<Outcome> {
    if account == null then None else Some(Got(account.serial, borrowed))
  }

  /** One operation's claim on an account. The slow path also holds the shared guard file. */
  class WriteGuard {
    const manager: Manager
    const id: Id
    var locked: bool
    var account: Account?
    var borrowed: bool

    ghost predicate Valid()
      reads this, manager, manager.handles`closing, manager.handles`closed
    {
      manager.Valid() && (account != null ==> account in manager.handles && account.id == id)
    }

    constructor (manager: Manager, id: Id, locked: bool, account: Account?, borrowed: bool)
      ensures this.manager == manager && this.id == id && this.locked == locked
      ensures this.account == account && this.borrowed == borrowed
    {
      this.manager, this.id, this.locked, this.account, this.borrowed := manager, id, locked, account, borrowed;
    }

    /** Takes the handle and registers the use. */
    method Open(promote: bool, now: int, probe: Probe) returns (deleted: bool)
      requires Valid() && account == null
      modifies this, manager, manager.handles
      ensures Valid() && fresh(manager.handles - old(manager.handles)) && locked == old(locked)
      ensures HandleCache.OpenGuarded(old(manager.View()), id, promote, now, probe, manager.Cap(), manager.View(),
                                      OutcomeOf(account, borrowed, deleted))
      ensures manager.ClosedWhatLeft()
    {
      hide Manager.Valid, HandleCache.OpenGuarded, Manager.Handles;
      var taken, isBorrowed;
      taken, isBorrowed, deleted := manager.OpenGuarded(id, promote, now, probe);
      if taken == null { return; }
      account, borrowed := taken, isBorrowed;
    }

    /** Ends the use, then puts a borrowed handle back or brings the cache down to its cap. A
        second release finds nothing left to do. */
    method Release()
      requires Valid()
      modifies this, manager`open, manager`stats, manager.handles
      ensures Valid() && account == null && !locked
      ensures manager.handles == old(manager.handles) && manager.blocked == old(manager.blocked)
      ensures old(account) == null ==> unchanged(manager) && unchanged(manager.handles)
      ensures old(account) != null ==>
                Settled(EndUse(old(manager.View()), id, old(account.serial)), id, old(borrowed),
                        manager.Cap(), manager.View())
      ensures manager.ClosedWhatLeft()
    {
      hide Manager.Valid, Manager.Handles, Chosen;
      if !locked && account == null { return; }
      locked := false;
      if account == null { return; }
      var wasBorrowed := borrowed;
      manager.EndUseOf(account);
      account, borrowed := null, false;
      if wasBorrowed {
        manager.PutBack(id);
      } else {
        manager.Evict();
      }
    }
  }

  /** An account in use, and the claim that keeps it usable. */
  class Lease {
    const account: Account
    var guard: WriteGuard?

    constructor (account: Account, guard: WriteGuard)
      ensures this.account == account && this.guard == guard
    {
      this.account, this.guard := account, guard;
    }

    /** Drops the claim; a repeated release changes nothing. */
    method Release()
      requires guard != null ==> guard.Valid() && guard.account == account
      modifies this, guard, (if guard == null then {} else {guard.manager} + guard.manager.handles)
      ensures guard == null
      ensures var g := old(guard); g != null ==>
        && g.Valid() && g.account == null
        && Settled(EndUse(old(g.manager.View()), g.id, account.serial), g.id, old(g.borrowed),
                   g.manager.Cap(), g.manager.View())
        && g.manager.ClosedWhatLeft()
    {
      hide Manager.Valid, Settled, Manager.Handles;
      if guard == null { return; }
      var held := guard;
      guard := null;
      held.Release();
    }
  }

  /** What an acquisition does to the cache: the cached path if it can serve the caller, and
      otherwise a shared guard, a tombstone check and an open. */
  ghost predicate Acquired(c: Cache, id: Id, promote: bool, now: int, check: Probe, probe: Probe, cap: nat,
                           c': Cache, outcome: Outcome)
  {
    var (cached, result) := AcquireCached(c, id, promote, now);
    if result.Some? then c' == cached && outcome == result.value
    else Uncached(c, id, promote, now, check, probe, cap, c', outcome)
  }

  ghost predicate Uncached(c: Cache, id: Id, promote: bool, now: int, check: Probe, probe: Probe, cap: nat,
                           c': Cache, outcome: Outcome)
  {
    if id < 1 || check.LockFailed? || check.StatFailed? then c' == c && outcome == Failed
    else if check.Marked? then c' == Block(Forget(c, id), id) && outcome == Deleted
    else OpenGuarded(c, id, promote, now, probe, cap, c', outcome)
  }

  /** How an acquisition ends. A handle that is held and not refused is given out without a look at
      the disk. Otherwise a marker found before or after the guard is taken, a refused account or a
      closing handle is a deletion, whatever cannot be looked at is a failure, and only an account
      with no marker at either look is opened. What is given out is in the map, in use. */
  lemma WhatAnAcquisitionGives(c: Cache, id: Id, promote: bool, now: int, check: Probe, probe: Probe, cap: nat,
          c': Cache, outcome: Outcome)
    requires Acquired(c, id, promote, now, check, probe, cap, c', outcome)
    ensures var held := id >= 1 && id !in c.blocked && id in c.open && !c.open[id].closing;
            && (held ==> outcome == Got(c.open[id].serial, !promote && c.open[id].rank == 0))
            && (!held ==>
                  && (outcome.Deleted? <==>
                        id >= 1 && (check.Marked? ||
                                    (check.Clear? && (id in c.blocked || probe.Marked? ||
                                                      (probe.Clear? && id in c.open)))))
                  && (outcome.Got? <==>
                        id >= 1 && check.Clear? && probe == Clear(true) && id !in c.blocked && id !in c.open)
                  && (outcome.Got? ==> outcome == Got(c.nextSerial, !promote)))
    ensures outcome.Got? ==> id in c'.open && c'.open[id].serial == outcome.serial && c'.open[id].uses >= 1
    ensures outcome.Deleted? ==> id in c'.blocked || (id in c'.open && c'.open[id].closing)
    ensures outcome.Failed? ==> c' == c
  {
    if outcome.Got? && promote && id !in c.open { ChosenKeepsTheUsed(Inserted(c, id, true, now), c', cap, id); }
    hide Chosen;
  }

  lemma ChosenKeepsTheUsed(c: Cache, c': Cache, cap: nat, id: Id)
    requires id in c.open && c.open[id].uses > 0
    ensures Chosen(c, c', cap) ==> id in c'.open && c'.open[id] == c.open[id]
  {}

  /** Takes the shared guard and then looks for the tombstone. */
  method BeginWrite(manager: Manager, id: Id, check: Probe) returns (guard: WriteGuard?, deleted: bool)
    requires manager.Valid()
    modifies manager`open, manager`blocked, manager.handles`closing, manager.handles`closed
    ensures manager.Valid() && manager.ClosedWhatLeft()
    ensures guard == null <==> id < 1 || !check.Clear?
    ensures guard != null ==>
              fresh(guard) && guard.manager == manager && guard.id == id && guard.locked && guard.account == null
    ensures guard != null ==> unchanged(manager) && unchanged(manager.handles)
    ensures deleted <==> id >= 1 && check.Marked?
    ensures manager.View() == if deleted then Block(Forget(old(manager.View()), id), id) else old(manager.View())
  {
    hide Manager.Valid, Manager.Handles;
    guard, deleted := null, false;
    if id < 1 { return; }
    match check {
      case LockFailed => return;
      case StatFailed => return;
      case Marked =>
        manager.Refuse(id);
        deleted := true;
      case Clear(_) =>
        guard := new WriteGuard(manager, id, true, null, false);
    }
  }

  method Acquire(manager: Manager, id: Id, promote: bool, now: int, check: Probe, probe: Probe)
    returns (lease: Lease?, deleted: bool)
    requires manager.Valid()
    modifies manager, manager.handles
    ensures manager.Valid() && fresh(manager.handles - old(manager.handles))
    ensures lease != null ==> lease.guard != null && lease.guard.manager == manager && lease.guard.Valid()
    ensures lease != null ==> lease.guard.account == lease.account && lease.guard.id == id
    ensures Acquired(old(manager.View()), id, promote, now, check, probe, manager.Cap(), manager.View(),
                     if lease == null then OutcomeOf(null, false, deleted)
                     else OutcomeOf(lease.account, lease.guard.borrowed, deleted))
    ensures manager.ClosedWhatLeft()
  {
    hide Manager.Valid, HandleCache.OpenGuarded, Manager.Handles, Manager.Cap, Account.Value, Uncached;
    lease, deleted := null, false;
    var account, borrowed := manager.AcquireCached(id, promote, now);
    var guard;
    if account != null {
      guard := new WriteGuard(manager, id, false, account, borrowed);
    } else {
      guard, deleted := AcquireUncached(manager, id, promote, now, check, probe);
      if guard == null { return; }
      account := guard.account;
    }
    lease := new Lease(account, guard);
  }

  /** The slow path; a guard whose open fails is given back. */
  method AcquireUncached(manager: Manager, id: Id, promote: bool, now: int, check: Probe, probe: Probe)
    returns (guard: WriteGuard?, deleted: bool)
    requires manager.Valid()
    modifies manager, manager.handles
    ensures manager.Valid() && fresh(manager.handles - old(manager.handles))
    ensures guard != null ==>
              guard.manager == manager && guard.id == id && guard.Valid() && guard.account != null && fresh(guard)
    ensures Uncached(old(manager.View()), id, promote, now, check, probe, manager.Cap(), manager.View(),
                     if guard == null then OutcomeOf(null, false, deleted)
                     else OutcomeOf(guard.account, guard.borrowed, deleted))
    ensures manager.ClosedWhatLeft()
  {
    hide Manager.Valid, HandleCache.OpenGuarded, Manager.Handles;
    guard, deleted := BeginWrite(manager, id, check);
    if guard == null { return; }
    deleted := guard.Open(promote, now, probe);
    if guard.account == null {
      guard.Release();
      guard := null;
    }
  }
}
