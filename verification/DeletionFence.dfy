/**
 Permanent deletion of one account across any number of processes: a durable tombstone, a
 guard lock that writers share and deletion takes exclusively, and a lifetime lock that every
 live database handle shares and deletion takes exclusively last.

 Each step is one critical section, one system call or one lock acquisition; a lock step is
 taken only when the lock can be had. Locks are released when their process dies.
 */
module DeletionFence {
  import opened Common

  type Pid = nat
  type Wid = nat
  type Hid = nat

  /** The marker file. Until its directory entry is synced a power failure may lose it. */
  datatype Tomb = Absent | Created | Durable

  /** Where one goroutine stands, in an operation on the account or in its deletion. */
  datatype Pc =
    | Idle
    | Locked                          // shares the guard, has not looked for the tombstone
    | Refusing                        // saw the tombstone and let go of the guard
    | Checked                         // shares the guard, found no tombstone
    | Opening                         // and holds its manager's lock, found no tombstone again
    | Leased(lease: Hid)              // and shares the lifetime lock; the database may be open
    | Using(handle: Hid, file: bool)  // file: still shares the guard
    | Marking                         // created the tombstone
    | Marked                          // and synced it
    | Fencing                         // holds the guard exclusively
    | Fenced                          // and the lifetime lock
    | Deleting(detached: bool)        // the deletion guard is in its caller's hands
    | Leaving                         // released the lifetime lock

  datatype Worker = Worker(pid: Pid, pc: Pc)

  /** One manager: what it caches for this account, whether it refuses it, who is inside its lock. */
  datatype Proc = Proc(cached: Option<Hid>, blocked: bool, mu: Option<Wid>)

  datatype Database = Database(pid: Pid, open: bool)

  datatype World = World(
    tomb: Tomb,
    guardShared: set<Wid>,
    guardEx: Option<Wid>,
    lifeShared: set<Hid>,
    lifeEx: Option<Wid>,
    procs: map<Pid, Proc>,
    workers: map<Wid, Worker>,
    handles: map<Hid, Database>,
    shard: bool)

  datatype Event =
    | LockShared(w: Wid)
    | CheckClear(w: Wid)
    | CheckMarked(w: Wid)
    | Refuse(w: Wid)
    | GiveUp(w: Wid)
    | OpenRefused(w: Wid)
    | OpenHeld(w: Wid)
    | OpenStart(w: Wid)
    | OpenLease(w: Wid, h: Hid)
    | OpenDone(w: Wid)
    | TakeCached(w: Wid)
    | Release(w: Wid)
    | Drop(p: Pid, block: bool)
    | Watch(p: Pid)
    | CloseDatabase(h: Hid)
    | UnlockHandle(h: Hid)
    | Mark(w: Wid)
    | Sync(w: Wid)
    | Fence(w: Wid)
    | FenceLifetime(w: Wid)
    | Forget(w: Wid)
    | Inspect(w: Wid)
    | CloseDetached(w: Wid)
    | RemoveShard(w: Wid)
    | EndDeletion(w: Wid)
    | Spawn(w: Wid, p: Pid)
    | Crash(p: Pid)
    | PowerLoss(keep: bool)

  // ---- what a program counter says about locks ----

  predicate SharesGuard(pc: Pc) {
    pc.Locked? || pc.Checked? || pc.Opening? || pc.Leased? || (pc.Using? && pc.file)
  }

  /** Past the tombstone check, on the way to a handle. */
  predicate PastCheck(pc: Pc) { pc.Checked? || pc.Opening? || pc.Leased? }

  /** Inside the manager's lock, on the way from the check to a handle. */
  predicate HoldsManager(pc: Pc) { pc.Opening? || pc.Leased? }

  predicate HoldsGuard(pc: Pc) { pc.Fencing? || pc.Fenced? || pc.Deleting? || pc.Leaving? }

  predicate HoldsLifetime(pc: Pc) { pc.Fenced? || pc.Deleting? }

  // ---- steps ----

  predicate At(s: World, w: Wid) { w in s.workers && s.workers[w].pid in s.procs }

  function ManagerOf(s: World, w: Wid): Proc
    requires At(s, w)
  {
    s.procs[s.workers[w].pid]
  }

  /** A worker moves on. Standing somewhere means holding the locks that come with it, so a
      move takes and releases them; the steps below say when the ones it takes can be had. */
  function Move(s: World, w: Wid, pc: Pc): World
    requires At(s, w)
  {
    s.(workers := s.workers[w := Worker(s.workers[w].pid, pc)],
       guardShared := if SharesGuard(pc) then s.guardShared + {w} else s.guardShared - {w},
       guardEx := Holding(s.guardEx, w, HoldsGuard(pc)),
       lifeEx := Holding(s.lifeEx, w, HoldsLifetime(pc)))
  }

  function Holding(holder: Option<Wid>, w: Wid, holds: bool): Option<Wid> {
    if holds then Some(w) else if holder == Some(w) then None else holder
  }

  function Manage(s: World, p: Pid, proc: Proc): World { s.(procs := s.procs[p := proc]) }

  /** The worker's manager forgets the account's handle and refuses the account from now on. */
  function Blocked(s: World, w: Wid): World
    requires At(s, w)
  {
    Manage(s, s.workers[w].pid, ManagerOf(s, w).(cached := None, blocked := true))
  }

  function Unlocked(s: World, w: Wid): World
    requires At(s, w)
  {
    Manage(s, s.workers[w].pid, ManagerOf(s, w).(mu := None))
  }

  function Unleased(s: World, h: Hid): World { s.(lifeShared := s.lifeShared - {h}) }

  /** Whether a worker can move without waiting for a lock. */
  predicate Free(s: World, w: Wid, pc: Pc)
    requires At(s, w)
  {
    var from := s.workers[w].pc;
    && (SharesGuard(pc) && !SharesGuard(from) ==> s.guardEx.None?)
    && (HoldsGuard(pc) && !HoldsGuard(from) ==> s.guardEx.None? && s.guardShared == {})
    && (HoldsLifetime(pc) && !HoldsLifetime(from) ==> s.lifeEx.None? && s.lifeShared == {})
  }

  /** Any failure on the way to a handle. */
  predicate GivesUp(s: World, w: Wid, s': World) {
    && At(s, w)
    && match s.workers[w].pc {
         case Locked => s' == Move(s, w, Idle)
         case Checked => s' == Move(s, w, Idle)
         case Opening => s' == Unlocked(Move(s, w, Idle), w)
         case Leased(h) => s' == Unleased(Unlocked(Move(s, w, Idle), w), h)
         case _ => false
       }
  }

  /** Inside the manager's lock with the guard still held: the account is refused here, or the
      marker says it is being deleted. */
  predicate IsRefused(s: World, w: Wid, s': World) {
    && At(s, w) && s.workers[w].pc.Checked? && ManagerOf(s, w).mu.None?
    && if ManagerOf(s, w).blocked then s' == Move(s, w, Idle)
       else !s.tomb.Absent? && s' == Move(Blocked(s, w), w, Idle)
  }

  predicate MayOpen(s: World, w: Wid) {
    && At(s, w) && s.workers[w].pc.Checked? && ManagerOf(s, w).mu.None?
    && !ManagerOf(s, w).blocked && s.tomb.Absent?
  }

  predicate StartsOpening(s: World, w: Wid, s': World) {
    && MayOpen(s, w) && ManagerOf(s, w).cached.None?
    && s' == Manage(Move(s, w, Opening), s.workers[w].pid, ManagerOf(s, w).(mu := Some(w)))
  }

  predicate TakesLease(s: World, w: Wid, h: Hid, s': World) {
    && At(s, w) && s.workers[w].pc.Opening? && s.lifeEx.None? && h !in s.handles
    && s' == Move(s, w, Leased(h)).(lifeShared := s.lifeShared + {h},
                                    handles := s.handles[h := Database(s.workers[w].pid, false)])
  }

  predicate FinishesOpening(s: World, w: Wid, s': World) {
    && At(s, w) && s.workers[w].pc.Leased?
    && var h := s.workers[w].pc.lease;
       s' == Manage(Move(s, w, Using(h, true)), s.workers[w].pid, ManagerOf(s, w).(mu := None, cached := Some(h)))
             .(handles := s.handles[h := Database(s.workers[w].pid, true)], shard := true)
  }

  ghost predicate WriterNext(s: World, e: Event, s': World) {
    match e
    case LockShared(w) =>
      At(s, w) && s.workers[w].pc.Idle? && Free(s, w, Locked) && s' == Move(s, w, Locked)
    case CheckClear(w) =>
      At(s, w) && s.workers[w].pc.Locked? && s.tomb.Absent? && s' == Move(s, w, Checked)
    case CheckMarked(w) =>
      At(s, w) && s.workers[w].pc.Locked? && !s.tomb.Absent? && s' == Move(s, w, Refusing)
    case Refuse(w) =>
      At(s, w) && s.workers[w].pc.Refusing? && ManagerOf(s, w).mu.None? && s' == Move(Blocked(s, w), w, Idle)
    case GiveUp(w) => GivesUp(s, w, s')
    case OpenRefused(w) => IsRefused(s, w, s')
    case OpenHeld(w) =>
      MayOpen(s, w) && ManagerOf(s, w).cached.Some? && s' == Move(s, w, Using(ManagerOf(s, w).cached.value, true))
    case OpenStart(w) => StartsOpening(s, w, s')
    case OpenLease(w, h) => TakesLease(s, w, h, s')
    case OpenDone(w) => FinishesOpening(s, w, s')
    case TakeCached(w) =>
      && At(s, w) && s.workers[w].pc.Idle? && ManagerOf(s, w).mu.None?
      && !ManagerOf(s, w).blocked && ManagerOf(s, w).cached.Some?
      && s' == Move(s, w, Using(ManagerOf(s, w).cached.value, false))
    case Release(w) =>
      At(s, w) && s.workers[w].pc.Using? && s' == Move(s, w, Idle)
    case _ => false
  }

  predicate InUse(s: World, h: Hid) {
    exists w :: w in s.workers && s.workers[w].pc.Using? && s.workers[w].pc.handle == h
  }

  predicate Leasing(s: World, h: Hid) {
    exists w :: w in s.workers && s.workers[w].pc == Leased(h)
  }

  predicate Cached(s: World, h: Hid) {
    exists p :: p in s.procs && s.procs[p].cached == Some(h)
  }

  ghost predicate ManagerNext(s: World, e: Event, s': World) {
    match e
    case Drop(p, block) =>  // eviction, idle sweep, put-back, an explicit close
      && p in s.procs && s.procs[p].mu.None?
      && s' == Manage(s, p, s.procs[p].(cached := None, blocked := s.procs[p].blocked || block))
    case Watch(p) =>
      && p in s.procs && s.procs[p].mu.None? && !s.tomb.Absent? && s.procs[p].cached.Some?
      && var keep := InUse(s, s.procs[p].cached.value);
         s' == Manage(s, p, s.procs[p].(cached := if keep then s.procs[p].cached else None, blocked := true))
    case CloseDatabase(h) =>
      && h in s.handles && s.handles[h].open && !Cached(s, h)
      && s' == s.(handles := s.handles[h := s.handles[h].(open := false)])
    case UnlockHandle(h) =>
      && h in s.handles && !s.handles[h].open && !Leasing(s, h)
      && s' == Unleased(s, h)
    case _ => false
  }

  ghost predicate DeleterNext(s: World, e: Event, s': World) {
    match e
    case Mark(w) =>
      && At(s, w) && s.workers[w].pc.Idle?
      && s' == Move(s.(tomb := if s.tomb.Absent? then Created else s.tomb), w, Marking)
    case Sync(w) =>
      At(s, w) && s.workers[w].pc.Marking? && s' == Move(s.(tomb := Durable), w, Marked)
    case Fence(w) =>
      At(s, w) && s.workers[w].pc.Marked? && Free(s, w, Fencing) && s' == Move(s, w, Fencing)
    case FenceLifetime(w) =>
      At(s, w) && s.workers[w].pc.Fencing? && Free(s, w, Fenced) && s' == Move(s, w, Fenced)
    case Forget(w) =>
      At(s, w) && s.workers[w].pc.Fenced? && ManagerOf(s, w).mu.None? && s' == Move(Blocked(s, w), w, Deleting(false))
    case Inspect(w) =>
      At(s, w) && s.workers[w].pc == Deleting(false) && s.shard && s' == Move(s, w, Deleting(true))
    case CloseDetached(w) =>
      At(s, w) && s.workers[w].pc == Deleting(true) && s' == Move(s, w, Deleting(false))
    case RemoveShard(w) =>
      At(s, w) && s.workers[w].pc == Deleting(false) && s' == s.(shard := false)
    case EndDeletion(w) =>  // drops the lifetime lock and then the guard; or an earlier step failed
      && At(s, w)
      && match s.workers[w].pc {
           case Deleting(_) => s' == Move(s, w, Leaving)
           case Leaving => s' == Move(s, w, Idle)
           case Fencing => s' == Move(s, w, Idle)
           case Marking => s' == Move(s, w, Idle)
           case Marked => s' == Move(s, w, Idle)
           case _ => false
         }
    case _ => false
  }

  /** What is left of the world when the given processes die. */
  function Killed(s: World, dead: set<Pid>): World {
    World(s.tomb,
          (set w | w in s.guardShared && !Dead(s, w, dead)),
          Survivor(s, s.guardEx, dead),
          (set h | h in s.lifeShared && h in s.handles && s.handles[h].pid !in dead),
          Survivor(s, s.lifeEx, dead),
          (map p | p in s.procs :: if p in dead then Proc(None, false, None) else s.procs[p]),
          (map w | w in s.workers && s.workers[w].pid !in dead :: s.workers[w]),
          (map h | h in s.handles :: if s.handles[h].pid in dead then s.handles[h].(open := false) else s.handles[h]),
          s.shard)
  }

  predicate Dead(s: World, w: Wid, dead: set<Pid>) { w !in s.workers || s.workers[w].pid in dead }

  function Survivor(s: World, holder: Option<Wid>, dead: set<Pid>): Option<Wid> {
    if holder.Some? && Dead(s, holder.value, dead) then None else holder
  }

  ghost predicate CrashNext(s: World, e: Event, s': World) {
    match e
    case Spawn(w, p) =>
      w !in s.workers && p in s.procs && s' == s.(workers := s.workers[w := Worker(p, Idle)])
    case Crash(p) => s' == Killed(s, {p})
    case PowerLoss(keep) =>
      s' == Killed(s, s.procs.Keys).(tomb := if s.tomb.Created? && !keep then Absent else s.tomb)
    case _ => false
  }

  ghost predicate Next(s: World, e: Event, s': World) {
    WriterNext(s, e, s') || ManagerNext(s, e, s') || DeleterNext(s, e, s') || CrashNext(s, e, s')
  }

  // ---- the invariant ----

  ghost predicate Placed(s: World) {
    && (forall w :: w in s.workers ==> s.workers[w].pid in s.procs)
    && (forall h :: h in s.handles ==> s.handles[h].pid in s.procs)
  }

  /** The guard is held exactly as the program counters say, and never both ways. */
  ghost predicate GuardLock(s: World) {
    && (forall w :: w in s.guardShared <==> w in s.workers && SharesGuard(s.workers[w].pc))
    && (forall w :: s.guardEx == Some(w) <==> w in s.workers && HoldsGuard(s.workers[w].pc))
    && (s.guardEx.Some? ==> s.guardShared == {})
  }

  /** So is the lifetime lock, which every open database and every lease shares. */
  ghost predicate LifetimeLock(s: World) {
    && (forall w :: s.lifeEx == Some(w) <==> w in s.workers && HoldsLifetime(s.workers[w].pc))
    && (s.lifeEx.Some? ==> s.lifeShared == {})
    && (forall h :: h in s.handles && s.handles[h].open ==> h in s.lifeShared)
    && (forall h :: h in s.lifeShared ==> h in s.handles)
  }

  /** A lease is on a handle of its own that is not in use yet. */
  ghost predicate Leases(s: World) {
    && (forall w :: w in s.workers && s.workers[w].pc.Leased? ==>
          && s.workers[w].pc.lease in s.lifeShared && s.workers[w].pc.lease in s.handles
          && s.handles[s.workers[w].pc.lease] == Database(s.workers[w].pid, false))
    && (forall w, v :: w in s.workers && v in s.workers && s.workers[w].pc.Leased? ==>
          s.workers[w].pc == s.workers[v].pc ==> w == v)
  }

  ghost predicate Managers(s: World) {
    && (forall p :: p in s.procs && s.procs[p].cached.Some? ==>
          s.procs[p].cached.value in s.handles && s.handles[s.procs[p].cached.value] == Database(p, true))
    && (forall w :: w in s.workers && s.workers[w].pid in s.procs && HoldsManager(s.workers[w].pc) ==>
          s.procs[s.workers[w].pid].mu == Some(w))
  }

  ghost predicate Tombstone(s: World) {
    && (forall w :: w in s.workers && s.workers[w].pc.Marking? ==> !s.tomb.Absent?)
    && (forall w :: w in s.workers && (s.workers[w].pc.Marked? || HoldsGuard(s.workers[w].pc)) ==> s.tomb.Durable?)
  }

  ghost predicate Inv(s: World) {
    Placed(s) && GuardLock(s) && LifetimeLock(s) && Leases(s) && Managers(s) && Tombstone(s)
  }

  // ---- every step keeps it ----

  lemma MoveKeeps(s: World, w: Wid, pc: Pc)
    requires Inv(s) && At(s, w) && Free(s, w, pc) && !pc.Opening? && !pc.Leased?
    requires pc.Marking? ==> !s.tomb.Absent?
    requires pc.Marked? || HoldsGuard(pc) ==> s.tomb.Durable?
    ensures Inv(Move(s, w, pc)) && At(Move(s, w, pc), w)
  {
    MoveKeepsGuard(s, w, pc);
    MoveKeepsLifetime(s, w, pc);
  }

  lemma MoveKeepsGuard(s: World, w: Wid, pc: Pc)
    requires GuardLock(s) && At(s, w) && Free(s, w, pc)
    ensures GuardLock(Move(s, w, pc))
  {}

  lemma MoveKeepsLifetime(s: World, w: Wid, pc: Pc)
    requires LifetimeLock(s) && At(s, w) && Free(s, w, pc)
    ensures LifetimeLock(Move(s, w, pc))
  {}

  lemma ManageKeeps(s: World, p: Pid, proc: Proc)
    requires Inv(s) && p in s.procs
    requires proc.cached.Some? ==> proc.cached == s.procs[p].cached
    requires forall w :: w in s.workers && s.workers[w].pid == p && HoldsManager(s.workers[w].pc) ==> proc.mu == Some(w)
    ensures Inv(Manage(s, p, proc))
  {}

  /** The manager's lock is what keeps two openers of one process apart. */
  lemma NobodyOpening(s: World, p: Pid)
    requires Managers(s) && p in s.procs && s.procs[p].mu.None?
    ensures forall w :: w in s.workers && s.workers[w].pid == p ==> !HoldsManager(s.workers[w].pc)
  {}

  lemma BlockedKeeps(s: World, w: Wid)
    requires Inv(s) && At(s, w) && ManagerOf(s, w).mu.None?
    ensures Inv(Blocked(s, w)) && At(Blocked(s, w), w) && Blocked(s, w) == s.(procs := Blocked(s, w).procs)
  {
    NobodyOpening(s, s.workers[w].pid);
    ManageKeeps(s, s.workers[w].pid, ManagerOf(s, w).(cached := None, blocked := true));
  }

  lemma RefusedKeeps(s: World, w: Wid)
    requires Inv(s) && At(s, w) && ManagerOf(s, w).mu.None?
    ensures At(Blocked(s, w), w) && Inv(Move(Blocked(s, w), w, Idle))
  {
    hide Inv, Move, Blocked;
    BlockedKeeps(s, w);
    MoveKeeps(Blocked(s, w), w, Idle);
  }

  lemma UnleasedKeeps(s: World, h: Hid)
    requires Inv(s) && (h in s.handles ==> !s.handles[h].open) && !Leasing(s, h)
    ensures Inv(Unleased(s, h))
  {}

  lemma TombKeeps(s: World, tomb: Tomb)
    requires Inv(s) && (tomb.Absent? ==> s.tomb.Absent?) && (s.tomb.Durable? ==> tomb.Durable?)
    ensures Inv(s.(tomb := tomb))
  {}

  lemma UnlockedKeeps(s: World, w: Wid)
    requires Inv(s) && At(s, w) && ManagerOf(s, w).mu == Some(w) && s.workers[w].pc.Idle?
    ensures Inv(Unlocked(s, w)) && Unlocked(s, w) == s.(procs := Unlocked(s, w).procs)
  {
    ManageKeeps(s, s.workers[w].pid, ManagerOf(s, w).(mu := None));
  }

  lemma MayGiveUp(s: World, w: Wid)
    requires Inv(s) && At(s, w) && HoldsManager(s.workers[w].pc)
    ensures ManagerOf(s, w).mu == Some(w)
    ensures s.workers[w].pc.Leased? ==>
              var h := s.workers[w].pc.lease; h in s.handles && !s.handles[h].open && !Leasing(Move(s, w, Idle), h)
  {}

  lemma GiveUpKeeps(s: World, w: Wid, s': World)
    requires Inv(s) && GivesUp(s, w, s')
    ensures Inv(s')
  {
    hide Inv;
    MoveKeeps(s, w, Idle);
    var moved := Move(s, w, Idle);
    if HoldsManager(s.workers[w].pc) {
      MayGiveUp(s, w);
      UnlockedKeeps(moved, w);
      if s.workers[w].pc.Leased? { UnleasedKeeps(Unlocked(moved, w), s.workers[w].pc.lease); }
    }
  }

  lemma OpenStartKeepsLocks(s: World, w: Wid, s': World)
    requires Inv(s) && StartsOpening(s, w, s')
    ensures GuardLock(s') && LifetimeLock(s')
  {
    MoveKeepsGuard(s, w, Opening);
    MoveKeepsLifetime(s, w, Opening);
    hide Managers, Tombstone, Placed;
  }

  lemma OpenStartKeepsOwners(s: World, w: Wid, s': World)
    requires Inv(s) && StartsOpening(s, w, s')
    ensures Placed(s') && Leases(s') && Tombstone(s')
  {
    hide GuardLock, Managers;
  }

  lemma OpenStartKeepsManagers(s: World, w: Wid, s': World)
    requires Inv(s) && StartsOpening(s, w, s')
    ensures Managers(s')
  {
    NobodyOpening(s, s.workers[w].pid);
    hide GuardLock, Tombstone;
  }

  lemma OpenStartKeeps(s: World, w: Wid, s': World)
    requires Inv(s) && StartsOpening(s, w, s')
    ensures Inv(s')
  {
    hide GuardLock, LifetimeLock, Placed, Leases, Tombstone, Managers;
    OpenStartKeepsLocks(s, w, s');
    OpenStartKeepsOwners(s, w, s');
    OpenStartKeepsManagers(s, w, s');
  }

  lemma OpenLeaseKeepsLocks(s: World, w: Wid, h: Hid, s': World)
    requires Inv(s) && TakesLease(s, w, h, s')
    ensures GuardLock(s') && LifetimeLock(s')
  {
    MoveKeepsGuard(s, w, Leased(h));
    MoveKeepsLifetime(s, w, Leased(h));
    hide Managers, Tombstone, Placed;
  }

  lemma OpenLeaseKeepsOwners(s: World, w: Wid, h: Hid, s': World)
    requires Inv(s) && TakesLease(s, w, h, s')
    ensures Placed(s') && Leases(s') && Tombstone(s')
  {
    hide GuardLock, Managers;
  }

  lemma OpenLeaseKeepsManagers(s: World, w: Wid, h: Hid, s': World)
    requires Inv(s) && TakesLease(s, w, h, s')
    ensures Managers(s')
  {
    hide GuardLock, Tombstone;
  }

  lemma OpenLeaseKeeps(s: World, w: Wid, h: Hid, s': World)
    requires Inv(s) && TakesLease(s, w, h, s')
    ensures Inv(s')
  {
    hide GuardLock, LifetimeLock, Placed, Leases, Tombstone, Managers;
    OpenLeaseKeepsLocks(s, w, h, s');
    OpenLeaseKeepsOwners(s, w, h, s');
    OpenLeaseKeepsManagers(s, w, h, s');
  }

  lemma OpenDoneKeepsLocks(s: World, w: Wid, s': World)
    requires Inv(s) && FinishesOpening(s, w, s')
    ensures GuardLock(s') && LifetimeLock(s')
  {
    MoveKeepsGuard(s, w, Using(s.workers[w].pc.lease, true));
    MoveKeepsLifetime(s, w, Using(s.workers[w].pc.lease, true));
    hide Managers, Tombstone, Placed;
  }

  lemma OpenDoneKeepsOwners(s: World, w: Wid, s': World)
    requires Inv(s) && FinishesOpening(s, w, s')
    ensures Placed(s') && Leases(s') && Tombstone(s')
  {
    hide GuardLock, Managers;
  }

  lemma OpenDoneKeepsManagers(s: World, w: Wid, s': World)
    requires Inv(s) && FinishesOpening(s, w, s')
    ensures Managers(s')
  {
    hide GuardLock, Tombstone;
  }

  lemma OpenDoneKeeps(s: World, w: Wid, s': World)
    requires Inv(s) && FinishesOpening(s, w, s')
    ensures Inv(s')
  {
    hide GuardLock, LifetimeLock, Placed, Leases, Tombstone, Managers;
    OpenDoneKeepsLocks(s, w, s');
    OpenDoneKeepsOwners(s, w, s');
    OpenDoneKeepsManagers(s, w, s');
  }

  /** Moves that take no lock never wait. */
  lemma NoWait(s: World, w: Wid, pc: Pc)
    requires At(s, w)
    requires SharesGuard(pc) ==> SharesGuard(s.workers[w].pc)
    requires HoldsGuard(pc) ==> HoldsGuard(s.workers[w].pc)
    requires HoldsLifetime(pc) ==> HoldsLifetime(s.workers[w].pc)
    ensures Free(s, w, pc)
  {}

  /** Moves on that take no lock and end nothing but locks. */
  lemma StrollKeeps(s: World, w: Wid, pc: Pc)
    requires Inv(s) && At(s, w) && !pc.Opening? && !pc.Leased? && !pc.Marking? && !pc.Marked? && !HoldsGuard(pc)
    requires SharesGuard(pc) ==> SharesGuard(s.workers[w].pc)
    ensures Inv(Move(s, w, pc))
  {
    hide Inv, Move;
    NoWait(s, w, pc);
    MoveKeeps(s, w, pc);
  }

  lemma RefusingKeeps(s: World, w: Wid, s': World)
    requires Inv(s) && IsRefused(s, w, s')
    ensures Inv(s')
  {
    hide Inv, Move, Blocked;
    if ManagerOf(s, w).blocked { StrollKeeps(s, w, Idle); } else { RefusedKeeps(s, w); }
  }

  /** Taking the guard, checking for the tombstone, refusing, and letting go. */
  lemma CheckingKeeps(s: World, e: Event, s': World)
    requires Inv(s) && WriterNext(s, e, s')
    requires e.LockShared? || e.CheckClear? || e.CheckMarked? || e.Refuse? || e.Release?
    ensures Inv(s')
  {
    hide Inv, Move, Manage, Blocked, GivesUp, StartsOpening, TakesLease, FinishesOpening, IsRefused, MayOpen;
    match e
    case LockShared(w) => MoveKeeps(s, w, Locked);
    case CheckClear(w) => StrollKeeps(s, w, Checked);
    case CheckMarked(w) => StrollKeeps(s, w, Refusing);
    case Refuse(w) => RefusedKeeps(s, w);
    case Release(w) => StrollKeeps(s, w, Idle);
  }

  lemma WriterKeeps(s: World, e: Event, s': World)
    requires Inv(s) && WriterNext(s, e, s')
    ensures Inv(s')
  {
    hide Inv, Move, Manage, Blocked, GivesUp, StartsOpening, TakesLease, FinishesOpening, IsRefused, Free;
    match e
    case GiveUp(w) => GiveUpKeeps(s, w, s');
    case OpenRefused(w) => RefusingKeeps(s, w, s');
    case OpenHeld(w) => StrollKeeps(s, w, Using(ManagerOf(s, w).cached.value, true));
    case OpenStart(w) => OpenStartKeeps(s, w, s');
    case OpenLease(w, h) => OpenLeaseKeeps(s, w, h, s');
    case OpenDone(w) => OpenDoneKeeps(s, w, s');
    case TakeCached(w) => StrollKeeps(s, w, Using(ManagerOf(s, w).cached.value, false));
    case _ => CheckingKeeps(s, e, s');
  }

  lemma CloseKeeps(s: World, h: Hid)
    requires Inv(s) && h in s.handles && !Cached(s, h)
    ensures Inv(s.(handles := s.handles[h := s.handles[h].(open := false)]))
  {}

  lemma ManagerKeeps(s: World, e: Event, s': World)
    requires Inv(s) && ManagerNext(s, e, s')
    ensures Inv(s')
  {
    hide Inv, Manage, Unleased;
    match e
    case Drop(p, block) =>
      DropKeeps(s, p, s.procs[p].(cached := None, blocked := s.procs[p].blocked || block));
    case Watch(p) =>
      var keep := InUse(s, s.procs[p].cached.value);
      DropKeeps(s, p, s.procs[p].(cached := if keep then s.procs[p].cached else None, blocked := true));
    case CloseDatabase(h) => CloseKeeps(s, h);
    case UnlockHandle(h) => UnleasedKeeps(s, h);
  }

  lemma DropKeeps(s: World, p: Pid, proc: Proc)
    requires Inv(s) && p in s.procs && s.procs[p].mu.None?
    requires proc.cached.Some? ==> proc.cached == s.procs[p].cached
    ensures Inv(Manage(s, p, proc))
  {
    NobodyOpening(s, p);
    ManageKeeps(s, p, proc);
  }

  /** A worker past the tombstone's sync knows it is durable. */
  lemma Marks(s: World, w: Wid)
    requires Inv(s) && w in s.workers
    ensures s.workers[w].pc.Marked? || HoldsGuard(s.workers[w].pc) ==> s.tomb.Durable?
  {}

  /** A worker past the sync moves on, if it can have the locks it goes for. */
  lemma DeletingKeeps(s: World, w: Wid, pc: Pc)
    requires Inv(s) && At(s, w) && (s.workers[w].pc.Marked? || HoldsGuard(s.workers[w].pc)) && Free(s, w, pc)
    requires !pc.Opening? && !pc.Leased? && !pc.Marking?
    ensures Inv(Move(s, w, pc))
  {
    hide Inv, Move, Free;
    Marks(s, w);
    MoveKeeps(s, w, pc);
  }

  lemma MarkingKeeps(s: World, w: Wid, tomb: Tomb, pc: Pc)
    requires Inv(s) && At(s, w) && !HoldsGuard(pc) && !SharesGuard(pc)
    requires pc.Marking? || pc.Marked?
    requires !tomb.Absent? && (pc.Marked? || s.tomb.Durable? ==> tomb.Durable?)
    ensures Inv(Move(s.(tomb := tomb), w, pc))
  {
    hide Inv, Move;
    TombKeeps(s, tomb);
    MoveKeeps(s.(tomb := tomb), w, pc);
  }

  lemma ForgetKeeps(s: World, w: Wid)
    requires Inv(s) && At(s, w) && s.workers[w].pc.Fenced? && ManagerOf(s, w).mu.None?
    ensures Inv(Move(Blocked(s, w), w, Deleting(false)))
  {
    BlockedKeeps(s, w);
    hide Inv, Move;
    NoWait(Blocked(s, w), w, Deleting(false));
    DeletingKeeps(Blocked(s, w), w, Deleting(false));
  }

  lemma EndKeeps(s: World, w: Wid, s': World)
    requires Inv(s) && DeleterNext(s, EndDeletion(w), s')
    ensures Inv(s')
  {
    hide Inv, Move;
    if s.workers[w].pc.Deleting? { NoWait(s, w, Leaving); DeletingKeeps(s, w, Leaving); }
    else { StrollKeeps(s, w, Idle); }
  }

  lemma DeleterKeeps(s: World, e: Event, s': World)
    requires Inv(s) && DeleterNext(s, e, s')
    ensures Inv(s')
  {
    hide Inv, Move, Manage, Blocked, Free;
    if e.EndDeletion? { hide DeleterNext; EndKeeps(s, e.w, s'); return; }
    match e
    case Mark(w) => MarkingKeeps(s, w, if s.tomb.Absent? then Created else s.tomb, Marking);
    case Sync(w) => MarkingKeeps(s, w, Durable, Marked);
    case Fence(w) => DeletingKeeps(s, w, Fencing);
    case FenceLifetime(w) => DeletingKeeps(s, w, Fenced);
    case Forget(w) => ForgetKeeps(s, w);
    case Inspect(w) => NoWait(s, w, Deleting(true)); DeletingKeeps(s, w, Deleting(true));
    case CloseDetached(w) => NoWait(s, w, Deleting(false)); DeletingKeeps(s, w, Deleting(false));
    case RemoveShard(w) => ShardKeeps(s, false);
  }

  lemma ShardKeeps(s: World, shard: bool)
    requires Inv(s)
    ensures Inv(s.(shard := shard))
  {}

  lemma SpawnKeeps(s: World, w: Wid, p: Pid)
    requires Inv(s) && w !in s.workers && p in s.procs
    ensures Inv(s.(workers := s.workers[w := Worker(p, Idle)]))
  {
    SpawnKeepsLocks(s, w, p);
    hide GuardLock, LifetimeLock;
  }

  lemma SpawnKeepsLocks(s: World, w: Wid, p: Pid)
    requires GuardLock(s) && LifetimeLock(s) && w !in s.workers
    ensures GuardLock(s.(workers := s.workers[w := Worker(p, Idle)]))
    ensures LifetimeLock(s.(workers := s.workers[w := Worker(p, Idle)]))
  {}

  lemma KilledKeeps(s: World, dead: set<Pid>)
    requires Inv(s)
    ensures Inv(Killed(s, dead))
  {}

  /** After a power failure nobody is left to rely on a marker that was not synced. */
  lemma PowerLossKeeps(s: World, tomb: Tomb)
    requires Inv(s)
    ensures Inv(Killed(s, s.procs.Keys).(tomb := tomb))
  {
    KilledKeeps(s, s.procs.Keys);
  }

  lemma CrashKeeps(s: World, e: Event, s': World)
    requires Inv(s) && CrashNext(s, e, s')
    ensures Inv(s')
  {
    hide Inv, Killed;
    match e
    case Spawn(w, p) => SpawnKeeps(s, w, p);
    case Crash(p) => KilledKeeps(s, {p});
    case PowerLoss(keep) => PowerLossKeeps(s, if s.tomb.Created? && !keep then Absent else s.tomb);
  }

  lemma StepKeeps(s: World, e: Event, s': World)
    requires Inv(s) && Next(s, e, s')
    ensures Inv(s')
  {
    hide Inv, WriterNext, ManagerNext, DeleterNext, CrashNext;
    if WriterNext(s, e, s') { WriterKeeps(s, e, s'); }
    else if ManagerNext(s, e, s') { ManagerKeeps(s, e, s'); }
    else if DeleterNext(s, e, s') { DeleterKeeps(s, e, s'); }
    else { CrashKeeps(s, e, s'); }
  }

  // ---- what deletion achieves ----

  /** Nobody can get at the account's data through a manager, and nobody is about to. */
  ghost predicate Sealed(s: World) {
    && s.tomb.Durable?
    && s.lifeShared == {}
    && (forall w :: w in s.workers ==> !PastCheck(s.workers[w].pc))
  }

  ghost predicate NoLiveHandle(s: World) {
    && (forall h :: h in s.handles ==> !s.handles[h].open)
    && (forall p :: p in s.procs ==> s.procs[p].cached.None?)
  }

  lemma SealedMeans(s: World)
    requires Inv(s) && Sealed(s)
    ensures NoLiveHandle(s)
  {}

  /** Holding both locks after the tombstone is durable seals the account. */
  lemma FencedIsSealed(s: World, w: Wid)
    requires Inv(s) && w in s.workers && HoldsLifetime(s.workers[w].pc)
    ensures Sealed(s)
  {
    assert s.lifeEx == Some(w) && s.guardEx == Some(w);
  }

  lemma WriterStaysSealed(s: World, e: Event, s': World)
    requires Sealed(s) && WriterNext(s, e, s')
    ensures Sealed(s') && s'.shard == s.shard
  {}

  lemma DeleterStaysSealed(s: World, e: Event, s': World)
    requires Sealed(s) && DeleterNext(s, e, s')
    ensures Sealed(s') && (s'.shard ==> s.shard)
  {}

  lemma StaysSealed(s: World, e: Event, s': World)
    requires Sealed(s) && Next(s, e, s')
    ensures Sealed(s') && (s'.shard ==> s.shard)
  {
    hide WriterNext, DeleterNext;
    if WriterNext(s, e, s') { WriterStaysSealed(s, e, s'); }
    else if DeleterNext(s, e, s') { DeleterStaysSealed(s, e, s'); }
  }

  /** Processes that have just started, over whatever earlier ones left on disk. */
  ghost predicate Start(s: World) {
    && s.workers == map[] && s.handles == map[]
    && s.guardShared == {} && s.guardEx.None? && s.lifeShared == {} && s.lifeEx.None?
    && (forall p :: p in s.procs ==> s.procs[p] == Proc(None, false, None))
  }

  ghost predicate Step(s: World, s': World) { exists e :: Next(s, e, s') }

  ghost predicate Run(r: seq<World>) {
    && |r| > 0 && Start(r[0])
    && forall i :: 0 <= i < |r| - 1 ==> Step(r[i], r[i + 1])
  }

  lemma {:induction false} RunKeeps(r: seq<World>, i: nat)
    requires Run(r) && i < |r|
    ensures Inv(r[i])
  {
    hide Inv, Next;
    if i == 0 {
      Starts(r[0]);
    } else {
      RunKeeps(r, i - 1);
      assert Step(r[i - 1], r[i - 1 + 1]);
      var e :| Next(r[i - 1], e, r[i]);
      StepKeeps(r[i - 1], e, r[i]);
    }
  }

  lemma Starts(s: World)
    requires Start(s)
    ensures Inv(s)
  {}

  lemma {:induction false} RunStaysSealed(r: seq<World>, i: nat, j: nat)
    requires Run(r) && i <= j < |r| && Sealed(r[i])
    ensures Sealed(r[j]) && (r[j].shard ==> r[i].shard)
    decreases j
  {
    hide Next, Sealed;
    if i < j {
      RunStaysSealed(r, i, j - 1);
      assert Step(r[j - 1], r[j - 1 + 1]);
      var e :| Next(r[j - 1], e, r[j]);
      StaysSealed(r[j - 1], e, r[j]);
    }
  }

  /** Whoever has a deletion guard in hand, with the database it may have reopened, holds both
      locks. */
  lemma DeletersHoldBoth(s: World, w: Wid)
    requires Inv(s) && w in s.workers && s.workers[w].pc.Deleting?
    ensures s.guardEx == Some(w) && s.lifeEx == Some(w)
  {}

  /** From the moment a deletion holds its guard, no process has a live handle, none ever
      will, and a shard once removed is never created again. The one database that may still be
      open is the one a deletion guard reopens for its caller, under both locks, so at most one. */
  lemma DeletionIsFinal(r: seq<World>, i: nat, j: nat, w: Wid)
    requires Run(r) && i <= j < |r|
    requires w in r[i].workers && r[i].workers[w].pc.Deleting?
    ensures NoLiveHandle(r[j]) && r[j].tomb.Durable?
    ensures forall v :: v in r[j].workers ==> !PastCheck(r[j].workers[v].pc)
    ensures !r[i].shard ==> !r[j].shard
    ensures forall v :: v in r[j].workers && r[j].workers[v].pc.Deleting? ==>
              r[j].guardEx == Some(v) && r[j].lifeEx == Some(v)
  {
    hide Inv, Next, NoLiveHandle;
    forall v | v in r[j].workers && r[j].workers[v].pc.Deleting?
      ensures r[j].guardEx == Some(v) && r[j].lifeEx == Some(v)
    {
      RunKeeps(r, j);
      DeletersHoldBoth(r[j], v);
    }
    RunKeeps(r, i);
    FencedIsSealed(r[i], w);
    RunStaysSealed(r, i, j);
    RunKeeps(r, j);
    SealedMeans(r[j]);
  }

  /** A live handle anywhere, or a guard still held by a writer, holds off every deletion. */
  lemma UseHoldsOffDeletion(r: seq<World>, i: nat, w: Wid)
    requires Run(r) && i < |r| && w in r[i].workers
    ensures HoldsLifetime(r[i].workers[w].pc) ==> forall h :: h in r[i].handles ==> !r[i].handles[h].open
    ensures HoldsGuard(r[i].workers[w].pc) ==> forall v :: v in r[i].workers ==> !SharesGuard(r[i].workers[v].pc)
    ensures HoldsGuard(r[i].workers[w].pc) ==>
              forall v :: v in r[i].workers && HoldsGuard(r[i].workers[v].pc) ==> v == w
  {
    hide Next;
    RunKeeps(r, i);
  }

  // ---- what single steps leave ----

  /** A writer passes the first check exactly when there is no marker. One that gives up has let go
      of everything it took, and one that is refused leaves a manager that refuses. */
  lemma WhatWritersLeave(s: World, e: Event, s': World)
    requires WriterNext(s, e, s')
    ensures e.CheckClear? ==> s.tomb.Absent?
    ensures e.CheckMarked? ==> !s.tomb.Absent?
    ensures e.GiveUp? || e.OpenRefused? || e.Refuse? ==>
              && At(s', e.w) && s'.workers[e.w].pc.Idle? && e.w !in s'.guardShared
              && (HoldsManager(s.workers[e.w].pc) ==> ManagerOf(s', e.w).mu.None?)
    ensures e.GiveUp? && s.workers[e.w].pc.Leased? ==> s.workers[e.w].pc.lease !in s'.lifeShared
    ensures e.Refuse? || e.OpenRefused? ==> ManagerOf(s', e.w).blocked
  {}

  /** A watcher that sees the marker refuses the account and keeps its handle exactly while somebody
      uses it; a handle is closed before it gives up the lifetime lock. */
  lemma WhatManagersLeave(s: World, e: Event, s': World)
    requires ManagerNext(s, e, s')
    ensures e.Drop? ==>
              s'.procs[e.p].cached.None? && (s'.procs[e.p].blocked <==> s.procs[e.p].blocked || e.block)
    ensures e.Watch? ==>
              && !s.tomb.Absent? && s'.procs[e.p].blocked
              && (s'.procs[e.p].cached.Some? <==>
                    exists w :: w in s.workers && s.workers[w].pc.Using? &&
                                Some(s.workers[w].pc.handle) == s.procs[e.p].cached)
    ensures e.CloseDatabase? ==> !s'.handles[e.h].open && s'.lifeShared == s.lifeShared
    ensures e.UnlockHandle? ==> !s.handles[e.h].open && s'.lifeShared == s.lifeShared - {e.h}
  {}

  /** A process that dies takes its locks, its databases and its refusals with it. */
  lemma WhatACrashLeaves(s: World, e: Event, s': World)
    requires CrashNext(s, e, s')
    ensures e.Spawn? ==> s'.workers == s.workers[e.w := Worker(e.p, Idle)]
    ensures e.Crash? ==>
              && (e.p in s.procs ==> s'.procs == s.procs[e.p := Proc(None, false, None)])
              && (forall w :: w in s'.workers <==> w in s.workers && s.workers[w].pid != e.p)
              && (forall h :: h in s.handles && s.handles[h].pid == e.p ==> !s'.handles[h].open && h !in s'.lifeShared)
    ensures e.PowerLoss? ==> forall p :: p in s.procs ==> s'.procs[p] == Proc(None, false, None)
  {}

  /** Before it has a handle. */
  predicate Outside(pc: Pc) { pc.Idle? || pc.Locked? || pc.Checked? }

  predicate Inside(pc: Pc) { pc.Opening? || pc.Leased? || pc.Using? }

  ghost predicate KeptOut(s: World, e: Event, s': World, w: Wid)
    requires At(s, w)
  {
    && (ManagerOf(s, w).blocked && !e.Crash? && !e.PowerLoss? ==> At(s', w) && ManagerOf(s', w).blocked)
    && (ManagerOf(s, w).blocked && At(s', w) ==> !Inside(s'.workers[w].pc))
    && (!s.tomb.Absent? && At(s', w) ==>
          && (s.workers[w].pc.Locked? ==> !s'.workers[w].pc.Checked?)
          && (s.workers[w].pc.Checked? ==> !Inside(s'.workers[w].pc)))
  }

  lemma WriterKeptOut(s: World, e: Event, s': World, w: Wid)
    requires WriterNext(s, e, s') && At(s, w) && Outside(s.workers[w].pc)
    ensures KeptOut(s, e, s', w)
  {
    WriterKeepsRefusals(s, e, s', w);
    WriterStaysOutside(s, e, s', w);
    hide WriterNext;
  }

  lemma WriterKeepsRefusals(s: World, e: Event, s': World, w: Wid)
    requires WriterNext(s, e, s') && At(s, w)
    ensures At(s', w) && (ManagerOf(s, w).blocked ==> ManagerOf(s', w).blocked)
  {
    WriterKeepsWorkers(s, e, s', w);
    WriterKeepsBlocks(s, e, s', s.workers[w].pid);
    hide WriterNext;
  }

  predicate ComingIn(e: Event) {
    e.OpenHeld? || e.OpenStart? || e.OpenLease? || e.OpenDone? || e.TakeCached? || e.Release?
  }

  lemma WriterKeepsWorkers(s: World, e: Event, s': World, w: Wid)
    requires WriterNext(s, e, s') && w in s.workers
    ensures w in s'.workers && s'.workers[w].pid == s.workers[w].pid
    ensures e.w != w ==> s'.workers[w] == s.workers[w]
  {
    if ComingIn(e) { ComesInAlone(s, e, s'); } else { ChecksAlone(s, e, s'); }
    hide WriterNext;
  }

  lemma WriterKeepsBlocks(s: World, e: Event, s': World, p: Pid)
    requires WriterNext(s, e, s') && p in s.procs
    ensures p in s'.procs && (s.procs[p].blocked ==> s'.procs[p].blocked)
  {
    if ComingIn(e) { ComesInAlone(s, e, s'); } else { ChecksAlone(s, e, s'); }
    hide WriterNext;
  }

  lemma ComesInAlone(s: World, e: Event, s': World)
    requires WriterNext(s, e, s') && ComingIn(e)
    ensures At(s, e.w) && s'.workers == s.workers[e.w := Worker(s.workers[e.w].pid, s'.workers[e.w].pc)]
    ensures s'.procs.Keys == s.procs.Keys
    ensures forall p :: p in s.procs && s.procs[p].blocked ==> s'.procs[p].blocked
  {}

  lemma ChecksAlone(s: World, e: Event, s': World)
    requires WriterNext(s, e, s') && !ComingIn(e)
    ensures At(s, e.w) && s'.workers == s.workers[e.w := Worker(s.workers[e.w].pid, s'.workers[e.w].pc)]
    ensures s'.procs.Keys == s.procs.Keys
    ensures forall p :: p in s.procs && s.procs[p].blocked ==> s'.procs[p].blocked
  {}

  lemma WriterStaysOutside(s: World, e: Event, s': World, w: Wid)
    requires WriterNext(s, e, s') && At(s, w) && w in s'.workers && Outside(s.workers[w].pc)
    ensures ManagerOf(s, w).blocked ==> !Inside(s'.workers[w].pc)
    ensures !s.tomb.Absent? && s.workers[w].pc.Locked? ==> !s'.workers[w].pc.Checked?
    ensures !s.tomb.Absent? && s.workers[w].pc.Checked? ==> !Inside(s'.workers[w].pc)
  {
    WriterKeepsWorkers(s, e, s', w);
    if e.w == w { WriterComesIn(s, e, s'); }
    hide WriterNext;
  }

  lemma WriterComesIn(s: World, e: Event, s': World)
    requires WriterNext(s, e, s') && Outside(s.workers[e.w].pc)
    ensures Inside(s'.workers[e.w].pc) ==> At(s, e.w) && !ManagerOf(s, e.w).blocked
    ensures Inside(s'.workers[e.w].pc) && !s.tomb.Absent? ==> s.workers[e.w].pc.Idle?
    ensures s'.workers[e.w].pc.Checked? && !s.workers[e.w].pc.Checked? ==> s.tomb.Absent?
  {}

  lemma ManagerKeptOut(s: World, e: Event, s': World, w: Wid)
    requires ManagerNext(s, e, s') && At(s, w) && Outside(s.workers[w].pc)
    ensures KeptOut(s, e, s', w)
  {}

  lemma DeleterKeptOut(s: World, e: Event, s': World, w: Wid)
    requires DeleterNext(s, e, s') && At(s, w) && Outside(s.workers[w].pc)
    ensures KeptOut(s, e, s', w)
  {}

  lemma CrashKeptOut(s: World, e: Event, s': World, w: Wid)
    requires CrashNext(s, e, s') && At(s, w) && Outside(s.workers[w].pc)
    ensures KeptOut(s, e, s', w)
  {}

  /** A manager refuses an account until its process dies, and while it does nobody gets a handle
      through it who did not have one; and with a marker on disk nobody gets past either check. */
  lemma ARefusedAccountStaysRefused(s: World, e: Event, s': World, w: Wid)
    requires Next(s, e, s') && At(s, w) && Outside(s.workers[w].pc)
    ensures ManagerOf(s, w).blocked && !e.Crash? && !e.PowerLoss? ==> At(s', w) && ManagerOf(s', w).blocked
    ensures ManagerOf(s, w).blocked && At(s', w) ==> !Inside(s'.workers[w].pc)
    ensures !s.tomb.Absent? && At(s', w) ==>
              && (s.workers[w].pc.Locked? ==> !s'.workers[w].pc.Checked?)
              && (s.workers[w].pc.Checked? ==> !Inside(s'.workers[w].pc))
  {
    hide WriterNext, ManagerNext, DeleterNext, CrashNext;
    if WriterNext(s, e, s') { WriterKeptOut(s, e, s', w); }
    else if ManagerNext(s, e, s') { ManagerKeptOut(s, e, s', w); }
    else if DeleterNext(s, e, s') { DeleterKeptOut(s, e, s', w); }
    else { CrashKeptOut(s, e, s', w); }
  }

  // ---- what can happen ----

  ghost predicate Path(r: seq<World>) {
    |r| > 0 && forall i :: 0 <= i < |r| - 1 ==> Step(r[i], r[i + 1])
  }

  /** A deletion past its durable marker goes on to the guard exactly when nobody is between
      taking it and giving it up, and from there to the lifetime lock exactly when every handle
      has been given up. */
  lemma DeletionWaitsExactlyForUse(s: World, w: Wid)
    requires Inv(s) && At(s, w)
    ensures s.workers[w].pc.Marked? ==>
              ((exists s' :: DeleterNext(s, Fence(w), s')) <==>
               forall v :: v in s.workers ==> !SharesGuard(s.workers[v].pc) && !HoldsGuard(s.workers[v].pc))
    ensures s.workers[w].pc.Fencing? ==>
              ((exists s' :: DeleterNext(s, FenceLifetime(w), s')) <==> s.lifeShared == {})
  {
    hide Move, Inv, Free;
    FreeExactlyWhen(s, w);
    var fencing, fenced := Move(s, w, Fencing), Move(s, w, Fenced);
    if s.workers[w].pc.Marked? && Free(s, w, Fencing) { assert DeleterNext(s, Fence(w), fencing); }
    if s.workers[w].pc.Fencing? && Free(s, w, Fenced) { assert DeleterNext(s, FenceLifetime(w), fenced); }
  }

  lemma FreeExactlyWhen(s: World, w: Wid)
    requires Inv(s) && At(s, w)
    ensures s.workers[w].pc.Marked? ==>
              (Free(s, w, Fencing) <==>
               forall v :: v in s.workers ==> !SharesGuard(s.workers[v].pc) && !HoldsGuard(s.workers[v].pc))
    ensures s.workers[w].pc.Fencing? ==> (Free(s, w, Fenced) <==> s.lifeShared == {})
  {
    if s.guardShared != {} {
      var v :| v in s.guardShared;
      assert v in s.workers && SharesGuard(s.workers[v].pc);
    }
    if s.guardEx.Some? { assert HoldsGuard(s.workers[s.guardEx.value].pc); }
  }

  lemma PathStep(r: seq<World>, s: World)
    requires Path(r) && Step(r[|r| - 1], s)
    ensures Path(r + [s]) && (r + [s])[0] == r[0] && (r + [s])[|r + [s]| - 1] == s
  {
    hide Step;
    var more := r + [s];
    forall i | 0 <= i < |more| - 1
      ensures Step(more[i], more[i + 1])
    {
      if i < |r| - 1 { assert Step(r[i], r[i + 1]); }
    }
  }

  /** A worker with nobody else holding or sharing a lock. */
  ghost predicate Alone(s: World, w: Wid, pc: Pc) {
    && At(s, w) && s.workers[w].pc == pc && ManagerOf(s, w).mu.None?
    && s.guardShared == {} && s.lifeShared == {}
    && s.guardEx == (if HoldsGuard(pc) then Some(w) else None)
    && s.lifeEx == (if HoldsLifetime(pc) then Some(w) else None)
  }

  lemma MovesAlone(s: World, w: Wid, from: Pc, to: Pc)
    requires Alone(s, w, from) && !SharesGuard(to)
    ensures Free(s, w, to) && Alone(Move(s, w, to), w, to)
    ensures Move(s, w, to).tomb == s.tomb && Move(s, w, to).shard == s.shard
    ensures ManagerOf(Move(s, w, to), w) == ManagerOf(s, w)
  {}

  lemma DeleterSteps(s: World, e: Event, s': World)
    requires DeleterNext(s, e, s')
    ensures Step(s, s')
  {
    hide DeleterNext;
    assert Next(s, e, s');
  }

  lemma MarksAlone(s: World, w: Wid) returns (a: World, b: World)
    requires Alone(s, w, Idle)
    ensures Step(s, a) && Step(a, b) && Alone(b, w, Marked) && b.tomb.Durable?
  {
    hide Move, Step;
    a := s.(tomb := if s.tomb.Absent? then Created else s.tomb);
    MovesAlone(a, w, Idle, Marking);
    a := Move(a, w, Marking);
    DeleterSteps(s, Mark(w), a);
    b := a.(tomb := Durable);
    MovesAlone(b, w, Marking, Marked);
    b := Move(b, w, Marked);
    DeleterSteps(a, Sync(w), b);
  }

  lemma FencesAlone(s: World, w: Wid) returns (a: World, b: World)
    requires Alone(s, w, Marked)
    ensures Step(s, a) && Step(a, b) && Alone(b, w, Fenced) && b.tomb == s.tomb
  {
    hide Move, Free, Step;
    a := Move(s, w, Fencing);
    MovesAlone(s, w, Marked, Fencing);
    DeleterSteps(s, Fence(w), a);
    b := Move(a, w, Fenced);
    MovesAlone(a, w, Fencing, Fenced);
    DeleterSteps(a, FenceLifetime(w), b);
  }

  lemma RemovesAlone(s: World, w: Wid) returns (a: World, b: World)
    requires Alone(s, w, Fenced)
    ensures Step(s, a) && Step(a, b) && Alone(b, w, Deleting(false)) && b.tomb == s.tomb && !b.shard
    ensures ManagerOf(b, w).blocked && ManagerOf(b, w).cached.None?
  {
    a := Blocked(s, w);
    assert Alone(a, w, Fenced) && ManagerOf(a, w).blocked && ManagerOf(a, w).cached.None? && a.tomb == s.tomb;
    hide Move, Blocked, Step;
    MovesAlone(a, w, Fenced, Deleting(false));
    a := Move(a, w, Deleting(false));
    DeleterSteps(s, Forget(w), a);
    b := a.(shard := false);
    DeleterSteps(a, RemoveShard(w), b);
  }

  lemma LeavesAlone(s: World, w: Wid) returns (a: World, b: World)
    requires Alone(s, w, Deleting(false))
    ensures Step(s, a) && Step(a, b) && Alone(b, w, Idle) && b.tomb == s.tomb && b.shard == s.shard
    ensures ManagerOf(b, w) == ManagerOf(s, w)
  {
    hide Move, Step;
    a := Move(s, w, Leaving);
    MovesAlone(s, w, Deleting(false), Leaving);
    DeleterSteps(s, EndDeletion(w), a);
    b := Move(a, w, Idle);
    MovesAlone(a, w, Leaving, Idle);
    DeleterSteps(a, EndDeletion(w), b);
  }

  /** With every use over, a deletion runs to its end: the marker is durable, the shard gone, the
      account refused, and both locks are free again. */
  lemma ADeletionFinishes(s: World, w: Wid) returns (r: seq<World>)
    requires At(s, w) && s.workers[w].pc.Idle? && ManagerOf(s, w).mu.None?
    requires s.guardEx.None? && s.guardShared == {} && s.lifeEx.None? && s.lifeShared == {}
    ensures Path(r) && r[0] == s
    ensures var end := r[|r| - 1];
            && end.tomb.Durable? && !end.shard
            && At(end, w) && end.workers[w].pc.Idle? && ManagerOf(end, w).blocked && ManagerOf(end, w).cached.None?
            && end.guardEx.None? && end.guardShared == {} && end.lifeEx.None? && end.lifeShared == {}
  {
    hide Step, Path, ManagerOf, At;
    assert Path([s]) && Alone(s, w, Idle) by { Starting(s, w); }
    var a, b := MarksAlone(s, w);
    var c, d := FencesAlone(b, w);
    var e, f := RemovesAlone(d, w);
    var g, h := LeavesAlone(f, w);
    r := FourSteps([s], a, b, c, d);
    r := FourSteps(r, e, f, g, h);
  }

  lemma Starting(s: World, w: Wid)
    requires At(s, w) && s.workers[w].pc.Idle? && ManagerOf(s, w).mu.None?
    requires s.guardEx.None? && s.guardShared == {} && s.lifeEx.None? && s.lifeShared == {}
    ensures Path([s]) && Alone(s, w, Idle)
  {}

  lemma FourSteps(r: seq<World>, a: World, b: World, c: World, d: World) returns (more: seq<World>)
    requires Path(r) && Step(r[|r| - 1], a) && Step(a, b) && Step(b, c) && Step(c, d)
    ensures Path(more) && more[0] == r[0] && more[|more| - 1] == d
  {
    hide Path, Step;
    PathStep(r, a);
    PathStep(r + [a], b);
    PathStep(r + [a] + [b], c);
    PathStep(r + [a] + [b] + [c], d);
    more := r + [a] + [b] + [c] + [d];
  }

  /** An account that is not being deleted can be opened by any process that does not hold it, and
      the handle stays in its manager once the use is over. */
  lemma AWriterOpens(s: World, w: Wid, h: Hid) returns (r: seq<World>)
    requires At(s, w) && s.workers[w].pc.Idle? && s.tomb.Absent? && h !in s.handles
    requires ManagerOf(s, w).mu.None? && ManagerOf(s, w).cached.None? && !ManagerOf(s, w).blocked
    requires s.guardEx.None? && s.lifeEx.None?
    ensures Path(r) && r[0] == s
    ensures var end := r[|r| - 1];
            && At(end, w) && end.workers[w].pc.Idle? && ManagerOf(end, w) == Proc(Some(h), false, None)
            && h in end.handles && end.handles[h] == Database(s.workers[w].pid, true) && h in end.lifeShared
            && end.shard && end.guardEx.None? && end.guardShared == s.guardShared - {w}
  {
    assert Path([s]);
    hide Path;
    var locked, checked, opening := StartsAlone(s, w);
    var leased, open, end := EndsOpen(opening, w, h);
    PathStep([s], locked);
    r := FourSteps([s] + [locked], checked, opening, leased, open);
    PathStep(r, end);
    r := r + [end];
  }

  lemma WriterSteps(s: World, e: Event, s': World)
    requires WriterNext(s, e, s')
    ensures Step(s, s')
  {
    hide WriterNext;
    assert Next(s, e, s');
  }

  lemma StartsAlone(s: World, w: Wid) returns (locked: World, checked: World, opening: World)
    requires At(s, w) && s.workers[w].pc.Idle? && s.tomb.Absent? && s.guardEx.None?
    requires ManagerOf(s, w).mu.None? && ManagerOf(s, w).cached.None? && !ManagerOf(s, w).blocked
    ensures Step(s, locked) && Step(locked, checked) && Step(checked, opening)
    ensures At(opening, w) && opening.workers[w] == Worker(s.workers[w].pid, Opening)
    ensures ManagerOf(opening, w) == Proc(None, false, Some(w)) && opening.guardEx.None?
    ensures opening.guardShared == s.guardShared + {w} && opening.handles == s.handles
    ensures opening.lifeEx == if s.lifeEx == Some(w) then None else s.lifeEx
  {
    locked := Move(s, w, Locked);
    checked := Move(locked, w, Checked);
    opening := Manage(Move(checked, w, Opening), s.workers[w].pid, ManagerOf(checked, w).(mu := Some(w)));
    hide Step;
    WriterSteps(s, LockShared(w), locked);
    WriterSteps(locked, CheckClear(w), checked);
    WriterSteps(checked, OpenStart(w), opening);
  }

  lemma EndsOpen(s: World, w: Wid, h: Hid) returns (leased: World, open: World, end: World)
    requires At(s, w) && s.workers[w].pc.Opening? && ManagerOf(s, w) == Proc(None, false, Some(w))
    requires s.lifeEx.None? && s.guardEx.None? && h !in s.handles
    ensures Step(s, leased) && Step(leased, open) && Step(open, end)
    ensures At(end, w) && end.workers[w].pc.Idle? && ManagerOf(end, w) == Proc(Some(h), false, None)
    ensures h in end.handles && end.handles[h] == Database(s.workers[w].pid, true) && h in end.lifeShared
    ensures end.shard && end.guardEx.None? && end.guardShared == s.guardShared - {w}
  {
    leased := Move(s, w, Leased(h)).(lifeShared := s.lifeShared + {h},
                                     handles := s.handles[h := Database(s.workers[w].pid, false)]);
    var moved := Manage(Move(leased, w, Using(h, true)), s.workers[w].pid,
                        ManagerOf(leased, w).(mu := None, cached := Some(h)));
    open := moved.(handles := leased.handles[h := Database(s.workers[w].pid, true)], shard := true);
    end := Move(open, w, Idle);
    hide Step;
    WriterSteps(s, OpenLease(w, h), leased);
    WriterSteps(leased, OpenDone(w), open);
    WriterSteps(open, Release(w), end);
  }
}
