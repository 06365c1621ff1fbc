/**
 The one hosted checkout of an account, step by step: any number of workers, each able to lose
 its lease or die anywhere, one claim row, the queue of sessions to clean up, and a provider
 that returns the same session for the same idempotency key.

 The account lease only decides whether a worker goes on or gives up, so here a worker may do
 either at every step, and nothing below relies on workers excluding each other. Only the check
 made just before a call counts: whoever fails it never makes that call.

 The provider forgets an idempotency key a day after its first use, when the session it gave has
 itself expired.
 */
module Checkout {
  import opened Common

  type Wid = nat
  type Token = nat
  type Sid = nat

  datatype Status = Creating | Open | Complete | Expired

  /** The claim; its token also makes the idempotency key. */
  datatype Claim = Claim(token: Token, session: Option<Sid>, status: Status)

  datatype SessionStatus = Usable | Completed | Ended

  datatype Session = Session(status: SessionStatus, key: Token)

  /** Where a worker stands, with what it has read so far. */
  datatype Pc =
    | Idle
    | Looked(claim: Claim)
    | Queueing(claim: Claim)             // retiring a claim: its session is to be queued
    | Marking(claim: Claim)              // and then the claim marked expired
    | Listing
    | Cleaning(ids: set<Sid>)
    | Inspecting(ids: set<Sid>, id: Sid)
    | Expiring(ids: set<Sid>, id: Sid)
    | Forgetting(ids: set<Sid>, id: Sid)
    | Inserting
    | Claimed(claim: Claim)              // inserted it, has not renewed the lease yet
    | Calling(claim: Claim)
    | Answered(claim: Claim, session: Sid)
    | LateExpiring(session: Sid)
    | LateForgetting(session: Sid)

  /** Excused keys are those whose claim stopped being recoverable without its session, retired
      for its age or marked by a webhook, or that the provider forgot while somebody could still
      call with them. The owner is the last worker to have acquired the account lease. */
  datatype World = World(
    row: Option<Claim>,
    cleanup: set<Sid>,
    sessions: map<Sid, Session>,
    keys: map<Token, Sid>,
    issued: set<Token>,
    excused: set<Token>,
    owner: Option<Wid>,
    workers: map<Wid, Pc>)

  datatype Event =
    | Join(w: Wid)
    | Acquire(w: Wid)
    | Look(w: Wid)
    | Resume(w: Wid)
    | MarkComplete(w: Wid)
    | Retire(w: Wid)
    | GoClean(w: Wid)
    | GoCall(w: Wid)
    | Queue(w: Wid)
    | MarkExpired(w: Wid)
    | List(w: Wid, ids: set<Sid>)
    | Remember(w: Wid, id: Sid)
    | Inspect(w: Wid)
    | Expire(w: Wid)
    | Forget(w: Wid)
    | Cleaned(w: Wid)
    | Insert(w: Wid, token: Token)
    | Call(w: Wid, session: Sid)
    | LateQueue(w: Wid)
    | LateExpire(w: Wid)
    | LateForget(w: Wid)
    | Save(w: Wid, samePlan: bool)
    | GiveUp(w: Wid)                     // a crash, a failed call, or a lost lease
    | CustomerPays(session: Sid)
    | ProviderExpires(session: Sid)
    | ForgetKey(key: Token)
    | Webhook                            // a completed checkout was reconciled

  predicate Usable(s: World, id: Sid) { id in s.sessions && s.sessions[id].status.Usable? }

  // ---- the claim's row, and the statements on it ----

  /** The row is still the claim with this token. */
  predicate Holds(row: Option<Claim>, token: Token) { row.Some? && row.value.token == token }

  predicate Vacant(row: Option<Claim>) { row.None? || row.value.status.Expired? }

  /** Statements fenced by the claim's token change nothing on a mismatch. */
  function Marked(row: Option<Claim>, token: Token, status: Status): Option<Claim> {
    if Holds(row, token) then Some(row.value.(status := status)) else row
  }

  function Attached(row: Option<Claim>, token: Token, id: Sid): Option<Claim> {
    if Holds(row, token) then Some(row.value.(session := Some(id), status := Open)) else row
  }

  /** One account's checkout tables. */
  class CheckoutStore {
    var row: Option<Claim>
    var cleanup: set<Sid>

    constructor ()
      ensures row == None && cleanup == {}
    {
      row, cleanup := None, {};
    }

    /** Replaces an absent or retired checkout with a fresh intent. */
    method NewCheckoutClaim(token: Token) returns (ok: bool)
      modifies this`row
      ensures ok <==> Vacant(old(row))
      ensures row == if ok then Some(Claim(token, None, Creating)) else old(row)
    {
      ok := Vacant(row);
      if ok { row := Some(Claim(token, None, Creating)); }
    }

    /** Attaches the provider's session, or records it for cleanup if the claim was replaced. */
    method SaveCheckoutSession(token: Token, id: Sid) returns (ok: bool)
      modifies this
      ensures ok <==> Holds(old(row), token)
      ensures row == Attached(old(row), token, id)
      ensures cleanup == if ok then old(cleanup) else old(cleanup) + {id}
    {
      ok := row.Some? && row.value.token == token;
      if ok { row := Some(row.value.(session := Some(id), status := Open)); } else { cleanup := cleanup + {id}; }
    }

    method MarkCheckoutClaimStatus(token: Token, status: Status) returns (ok: bool)
      modifies this`row
      ensures ok <==> Holds(old(row), token)
      ensures row == Marked(old(row), token, status)
    {
      ok := row.Some? && row.value.token == token;
      if ok { row := Some(row.value.(status := status)); }
    }

    /** Not fenced: whatever claim is there is marked. */
    method MarkCheckoutStatus(status: Status)
      modifies this`row
      ensures row == if old(row).Some? then Some(old(row).value.(status := status)) else None
    {
      if row.Some? { row := Some(row.value.(status := status)); }
    }

    /** Queues a claim's session before fencing the claim as expired, renewing the lease before
        each: losing it in between leaves the session queued and the claim as it was. */
    method RetireCheckoutClaim(claim: Claim, renewed: bool, renewedAgain: bool) returns (ok: bool)
      modifies this
      ensures ok <==> renewed && renewedAgain && Holds(old(row), claim.token)
      ensures row == if renewed && renewedAgain then Marked(old(row), claim.token, Expired) else old(row)
      ensures cleanup == old(cleanup) + if renewed && claim.session.Some? then {claim.session.value} else {}
    {
      if !renewed { return false; }
      if claim.session.Some? { cleanup := cleanup + {claim.session.value}; }
      if !renewedAgain { return false; }
      ok := MarkCheckoutClaimStatus(claim.token, Expired);
    }
  }

  /** The row is still the claim the worker knows. */
  predicate Current(s: World, claim: Claim) { Holds(s.row, claim.token) }

  function At(s: World, w: Wid, pc: Pc): World { s.(workers := s.workers[w := pc]) }

  function Ended(s: World, id: Sid): World
    requires id in s.sessions
  {
    s.(sessions := s.sessions[id := s.sessions[id].(status := SessionStatus.Ended)])
  }

  predicate IsCreating(s: World, k: Token) { Holds(s.row, k) && s.row.value.status.Creating? }

  /** A worker that can still get to call the provider with this key. */
  predicate Caller(s: World, w: Wid, k: Token) {
    && w in s.workers
    && match s.workers[w]
       case Looked(c) => c.token == k && c.status.Creating? && c.session.None? && s.owner == Some(w)
       case Claimed(c) => c.token == k && c.status.Creating? && c.session.None? && s.owner == Some(w)
       case Calling(c) => c.token == k
       case _ => false
  }

  /** The claim is still to be recovered under this key, or somebody can still call with it. */
  ghost predicate InPlay(s: World, k: Token) { IsCreating(s, k) || exists w :: Caller(s, w, k) }

  // ---- steps ----

  ghost predicate ClaimNext(s: World, e: Event, s': World) {
    match e
    case Join(w) => w !in s.workers && s' == At(s, w, Idle)
    case Acquire(w) => w in s.workers && s.workers[w].Idle? && s' == s.(owner := Some(w))
    case Look(w) =>
      && w in s.workers && s.workers[w].Idle?
      && s' == At(s, w, if s.row.None? then Listing else Looked(s.row.value))
    case Resume(w) =>  // an open session for the same plan is handed back
      && w in s.workers && s.workers[w].Looked? && s.workers[w].claim.session.Some? && s' == At(s, w, Idle)
    case MarkComplete(w) =>
      && w in s.workers && s.workers[w].Looked?
      && var c := s.workers[w].claim;
      && c.session.Some? && !c.status.Expired? && !Usable(s, c.session.value)
      && s' == At(s, w, Idle).(row := Marked(s.row, c.token, Complete))
    case Retire(w) =>  // the session is for another plan, or over; or the claim is complete, or too old
      && w in s.workers && s.workers[w].Looked? && !s.workers[w].claim.status.Expired?
      && s' == At(s, w, Queueing(s.workers[w].claim))
    case GoClean(w) =>
      && w in s.workers && s.workers[w].Looked? && s.workers[w].claim.status.Expired? && s' == At(s, w, Listing)
    case GoCall(w) =>  // the lease is still this worker's: call under the claim's own key
      && w in s.workers && s.owner == Some(w)
      && (s.workers[w].Looked? || s.workers[w].Claimed?)
      && s.workers[w].claim.status.Creating? && s.workers[w].claim.session.None?
      && s' == At(s, w, Calling(s.workers[w].claim))
    case Queue(w) =>
      && w in s.workers && s.workers[w].Queueing?
      && var c := s.workers[w].claim;
         s' == At(s, w, Marking(c)).(cleanup := if c.session.Some? then s.cleanup + {c.session.value} else s.cleanup)
    case MarkExpired(w) =>
      && w in s.workers && s.workers[w].Marking?
      && var c := s.workers[w].claim;
         s' == if Current(s, c)
               then At(s, w, Listing).(row := Marked(s.row, c.token, Expired),
                                       excused := if c.session.None? then s.excused + {c.token} else s.excused)
               else At(s, w, Idle)
    case Insert(w, token) =>
      && w in s.workers && s.workers[w].Inserting? && token !in s.issued
      && var c := Claim(token, None, Creating);
         s' == if Vacant(s.row)
               then At(s, w, Claimed(c)).(row := Some(c), issued := s.issued + {token})
               else At(s, w, Idle)
    case _ => false
  }

  ghost predicate CleanNext(s: World, e: Event, s': World) {
    match e
    case List(w, ids) =>  // what is queued, and every session the provider shows
      && w in s.workers && s.workers[w].Listing? && ids <= s.sessions.Keys + s.cleanup
      && s.cleanup <= ids && (forall id :: Usable(s, id) ==> id in ids)
      && s' == At(s, w, Cleaning(ids))
    case Remember(w, id) =>
      && w in s.workers && s.workers[w].Cleaning? && id in s.workers[w].ids && id in s.sessions
      && s' == At(s, w, Inspecting(s.workers[w].ids - {id}, id)).(cleanup := s.cleanup + {id})
    case Inspect(w) =>
      && w in s.workers && s.workers[w].Inspecting?
      && var Inspecting(ids, id) := s.workers[w];
         s' == At(s, w, if Usable(s, id) then Expiring(ids, id) else Forgetting(ids, id))
    case Expire(w) =>
      && w in s.workers && s.workers[w].Expiring?
      && var Expiring(ids, id) := s.workers[w];
         s' == if Usable(s, id) then At(Ended(s, id), w, Forgetting(ids, id)) else At(s, w, Idle)
    case Forget(w) =>
      && w in s.workers && s.workers[w].Forgetting?
      && var Forgetting(ids, id) := s.workers[w];
         s' == At(s, w, Cleaning(ids)).(cleanup := s.cleanup - {id})
    case Cleaned(w) =>
      w in s.workers && s.workers[w].Cleaning? && s.workers[w].ids == {} && s' == At(s, w, Inserting)
    case _ => false
  }

  ghost predicate SessionNext(s: World, e: Event, s': World) {
    match e
    case Call(w, id) =>
      && w in s.workers && s.workers[w].Calling?
      && var c := s.workers[w].claim;
         if c.token in s.keys then s' == At(s, w, Answered(c, s.keys[c.token]))
         else (
           && id !in s.sessions
           && s' == At(s, w, Answered(c, id)).(
                sessions := s.sessions[id := Session(SessionStatus.Usable, c.token)],
                keys := s.keys[c.token := id]))
    case LateQueue(w) =>
      && w in s.workers && s.workers[w].Answered?
      && var id := s.workers[w].session;
         s' == At(s, w, LateExpiring(id)).(cleanup := s.cleanup + {id})
    case LateExpire(w) =>
      && w in s.workers && s.workers[w].LateExpiring?
      && var id := s.workers[w].session;
         s' == if Usable(s, id) then At(Ended(s, id), w, LateForgetting(id)) else At(s, w, Idle)
    case LateForget(w) =>
      && w in s.workers && s.workers[w].LateForgetting?
      && s' == At(s, w, Idle).(cleanup := s.cleanup - {s.workers[w].session})
    case Save(w, samePlan) =>  // one transaction: attach the session, or queue it
      && w in s.workers && s.workers[w].Answered?
      && var Answered(c, id) := s.workers[w];
         s' == if Current(s, c)
               then At(s, w, if samePlan then Idle else Queueing(c.(session := Some(id), status := Open)))
                    .(row := Attached(s.row, c.token, id))
               else At(s, w, LateExpiring(id)).(cleanup := s.cleanup + {id})
    case _ => false
  }

  ghost predicate OtherNext(s: World, e: Event, s': World) {
    match e
    case GiveUp(w) => w in s.workers && s' == At(s, w, Idle)
    case CustomerPays(id) =>
      Usable(s, id) && s' == s.(sessions := s.sessions[id := s.sessions[id].(status := Completed)])
    case ProviderExpires(id) => Usable(s, id) && s' == Ended(s, id)
    case ForgetKey(k) =>
      && k in s.keys && !Usable(s, s.keys[k])
      && s' == s.(keys := s.keys - {k}, excused := if InPlay(s, k) then s.excused + {k} else s.excused)
    case Webhook =>
      && s.row.Some?
      && s' == s.(row := Some(s.row.value.(status := Complete)),
                  excused := if s.row.value.session.None? then s.excused + {s.row.value.token} else s.excused)
    case _ => false
  }

  ghost predicate Next(s: World, e: Event, s': World) {
    ClaimNext(s, e, s') || CleanNext(s, e, s') || SessionNext(s, e, s') || OtherNext(s, e, s')
  }

  // ---- what every step keeps ----

  /** Somebody will find it: it is the row's session, it is queued, or its claim still recovers
      it under its key; or its key is excused. */
  predicate Accounted(s: World, id: Sid)
    requires id in s.sessions
  {
    || id in s.cleanup
    || (s.row.Some? && s.row.value.session == Some(id))
    || (s.row.Some? && s.row.value.token == s.sessions[id].key && s.row.value.status.Creating?)
    || s.sessions[id].key in s.excused
  }

  ghost predicate NoneLost(s: World) {
    forall id :: Usable(s, id) ==> Accounted(s, id)
  }

  /** A key stands for the one session it gave; a key that was forgotten stands for none, and
      what it gave is over. */
  predicate Owned(s: World, id: Sid)
    requires id in s.sessions
  {
    var k := s.sessions[id].key;
    && k in s.issued
    && (k in s.excused || (k in s.keys && s.keys[k] == id) || (k !in s.keys && !Usable(s, id) && !IsCreating(s, k)))
  }

  ghost predicate Keyed(s: World) {
    && (forall k :: k in s.keys ==> k in s.issued && s.keys[k] in s.sessions && s.sessions[s.keys[k]].key == k)
    && (forall id :: id in s.sessions ==> Owned(s, id))
  }

  /** A session known for a claim is one its key gave, and the claim is past creating. */
  predicate Knows(s: World, claim: Claim) {
    claim.session.Some? ==>
      && claim.session.value in s.sessions && s.sessions[claim.session.value].key == claim.token
      && !IsCreating(s, claim.token)
  }

  ghost predicate RowKept(s: World) {
    s.row.Some? ==>
      && s.row.value.token in s.issued && Knows(s, s.row.value)
      && (s.row.value.status.Expired? ==> forall id :: Usable(s, id) && s.sessions[id].key == s.row.value.token ==>
            id in s.cleanup || s.row.value.token in s.excused)
  }

  /** A session that is out of the way, or queued to be. */
  predicate Settled(s: World, id: Sid) { id in s.cleanup || !Usable(s, id) }

  predicate Honest(s: World, pc: Pc) {
    match pc
    case Looked(c) => Knows(s, c) && (c.status.Creating? ==> c.token in s.issued)
    case Queueing(c) => Knows(s, c)
    case Marking(c) => Knows(s, c) && (c.session.Some? ==> Settled(s, c.session.value))
    case Inspecting(_, id) => id in s.sessions
    case Expiring(_, id) => id in s.sessions
    case Forgetting(_, id) => id in s.sessions && !Usable(s, id)
    case LateForgetting(id) => id in s.sessions && !Usable(s, id)
    case Claimed(c) => c.token in s.issued
    case Calling(c) => c.token in s.issued
    case Answered(c, id) => id in s.sessions && s.sessions[id].key == c.token
    case _ => true
  }

  ghost predicate WorkersHonest(s: World) {
    forall w :: w in s.workers ==> Honest(s, s.workers[w])
  }

  /** A key the provider may be called with: known, or recoverable, or excused. */
  predicate MayCall(s: World, k: Token) { k in s.keys || k in s.excused || IsCreating(s, k) }

  ghost predicate Licensed(s: World) {
    forall w, k :: Caller(s, w, k) ==> MayCall(s, k)
  }

  ghost predicate Inv(s: World) {
    NoneLost(s) && Keyed(s) && RowKept(s) && WorkersHonest(s) && Licensed(s)
  }

  /** What no step takes back: sessions that are over, the queue while it matters, and claims
      that are past creating. */
  ghost predicate Grows(s: World, s': World) {
    && (forall id :: id in s.sessions ==>
          id in s'.sessions && s'.sessions[id].key == s.sessions[id].key && (Usable(s', id) ==> Usable(s, id)))
    && (forall id :: id in s.cleanup && Usable(s', id) ==> id in s'.cleanup)
    && s.issued <= s'.issued && s.excused <= s'.excused
    && (forall k :: k in s.issued && IsCreating(s', k) ==> IsCreating(s, k))
  }

  lemma StillHonest(s: World, s': World, pc: Pc)
    requires Keyed(s) && Grows(s, s') && Honest(s, pc)
    ensures Honest(s', pc)
  {}

  lemma StayHonest(s: World, s': World, w: Wid)
    requires Keyed(s) && WorkersHonest(s) && Grows(s, s') && w in s.workers
    ensures Honest(s', s.workers[w])
  {
    hide Grows, Keyed;
    StillHonest(s, s', s.workers[w]);
  }

  // ---- claiming and retiring ----

  /** Claiming and retiring never touch the provider. */
  lemma ClaimTouches(s: World, e: Event, s': World)
    requires ClaimNext(s, e, s')
    ensures s'.keys == s.keys && s'.sessions == s.sessions
    ensures s.cleanup <= s'.cleanup && s.issued <= s'.issued && s.excused <= s'.excused
    ensures forall k :: k in s.issued && IsCreating(s', k) ==> IsCreating(s, k)
  {}

  lemma ClaimGrows(s: World, e: Event, s': World)
    requires ClaimNext(s, e, s')
    ensures Grows(s, s')
  {
    ClaimTouches(s, e, s');
    hide ClaimNext;
  }

  lemma ClaimLosesNone(s: World, e: Event, s': World)
    requires Inv(s) && ClaimNext(s, e, s')
    ensures NoneLost(s')
  {
    hide WorkersHonest, Licensed;
    ClaimTouches(s, e, s');
    forall id | Usable(s', id)
      ensures Accounted(s', id)
    {
      assert Usable(s, id) && Accounted(s, id);
      if e.MarkExpired? || e.MarkComplete? { ActorIsHonest(s, e.w); }
    }
  }

  lemma ActorIsHonest(s: World, w: Wid)
    requires WorkersHonest(s) && w in s.workers
    ensures Honest(s, s.workers[w])
  {}

  lemma SessionsHaveIssuedKeys(s: World)
    requires Keyed(s)
    ensures forall id :: id in s.sessions ==> s.sessions[id].key in s.issued
  {
    assert forall id :: id in s.sessions ==> Owned(s, id);
  }

  lemma ClaimKeepsKeys(s: World, e: Event, s': World)
    requires Keyed(s) && ClaimNext(s, e, s')
    ensures Keyed(s')
  {
    ClaimTouches(s, e, s');
    hide ClaimNext;
    forall id | id in s'.sessions ensures Owned(s', id) { assert Owned(s, id); }
  }

  lemma ClaimKeepsRow(s: World, e: Event, s': World)
    requires Inv(s) && ClaimNext(s, e, s')
    ensures RowKept(s')
  {
    hide NoneLost, Licensed;
    ClaimTouches(s, e, s');
    if e.MarkExpired? { ActorIsHonest(s, e.w); }
    hide WorkersHonest;
  }

  lemma ClaimMoves(s: World, e: Event, s': World, w: Wid)
    requires Inv(s) && ClaimNext(s, e, s')
    requires w in s'.workers && (w in s.workers ==> s'.workers[w] != s.workers[w])
    ensures Honest(s', s'.workers[w])
  {
    hide NoneLost, Licensed;
    SessionsHaveIssuedKeys(s);
    if w in s.workers { ActorIsHonest(s, w); }
    hide WorkersHonest, Keyed;
  }

  lemma NewClaimersAreLicensed(s: World, e: Event, s': World, w: Wid, k: Token)
    requires ClaimNext(s, e, s') && Caller(s', w, k) && !Caller(s, w, k)
    ensures MayCall(s', k)
  {}

  lemma ClaimKeepsLicence(s: World, e: Event, s': World, w: Wid, k: Token)
    requires Inv(s) && ClaimNext(s, e, s') && Caller(s', w, k)
    ensures MayCall(s', k)
  {
    hide NoneLost, Keyed, RowKept;
    if Caller(s, w, k) {
      assert MayCall(s, k);
      ClaimTouches(s, e, s');
      hide Caller;
      if e.MarkExpired? || e.MarkComplete? { ActorIsHonest(s, e.w); }
      hide WorkersHonest, Licensed;
    } else {
      hide WorkersHonest, Licensed;
      NewClaimersAreLicensed(s, e, s', w, k);
    }
  }

  lemma ClaimKeeps(s: World, e: Event, s': World)
    requires Inv(s) && ClaimNext(s, e, s')
    ensures Inv(s')
  {
    ClaimLosesNone(s, e, s');
    ClaimKeepsKeys(s, e, s');
    ClaimKeepsRow(s, e, s');
    ClaimGrows(s, e, s');
    hide NoneLost, RowKept, Grows, ClaimNext, Keyed, Caller, MayCall, Honest;
    forall w, k | Caller(s', w, k) ensures MayCall(s', k) { ClaimKeepsLicence(s, e, s', w, k); }
    forall w | w in s'.workers
      ensures Honest(s', s'.workers[w])
    {
      if w in s.workers && s'.workers[w] == s.workers[w] { StayHonest(s, s', w); } else { ClaimMoves(s, e, s', w); }
    }
  }

  // ---- cleaning up ----

  /** Only a finished session leaves the queue, and nothing is ever reopened. */
  lemma CleanTouches(s: World, e: Event, s': World)
    requires WorkersHonest(s) && CleanNext(s, e, s')
    ensures s'.row == s.row && s'.keys == s.keys && s'.issued == s.issued && s'.excused == s.excused
    ensures s'.owner == s.owner && s'.sessions.Keys == s.sessions.Keys
    ensures forall id :: id in s.sessions ==>
              s'.sessions[id].key == s.sessions[id].key && (Usable(s', id) ==> Usable(s, id))
    ensures forall id :: id in s.cleanup && Usable(s', id) ==> id in s'.cleanup
  {}

  lemma CleanGrows(s: World, e: Event, s': World)
    requires WorkersHonest(s) && CleanNext(s, e, s')
    ensures Grows(s, s')
  {
    CleanTouches(s, e, s');
    hide CleanNext, WorkersHonest;
  }

  lemma CleanLosesNone(s: World, e: Event, s': World)
    requires Inv(s) && CleanNext(s, e, s')
    ensures NoneLost(s')
  {
    CleanTouches(s, e, s');
    hide CleanNext, WorkersHonest, Keyed, RowKept, Licensed;
    forall id | Usable(s', id)
      ensures Accounted(s', id)
    {
      assert Usable(s, id) && Accounted(s, id);
    }
  }

  lemma CleanKeepsKeys(s: World, e: Event, s': World)
    requires Inv(s) && CleanNext(s, e, s')
    ensures Keyed(s')
  {
    CleanTouches(s, e, s');
    hide CleanNext, WorkersHonest, NoneLost, RowKept, Licensed;
    forall id | id in s'.sessions ensures Owned(s', id) { assert Owned(s, id); }
  }

  lemma CleanKeepsRow(s: World, e: Event, s': World)
    requires Inv(s) && CleanNext(s, e, s')
    ensures RowKept(s')
  {
    CleanTouches(s, e, s');
    hide CleanNext, WorkersHonest, NoneLost, Keyed, Licensed;
  }

  lemma CleanMoves(s: World, e: Event, s': World, w: Wid)
    requires Inv(s) && CleanNext(s, e, s')
    requires w in s'.workers && (w in s.workers ==> s'.workers[w] != s.workers[w])
    ensures Honest(s', s'.workers[w])
  {
    hide NoneLost, Licensed, RowKept, Keyed;
  }

  lemma CleanKeepsLicence(s: World, e: Event, s': World, w: Wid, k: Token)
    requires Inv(s) && CleanNext(s, e, s') && Caller(s', w, k)
    ensures MayCall(s', k)
  {
    hide NoneLost, Keyed, RowKept;
    CleanTouches(s, e, s');
    hide WorkersHonest;
    assert Caller(s, w, k);
  }

  lemma CleanKeeps(s: World, e: Event, s': World)
    requires Inv(s) && CleanNext(s, e, s')
    ensures Inv(s')
  {
    CleanLosesNone(s, e, s');
    CleanKeepsKeys(s, e, s');
    CleanKeepsRow(s, e, s');
    CleanGrows(s, e, s');
    hide NoneLost, RowKept, Grows, CleanNext, Keyed, Caller, MayCall, Honest;
    forall w, k | Caller(s', w, k) ensures MayCall(s', k) { CleanKeepsLicence(s, e, s', w, k); }
    forall w | w in s'.workers
      ensures Honest(s', s'.workers[w])
    {
      if w in s.workers && s'.workers[w] == s.workers[w] { StayHonest(s, s', w); } else { CleanMoves(s, e, s', w); }
    }
  }

  // ---- calling and saving ----

  /** Sessions are only added and ended, and only a finished one leaves the queue. */
  lemma SessionTouches(s: World, e: Event, s': World)
    requires WorkersHonest(s) && SessionNext(s, e, s')
    ensures s'.issued == s.issued && s'.excused == s.excused && s'.owner == s.owner
    ensures forall id :: id in s.sessions ==>
              id in s'.sessions && s'.sessions[id].key == s.sessions[id].key && (Usable(s', id) ==> Usable(s, id))
    ensures forall id :: id in s.cleanup && Usable(s', id) ==> id in s'.cleanup
    ensures forall k :: IsCreating(s', k) ==> IsCreating(s, k)
    ensures forall k :: k in s.keys ==> k in s'.keys && s'.keys[k] == s.keys[k]
  {
    ActorIsHonest(s, e.w);
  }

  lemma SessionsOnlyEnd(s: World, e: Event, s': World)
    requires SessionNext(s, e, s') && !e.Call?
    ensures s'.keys == s.keys && s'.sessions.Keys == s.sessions.Keys
  {}

  lemma CallKeepsKeys(s: World, w: Wid, id: Sid, s': World)
    requires Keyed(s) && WorkersHonest(s) && Licensed(s) && SessionNext(s, Call(w, id), s')
    ensures Keyed(s')
  {
    ActorIsHonest(s, w);
    var k := s.workers[w].claim.token;
    assert Caller(s, w, k) && MayCall(s, k);
    hide WorkersHonest, Licensed;
    forall x | x in s'.sessions
      ensures Owned(s', x)
    {
      if x in s.sessions { assert Owned(s, x); }
    }
  }

  lemma SessionGrows(s: World, e: Event, s': World)
    requires WorkersHonest(s) && SessionNext(s, e, s')
    ensures Grows(s, s')
  {
    SessionTouches(s, e, s');
    hide SessionNext, WorkersHonest;
  }

  lemma CalledIsAccounted(s: World, w: Wid, made: Sid, s': World, id: Sid)
    requires NoneLost(s) && WorkersHonest(s) && SessionNext(s, Call(w, made), s') && Usable(s', id)
    requires Caller(s, w, s.workers[w].claim.token) ==> MayCall(s, s.workers[w].claim.token)
    ensures Accounted(s', id)
  {
    assert Caller(s, w, s.workers[w].claim.token);
    assert Usable(s, id) ==> Accounted(s, id);
  }

  lemma CallKeepsRow(s: World, w: Wid, made: Sid, s': World)
    requires Inv(s) && SessionNext(s, Call(w, made), s')
    ensures RowKept(s')
  {
    hide NoneLost, WorkersHonest;
    var k := s.workers[w].claim.token;
    assert Caller(s, w, k) && MayCall(s, k);
  }

  lemma SessionLosesNone(s: World, e: Event, s': World)
    requires Inv(s) && SessionNext(s, e, s')
    ensures NoneLost(s')
  {
    assert e.Call? ==> Caller(s, e.w, s.workers[e.w].claim.token);
    hide Licensed, Caller, MayCall;
    forall id | Usable(s', id)
      ensures Accounted(s', id)
    {
      assert Usable(s, id) ==> Accounted(s, id) && Owned(s, id);
      if e.Call? { CalledIsAccounted(s, e.w, e.session, s', id); }
      else { ActorIsHonest(s, e.w); assert e.Save? ==> Owned(s, s.workers[e.w].session); }
    }
  }

  lemma SessionKeepsKeys(s: World, e: Event, s': World)
    requires Inv(s) && SessionNext(s, e, s')
    ensures Keyed(s')
  {
    if e.Call? {
      CallKeepsKeys(s, e.w, e.session, s');
    } else {
      SessionTouches(s, e, s');
      SessionsOnlyEnd(s, e, s');
      hide SessionNext, WorkersHonest, NoneLost, RowKept, Licensed;
      forall id | id in s'.sessions ensures Owned(s', id) { assert Owned(s, id); }
    }
  }

  lemma SessionKeepsRow(s: World, e: Event, s': World)
    requires Inv(s) && SessionNext(s, e, s')
    ensures RowKept(s')
  {
    hide NoneLost, Licensed;
    SessionTouches(s, e, s');
    if e.Save? { ActorIsHonest(s, e.w); }
    if e.Call? { CallKeepsRow(s, e.w, e.session, s'); }
    hide WorkersHonest;
  }

  lemma SessionMoves(s: World, e: Event, s': World, w: Wid)
    requires Inv(s) && SessionNext(s, e, s')
    requires w in s'.workers && (w in s.workers ==> s'.workers[w] != s.workers[w])
    ensures Honest(s', s'.workers[w])
  {
    hide NoneLost, Licensed;
    ActorIsHonest(s, e.w);
    hide WorkersHonest;
    SessionsHaveIssuedKeys(s);
  }

  lemma SessionKeepsLicence(s: World, e: Event, s': World, w: Wid, k: Token)
    requires Inv(s) && SessionNext(s, e, s') && Caller(s', w, k)
    ensures MayCall(s', k)
  {
    hide NoneLost, RowKept;
    SessionTouches(s, e, s');
    assert Caller(s, w, k) && MayCall(s, k);
    if e.Save? && IsCreating(s, k) && !IsCreating(s', k) {
      ActorIsHonest(s, e.w);
      assert Owned(s, s.workers[e.w].session);
    }
    hide WorkersHonest;
  }

  lemma SessionKeeps(s: World, e: Event, s': World)
    requires Inv(s) && SessionNext(s, e, s')
    ensures Inv(s')
  {
    SessionLosesNone(s, e, s');
    SessionKeepsKeys(s, e, s');
    SessionKeepsRow(s, e, s');
    SessionGrows(s, e, s');
    hide NoneLost, RowKept, Grows, SessionNext, Keyed, Caller, MayCall, Honest;
    forall w, k | Caller(s', w, k) ensures MayCall(s', k) { SessionKeepsLicence(s, e, s', w, k); }
    forall w | w in s'.workers
      ensures Honest(s', s'.workers[w])
    {
      if w in s.workers && s'.workers[w] == s.workers[w] { StayHonest(s, s', w); } else { SessionMoves(s, e, s', w); }
    }
  }

  // ---- crashes, customers, the provider and webhooks ----

  lemma OtherTouches(s: World, e: Event, s': World)
    requires OtherNext(s, e, s')
    ensures s'.issued == s.issued && s.excused <= s'.excused && s'.owner == s.owner && s'.cleanup == s.cleanup
    ensures s'.sessions.Keys == s.sessions.Keys
    ensures forall id :: id in s.sessions ==>
              s'.sessions[id].key == s.sessions[id].key && (Usable(s', id) ==> Usable(s, id))
    ensures forall k :: IsCreating(s', k) ==> IsCreating(s, k)
    ensures !e.ForgetKey? ==> s'.keys == s.keys
  {}

  lemma OtherGrows(s: World, e: Event, s': World)
    requires WorkersHonest(s) && OtherNext(s, e, s')
    ensures Grows(s, s')
  {
    OtherTouches(s, e, s');
    hide OtherNext, WorkersHonest;
  }

  lemma OtherLosesNone(s: World, e: Event, s': World)
    requires Inv(s) && OtherNext(s, e, s')
    ensures NoneLost(s')
  {
    hide WorkersHonest, Keyed, Licensed;
    OtherTouches(s, e, s');
    forall id | Usable(s', id)
      ensures Accounted(s', id)
    {
      assert Usable(s, id) && Accounted(s, id);
    }
  }

  lemma OtherKeepsKeys(s: World, e: Event, s': World)
    requires Inv(s) && OtherNext(s, e, s')
    ensures Keyed(s')
  {
    hide WorkersHonest, NoneLost, RowKept, Licensed;
    OtherTouches(s, e, s');
    forall id | id in s'.sessions
      ensures Owned(s', id)
    {
      assert Owned(s, id);
    }
    if !e.ForgetKey? { hide OtherNext; }
  }

  lemma OtherKeepsRow(s: World, e: Event, s': World)
    requires Inv(s) && OtherNext(s, e, s')
    ensures RowKept(s')
  {
    hide WorkersHonest, NoneLost, Keyed, Licensed;
    OtherTouches(s, e, s');
  }

  lemma OtherMoves(s: World, e: Event, s': World, w: Wid)
    requires Inv(s) && OtherNext(s, e, s')
    requires w in s'.workers && (w in s.workers ==> s'.workers[w] != s.workers[w])
    ensures Honest(s', s'.workers[w])
  {
    hide NoneLost, Licensed, RowKept, Keyed;
  }

  lemma OtherKeepsLicence(s: World, e: Event, s': World, w: Wid, k: Token)
    requires Inv(s) && OtherNext(s, e, s') && Caller(s', w, k)
    ensures MayCall(s', k)
  {
    hide NoneLost, Keyed, WorkersHonest;
    OtherTouches(s, e, s');
    assert Caller(s, w, k) && MayCall(s, k);
    if e.ForgetKey? { assert InPlay(s, k); }
  }

  lemma OtherKeeps(s: World, e: Event, s': World)
    requires Inv(s) && OtherNext(s, e, s')
    ensures Inv(s')
  {
    OtherLosesNone(s, e, s');
    OtherKeepsKeys(s, e, s');
    OtherKeepsRow(s, e, s');
    OtherGrows(s, e, s');
    hide NoneLost, RowKept, Grows, OtherNext, Keyed, Caller, MayCall, Honest;
    forall w, k | Caller(s', w, k) ensures MayCall(s', k) { OtherKeepsLicence(s, e, s', w, k); }
    forall w | w in s'.workers
      ensures Honest(s', s'.workers[w])
    {
      if w in s.workers && s'.workers[w] == s.workers[w] { StayHonest(s, s', w); } else { OtherMoves(s, e, s', w); }
    }
  }

  lemma StepKeeps(s: World, e: Event, s': World)
    requires Inv(s) && Next(s, e, s')
    ensures Inv(s')
  {
    hide Inv, ClaimNext, CleanNext, SessionNext, OtherNext;
    if ClaimNext(s, e, s') { ClaimKeeps(s, e, s'); }
    else if CleanNext(s, e, s') { CleanKeeps(s, e, s'); }
    else if SessionNext(s, e, s') { SessionKeeps(s, e, s'); }
    else { OtherKeeps(s, e, s'); }
  }

  // ---- over whole runs ----

  const START := World(None, {}, map[], map[], {}, {}, None, map[])

  ghost predicate Run(ws: seq<World>, es: seq<Event>) {
    && |ws| == |es| + 1 && ws[0] == START
    && forall i :: 0 <= i < |es| ==> Next(ws[i], es[i], ws[i + 1])
  }

  lemma {:induction false} RunKeeps(ws: seq<World>, es: seq<Event>, i: nat)
    requires Run(ws, es) && i < |ws|
    ensures Inv(ws[i])
  {
    hide Next;
    if i == 0 {
      assert Inv(START);
    } else {
      hide Inv;
      RunKeeps(ws, es, i - 1);
      assert Next(ws[i - 1], es[i - 1], ws[i - 1 + 1]);
      StepKeeps(ws[i - 1], es[i - 1], ws[i]);
    }
  }

  /** Every session a customer could still pay is accounted for, whatever has crashed. */
  lemma NoSessionIsLost(ws: seq<World>, es: seq<Event>, i: nat, id: Sid)
    requires Run(ws, es) && i < |ws| && Usable(ws[i], id)
    ensures Accounted(ws[i], id)
  {
    hide Next;
    RunKeeps(ws, es, i);
  }

  /** No claim was retired without its session, no webhook marked one, and no key was forgotten
      while it was in play. */
  ghost predicate Ordinary(s: World, e: Event) {
    && !e.Webhook?
    && (e.MarkExpired? && e.w in s.workers && s.workers[e.w].Marking? ==> s.workers[e.w].claim.session.Some?)
    && (e.ForgetKey? ==> !InPlay(s, e.key))
  }

  lemma {:induction false} NothingExcused(ws: seq<World>, es: seq<Event>, i: nat)
    requires Run(ws, es) && i < |ws|
    requires forall k :: 0 <= k < i ==> Ordinary(ws[k], es[k])
    ensures ws[i].excused == {}
  {
    if i > 0 {
      NothingExcused(ws, es, i - 1);
      assert Next(ws[i - 1], es[i - 1], ws[i - 1 + 1]) && Ordinary(ws[i - 1], es[i - 1]);
    }
  }

  /** Inside the retry window: queued, the row's own, or recoverable under the row's key; and so
      at most one session is open without being queued. */
  lemma OrdinaryRunsLoseNothing(ws: seq<World>, es: seq<Event>, i: nat, a: Sid, b: Sid)
    requires Run(ws, es) && i < |ws|
    requires forall k :: 0 <= k < i ==> Ordinary(ws[k], es[k])
    requires Usable(ws[i], a) && a !in ws[i].cleanup
    ensures ws[i].row.Some? && ws[i].row.value.token == ws[i].sessions[a].key
    ensures ws[i].row.value.session == Some(a) || ws[i].row.value.status.Creating?
    ensures Usable(ws[i], b) && b !in ws[i].cleanup ==> b == a
  {
    hide Next;
    NothingExcused(ws, es, i);
    RunKeeps(ws, es, i);
    hide Run, Ordinary;
    assert Accounted(ws[i], a) && Owned(ws[i], a);
    assert Usable(ws[i], b) ==> Accounted(ws[i], b) && Owned(ws[i], b);
  }

  /** The claim row is only ever changed by a worker that holds its token, replaced once it has
      expired, or marked by a webhook: a stale worker never touches a replacement. */
  lemma StaleWorkersLeaveTheRowAlone(s: World, e: Event, s': World)
    requires Inv(s) && Next(s, e, s') && s'.row != s.row
    ensures s'.row.Some?
    ensures s.row.Some? && s'.row.value.token != s.row.value.token ==> e.Insert? && s.row.value.status.Expired?
    ensures s.row.Some? && s'.row.value.token == s.row.value.token ==> e.Webhook? || ActsOnRow(s, e)
  {
    hide NoneLost, Keyed, WorkersHonest;
    RowUntouched(s, e, s');
    if ClaimNext(s, e, s') { hide CleanNext, SessionNext, OtherNext; }
    else { hide CleanNext, ClaimNext; }
  }

  lemma RowUntouched(s: World, e: Event, s': World)
    ensures CleanNext(s, e, s') ==> s'.row == s.row
  {}

  predicate ActsOnRow(s: World, e: Event) {
    && (e.MarkComplete? || e.MarkExpired? || e.Save?) && e.w in s.workers
    && match s.workers[e.w]
       case Looked(c) => Current(s, c)
       case Marking(c) => Current(s, c)
       case Answered(c, _) => Current(s, c)
       case _ => false
  }

  /** A session whose worker died before recording it is recovered by the next one while the
      provider knows its key: looking, calling with that key and saving attaches exactly it. */
  lemma CrashedCreationIsRecovered(
    s0: World, w: Wid, unused: Sid, samePlan: bool, s1: World, s2: World, s3: World, s4: World, id: Sid)
    requires Inv(s0) && w in s0.workers && s0.workers[w].Idle?
    requires s0.row.Some? && s0.row.value.status.Creating?
    requires s0.row.value.token in s0.keys && s0.keys[s0.row.value.token] == id
    requires ClaimNext(s0, Look(w), s1) && ClaimNext(s1, GoCall(w), s2)
    requires SessionNext(s2, Call(w, unused), s3) && SessionNext(s3, Save(w, samePlan), s4)
    ensures s4.row == Some(Claim(s0.row.value.token, Some(id), Open)) && s4.sessions == s0.sessions
  {}

  // ---- what saving, expiring and cleaning achieve ----

  /** A worker that got a session leaves it recorded when it saves, or queues it when it may not: as
      the row's own if the claim is still there under its token, else queued. */
  lemma ASessionGotIsRecorded(s: World, e: Event, s': World)
    requires SessionNext(s, e, s') && (e.Save? || e.LateQueue?)
    ensures var (c, id) := (s.workers[e.w].claim, s.workers[e.w].session);
            if e.Save? && s.row.Some? && s.row.value.token == c.token
            then s'.row == Some(Claim(c.token, Some(id), Open))
            else s'.row == s.row && s'.cleanup == s.cleanup + {id}
  {}

  /** What each statement on the claim leaves in the row, and whether its worker goes on: complete is
      said only of a claim whose session is over, expired ends only the claim the worker means, and
      a new claim starts without a session where there is none or an expired one. */
  lemma WhatStatementsLeave(s: World, e: Event, s': World)
    requires ClaimNext(s, e, s')
    ensures e.MarkComplete? ==>
              var c := s.workers[e.w].claim;
              && c.session.Some? && !c.status.Expired? && !Usable(s, c.session.value)
              && s'.workers == s.workers[e.w := Idle]
              && s'.row == (if s.row.Some? && s.row.value.token == c.token
                            then Some(Claim(c.token, s.row.value.session, Complete)) else s.row)
    ensures e.MarkExpired? ==>
              var c := s.workers[e.w].claim;
              if s.row.Some? && s.row.value.token == c.token
              then s'.row == Some(Claim(c.token, s.row.value.session, Expired)) && s'.workers[e.w].Listing?
              else s'.row == s.row && s'.workers[e.w].Idle?
    ensures e.Insert? ==>
              && e.token !in s.issued
              && if s.row.None? || s.row.value.status.Expired?
                 then s'.row == Some(Claim(e.token, None, Creating)) && s'.workers[e.w] == Claimed(s'.row.value)
                 else s'.row == s.row && s'.workers[e.w].Idle?
    ensures !e.MarkComplete? && !e.MarkExpired? && !e.Insert? ==> s'.row == s.row
  {}

  /** What becomes of a session that came too late for its claim, or for another plan: it is ended if
      it is still payable, and the claim it was attached to is retired unless it serves the plan
      asked for. */
  lemma WhatLateSessionsLeave(s: World, e: Event, s': World)
    requires SessionNext(s, e, s')
    ensures e.LateExpire? ==>
              && !Usable(s', s.workers[e.w].session) && s'.cleanup == s.cleanup && s'.row == s.row
              && (s'.workers[e.w].LateForgetting? <==> Usable(s, s.workers[e.w].session))
              && (s'.workers[e.w].Idle? <==> !Usable(s, s.workers[e.w].session))
    ensures e.Save? ==>
              && (s'.workers[e.w].LateExpiring? <==> s.row.None? || s.row.value.token != s.workers[e.w].claim.token)
              && (s'.workers[e.w].Idle? ==> e.samePlan)
              && (s'.workers[e.w].Queueing? ==> !e.samePlan && Some(s'.workers[e.w].claim) == s'.row)
  {}

  /** A paid session can no longer be paid, nor can one that has expired. */
  lemma PaidOrExpiredIsOver(s: World, e: Event, s': World)
    requires OtherNext(s, e, s') && (e.CustomerPays? || e.ProviderExpires?)
    ensures Usable(s, e.session) && !Usable(s', e.session)
    ensures e.CustomerPays? <==> s'.sessions[e.session].status.Completed?
  {}

  /** A key is excused exactly when its claim is retired without a session, or marked by a webhook
      without one, or the provider forgets it while it is in play. */
  lemma ExcusedExactlyWhen(s: World, e: Event, s': World, k: Token)
    requires Next(s, e, s') && k !in s.excused
    ensures k in s'.excused <==>
              || (e.MarkExpired? && s.workers[e.w].claim.token == k && s.workers[e.w].claim.session.None?
                  && Holds(s.row, k))
              || (e.Webhook? && s.row.value.token == k && s.row.value.session.None?)
              || (e.ForgetKey? && e.key == k && InPlay(s, k))
  {
    hide InPlay;
    CleanExcusesNobody(s, e, s');
    hide CleanNext;
  }

  lemma CleanExcusesNobody(s: World, e: Event, s': World)
    ensures CleanNext(s, e, s') ==> s'.excused == s.excused && !e.MarkExpired? && !e.Webhook? && !e.ForgetKey?
  {}

  /** A session that is taken off the queue is over. */
  lemma TakenOffTheQueueIsOver(s: World, e: Event, s': World)
    requires Inv(s) && Next(s, e, s') && (e.Forget? || e.LateForget?)
    ensures var id := if e.Forget? then s.workers[e.w].id else s.workers[e.w].session;
            && s'.cleanup == s.cleanup - {id} && id in s'.sessions && !Usable(s', id)
  {
    hide NoneLost, Keyed, RowKept, Licensed;
    assert !ClaimNext(s, e, s') && !OtherNext(s, e, s');
    hide ClaimNext, OtherNext;
    ActorIsHonest(s, e.w);
  }

  /** A listed session is queued before it is looked at, so a crash from then on leaves it to the
      next worker; it is ended if it is payable when it is looked at, left alone if it is not, and
      the loop stops if it has been paid or ended in between. */
  lemma WhatCleaningLeaves(s: World, e: Event, s': World)
    requires CleanNext(s, e, s')
    ensures e.Remember? ==> s'.cleanup == s.cleanup + {e.id} && s'.sessions == s.sessions
    ensures e.Inspect? ==>
              var id := s.workers[e.w].id;
              && s'.sessions == s.sessions && s'.cleanup == s.cleanup
              && (s'.workers[e.w].Expiring? <==> Usable(s, id)) && (s'.workers[e.w].Forgetting? <==> !Usable(s, id))
              && s'.workers[e.w].id == id
    ensures e.Expire? ==>
              var id := s.workers[e.w].id;
              && s'.cleanup == s.cleanup && !Usable(s', id)
              && (s'.workers[e.w].Forgetting? <==> Usable(s, id)) && (s'.workers[e.w].Idle? <==> !Usable(s, id))
              && (forall other :: other in s.sessions && other != id ==>
                    other in s'.sessions && s'.sessions[other] == s.sessions[other])
  {}

  predicate InTheLoop(pc: Pc) { pc.Cleaning? || pc.Inspecting? || pc.Expiring? || pc.Forgetting? }

  /** What a worker in the cleaning loop has still to see to. */
  function Unseen(pc: Pc): set<Sid> {
    match pc
    case Cleaning(ids) => ids
    case Inspecting(ids, id) => ids + {id}
    case Expiring(ids, id) => ids + {id}
    case Forgetting(ids, _) => ids
    case _ => {}
  }

  /** Of some sessions, those a worker in the loop has seen to are over. */
  ghost predicate SeenTo(s: World, w: Wid, ids: set<Sid>) {
    && w in s.workers && InTheLoop(s.workers[w]) && ids <= s.sessions.Keys
    && forall id :: id in ids && id !in Unseen(s.workers[w]) ==> !Usable(s, id)
  }

  lemma LoopStep(s: World, e: Event, s': World, w: Wid, ids: set<Sid>)
    requires Inv(s) && Next(s, e, s') && SeenTo(s, w, ids)
    requires w in s'.workers && InTheLoop(s'.workers[w])
    ensures SeenTo(s', w, ids)
  {
    StepGrows(s, e, s');
    LoopMoves(s, e, s', w);
    hide Next, Inv;
    forall id | id in ids && id !in Unseen(s'.workers[w])
      ensures !Usable(s', id)
    {
      assert id in s.sessions;
    }
  }

  /** The loop moves on from a session only when it is over. */
  lemma LoopMoves(s: World, e: Event, s': World, w: Wid)
    requires Inv(s) && Next(s, e, s') && w in s.workers && InTheLoop(s.workers[w])
    requires w in s'.workers && InTheLoop(s'.workers[w])
    ensures forall id :: id in Unseen(s.workers[w]) && id !in Unseen(s'.workers[w]) ==> !Usable(s', id)
  {
    hide Inv;
    OthersLeaveTheLoop(s, e, s', w);
    hide ClaimNext, SessionNext, OtherNext;
  }

  lemma OthersLeaveTheLoop(s: World, e: Event, s': World, w: Wid)
    requires w in s.workers && InTheLoop(s.workers[w]) && w in s'.workers && InTheLoop(s'.workers[w])
    ensures ClaimNext(s, e, s') ==> s'.workers[w] == s.workers[w]
    ensures SessionNext(s, e, s') ==> s'.workers[w] == s.workers[w]
    ensures OtherNext(s, e, s') ==> s'.workers[w] == s.workers[w]
  {}

  lemma {:induction false} LoopKeeps(ws: seq<World>, es: seq<Event>, i: nat, n: nat, w: Wid, ids: set<Sid>)
    requires Run(ws, es) && i < n < |ws| && es[i] == Event.List(w, ids)
    requires forall k :: i < k <= n ==> w in ws[k].workers && InTheLoop(ws[k].workers[w])
    ensures SeenTo(ws[n], w, ids * ws[i].sessions.Keys)
    decreases n
  {
    hide Inv, SeenTo, InTheLoop, Next;
    if i + 1 < n {
      LoopKeeps(ws, es, i, n - 1, w, ids);
      RunKeeps(ws, es, n - 1);
      assert Next(ws[n - 1], es[n - 1], ws[n - 1 + 1]);
      LoopStep(ws[n - 1], es[n - 1], ws[n], w, ids * ws[i].sessions.Keys);
    } else {
      assert Next(ws[i], es[i], ws[i + 1]);
      Listed(ws[i], ws[i + 1], w, ids);
    }
  }

  lemma Listed(s: World, s': World, w: Wid, ids: set<Sid>)
    requires Next(s, Event.List(w, ids), s')
    ensures SeenTo(s', w, ids * s.sessions.Keys)
    ensures s.cleanup <= ids && forall id :: Usable(s, id) ==> id in ids
  {}

  /** Whatever the others do meanwhile, a worker that gets through the cleaning loop leaves nothing
      payable of what there was, or of what was queued, when it began; a session that is payable by
      then was created since. */
  lemma CleaningLeavesNothingPayable(ws: seq<World>, es: seq<Event>, i: nat, j: nat, w: Wid, ids: set<Sid>, id: Sid)
    requires Run(ws, es) && i < j < |es| && es[i] == Event.List(w, ids) && es[j] == Cleaned(w)
    requires forall k :: i < k <= j ==> w in ws[k].workers && InTheLoop(ws[k].workers[w])
    ensures id in ws[i].sessions ==> !Usable(ws[j + 1], id)
  {
    hide Inv, InTheLoop;
    LoopKeeps(ws, es, i, j, w, ids);
    assert Next(ws[i], es[i], ws[i + 1]) && Next(ws[j], es[j], ws[j + 1]);
    Listed(ws[i], ws[i + 1], w, ids);
    hide Run;
    if id in ws[i].sessions {
      OverForGood(ws, es, i, j, id);
      OverForGood(ws, es, j, j + 1, id);
      hide Next;
      assert Usable(ws[i], id) ==> id in ids * ws[i].sessions.Keys;
    }
  }

  /** A session that is over stays so. */
  lemma {:induction false} OverForGood(ws: seq<World>, es: seq<Event>, i: nat, n: nat, id: Sid)
    requires Run(ws, es) && i <= n < |ws| && id in ws[i].sessions
    ensures id in ws[n].sessions && (Usable(ws[n], id) ==> Usable(ws[i], id))
    decreases n
  {
    hide Next, Inv;
    if i < n {
      OverForGood(ws, es, i, n - 1, id);
      RunKeeps(ws, es, n - 1);
      assert Next(ws[n - 1], es[n - 1], ws[n - 1 + 1]);
      StepGrows(ws[n - 1], es[n - 1], ws[n]);
    }
  }

  // ---- when a claim may stop being recoverable without its session ----

  /** Somebody finds it without any excuse. */
  predicate Known(s: World, id: Sid)
    requires id in s.sessions
  {
    || id in s.cleanup
    || (s.row.Some? && s.row.value.session == Some(id))
    || (s.row.Some? && s.row.value.token == s.sessions[id].key && s.row.value.status.Creating?)
  }

  ghost predicate KeyKnown(s: World, k: Token) {
    forall id :: Usable(s, id) && s.sessions[id].key == k ==> Known(s, id)
  }

  /** The claim with this token has no session and can no longer be recovered by its key. */
  predicate LeftBehind(s: World, k: Token) {
    Holds(s.row, k) && s.row.value.session.None? && !s.row.value.status.Creating?
  }

  /** Nobody can call with the key any more, and every session it gave that a customer could
      still pay is queued. */
  ghost predicate Closed(s: World, k: Token) {
    && (forall w :: !Caller(s, w, k))
    && (forall id :: Usable(s, id) && s.sessions[id].key == k ==> id in s.cleanup)
  }

  lemma LeavingByClaim(s: World, e: Event, s': World, k: Token)
    requires Inv(s) && ClaimNext(s, e, s')
    requires IsCreating(s, k) && !IsCreating(s', k)
    ensures e.MarkExpired? && Holds(s'.row, k) && LeftBehind(s', k) && !Ordinary(s, e)
  {
    hide NoneLost, Keyed, MayCall, Licensed;
    if e.MarkComplete? || e.MarkExpired? { ActorIsHonest(s, e.w); }
  }

  lemma LeavingOtherwise(s: World, e: Event, s': World, k: Token)
    requires RowKept(s) && (SessionNext(s, e, s') || OtherNext(s, e, s'))
    requires IsCreating(s, k) && !IsCreating(s', k)
    ensures Holds(s'.row, k) && (e.Save? || e.Webhook?)
    ensures LeftBehind(s', k) <==> e.Webhook?
    ensures Ordinary(s, e) <==> e.Save?
  {}

  /** A claim stops being recoverable by getting its session, or else in one of the two excused
      ways. */
  lemma LeavingCreating(s: World, e: Event, s': World, k: Token)
    requires Inv(s) && Next(s, e, s')
    requires IsCreating(s, k) && !IsCreating(s', k)
    ensures Holds(s'.row, k)
    ensures LeftBehind(s', k) <==> !e.Save?
    ensures LeftBehind(s', k) <==> !Ordinary(s, e)
  {
    RowUntouched(s, e, s');
    hide CleanNext, Ordinary;
    if ClaimNext(s, e, s') {
      LeavingByClaim(s, e, s', k);
    } else {
      hide ClaimNext;
      LeavingOtherwise(s, e, s', k);
    }
  }

  ghost predicate From(s: World, ws: seq<World>, es: seq<Event>) {
    && |ws| == |es| + 1 && ws[0] == s
    && forall i :: 0 <= i < |es| ==> Next(ws[i], es[i], ws[i + 1])
  }

  /** The key stays closed because its claim is never creating again. */
  ghost predicate Shut(s: World, k: Token) {
    Inv(s) && k in s.issued && Closed(s, k) && !IsCreating(s, k)
  }

  lemma StepGrows(s: World, e: Event, s': World)
    requires Inv(s) && Next(s, e, s')
    ensures Grows(s, s')
  {
    hide NoneLost, Keyed, RowKept, WorkersHonest, Licensed, Grows, ClaimNext, CleanNext, SessionNext, OtherNext;
    if ClaimNext(s, e, s') { ClaimGrows(s, e, s'); }
    else if CleanNext(s, e, s') { CleanGrows(s, e, s'); }
    else if SessionNext(s, e, s') { SessionGrows(s, e, s'); }
    else { OtherGrows(s, e, s'); }
  }

  lemma NoNewCallerClaiming(s: World, e: Event, s': World, k: Token, w: Wid)
    requires ClaimNext(s, e, s') && k in s.issued && !IsCreating(s, k) && Caller(s', w, k)
    ensures Caller(s, w, k)
  {}

  lemma NoNewCallerElsewhere(s: World, e: Event, s': World, k: Token, w: Wid)
    requires CleanNext(s, e, s') || SessionNext(s, e, s') || OtherNext(s, e, s')
    requires Caller(s', w, k)
    ensures Caller(s, w, k)
  {}

  /** Only a worker that can call with a key makes a session for it. */
  lemma NoNewSession(s: World, e: Event, s': World, id: Sid)
    requires Inv(s) && Next(s, e, s') && id !in s.sessions && id in s'.sessions
    ensures Caller(s, e.w, s'.sessions[id].key)
  {
    hide NoneLost, Keyed, RowKept, Licensed;
    if ClaimNext(s, e, s') { ClaimTouches(s, e, s'); }
    if CleanNext(s, e, s') { CleanTouches(s, e, s'); }
    if OtherNext(s, e, s') { OtherTouches(s, e, s'); }
    hide ClaimNext, CleanNext, OtherNext;
  }

  lemma StaysShut(s: World, e: Event, s': World, k: Token)
    requires Shut(s, k) && Next(s, e, s')
    ensures Shut(s', k)
  {
    StepKeeps(s, e, s');
    StepGrows(s, e, s');
    forall w
      ensures !Caller(s', w, k)
    {
      if Caller(s', w, k) {
        if ClaimNext(s, e, s') { NoNewCallerClaiming(s, e, s', k, w); }
        else { NoNewCallerElsewhere(s, e, s', k, w); }
      }
    }
    forall id | Usable(s', id) && s'.sessions[id].key == k
      ensures id in s'.cleanup
    {
      if id !in s.sessions { NoNewSession(s, e, s', id); }
    }
    hide Next, ClaimNext, CleanNext, SessionNext, OtherNext, Caller, Inv, MayCall;
  }

  lemma {:induction false} ShutForGood(s: World, k: Token, ws: seq<World>, es: seq<Event>, i: nat)
    requires Shut(s, k) && From(s, ws, es) && i < |ws|
    ensures Shut(ws[i], k)
  {
    hide Next, Shut;
    if i > 0 {
      ShutForGood(s, k, ws, es, i - 1);
      assert Next(ws[i - 1], es[i - 1], ws[i - 1 + 1]);
      StaysShut(ws[i - 1], es[i - 1], ws[i], k);
    }
  }

  lemma {:induction false} Above(ids: set<Sid>) returns (n: Sid)
    ensures forall id :: id in ids ==> id < n
  {
    n := 0;
    if ids != {} {
      var one :| one in ids;
      n := Above(ids - {one});
      if n <= one { n := one + 1; }
      assert forall id :: id in ids ==> id == one || id in ids - {one};
    }
  }

  lemma Longer(s: World, ws: seq<World>, es: seq<Event>, e: Event, w: World)
    returns (longer: seq<World>, events: seq<Event>)
    requires From(s, ws, es) && Next(ws[|ws| - 1], e, w)
    ensures From(s, longer, events) && longer[|longer| - 1] == w
  {
    longer, events := ws + [w], es + [e];
  }

  /** Once the session a key gave is over, the provider may forget the key. */
  lemma KeyGoes(s: World, k: Token) returns (ws: seq<World>, es: seq<Event>)
    requires Keyed(s)
    ensures From(s, ws, es)
    ensures var z := ws[|ws| - 1];
            k !in z.keys && z.row == s.row && z.cleanup == s.cleanup && z.workers == s.workers && z.owner == s.owner
  {
    ws, es := [s], [];
    if k in s.keys {
      var z, id := s, s.keys[k];
      if Usable(s, id) {
        z := Ended(s, id);
        assert OtherNext(s, ProviderExpires(id), z);
        ws, es := Longer(s, ws, es, ProviderExpires(id), z);
      }
      var gone := z.(keys := z.keys - {k}, excused := if InPlay(z, k) then z.excused + {k} else z.excused);
      assert OtherNext(z, ForgetKey(k), gone);
      ws, es := Longer(s, ws, es, ForgetKey(k), gone);
    }
  }

  /** Then whoever can still call creates a session nothing knows of. */
  lemma LateCall(s: World, k: Token, w: Wid) returns (ws: seq<World>, es: seq<Event>)
    requires LeftBehind(s, k) && Caller(s, w, k) && k !in s.keys
    ensures From(s, ws, es) && !KeyKnown(ws[|ws| - 1], k)
  {
    var id := Above(s.sessions.Keys + s.cleanup);
    assert id !in s.sessions && id !in s.cleanup by {
      assert id !in s.sessions.Keys + s.cleanup;
    }
    var c := s.workers[w].claim;
    var s1 := if s.workers[w].Calling? then s else At(s, w, Calling(c));
    var s2 := At(s1, w, Answered(c, id)).(
      sessions := s.sessions[id := Session(SessionStatus.Usable, k)], keys := s.keys[k := id]);
    assert SessionNext(s1, Call(w, id), s2);
    assert !s.workers[w].Calling? ==> ClaimNext(s, GoCall(w), s1);
    assert Usable(s2, id) && s2.sessions[id].key == k && !Known(s2, id);
    hide ClaimNext, CleanNext, SessionNext, OtherNext;
    ws, es := [s], [];
    if !s.workers[w].Calling? { ws, es := Longer(s, ws, es, GoCall(w), s1); }
    ws, es := Longer(s, ws, es, Call(w, id), s2);
  }

  lemma FromThere(s: World, ws: seq<World>, es: seq<Event>, more: seq<World>, moreEs: seq<Event>)
    requires From(s, ws, es) && From(ws[|ws| - 1], more, moreEs)
    ensures From(s, ws + more[1..], es + moreEs)
    ensures (ws + more[1..])[|ws + more[1..]| - 1] == more[|more| - 1]
  {
    hide Next;
    var all, events := ws + more[1..], es + moreEs;
    forall i | 0 <= i < |events|
      ensures Next(all[i], events[i], all[i + 1])
    {
      if i >= |es| {
        var k := i - |es|;
        assert Next(more[k], moreEs[k], more[k + 1]);
        assert all[i] == more[k] && all[i + 1] == more[k + 1];
      }
    }
  }

  /** An open key is lost in at most four steps. */
  lemma OpenKeysAreLost(s: World, k: Token) returns (ws: seq<World>, es: seq<Event>)
    requires Inv(s) && LeftBehind(s, k) && !Closed(s, k)
    ensures From(s, ws, es) && !KeyKnown(ws[|ws| - 1], k)
  {
    if w :| Caller(s, w, k) {
      ws, es := KeyGoes(s, k);
      var z := ws[|ws| - 1];
      assert Caller(z, w, k) && LeftBehind(z, k);
      var more, moreEs := LateCall(z, k, w);
      FromThere(s, ws, es, more, moreEs);
      ws, es := ws + more[1..], es + moreEs;
    } else {
      var id :| Usable(s, id) && s.sessions[id].key == k && id !in s.cleanup;
      assert !Known(s, id);
      ws, es := [s], [];
    }
  }

  /** A claim that has stopped being recoverable without its session loses nothing, in any
      continuation, exactly when its key is closed by then. */
  lemma LeavingWithoutTheSessionIsSafeExactlyWhen(s: World, k: Token)
    requires Inv(s) && LeftBehind(s, k)
    ensures (forall ws: seq<World>, es: seq<Event>, i: nat ::
               From(s, ws, es) && i < |ws| ==> KeyKnown(ws[i], k)) <==> Closed(s, k)
  {
    if Closed(s, k) {
      assert Shut(s, k);
      forall ws: seq<World>, es: seq<Event>, i: nat | From(s, ws, es) && i < |ws|
        ensures KeyKnown(ws[i], k)
      {
        ShutForGood(s, k, ws, es, i);
      }
    } else {
      var ws, es := OpenKeysAreLost(s, k);
      assert From(s, ws, es) && |ws| - 1 < |ws| && !KeyKnown(ws[|ws| - 1], k);
    }
  }

  const FIRST := Claim(7, None, Creating)
  const SECOND := Claim(8, None, Creating)
  const RETIRED := Claim(7, None, Expired)

  /** A worker acquires the account and finds no claim, */
  lemma Enter() returns (ws: seq<World>, es: seq<Event>)
    ensures Run(ws, es) && ws[|ws| - 1] == START.(workers := map[0 := Listing], owner := Some(0))
    ensures forall k :: 0 <= k < |es| ==> !es[k].MarkExpired? && !es[k].Webhook? && !es[k].ForgetKey?
  {
    var w1 := START.(workers := map[0 := Idle]);
    var w2 := w1.(owner := Some(0));
    var w3 := w2.(workers := map[0 := Listing]);
    assert ClaimNext(START, Join(0), w1) && ClaimNext(w1, Acquire(0), w2) && ClaimNext(w2, Look(0), w3);
    hide ClaimNext, CleanNext, SessionNext, OtherNext, Run;
    ws, es := Begin();
    ws, es := Extend(ws, es, Join(0), w1);
    ws, es := Extend(ws, es, Acquire(0), w2);
    ws, es := Extend(ws, es, Look(0), w3);
  }

  /** and nothing to clean up, */
  lemma FindNothing() returns (ws: seq<World>, es: seq<Event>)
    ensures Run(ws, es) && ws[|ws| - 1] == START.(workers := map[0 := Inserting], owner := Some(0))
    ensures forall k :: 0 <= k < |es| ==> !es[k].MarkExpired? && !es[k].Webhook? && !es[k].ForgetKey?
  {
    ws, es := Enter();
    var w3 := ws[|ws| - 1];
    var w4 := w3.(workers := map[0 := Cleaning({})]);
    var w5 := w3.(workers := map[0 := Inserting]);
    assert CleanNext(w3, List(0, {}), w4) && CleanNext(w4, Cleaned(0), w5);
    hide ClaimNext, CleanNext, SessionNext, OtherNext, Run;
    ws, es := Extend(ws, es, List(0, {}), w4);
    ws, es := Extend(ws, es, Cleaned(0), w5);
  }

  lemma Begin() returns (ws: seq<World>, es: seq<Event>)
    ensures Run(ws, es) && es == [] && ws == [START]
  {
    ws, es := [START], [];
  }

  /** claims the checkout, and stalls just before its call. */
  lemma Stall() returns (ws: seq<World>, es: seq<Event>)
    ensures Run(ws, es)
    ensures ws[|ws| - 1] == World(Some(FIRST), {}, map[], map[], {7}, {}, Some(0), map[0 := Calling(FIRST)])
    ensures forall k :: 0 <= k < |es| ==> !es[k].MarkExpired? && !es[k].Webhook? && !es[k].ForgetKey?
  {
    ws, es := FindNothing();
    var w5 := ws[|ws| - 1];
    var w6 := At(w5, 0, Claimed(FIRST)).(row := Some(FIRST), issued := w5.issued + {7});
    var w7 := At(w6, 0, Calling(FIRST));
    assert ClaimNext(w5, Insert(0, 7), w6) && ClaimNext(w6, GoCall(0), w7);
    assert w7.workers == map[0 := Calling(FIRST)] && w7.issued == {7};
    hide ClaimNext, CleanNext, SessionNext, OtherNext, Run;
    ws, es := Extend(ws, es, Insert(0, 7), w6);
    ws, es := Extend(ws, es, GoCall(0), w7);
  }

  /** Another worker acquires the account and finds that claim, */
  lemma LookAgain() returns (ws: seq<World>, es: seq<Event>)
    ensures Run(ws, es)
    ensures ws[|ws| - 1] ==
              World(Some(FIRST), {}, map[], map[], {7}, {}, Some(1), map[0 := Calling(FIRST), 1 := Looked(FIRST)])
    ensures forall k :: 0 <= k < |es| ==> !es[k].MarkExpired? && !es[k].Webhook? && !es[k].ForgetKey?
  {
    ws, es := Stall();
    var w4 := ws[|ws| - 1];
    var w5 := At(w4, 1, Idle);
    var w6 := w5.(owner := Some(1));
    var w7 := At(w6, 1, Looked(FIRST));
    assert ClaimNext(w4, Join(1), w5) && ClaimNext(w5, Acquire(1), w6) && ClaimNext(w6, Look(1), w7);
    assert w7.workers == map[0 := Calling(FIRST), 1 := Looked(FIRST)];
    hide ClaimNext, CleanNext, SessionNext, OtherNext, Run;
    ws, es := Extend(ws, es, Join(1), w5);
    ws, es := Extend(ws, es, Acquire(1), w6);
    ws, es := Extend(ws, es, Look(1), w7);
  }

  /** and retires it for its age. */
  lemma RetireStalled() returns (ws: seq<World>, es: seq<Event>)
    ensures Run(ws, es)
    ensures ws[|ws| - 1] ==
              World(Some(RETIRED), {}, map[], map[], {7}, {7}, Some(1), map[0 := Calling(FIRST), 1 := Listing])
  {
    ws, es := LookAgain();
    var w7 := ws[|ws| - 1];
    var w8 := At(w7, 1, Queueing(FIRST));
    var w9 := At(w8, 1, Marking(FIRST));
    var w10 := At(w9, 1, Listing).(row := Some(RETIRED), excused := w9.excused + {7});
    assert ClaimNext(w7, Retire(1), w8) && ClaimNext(w8, Queue(1), w9) && ClaimNext(w9, MarkExpired(1), w10);
    assert w10.workers == map[0 := Calling(FIRST), 1 := Listing] && w10.excused == {7};
    hide ClaimNext, CleanNext, SessionNext, OtherNext, Run;
    ws, es := Extend(ws, es, Retire(1), w8);
    ws, es := Extend(ws, es, Queue(1), w9);
    ws, es := Extend(ws, es, MarkExpired(1), w10);
  }

  /** It then replaces the claim, having found nothing to clean up. */
  lemma ReplaceStalled() returns (ws: seq<World>, es: seq<Event>)
    ensures Run(ws, es)
    ensures ws[|ws| - 1] == World(Some(SECOND), {}, map[], map[], {7, 8}, {7}, Some(1),
                                  map[0 := Calling(FIRST), 1 := Claimed(SECOND)])
  {
    ws, es := RetireStalled();
    var w10 := ws[|ws| - 1];
    var w11 := At(w10, 1, Cleaning({}));
    var w12 := At(w11, 1, Inserting);
    var w13 := At(w12, 1, Claimed(SECOND)).(row := Some(SECOND), issued := w12.issued + {8});
    assert CleanNext(w10, List(1, {}), w11) && CleanNext(w11, Cleaned(1), w12) && ClaimNext(w12, Insert(1, 8), w13);
    assert w13.workers == map[0 := Calling(FIRST), 1 := Claimed(SECOND)] && w13.issued == {7, 8};
    hide ClaimNext, CleanNext, SessionNext, OtherNext, Run;
    ws, es := Extend(ws, es, List(1, {}), w11);
    ws, es := Extend(ws, es, Cleaned(1), w12);
    ws, es := Extend(ws, es, Insert(1, 8), w13);
  }

  /** Why the window matters: a worker that stalls before its call while its claim is retired
      for its age can still create a session nobody will know of. */
  lemma RetiringForAgeCanLoseASession()
    ensures exists ws: seq<World>, es: seq<Event>, i: nat, id: Sid ::
              && Run(ws, es) && i < |ws| && Usable(ws[i], id) && id !in ws[i].cleanup
              && ws[i].row.Some? && ws[i].row.value.session != Some(id)
              && ws[i].row.value.token != ws[i].sessions[id].key
  {
    var ws, es := ReplaceStalled();
    var w13 := ws[|ws| - 1];
    var w14 := At(w13, 0, Answered(FIRST, 1)).(
      sessions := map[1 := Session(SessionStatus.Usable, 7)], keys := map[7 := 1]);
    var w15 := At(w14, 0, Idle);
    assert SessionNext(w13, Call(0, 1), w14) && OtherNext(w14, GiveUp(0), w15);
    hide ClaimNext, CleanNext, SessionNext, OtherNext, Run;
    ws, es := Extend(ws, es, Call(0, 1), w14);
    ws, es := Extend(ws, es, GiveUp(0), w15);
    assert Usable(ws[|ws| - 1], 1);
  }

  /** A webhook marks the claim of a stalled worker, whose call then goes through unrecorded. */
  lemma OvertakeWithWebhook() returns (ws: seq<World>, es: seq<Event>)
    ensures Run(ws, es)
    ensures ws[|ws| - 1].row == Some(FIRST.(status := Complete)) && ws[|ws| - 1].cleanup == {}
    ensures ws[|ws| - 1].sessions == map[1 := Session(SessionStatus.Usable, 7)]
    ensures forall k :: 0 <= k < |es| ==> !es[k].MarkExpired? && !es[k].ForgetKey?
  {
    ws, es := Stall();
    var w5 := ws[|ws| - 1];
    var w6 := w5.(row := Some(FIRST.(status := Complete)), excused := w5.excused + {7});
    var w7 := At(w6, 0, Answered(FIRST, 1)).(
      sessions := map[1 := Session(SessionStatus.Usable, 7)], keys := map[7 := 1]);
    var w8 := At(w7, 0, Idle);
    assert OtherNext(w5, Webhook, w6) && SessionNext(w6, Call(0, 1), w7) && OtherNext(w7, GiveUp(0), w8);
    hide ClaimNext, CleanNext, SessionNext, OtherNext, Run;
    ws, es := Extend(ws, es, Webhook, w6);
    ws, es := Extend(ws, es, Call(0, 1), w7);
    ws, es := Extend(ws, es, GiveUp(0), w8);
  }

  /** So the other excuse is needed as well. */
  lemma AWebhookCanLoseASession()
    ensures exists ws: seq<World>, es: seq<Event>, i: nat, id: Sid ::
              && Run(ws, es) && i < |ws| && Usable(ws[i], id) && !Known(ws[i], id)
              && (forall k :: 0 <= k < |es| ==> Ordinary(ws[k], es[k]) || es[k].Webhook?)
  {
    var ws, es := OvertakeWithWebhook();
    hide Next;
    assert Usable(ws[|ws| - 1], 1) && !Known(ws[|ws| - 1], 1);
    assert forall k :: 0 <= k < |es| ==> Ordinary(ws[k], es[k]) || es[k].Webhook?;
  }

  const OPENED := Claim(7, Some(1), Open)

  /** The worker that took over creates the session, */
  lemma CallAgain() returns (ws: seq<World>, es: seq<Event>)
    ensures Run(ws, es)
    ensures ws[|ws| - 1] ==
              World(Some(FIRST), {}, map[1 := Session(SessionStatus.Usable, 7)], map[7 := 1], {7}, {},
                    Some(1), map[0 := Calling(FIRST), 1 := Answered(FIRST, 1)])
    ensures forall k :: 0 <= k < |es| ==> !es[k].MarkExpired? && !es[k].Webhook? && !es[k].ForgetKey?
  {
    ws, es := LookAgain();
    var w7 := ws[|ws| - 1];
    var w8 := At(w7, 1, Calling(FIRST));
    var w9 := At(w8, 1, Answered(FIRST, 1)).(
      sessions := map[1 := Session(SessionStatus.Usable, 7)], keys := map[7 := 1]);
    assert ClaimNext(w7, GoCall(1), w8) && SessionNext(w8, Call(1, 1), w9);
    assert w9.workers == map[0 := Calling(FIRST), 1 := Answered(FIRST, 1)];
    hide ClaimNext, CleanNext, SessionNext, OtherNext, Run;
    ws, es := Extend(ws, es, GoCall(1), w8);
    ws, es := Extend(ws, es, Call(1, 1), w9);
  }

  /** and saves it; it ends unpaid while the first worker still stalls. */
  lemma OutliveTheSession() returns (ws: seq<World>, es: seq<Event>)
    ensures Run(ws, es)
    ensures ws[|ws| - 1] ==
              World(Some(OPENED), {}, map[1 := Session(SessionStatus.Ended, 7)], map[7 := 1], {7}, {},
                    Some(1), map[0 := Calling(FIRST), 1 := Idle])
    ensures forall k :: 0 <= k < |es| ==> !es[k].MarkExpired? && !es[k].Webhook? && !es[k].ForgetKey?
  {
    ws, es := CallAgain();
    var w9 := ws[|ws| - 1];
    var w10 := At(w9, 1, Idle).(row := Some(OPENED));
    var w11 := Ended(w10, 1);
    assert SessionNext(w9, Save(1, true), w10) && OtherNext(w10, ProviderExpires(1), w11);
    assert w11.workers == map[0 := Calling(FIRST), 1 := Idle];
    assert w11.sessions == map[1 := Session(SessionStatus.Ended, 7)];
    hide ClaimNext, CleanNext, SessionNext, OtherNext, Run;
    ws, es := Extend(ws, es, Save(1, true), w10);
    ws, es := Extend(ws, es, ProviderExpires(1), w11);
  }

  /** The provider forgets the key while the first worker can still call with it. */
  lemma ForgetInPlay() returns (ws: seq<World>, es: seq<Event>)
    ensures Run(ws, es)
    ensures var w := ws[|ws| - 1];
            && w.row == Some(OPENED) && w.cleanup == {} && 7 !in w.keys && 2 !in w.sessions
            && w.workers == map[0 := Calling(FIRST), 1 := Idle]
    ensures forall k :: 0 <= k < |es| ==> !es[k].MarkExpired? && !es[k].Webhook?
  {
    ws, es := OutliveTheSession();
    var w11 := ws[|ws| - 1];
    assert Caller(w11, 0, 7);
    var w12 := w11.(keys := w11.keys - {7}, excused := w11.excused + {7});
    assert OtherNext(w11, ForgetKey(7), w12);
    hide ClaimNext, CleanNext, SessionNext, OtherNext, Run, Caller;
    ws, es := Extend(ws, es, ForgetKey(7), w12);
  }

  /** Its call then creates a second session under that key. */
  lemma CallAfterForgetting() returns (ws: seq<World>, es: seq<Event>)
    ensures Run(ws, es)
    ensures ws[|ws| - 1].row == Some(OPENED) && ws[|ws| - 1].cleanup == {} && Usable(ws[|ws| - 1], 2)
    ensures forall k :: 0 <= k < |es| ==> !es[k].MarkExpired? && !es[k].Webhook?
  {
    ws, es := ForgetInPlay();
    var w12 := ws[|ws| - 1];
    var w13 := At(w12, 0, Answered(FIRST, 2)).(
      sessions := w12.sessions[2 := Session(SessionStatus.Usable, 7)], keys := w12.keys[7 := 2]);
    var w14 := At(w13, 0, Idle);
    assert SessionNext(w12, Call(0, 2), w13) && OtherNext(w13, GiveUp(0), w14);
    hide ClaimNext, CleanNext, SessionNext, OtherNext, Run;
    ws, es := Extend(ws, es, Call(0, 2), w13);
    ws, es := Extend(ws, es, GiveUp(0), w14);
  }

  /** So the third excuse is needed too. */
  lemma AForgottenKeyCanLoseASession()
    ensures exists ws: seq<World>, es: seq<Event>, i: nat, id: Sid ::
              && Run(ws, es) && i < |ws| && Usable(ws[i], id) && !Known(ws[i], id)
              && (forall k :: 0 <= k < |es| ==> Ordinary(ws[k], es[k]) || es[k].ForgetKey?)
  {
    var ws, es := CallAfterForgetting();
    hide Next;
    assert Usable(ws[|ws| - 1], 2) && !Known(ws[|ws| - 1], 2);
    assert forall k :: 0 <= k < |es| ==> Ordinary(ws[k], es[k]) || es[k].ForgetKey?;
  }

  lemma Extend(ws: seq<World>, es: seq<Event>, e: Event, w: World) returns (longer: seq<World>, events: seq<Event>)
    requires Run(ws, es) && Next(ws[|ws| - 1], e, w)
    ensures Run(longer, events) && longer[|longer| - 1] == w && longer == ws + [w] && events == es + [e]
  {
    longer, events := ws + [w], es + [e];
  }
}
