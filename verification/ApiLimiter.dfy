/**
 The fixed-window limiter in front of the API: one counter per key, an hour at a time.

 Calls are taken in the order in which they hold the limiter's lock, each with the clock it
 read before taking it.
 */
module ApiLimiter {
  import opened Common

  datatype KeyId = KeyId(number: int)

  datatype Key = Key(id: KeyId, hourlyLimit: int)

  datatype Bucket = Bucket(count: int, windowEnds: int)

  datatype Decision = Decision(allowed: bool, limit: int, remaining: int, resetsAt: int)

  /** One hour in nanoseconds. */
  const WINDOW: int := 3_600_000_000_000

  const DEFAULT_HOURLY_LIMIT := 10_000

  const MAX_INT: int := 0x7FFF_FFFF_FFFF_FFFF

  /** Addition of machine integers. */
  function Plus(a: int, b: int): int {
    var sum := a + b;
    if sum > MAX_INT then sum - 2 * (MAX_INT + 1) else if sum < -MAX_INT - 1 then sum + 2 * (MAX_INT + 1) else sum
  }

  // ---- one call ----

  /** The bucket a call counts against. */
  function Window(buckets: map<KeyId, Bucket>, id: KeyId, now: int): Bucket {
    if id in buckets && now < buckets[id].windowEnds then buckets[id] else Bucket(0, now + WINDOW)
  }

  function Worth(cost: int): int { if cost < 1 then 1 else cost }

  function Admits(count: int, cost: int, limit: int): bool { Plus(count, Worth(cost)) <= limit }

  function Charged(buckets: map<KeyId, Bucket>, id: KeyId, limit: int, cost: int, now: int): map<KeyId, Bucket> {
    var b := Window(buckets, id, now);
    buckets[id := if Admits(b.count, cost, limit) then b.(count := Plus(b.count, Worth(cost))) else b]
  }

  function Decided(buckets: map<KeyId, Bucket>, id: KeyId, limit: int, cost: int, now: int): Decision {
    var b := Window(buckets, id, now);
    if Admits(b.count, cost, limit) then Decision(true, limit, Plus(limit, -Plus(b.count, Worth(cost))), b.windowEnds)
    else Decision(false, limit, Max(Plus(limit, -b.count), 0), b.windowEnds)
  }

  function Live(buckets: map<KeyId, Bucket>, now: int): map<KeyId, Bucket> {
    map id | id in buckets && now < buckets[id].windowEnds :: buckets[id]
  }

  class Limiter {
    var limit: int
    var buckets: map<KeyId, Bucket>

    /** A default that would allow nothing falls back to the shipped one. */
    constructor (limit: int)
      ensures this.limit == (if limit <= 0 then DEFAULT_HOURLY_LIMIT else limit) && buckets == map[]
    {
      this.limit := if limit <= 0 then DEFAULT_HOURLY_LIMIT else limit;
      buckets := map[];
    }

    function LimitFor(key: Option<Key>): int
      reads this
    {
      if key.Some? && key.value.hourlyLimit > 0 then key.value.hourlyLimit else limit
    }

    /** Counts a call: against the key's own limit when it has one, else the default; worth its
        cost, and one at least. Unless the sum leaves the machine's range, it is allowed exactly
        when the hour's count and its worth are within the limit, and is then counted. */
    method AllowN(key: Option<Key>, cost: int, now: int) returns (decision: Decision)
      modifies this`buckets
      ensures var id := if key.Some? then key.value.id else KeyId(0);
              && decision == Decided(old(buckets), id, LimitFor(key), cost, now)
              && buckets == Charged(old(buckets), id, LimitFor(key), cost, now)
      ensures decision.limit == if key.Some? && key.value.hourlyLimit > 0 then key.value.hourlyLimit else limit
      ensures var id := if key.Some? then key.value.id else KeyId(0);
              var live := id in old(buckets) && now < old(buckets)[id].windowEnds;
              var count := if live then old(buckets)[id].count else 0;
              var worth := if cost >= 1 then cost else 1;
              && id in buckets && buckets - {id} == old(buckets) - {id}
              && decision.resetsAt == buckets[id].windowEnds
              && buckets[id].windowEnds == (if live then old(buckets)[id].windowEnds else now + 3_600_000_000_000)
              && (0 <= count <= MAX_INT - worth && 0 <= decision.limit <= MAX_INT ==>
                    && (decision.allowed <==> count + worth <= decision.limit)
                    && buckets[id].count == (if decision.allowed then count + worth else count)
                    && decision.remaining == Max(decision.limit - buckets[id].count, 0))
    {
      hide Plus, Max;
      var worth := if cost < 1 then 1 else cost;
      var ceiling := limit;
      if key.Some? && key.value.hourlyLimit > 0 { ceiling := key.value.hourlyLimit; }
      var id := KeyId(0);
      if key.Some? { id := key.value.id; }
      if id !in buckets || !(now < buckets[id].windowEnds) {
        buckets := buckets[id := Bucket(0, now + WINDOW)];
      }
      var current := buckets[id];
      SumsInRange(current.count, worth, ceiling);
      if Plus(current.count, worth) > ceiling {
        return Decision(false, ceiling, Max(Plus(ceiling, -current.count), 0), current.windowEnds);
      }
      buckets := buckets[id := current.(count := Plus(current.count, worth))];
      return Decision(true, ceiling, Plus(ceiling, -Plus(current.count, worth)), current.windowEnds);
    }

    /** Drops the buckets whose window has passed. */
    method Sweep(now: int)
      modifies this`buckets
      ensures buckets == Live(old(buckets), now)
      ensures forall id :: id in buckets <==> id in old(buckets) && now < old(buckets)[id].windowEnds
      ensures forall id :: id in buckets ==> buckets[id] == old(buckets)[id]
    {
      var ids := buckets.Keys;
      ghost var was := buckets;
      while ids != {}
        invariant ids <= was.Keys
        invariant forall id :: id in buckets <==> id in was && (id in ids || now < was[id].windowEnds)
        invariant forall id :: id in buckets ==> buckets[id] == was[id]
        decreases ids
      {
        var id := AnyOf(ids);
        ids := ids - {id};
        if !(now < buckets[id].windowEnds) { buckets := buckets - {id}; }
      }
      assert buckets == Live(was, now);
    }
  }

  lemma SumsInRange(count: int, worth: int, limit: int)
    requires worth >= 1
    ensures 0 <= count <= MAX_INT - worth && 0 <= limit <= MAX_INT ==>
              && Plus(count, worth) == count + worth && Plus(limit, -count) == limit - count
              && (count + worth <= limit ==> Plus(limit, -Plus(count, worth)) == limit - (count + worth)
                                             == Max(limit - (count + worth), 0))
  {}

  // ---- wrap-around ----

  /** Machine addition gives what is congruent to the sum and fits in 64 bits. */
  lemma SumsWrap(a: int, b: int)
    requires -0x8000_0000_0000_0000 <= a < 0x8000_0000_0000_0000 && -0x8000_0000_0000_0000 <= b < 0x8000_0000_0000_0000
    ensures var sum := Plus(a, b);
            && -0x8000_0000_0000_0000 <= sum < 0x8000_0000_0000_0000
            && (sum - (a + b)) % 0x1_0000_0000_0000_0000 == 0
  {}

  /** The check is the one it looks like exactly when the sum stays in range. */
  lemma AdmitsExactlyWhen(count: int, cost: int, limit: int)
    requires 0 <= count <= MAX_INT && cost <= MAX_INT && 0 <= limit <= MAX_INT
    ensures (Admits(count, cost, limit) <==> count + Worth(cost) <= limit) <==> count + Worth(cost) <= MAX_INT
  {}

  /** A cost near the largest integer wraps, is allowed, and leaves the counter negative. */
  lemma AHugeCostIsAllowed(limit: int, now: int)
    requires 1 <= limit < MAX_INT
    ensures var one := Charged(map[], KeyId(7), limit, 1, now);
            && Decided(one, KeyId(7), limit, MAX_INT, now).allowed
            && Charged(one, KeyId(7), limit, MAX_INT, now)[KeyId(7)].count < 0
  {}

  // ---- what a decision promises ----

  /** Until the reset a later call is allowed exactly when it costs no more than what the
      decision said remained, and from the reset on when it costs no more than the limit. */
  lemma DecisionTellsTheTruth(buckets: map<KeyId, Bucket>, id: KeyId, limit: nat, cost: int, now: int, next: int,
          later: int)
    requires limit < MAX_INT && Worth(cost) <= MAX_INT - limit && Worth(next) <= MAX_INT - limit && now <= later
    requires id in buckets ==> 0 <= buckets[id].count <= limit
    ensures var decision := Decided(buckets, id, limit, cost, now);
            var allowed := Decided(Charged(buckets, id, limit, cost, now), id, limit, next, later).allowed;
            && now < decision.resetsAt && 0 <= decision.remaining <= limit
            && (later < decision.resetsAt ==> (allowed <==> Worth(next) <= decision.remaining))
            && (later >= decision.resetsAt ==> (allowed <==> Worth(next) <= limit))
  {}

  // ---- sweeping ----

  datatype Event = Call(id: KeyId, limit: int, cost: int, now: int) | Sweep(now: int)

  function Stepped(buckets: map<KeyId, Bucket>, e: Event): map<KeyId, Bucket> {
    match e
    case Call(id, limit, cost, now) => Charged(buckets, id, limit, cost, now)
    case Sweep(now) => Live(buckets, now)
  }

  function After(es: seq<Event>): map<KeyId, Bucket> {
    if es == [] then map[] else Stepped(After(es[..|es| - 1]), es[|es| - 1])
  }

  predicate InOrder(es: seq<Event>) { forall i, j :: 0 <= i < j < |es| ==> es[i].now <= es[j].now }

  function WithoutSweeps(es: seq<Event>): seq<Event> {
    if es == [] then []
    else
      var front := WithoutSweeps(es[..|es| - 1]);
      if es[|es| - 1].Sweep? then front else front + [es[|es| - 1]]
  }

  /** The same but for buckets nothing can count against any more. */
  ghost predicate SameLive(swept: map<KeyId, Bucket>, kept: map<KeyId, Bucket>, now: int) {
    && (forall id :: id in swept ==> id in kept && kept[id] == swept[id])
    && (forall id :: id in kept && id !in swept ==> kept[id].windowEnds <= now)
  }

  lemma {:induction false} SweepsKeepTheLive(es: seq<Event>, now: int)
    requires InOrder(es) && forall i :: 0 <= i < |es| ==> es[i].now <= now
    ensures SameLive(After(es), After(WithoutSweeps(es)), now)
  {
    if es != [] {
      var front, last := es[..|es| - 1], es[|es| - 1];
      SweepsKeepTheLive(front, last.now);
      assert After(es) == Stepped(After(front), last);
      if last.Call? {
        var filtered := WithoutSweeps(front);
        assert WithoutSweeps(es)[..|filtered|] == filtered;
        assert After(WithoutSweeps(es)) == Stepped(After(filtered), last);
      }
    }
  }

  /** Sweeps anywhere in a run change no decision. */
  lemma SweepsChangeNoDecision(es: seq<Event>, id: KeyId, limit: int, cost: int, now: int)
    requires InOrder(es) && forall i :: 0 <= i < |es| ==> es[i].now <= now
    ensures Decided(After(es), id, limit, cost, now) == Decided(After(WithoutSweeps(es)), id, limit, cost, now)
  {
    SweepsKeepTheLive(es, now);
  }

  // ---- sweeping with clocks that were read out of order ----

  /** The clock is read before the lock is taken, so a call may hold the lock after a sweep that
      read a later time. */
  function Before(es: seq<Event>, i: nat): map<KeyId, Bucket>
    requires i <= |es|
  {
    After(es[..i])
  }

  function Unswept(es: seq<Event>, i: nat): map<KeyId, Bucket>
    requires i <= |es|
  {
    After(WithoutSweeps(es[..i]))
  }

  /** A call whose clock was read before the end of a bucket that a sweep has dropped by then,
      unless that bucket is just like the one the call starts. */
  predicate Late(es: seq<Event>, i: nat)
    requires i < |es|
  {
    es[i].Call? && es[i].id !in Before(es, i) &&
    var kept := Unswept(es, i);
    es[i].id in kept && es[i].now < kept[es[i].id].windowEnds && kept[es[i].id] != Bucket(0, es[i].now + WINDOW)
  }

  predicate SameDecision(es: seq<Event>, i: nat)
    requires i < |es|
  {
    es[i].Call? ==>
      Decided(Before(es, i), es[i].id, es[i].limit, es[i].cost, es[i].now)
      == Decided(Unswept(es, i), es[i].id, es[i].limit, es[i].cost, es[i].now)
  }

  /** Limits are positive, and limits and costs are machine integers. */
  predicate Machine(es: seq<Event>) {
    forall i :: 0 <= i < |es| && es[i].Call? ==> 1 <= es[i].limit <= MAX_INT && es[i].cost <= MAX_INT
  }

  predicate InRange(buckets: map<KeyId, Bucket>) {
    forall id :: id in buckets ==> -MAX_INT - 1 <= buckets[id].count <= MAX_INT
  }

  /** Sweeping has dropped some buckets and changed none. */
  predicate Fewer(swept: map<KeyId, Bucket>, kept: map<KeyId, Bucket>) {
    forall id :: id in swept ==> id in kept && kept[id] == swept[id]
  }

  lemma OneMore(es: seq<Event>, i: nat)
    requires i < |es|
    ensures Before(es, i + 1) == Stepped(Before(es, i), es[i])
    ensures Unswept(es, i + 1) == if es[i].Sweep? then Unswept(es, i) else Stepped(Unswept(es, i), es[i])
  {
    var next, filtered := es[..i + 1], WithoutSweeps(es[..i]);
    assert next[..i] == es[..i];
    if !es[i].Sweep? { assert WithoutSweeps(next)[..|filtered|] == filtered; }
  }

  lemma {:induction false} FewerUntilLate(es: seq<Event>, i: nat)
    requires i <= |es| && Machine(es) && forall j: nat :: j < i ==> !Late(es, j)
    ensures Fewer(Before(es, i), Unswept(es, i)) && InRange(Unswept(es, i))
  {
    if i > 0 {
      FewerUntilLate(es, i - 1);
      OneMore(es, i - 1);
      assert !Late(es, i - 1);
      hide Before, Unswept, Plus;
      if es[i - 1].Call? { CallsKeepFewer(Before(es, i - 1), Unswept(es, i - 1), es[i - 1]); }
    }
  }

  lemma CallsKeepFewer(swept: map<KeyId, Bucket>, kept: map<KeyId, Bucket>, e: Event)
    requires e.Call? && 1 <= e.limit <= MAX_INT && e.cost <= MAX_INT && Fewer(swept, kept) && InRange(kept)
    requires e.id !in swept && e.id in kept && e.now < kept[e.id].windowEnds ==> kept[e.id] == Bucket(0, e.now + WINDOW)
    ensures Fewer(Stepped(swept, e), Stepped(kept, e)) && InRange(Stepped(kept, e))
  {}

  lemma LateCallsDiffer(swept: map<KeyId, Bucket>, kept: map<KeyId, Bucket>, e: Event)
    requires e.Call? && 1 <= e.limit <= MAX_INT && e.cost <= MAX_INT && InRange(kept)
    requires e.id !in swept && e.id in kept && e.now < kept[e.id].windowEnds && kept[e.id] != Bucket(0, e.now + WINDOW)
    ensures Decided(swept, e.id, e.limit, e.cost, e.now) != Decided(kept, e.id, e.limit, e.cost, e.now)
  {}

  /** Whatever clocks were read, sweeping changes no decision of a run exactly when no call in it
      is late. */
  lemma SweepsChangeNoDecisionExactlyWhen(es: seq<Event>)
    requires Machine(es)
    ensures (forall i: nat :: i < |es| ==> SameDecision(es, i)) <==> (forall i: nat :: i < |es| ==> !Late(es, i))
  {
    if forall i: nat :: i < |es| ==> !Late(es, i) {
      forall i: nat | i < |es|
        ensures SameDecision(es, i)
      {
        FewerUntilLate(es, i);
        assert !Late(es, i);
      }
    } else {
      var late: nat :| late < |es| && Late(es, late);
      var first := FirstLate(es, late);
      FewerUntilLate(es, first);
      LateCallsDiffer(Before(es, first), Unswept(es, first), es[first]);
      assert !SameDecision(es, first);
    }
  }

  lemma {:induction false} FirstLate(es: seq<Event>, i: nat) returns (first: nat)
    requires i < |es| && Late(es, i)
    ensures first < |es| && Late(es, first) && forall j: nat :: j < first ==> !Late(es, j)
  {
    hide Late;
    first := i;
    if earlier: nat :| earlier < i && Late(es, earlier) { first := FirstLate(es, earlier); }
  }

  /** A limit of one is spent, the hour passes and a sweep runs; a call that read its clock just
      before is then allowed a second time in the same hour. */
  lemma ALateCallIsAllowedAgain(id: KeyId, now: int)
    ensures var es := [Call(id, 1, 1, now), Sweep(now + WINDOW), Call(id, 1, 1, now + WINDOW - 1)];
            Late(es, 2) && Decided(Before(es, 2), id, 1, 1, now + WINDOW - 1).allowed
            && !Decided(Unswept(es, 2), id, 1, 1, now + WINDOW - 1).allowed
  {
    var es := [Call(id, 1, 1, now), Sweep(now + WINDOW), Call(id, 1, 1, now + WINDOW - 1)];
    OneMore(es, 0);
    OneMore(es, 1);
    assert es[..0] == [] && Before(es, 0) == map[] && Unswept(es, 0) == map[];
    assert Unswept(es, 1)[id] == Bucket(1, now + WINDOW) && Before(es, 1)[id] == Bucket(1, now + WINDOW);
  }

  // ---- the bound ----

  /** Every call for this key has this limit, and no cost makes the sum wrap. */
  predicate Fixed(es: seq<Event>, id: KeyId, limit: int) {
    forall i :: 0 <= i < |es| && es[i].Call? && es[i].id == id ==>
        es[i].limit == limit && Worth(es[i].cost) <= MAX_INT - limit
  }

  /** The cost allowed for a key at times from t until before u. */
  function Spent(es: seq<Event>, id: KeyId, t: int, u: int): int {
    if es == [] then 0
    else
      var front, e := es[..|es| - 1], es[|es| - 1];
      Spent(front, id, t, u) +
      if e.Call? && e.id == id && t <= e.now < u && Decided(After(front), id, e.limit, e.cost, e.now).allowed
      then Worth(e.cost) else 0
  }

  /** What a bucket says about the cost allowed since t, one window long. */
  ghost predicate Accounts(buckets: map<KeyId, Bucket>, id: KeyId, limit: nat, spent: int, t: int, now: int) {
    && 0 <= spent <= 2 * limit
    && (now < t ==> spent == 0)
    && (id in buckets ==>
          && 0 <= buckets[id].count <= limit
          && var began := buckets[id].windowEnds - WINDOW;
             && began <= now && (began < t ==> spent <= buckets[id].count)
             && (t <= began < t + WINDOW ==> spent <= limit + buckets[id].count))
    && (id !in buckets ==> spent <= limit || t + WINDOW <= now)
  }

  lemma {:induction false} SpentIsAccounted(es: seq<Event>, id: KeyId, limit: nat, t: int, now: int)
    requires limit <= MAX_INT && InOrder(es) && Fixed(es, id, limit)
    requires forall i :: 0 <= i < |es| ==> es[i].now <= now
    ensures Accounts(After(es), id, limit, Spent(es, id, t, t + WINDOW), t, now)
  {
    if es != [] {
      var front, e := es[..|es| - 1], es[|es| - 1];
      assert Fixed(front, id, limit);
      SpentIsAccounted(front, id, limit, t, e.now);
      if e.Call? && e.id == id {
        CallIsAccounted(After(front), id, limit, e.cost, Spent(front, id, t, t + WINDOW), t, e.now);
      }
    }
  }

  lemma CallIsAccounted(buckets: map<KeyId, Bucket>, id: KeyId, limit: nat, cost: int, spent: int, t: int, now: int)
    requires limit <= MAX_INT && Worth(cost) <= MAX_INT - limit
    requires Accounts(buckets, id, limit, spent, t, now)
    ensures var inside := t <= now < t + WINDOW && Decided(buckets, id, limit, cost, now).allowed;
            var more := if inside then Worth(cost) else 0;
            Accounts(Charged(buckets, id, limit, cost, now), id, limit, spent + more, t, now)
  {}

  /** Any stretch one window long allows at most twice the limit. */
  lemma AtMostTwiceTheLimit(es: seq<Event>, id: KeyId, limit: nat, t: int)
    requires limit <= MAX_INT && InOrder(es) && Fixed(es, id, limit)
    ensures Spent(es, id, t, t + WINDOW) <= 2 * limit
  {
    if es != [] { SpentIsAccounted(es, id, limit, t, es[|es| - 1].now); }
  }

  /** And one bucket's own window allows at most the limit: the cost since it opened is exactly
      its count. */
  lemma {:induction false} OneBucketAllowsTheLimit(es: seq<Event>, id: KeyId, limit: nat)
    requires limit <= MAX_INT && InOrder(es) && Fixed(es, id, limit)
    ensures var buckets := After(es); id in buckets ==>
              var b := buckets[id];
              && 0 <= Spent(es, id, b.windowEnds - WINDOW, b.windowEnds) == b.count <= limit
              && es != [] && b.windowEnds - WINDOW <= es[|es| - 1].now
  {
    if es != [] {
      var front, e := es[..|es| - 1], es[|es| - 1];
      assert Fixed(front, id, limit);
      OneBucketAllowsTheLimit(front, id, limit);
      if e.Call? && e.id == id {
        var b := Window(After(front), id, e.now);
        if !(id in After(front) && e.now < After(front)[id].windowEnds) {
          SpentInALiveBucket(front, id, e.now, e.now + WINDOW);
          assert After(es)[id].windowEnds - WINDOW == e.now;
        }
      }
    }
  }

  /** Anything spent at the latest time was spent in a bucket that is still live. */
  lemma {:induction false} SpentInALiveBucket(es: seq<Event>, id: KeyId, t: int, u: int)
    requires forall i :: 0 <= i < |es| ==> es[i].now <= t
    ensures Spent(es, id, t, u) != 0 ==> id in After(es) && t < After(es)[id].windowEnds
  {
    if es != [] { SpentInALiveBucket(es[..|es| - 1], id, t, u); }
  }
}
