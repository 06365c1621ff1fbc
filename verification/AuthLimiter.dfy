/**
 The attempt limiter in front of sign-in: one counter per key, which counts refused attempts
 too, and a sweep that runs as part of whatever call comes along.
 */
module AuthLimiter {
  import opened Common

  datatype Bucket = Bucket(count: int, openedAt: int)

  // Times are in nanoseconds.
  const SWEEP_INTERVAL: int := 600_000_000_000
  const LONGEST: int := 3_600_000_000_000

  // ---- one attempt ----

  predicate Counting(buckets: map<string, Bucket>, key: string, window: int, now: int) {
    key in buckets && now - buckets[key].openedAt < window
  }

  /** The buckets after an attempt that does not sweep. */
  function Attempted(buckets: map<string, Bucket>, key: string, window: int, now: int): map<string, Bucket> {
    if Counting(buckets, key, window, now)
    then buckets[key := buckets[key].(count := buckets[key].count + 1)]
    else buckets[key := Bucket(1, now)]
  }

  /** A new bucket's first attempt is always allowed. */
  predicate Allowed(buckets: map<string, Bucket>, key: string, limit: int, window: int, now: int) {
    !Counting(buckets, key, window, now) || buckets[key].count + 1 <= limit
  }

  datatype State = State(buckets: map<string, Bucket>, lastSweep: int)

  function Swept(s: State, now: int): State {
    if now - s.lastSweep < SWEEP_INTERVAL then s
    else State(map key | key in s.buckets && now - s.buckets[key].openedAt <= LONGEST :: s.buckets[key], now)
  }

  class Limiter {
    var buckets: map<string, Bucket>
    var lastSweep: int

    function View(): State
      reads this
    {
      State(buckets, lastSweep)
    }

    constructor (lastSweep: int)
      ensures View() == State(map[], lastSweep)
    {
      buckets, this.lastSweep := map[], lastSweep;
    }

    /** Records an attempt and says whether it is within the limit. */
    method Allow(key: string, limit: int, window: int, now: int) returns (ok: bool)
      modifies this
      ensures var swept := Swept(old(View()), now);
              && ok == Allowed(swept.buckets, key, limit, window, now)
              && View() == State(Attempted(swept.buckets, key, window, now), swept.lastSweep)
    {
      Sweep(now);
      if key !in buckets || now - buckets[key].openedAt >= window {
        buckets := buckets[key := Bucket(1, now)];
        return true;
      }
      buckets := buckets[key := buckets[key].(count := buckets[key].count + 1)];
      ok := buckets[key].count <= limit;
    }

    method Reset(key: string)
      modifies this
      ensures View() == State(old(buckets) - {key}, old(lastSweep))
    {
      buckets := buckets - {key};
    }

    /** Drops the buckets no limit could still be counting. */
    method Sweep(now: int)
      modifies this
      ensures View() == Swept(old(View()), now)
      ensures now - old(lastSweep) < 600_000_000_000 ==> View() == old(View())
      ensures now - old(lastSweep) >= 600_000_000_000 ==>
                && lastSweep == now
                && (forall key :: key in buckets <==>
                      key in old(buckets) && now - old(buckets)[key].openedAt <= 3_600_000_000_000)
                && (forall key :: key in buckets ==> buckets[key] == old(buckets)[key])
    {
      if now - lastSweep < SWEEP_INTERVAL { return; }
      lastSweep := now;
      var keys := buckets.Keys;
      ghost var was := buckets;
      while keys != {}
        invariant keys <= was.Keys && lastSweep == now
        invariant forall key :: key in buckets <==> key in was && (key in keys || now - was[key].openedAt <= LONGEST)
        invariant forall key :: key in buckets ==> buckets[key] == was[key]
        decreases keys
      {
        var key := AnyOf(keys);
        keys := keys - {key};
        if now - buckets[key].openedAt > LONGEST { buckets := buckets - {key}; }
      }
      assert buckets == Swept(State(was, old(lastSweep)), now).buckets;
    }
  }

  // ---- runs ----

  datatype Event = Attempt(key: string, limit: int, window: int, now: int) | Reset(key: string, now: int)

  predicate InOrder(es: seq<Event>) { forall i, j :: 0 <= i < j < |es| ==> es[i].now <= es[j].now }

  /** The limiter as it is, sweeping from whatever time it last did. */
  function Sweeping(start: int, es: seq<Event>): State {
    if es == [] then State(map[], start)
    else
      var s := Sweeping(start, es[..|es| - 1]);
      match es[|es| - 1]
      case Reset(key, _) => s.(buckets := s.buckets - {key})
      case Attempt(key, _, window, now) =>
        var swept := Swept(s, now);
        swept.(buckets := Attempted(swept.buckets, key, window, now))
  }

  /** The limiter that never drops a bucket. */
  function Keeping(es: seq<Event>): map<string, Bucket> {
    if es == [] then map[]
    else
      var buckets := Keeping(es[..|es| - 1]);
      match es[|es| - 1]
      case Reset(key, _) => buckets - {key}
      case Attempt(key, _, window, now) => Attempted(buckets, key, window, now)
  }

  /** What has been dropped is too old to be counted by any window in use. */
  ghost predicate Agree(swept: map<string, Bucket>, kept: map<string, Bucket>, now: int) {
    && (forall key :: key in swept ==> key in kept && kept[key] == swept[key])
    && (forall key :: key in kept && key !in swept ==> now - kept[key].openedAt > LONGEST)
  }

  /** Windows no longer than the sweep allows for; one nanosecond more is still unobservable. */
  ghost predicate ShortWindows(es: seq<Event>) {
    forall i :: 0 <= i < |es| && es[i].Attempt? ==> es[i].window <= LONGEST + 1
  }

  lemma {:induction false} SweepingAgrees(start: int, es: seq<Event>, now: int)
    requires InOrder(es) && ShortWindows(es) && forall i :: 0 <= i < |es| ==> es[i].now <= now
    ensures Agree(Sweeping(start, es).buckets, Keeping(es), now)
  {
    if es != [] {
      var front, e := es[..|es| - 1], es[|es| - 1];
      SweepingAgrees(start, front, e.now);
    }
  }

  /** Sweeping changes no answer while no window is longer than the longest one. */
  lemma SweepIsUnobservable(start: int, es: seq<Event>, key: string, limit: int, window: int, now: int)
    requires InOrder(es) && ShortWindows(es) && window <= LONGEST + 1
    requires forall i :: 0 <= i < |es| ==> es[i].now <= now
    ensures Allowed(Swept(Sweeping(start, es), now).buckets, key, limit, window, now) ==
              Allowed(Keeping(es), key, limit, window, now)
  {
    SweepingAgrees(start, es, now);
  }

  /** A longer window is cut short by the sweep. */
  lemma SweepCutsLongerWindows(key: string, window: int)
    requires window > LONGEST + 1
    ensures var es := [Attempt(key, 1, window, 0)];
            var now := LONGEST + 1;
            && Allowed(Swept(Sweeping(0, es), now).buckets, key, 1, window, now)
            && !Allowed(Keeping(es), key, 1, window, now)
  {
    var es := [Attempt(key, 1, window, 0)];
    assert es[..0] == [];
    assert Keeping(es) == map[key := Bucket(1, 0)];
  }

  // ---- the bound ----

  /** Every attempt for this key has this limit and window, and nobody resets it. */
  predicate Fixed(es: seq<Event>, key: string, limit: int, window: int) {
    forall i :: 0 <= i < |es| && es[i].key == key ==> es[i].Attempt? && es[i].limit == limit && es[i].window == window
  }

  /** The attempts allowed for a key at times from t until before u. */
  function Passed(start: int, es: seq<Event>, key: string, t: int, u: int): nat {
    if es == [] then 0
    else
      var front, e := es[..|es| - 1], es[|es| - 1];
      var one := e.key == key && t <= e.now < u && Passes(Sweeping(start, front), e);
      Passed(start, front, key, t, u) + if one then 1 else 0
  }

  predicate Passes(s: State, e: Event) {
    e.Attempt? && Allowed(Swept(s, e.now).buckets, e.key, e.limit, e.window, e.now)
  }

  function Ceiling(limit: int): nat { if limit > 1 then limit else 1 }

  ghost predicate Accounts(buckets: map<string, Bucket>, key: string, limit: int, window: int, passed: nat,
          t: int, now: int) {
    && passed <= 2 * Ceiling(limit)
    && (now < t ==> passed == 0)
    && (key in buckets ==>
          var b := buckets[key];
          && b.count >= 1 && b.openedAt <= now
          && (b.openedAt < t ==> passed <= Min(b.count, Ceiling(limit)))
          && (t <= b.openedAt < t + window ==> passed <= Ceiling(limit) + Min(b.count, Ceiling(limit))))
    && (key !in buckets ==> passed == 0)
  }

  lemma {:induction false} PassedIsAccounted(start: int, es: seq<Event>, key: string, limit: int, window: int,
          t: int, now: int)
    requires InOrder(es) && ShortWindows(es) && Fixed(es, key, limit, window)
    requires forall i :: 0 <= i < |es| ==> es[i].now <= now
    ensures Accounts(Keeping(es), key, limit, window, Passed(start, es, key, t, t + window), t, now)
  {
    if es != [] {
      var front, e := es[..|es| - 1], es[|es| - 1];
      assert Fixed(front, key, limit, window);
      PassedIsAccounted(start, front, key, limit, window, t, e.now);
      if e.Attempt? { SweepIsUnobservable(start, front, e.key, e.limit, e.window, e.now); }
    }
  }

  /** Without resets, any stretch one window long allows at most twice the limit; a limit below
      one counts as one. */
  lemma AtMostTwiceTheLimit(start: int, es: seq<Event>, key: string, limit: int, window: int, t: int)
    requires InOrder(es) && ShortWindows(es) && Fixed(es, key, limit, window)
    ensures Passed(start, es, key, t, t + window) <= 2 * Ceiling(limit)
  {
    if es != [] { PassedIsAccounted(start, es, key, limit, window, t, es[|es| - 1].now); }
  }

  // ---- exactly which attempts pass ----

  /** Every attempt for this key has this limit and window. */
  predicate Uniform(es: seq<Event>, key: string, limit: int, window: int) {
    forall i :: 0 <= i < |es| && es[i].key == key && es[i].Attempt? ==> es[i].limit == limit && es[i].window == window
  }

  /** When the stretch began in which the key's next attempts are counted together: with the first
      attempt after a reset, or a window or more after the stretch before. */
  function Began(es: seq<Event>, key: string, window: int): Option<int> {
    if es == [] then None
    else
      var began, e := Began(es[..|es| - 1], key, window), es[|es| - 1];
      if e.key != key then began
      else if e.Reset? then None
      else if began.Some? && e.now < began.value + window then began
      else Some(e.now)
  }

  /** The key's attempts from time t on, since its last reset. */
  function Since(es: seq<Event>, key: string, t: int): nat {
    if es == [] then 0
    else
      var before, e := Since(es[..|es| - 1], key, t), es[|es| - 1];
      if e.key != key then before
      else if e.Reset? then 0
      else if t <= e.now then before + 1
      else before
  }

  /** Those that pass among them. */
  function PassedSince(start: int, es: seq<Event>, key: string, t: int): nat {
    if es == [] then 0
    else
      var front, e := es[..|es| - 1], es[|es| - 1];
      var before := PassedSince(start, front, key, t);
      if e.key != key then before
      else if e.Reset? then 0
      else if t <= e.now && Passes(Sweeping(start, front), e) then before + 1
      else before
  }

  /** What the bucket stands for. */
  lemma {:induction false} BucketTellsTheStretch(start: int, es: seq<Event>, key: string, limit: int, window: int)
    requires InOrder(es) && ShortWindows(es) && Uniform(es, key, limit, window) && window > 0
    ensures var began, buckets := Began(es, key, window), Keeping(es);
            && (key in buckets <==> began.Some?)
            && (forall t :: began.None? || t >= began.value + window ==>
                  Since(es, key, t) == 0 && PassedSince(start, es, key, t) == 0)
            && (began.Some? ==>
                  && es != [] && began.value <= es[|es| - 1].now
                  && buckets[key] == Bucket(Since(es, key, began.value), began.value)
                  && Since(es, key, began.value) > 0
                  && PassedSince(start, es, key, began.value) == Min(Since(es, key, began.value), Ceiling(limit)))
  {
    if es != [] {
      var front, e := es[..|es| - 1], es[|es| - 1];
      assert Uniform(front, key, limit, window);
      BucketTellsTheStretch(start, front, key, limit, window);
      if e.key == key && e.Attempt? {
        SweepIsUnobservable(start, front, key, limit, window, e.now);
      }
    }
  }

  /** Over every run, an attempt passes if and only if it begins a stretch of its own, or it is
      within the limit among the attempts of the stretch it falls into. */
  lemma AnAttemptPassesExactlyWhen(start: int, es: seq<Event>, e: Event)
    requires InOrder(es + [e]) && ShortWindows(es + [e]) && e.Attempt?
    requires Uniform(es, e.key, e.limit, e.window)
    ensures var began := Began(es, e.key, e.window);
            Passes(Sweeping(start, es), e) <==>
              began.None? || e.now >= began.value + e.window || Since(es, e.key, began.value) < e.limit
  {
    assert (es + [e])[|es|] == e;
    assert forall i :: 0 <= i < |es| ==> es[i] == (es + [e])[i];
    assert InOrder(es) && ShortWindows(es);
    SweepIsUnobservable(start, es, e.key, e.limit, e.window, e.now);
    if e.window > 0 {
      BucketTellsTheStretch(start, es, e.key, e.limit, e.window);
    } else {
      NothingIsAhead(es, e.key, e.window, e.now);
    }
  }

  lemma {:induction false} NothingIsAhead(es: seq<Event>, key: string, window: int, now: int)
    requires forall i :: 0 <= i < |es| ==> es[i].now <= now
    ensures Began(es, key, window).Some? ==> Began(es, key, window).value <= now
    ensures key in Keeping(es) ==> Keeping(es)[key].openedAt <= now
  {
    if es != [] { NothingIsAhead(es[..|es| - 1], key, window, now); }
  }

  /** So of the attempts in a stretch exactly as many pass as the limit allows, and one if it
      allows none. */
  lemma AStretchPassesExactly(start: int, es: seq<Event>, key: string, limit: int, window: int)
    requires InOrder(es) && ShortWindows(es) && Uniform(es, key, limit, window) && window > 0
    ensures var began := Began(es, key, window); began.Some? ==>
              && Since(es, key, began.value) > 0
              && PassedSince(start, es, key, began.value) ==
                   if limit < 1 then 1 else Min(Since(es, key, began.value), limit)
  {
    BucketTellsTheStretch(start, es, key, limit, window);
  }

  /** A limit of zero still lets the first attempt of every window through. */
  lemma ZeroLimitStillAllowsOne(key: string, window: int, now: int)
    ensures Allowed(map[], key, 0, window, now)
    ensures window > 0 ==> !Allowed(Attempted(map[], key, window, now), key, 0, window, now)
  {}
}
