/**
 The claim on one webhook delivery: which worker may run its handler, and which of them may
 record what it decided.
 */
module EventClaims {
  import opened Common

  datatype Outcome = Unhandled | Processing | Applied | Ignored | Error

  datatype Entry = Entry(outcome: Outcome, handledAt: int)

  /** Seconds. */
  const LEASE: int := 300

  /** A claim is open to a new event, a failed one, and one whose worker has gone quiet. The
      statement is given a lease's cut-off read after the start stamp. */
  predicate MayClaim(entry: Option<Entry>, later: int) {
    || entry.None? || entry.value.outcome.Unhandled? || entry.value.outcome.Error?
    || (entry.value.outcome.Processing? && entry.value.handledAt <= later - LEASE)
  }

  predicate MayFinish(entry: Option<Entry>, startedAt: int) {
    entry == Some(Entry(Processing, startedAt))
  }

  datatype EventClaim = Claimed(startedAt: int) | InProgress | Duplicate

  /** What a delivery answers its sender. */
  datatype Reply = Handled(outcome: Outcome) | AlreadyHandled | TryAgain

  class EventLog {
    var entries: map<string, Entry>

    constructor ()
      ensures entries == map[]
    {
      entries := map[];
    }

    function Of(id: string): Option<Entry>
      reads this
    {
      if id in entries then Some(entries[id]) else None
    }

    /** Records a delivery and claims it in one statement. */
    method ClaimEvent(id: string, now: int, later: int) returns (claim: EventClaim)
      modifies this
      ensures claim.Claimed? <==> MayClaim(old(Of(id)), later)
      ensures claim.Claimed? <==>
                id !in old(entries) ||
                var entry := old(entries)[id];
                || entry.outcome.Unhandled? || entry.outcome.Error?
                || (entry.outcome.Processing? && entry.handledAt <= later - 300)
      ensures claim.Claimed? ==> claim.startedAt == now && entries == old(entries)[id := Entry(Processing, now)]
      ensures !claim.Claimed? ==> entries == old(entries)
      ensures claim.InProgress? ==> old(Of(id)).value.outcome.Processing?
      ensures claim.Duplicate? ==> old(Of(id)).value.outcome.Applied? || old(Of(id)).value.outcome.Ignored?
    {
      if MayClaim(Of(id), later) {
        entries := entries[id := Entry(Processing, now)];
        return Claimed(now);
      }
      claim := if entries[id].outcome.Processing? then InProgress else Duplicate;
    }

    /** Records what the handler decided, if the claim is still this worker's. */
    method FinishEvent(id: string, startedAt: int, outcome: Outcome, now: int) returns (ok: bool)
      modifies this
      ensures ok <==> MayFinish(old(Of(id)), startedAt)
      ensures ok <==> id in old(entries) && old(entries)[id] == Entry(Processing, startedAt)
      ensures entries == if ok then old(entries)[id := Entry(outcome, now)] else old(entries)
    {
      ok := MayFinish(Of(id), startedAt);
      if ok { entries := entries[id := Entry(outcome, now)]; }
    }

    /** One delivery from claim to answer, with nobody else at work on it; decided is what the
        handler comes to. */
    method Handle(id: string, now: int, later: int, decided: Outcome, end: int) returns (reply: Reply)
      requires decided.Applied? || decided.Ignored? || decided.Error?
      modifies this
      ensures MayClaim(old(Of(id)), later) ==>
                && entries == old(entries)[id := Entry(decided, end)]
                && reply == if decided.Error? then TryAgain else Handled(decided)
      ensures !MayClaim(old(Of(id)), later) ==>
                && entries == old(entries)
                && reply == if old(Of(id)).value.outcome.Processing? then TryAgain else AlreadyHandled
    {
      var claim := ClaimEvent(id, now, later);
      match claim {
        case Claimed(startedAt) =>
          var ok := FinishEvent(id, startedAt, decided, end);
          if !ok || decided.Error? { return TryAgain; }
          return Handled(decided);
        case InProgress => return TryAgain;
        case Duplicate => return AlreadyHandled;
      }
    }
  }

  // ---- runs over one event ----

  /** A worker's claim; it is over once the worker has tried to finish. */
  datatype Claim = Claim(startedAt: int, over: bool)

  /** The row, the claims handed out so far, who was last given it, and the time; what a machine
      reads as the time may be anything. */
  datatype World = World(entry: Option<Entry>, claims: map<nat, Claim>, holder: Option<nat>, clock: int)

  datatype Event =
    | Tick(now: int)
    | Take(claim: nat, now: int, later: int)      // the two stamps its machine read
    | Finish(claim: nat, outcome: Outcome, now: int)

  ghost predicate Next(w: World, e: Event, w': World) {
    match e
    case Tick(now) => w.clock <= now && w' == w.(clock := now)
    case Take(claim, now, later) =>
      && claim !in w.claims
      && w' == if MayClaim(w.entry, later)
               then w.(entry := Some(Entry(Processing, now)),
                       claims := w.claims[claim := Claim(now, false)],
                       holder := Some(claim))
               else w
    case Finish(claim, outcome, now) =>
      && claim in w.claims && !w.claims[claim].over
      && (outcome.Applied? || outcome.Ignored? || outcome.Error?)
      && w' == w.(claims := w.claims[claim := w.claims[claim].(over := true)],
                  entry := if MayFinish(w.entry, w.claims[claim].startedAt) then Some(Entry(outcome, now)) else w.entry)
  }

  /** A claim whose finish would be recorded now. */
  predicate CanFinish(w: World, claim: nat) {
    claim in w.claims && !w.claims[claim].over && MayFinish(w.entry, w.claims[claim].startedAt)
  }

  /** A granted claim takes a stamp of its own: no claim still open has it. */
  predicate TakesItsOwnStamp(w: World, e: Event) {
    e.Take? && e.claim !in w.claims && MayClaim(w.entry, e.later) ==>
      forall c :: c in w.claims && !w.claims[c].over ==> w.claims[c].startedAt != e.now
  }

  ghost predicate OwnStamps(ws: seq<World>, es: seq<Event>)
    requires |ws| == |es| + 1
  {
    forall i :: 0 <= i < |es| ==> TakesItsOwnStamp(ws[i], es[i])
  }

  ghost predicate Run(ws: seq<World>, es: seq<Event>) {
    && |ws| == |es| + 1 && ws[0].entry == None && ws[0].claims == map[] && ws[0].holder == None
    && forall i :: 0 <= i < |es| ==> Next(ws[i], es[i], ws[i + 1])
  }

  /** At most one claim could be finished now. */
  ghost predicate OneAtMost(w: World) { forall a, b :: CanFinish(w, a) && CanFinish(w, b) ==> a == b }

  /** Open claims have stamps of their own, and a row being processed is its holder's. */
  ghost predicate Apart(w: World) {
    && (forall a, b :: a in w.claims && b in w.claims && !w.claims[a].over && !w.claims[b].over && a != b ==>
          w.claims[a].startedAt != w.claims[b].startedAt)
    && (w.entry.Some? && w.entry.value.outcome.Processing? ==>
          w.holder.Some? && CanFinish(w, w.holder.value))
  }

  lemma StepKeepsApart(w: World, e: Event, w': World)
    requires Apart(w) && Next(w, e, w') && TakesItsOwnStamp(w, e)
    ensures Apart(w')
    ensures forall c :: c in w.claims && w.holder != Some(c) ==> c in w'.claims && w'.holder != Some(c)
  {}

  lemma {:induction false} RunKeepsApart(ws: seq<World>, es: seq<Event>, i: nat)
    requires Run(ws, es) && i < |ws| && forall k :: 0 <= k < i ==> TakesItsOwnStamp(ws[k], es[k])
    ensures Apart(ws[i])
  {
    if i > 0 {
      RunKeepsApart(ws, es, i - 1);
      assert Next(ws[i - 1], es[i - 1], ws[i - 1 + 1]);
      StepKeepsApart(ws[i - 1], es[i - 1], ws[i]);
    }
  }

  lemma SharedStampLetsTwoFinish(w: World, e: Event, w': World)
    requires Next(w, e, w') && !TakesItsOwnStamp(w, e)
    ensures !OneAtMost(w')
  {
    var c :| c in w.claims && !w.claims[c].over && w.claims[c].startedAt == e.now;
    assert CanFinish(w', c) && CanFinish(w', e.claim);
  }

  /** Over a whole run at most one claim can be finished at any time exactly when no granted claim
      took the stamp of one still open. */
  lemma OneClaimantCanFinishExactlyWhen(ws: seq<World>, es: seq<Event>)
    requires Run(ws, es)
    ensures OwnStamps(ws, es) <==> forall n :: 0 <= n < |ws| ==> OneAtMost(ws[n])
  {
    if OwnStamps(ws, es) {
      forall n | 0 <= n < |ws| ensures OneAtMost(ws[n]) { RunKeepsApart(ws, es, n); }
    } else {
      var i :| 0 <= i < |es| && !TakesItsOwnStamp(ws[i], es[i]);
      assert Next(ws[i], es[i], ws[i + 1]);
      SharedStampLetsTwoFinish(ws[i], es[i], ws[i + 1]);
    }
  }

  lemma {:induction false} NeverHolderAgain(ws: seq<World>, es: seq<Event>, i: nat, j: nat, claim: nat)
    requires Run(ws, es) && OwnStamps(ws, es) && i <= j < |ws|
    requires claim in ws[i].claims && ws[i].holder != Some(claim)
    ensures claim in ws[j].claims && ws[j].holder != Some(claim)
    decreases j
  {
    if i < j {
      NeverHolderAgain(ws, es, i, j - 1, claim);
      RunKeepsApart(ws, es, j - 1);
      assert Next(ws[j - 1], es[j - 1], ws[j - 1 + 1]);
      StepKeepsApart(ws[j - 1], es[j - 1], ws[j]);
    }
  }

  /** And then a worker whose claim was taken over can never record anything again. */
  lemma ReclaimedNeverFinishes(ws: seq<World>, es: seq<Event>, i: nat, j: nat, claim: nat)
    requires Run(ws, es) && OwnStamps(ws, es) && i <= j < |ws|
    requires claim in ws[i].claims && ws[i].holder != Some(claim)
    ensures !CanFinish(ws[j], claim)
  {
    NeverHolderAgain(ws, es, i, j, claim);
    RunKeepsApart(ws, es, j);
  }

  // ---- prompt claims take stamps of their own ----

  /** A claim statement runs within a lease of reading its start stamp, on a machine that is not
      ahead of the others. */
  predicate Prompt(w: World, e: Event) { e.Take? ==> e.now <= e.later <= w.clock < e.now + LEASE }

  /** A claim that lost the row did so at least a lease after its stamp. */
  ghost predicate Overdue(w: World) {
    && (w.holder.Some? ==> w.holder.value in w.claims)
    && (w.holder.Some? && !w.claims[w.holder.value].over ==> MayFinish(w.entry, w.claims[w.holder.value].startedAt))
    && (w.entry.Some? && w.entry.value.outcome.Processing? ==>
          && w.holder.Some? && !w.claims[w.holder.value].over
          && w.claims[w.holder.value].startedAt == w.entry.value.handledAt)
    && (forall c :: c in w.claims && !w.claims[c].over && w.holder != Some(c) ==>
          w.claims[c].startedAt + LEASE <= w.clock && !MayFinish(w.entry, w.claims[c].startedAt))
  }

  lemma PromptStep(w: World, e: Event, w': World)
    requires Overdue(w) && Next(w, e, w') && Prompt(w, e)
    ensures Overdue(w') && TakesItsOwnStamp(w, e)
  {}

  lemma {:induction false} PromptRun(ws: seq<World>, es: seq<Event>, i: nat)
    requires Run(ws, es) && (forall k :: 0 <= k < |es| ==> Prompt(ws[k], es[k])) && i < |ws|
    ensures Overdue(ws[i])
  {
    if i > 0 {
      PromptRun(ws, es, i - 1);
      assert Next(ws[i - 1], es[i - 1], ws[i - 1 + 1]);
      PromptStep(ws[i - 1], es[i - 1], ws[i]);
    }
  }

  /** So it is enough that the machines share a clock and every claim statement runs promptly. */
  lemma PromptClaimsTakeTheirOwnStamps(ws: seq<World>, es: seq<Event>)
    requires Run(ws, es) && forall k :: 0 <= k < |es| ==> Prompt(ws[k], es[k])
    ensures OwnStamps(ws, es)
  {
    forall i | 0 <= i < |es| ensures TakesItsOwnStamp(ws[i], es[i]) {
      PromptRun(ws, es, i);
      assert Next(ws[i], es[i], ws[i + 1]);
      PromptStep(ws[i], es[i], ws[i + 1]);
    }
  }

  // ---- nothing is recorded twice ----

  predicate Recorded(entry: Option<Entry>) {
    entry.Some? && (entry.value.outcome.Applied? || entry.value.outcome.Ignored?)
  }

  /** An event recorded as applied or ignored stays exactly as recorded, so it is recorded as
      applied at most once; this needs nothing of the clocks. */
  lemma {:induction false} RecordedForGood(ws: seq<World>, es: seq<Event>, i: nat, j: nat)
    requires Run(ws, es) && i <= j < |ws| && Recorded(ws[i].entry)
    ensures ws[j].entry == ws[i].entry
    ensures forall c :: !CanFinish(ws[j], c)
    decreases j
  {
    if i < j {
      RecordedForGood(ws, es, i, j - 1);
      assert Next(ws[j - 1], es[j - 1], ws[j - 1 + 1]);
    }
  }

  // ---- which deliveries are claimed ----

  /** The i-th event is a delivery that was given the claim. */
  predicate Granted(ws: seq<World>, es: seq<Event>, i: nat)
    requires |ws| == |es| + 1 && i < |es|
  {
    es[i].Take? && es[i].claim !in ws[i].claims && es[i].claim in ws[i + 1].claims
  }

  /** The last delivery that was, among the first n events. */
  function LastGrant(ws: seq<World>, es: seq<Event>, n: nat): (l: Option<nat>)
    requires |ws| == |es| + 1 && n <= |es|
    ensures l.Some? ==> l.value < n && Granted(ws, es, l.value)
  {
    if n == 0 then None else if Granted(ws, es, n - 1) then Some(n - 1) else LastGrant(ws, es, n - 1)
  }

  /** When the worker of the l-th event reported, if it did among the first n. */
  function Report(es: seq<Event>, l: nat, n: nat): (f: Option<nat>)
    requires l < n <= |es| && es[l].Take?
    ensures f.Some? ==> l < f.value < n && es[f.value].Finish?
    decreases n
  {
    if n == l + 1 then None
    else if es[n - 1].Finish? && es[n - 1].claim == es[l].claim then Some(n - 1)
    else Report(es, l, n - 1)
  }

  /** The row as the first n events tell it. */
  ghost predicate EntryTold(ws: seq<World>, es: seq<Event>, n: nat)
    requires |ws| == |es| + 1 && n <= |es|
  {
    match LastGrant(ws, es, n)
    case None => ws[n].entry == None
    case Some(l) =>
      var mine, report := es[l].claim, Report(es, l, n);
      && mine in ws[n].claims && ws[n].claims[mine] == Claim(es[l].now, report.Some?)
      && ws[n].entry == Some(if report.None? then Entry(Processing, es[l].now)
                             else Entry(es[report.value].outcome, es[report.value].now))
      && (report.Some? ==> !es[report.value].outcome.Processing? && !es[report.value].outcome.Unhandled?)
      && (report.None? ==> forall c :: c in ws[n].claims && c != mine && !ws[n].claims[c].over ==>
                             ws[n].claims[c].startedAt != es[l].now)
  }

  lemma {:induction false} EventsTellTheEntry(ws: seq<World>, es: seq<Event>, n: nat)
    requires Run(ws, es) && OwnStamps(ws, es) && n <= |es|
    ensures EntryTold(ws, es, n)
  {
    if n > 0 {
      EventsTellTheEntry(ws, es, n - 1);
      assert Next(ws[n - 1], es[n - 1], ws[n - 1 + 1]) && TakesItsOwnStamp(ws[n - 1], es[n - 1]);
    }
  }

  /** While granted claims take stamps of their own: a delivery is given the claim if and only if
      none was yet, or the worker last given it reported a failure, or has not reported and took
      its start stamp a lease or more before this one's cut-off. */
  lemma ADeliveryIsClaimedExactlyWhen(ws: seq<World>, es: seq<Event>, i: nat)
    requires Run(ws, es) && OwnStamps(ws, es) && i < |es| && es[i].Take?
    ensures Granted(ws, es, i) <==>
              match LastGrant(ws, es, i)
              case None => true
              case Some(l) =>
                match Report(es, l, i)
                case None => es[l].now <= es[i].later - 300
                case Some(f) => es[f].outcome.Error?
  {
    EventsTellTheEntry(ws, es, i);
    assert Next(ws[i], es[i], ws[i + 1]);
  }

  // ---- two runs in which two workers may finish ----

  ghost predicate TwoMayFinish(ws: seq<World>, es: seq<Event>) { Run(ws, es) && !OneAtMost(ws[|ws| - 1]) }

  /** A worker that stalls for a whole lease between reading its stamp and its cut-off takes over
      with the stamp of the worker it replaces. */
  lemma StalledTakeoverSharesTheStamp()
    ensures exists ws: seq<World>, es: seq<Event> :: TwoMayFinish(ws, es) && es[|es| - 1] == Take(1, 100, 400)
  {
    var w0 := World(None, map[], None, 100);
    var w1 := World(Some(Entry(Processing, 100)), map[0 := Claim(100, false)], Some(0), 100);
    var w2 := w1.(clock := 400);
    var w3 := World(Some(Entry(Processing, 100)), map[0 := Claim(100, false), 1 := Claim(100, false)], Some(1), 400);
    var ws, es := [w0, w1, w2, w3], [Take(0, 100, 100), Tick(400), Take(1, 100, 400)];
    assert Next(w0, es[0], w1) && Next(w1, es[1], w2) && Next(w2, es[2], w3);
    assert Run(ws, es);
    assert CanFinish(ws[3], 0) && CanFinish(ws[3], 1);
    assert TwoMayFinish(ws, es);
  }

  /** A worker that reads both clocks at once and stalls before its statement can claim a failed
      event with a stamp that an even older, silent worker still has. */
  lemma StalledRetakeSharesTheStamp()
    ensures exists ws: seq<World>, es: seq<Event> :: TwoMayFinish(ws, es) && es[|es| - 1] == Take(2, 100, 100)
  {
    var w0 := World(None, map[], None, 100);
    var w1 := World(Some(Entry(Processing, 100)), map[0 := Claim(100, false)], Some(0), 100);
    var w2 := w1.(clock := 402);
    var w3 := World(Some(Entry(Processing, 402)), map[0 := Claim(100, false), 1 := Claim(402, false)], Some(1), 402);
    var w4 := World(Some(Entry(Error, 402)), map[0 := Claim(100, false), 1 := Claim(402, true)], Some(1), 402);
    var w5 := World(Some(Entry(Processing, 100)),
                    map[0 := Claim(100, false), 1 := Claim(402, true), 2 := Claim(100, false)], Some(2), 402);
    var ws := [w0, w1, w2, w3, w4, w5];
    var es := [Take(0, 100, 100), Tick(402), Take(1, 402, 402), Finish(1, Error, 402), Take(2, 100, 100)];
    assert Next(w0, es[0], w1) && Next(w1, es[1], w2);
    assert Next(w2, es[2], w3) && Next(w3, es[3], w4) && Next(w4, es[4], w5);
    assert Run(ws, es);
    assert CanFinish(ws[5], 0) && CanFinish(ws[5], 2);
    assert TwoMayFinish(ws, es);
  }
}
