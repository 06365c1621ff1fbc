/**
 The record of reversible provider changes: subscriptions paused and invoices kept from
 advancing while an account's deletion is checked, each written down before it is made and
 forgotten after it is undone.
 */
module Quiescence {
  import opened Common

  type Wid = nat

  datatype Object = Subscription(id: string) | Invoice(id: string)

  // ---- the record and the provider, one change at a time ----

  /** Durable rows, and what is held back at the provider. */
  datatype Ledger = Ledger(rows: set<Object>, held: set<Object>)

  /** Remember and Forget are statements; Hold and Undo are calls to the provider. */
  datatype Change = Remember(item: Object) | Hold(item: Object) | Undo(item: Object) | Forget(item: Object)

  function Applied(ledger: Ledger, change: Change): Ledger {
    match change
    case Remember(item) => ledger.(rows := ledger.rows + {item})
    case Hold(item) => ledger.(held := ledger.held + {item})
    case Undo(item) => ledger.(held := ledger.held - {item})
    case Forget(item) => ledger.(rows := ledger.rows - {item})
  }

  function AppliedAll(ledger: Ledger, changes: seq<Change>): Ledger {
    if changes == [] then ledger else Applied(AppliedAll(ledger, changes[..|changes| - 1]), changes[|changes| - 1])
  }

  lemma AppliedNone(ledger: Ledger)
    ensures AppliedAll(ledger, []) == ledger
  {}

  lemma OneMore(ledger: Ledger, changes: seq<Change>, change: Change)
    ensures AppliedAll(ledger, changes + [change]) == Applied(AppliedAll(ledger, changes), change)
  {
    assert (changes + [change])[..|changes|] == changes;
  }

  // ---- one worker ----

  /** What the provider and the lease answer while one object is dealt with. */
  datatype Answer = LeaseLost | CallFailed | NotFound | Fine

  class Account {
    var rows: set<Object>
    /** What the provider holds back: paused, or not advancing. */
    var blocked: set<Object>
    /** Every statement and call made, in order. */
    ghost var log: seq<Change>

    function View(): Ledger
      reads `rows, `blocked
    {
      Ledger(rows, blocked)
    }

    constructor (blocked: set<Object>)
      ensures View() == Ledger({}, blocked) && log == []
    {
      rows, this.blocked, log := {}, blocked, [];
    }

    method RememberQuiescence(item: Object)
      modifies `rows, `log
      ensures View() == Applied(old(View()), Remember(item)) && log == old(log) + [Remember(item)]
    {
      rows, log := rows + {item}, log + [Remember(item)];
    }

    /** Removes exactly one row; there must be one. */
    method ForgetQuiescenceObject(item: Object) returns (ok: bool)
      modifies `rows, `log
      ensures ok <==> item in old(rows)
      ensures View() == Applied(old(View()), Forget(item)) && log == old(log) + [Forget(item)]
    {
      ok := item in rows;
      rows, log := rows - {item}, log + [Forget(item)];
    }

    /** Pauses a subscription, or stops an invoice from advancing. */
    method HoldBack(item: Object)
      modifies `blocked, `log
      ensures View() == Applied(old(View()), Hold(item)) && log == old(log) + [Hold(item)]
    {
      blocked, log := blocked + {item}, log + [Hold(item)];
    }

    /** Resumes it, or lets it advance again; one that is not held back is left alone. */
    method LetGo(item: Object)
      modifies `blocked, `log
      ensures View() == Applied(old(View()), Undo(item)) && log == old(log) + [Undo(item)]
    {
      if item in blocked { blocked := blocked - {item}; }
      log := log + [Undo(item)];
    }

    /** Holds back one object that is not held back yet: remembered first, then held. */
    method Quiesce(item: Object, answer: Answer) returns (ok: bool)
      requires item !in blocked
      modifies this
      ensures ok <==> answer.Fine?
      ensures log == old(log) + if ok then [Remember(item), Hold(item)] else [Remember(item)]
      ensures View() == AppliedAll(old(View()), log[|old(log)|..])
    {
      hide AppliedAll;
      RememberQuiescence(item);
      assert AppliedAll(old(View()), []) == old(View()) by { AppliedNone(old(View())); }
      OneMore(old(View()), [], Remember(item));
      assert log[|old(log)|..] == [] + [Remember(item)];
      if !answer.Fine? { return false; }
      HoldBack(item);
      OneMore(old(View()), [Remember(item)], Hold(item));
      assert log[|old(log)|..] == [Remember(item)] + [Hold(item)];
      ok := true;
    }

    method RestoreOne(item: Object) returns (forgotten: bool)
      modifies this
      ensures forgotten <==> item in old(rows)
      ensures View() == Applied(Applied(old(View()), Undo(item)), Forget(item))
      ensures log == old(log) + [Undo(item)] + [Forget(item)]
    {
      LetGo(item);
      forgotten := ForgetQuiescenceObject(item);
    }

    /** Restores every recorded object, forgetting each only after it is undone. A failure part of
        the way leaves the rest recorded. */
    method RestoreQuiescence(answers: map<Object, Answer>) returns (ok: bool)
      requires forall item :: item in rows ==> item in answers
      modifies this
      ensures ok ==> rows == {} && blocked == old(blocked) - old(rows)
      ensures rows <= old(rows) && old(blocked) - old(rows) <= blocked <= old(blocked)
      ensures forall item :: item in old(rows) && item in blocked ==> item in rows
      ensures !ok ==> exists item :: item in rows && !answers[item].Fine?
      ensures old(log) <= log && UndoneFirst(log[|old(log)|..])
      ensures View() == AppliedAll(old(View()), log[|old(log)|..])
    {
      var left := rows;
      assert log[|old(log)|..] == [];
      while left != {}
        invariant left == rows && rows <= old(rows)
        invariant blocked == old(blocked) - (old(rows) - rows)
        invariant old(log) <= log && UndoneFirst(log[|old(log)|..])
        invariant View() == AppliedAll(old(View()), log[|old(log)|..])
        decreases left
      {
        ghost var changes := log[|old(log)|..];
        var item := AnyOf(left);
        left := left - {item};
        if !answers[item].Fine? { return false; }
        var forgotten := RestoreOne(item);
        OneMore(old(View()), changes, Undo(item));
        OneMore(old(View()), changes + [Undo(item)], Forget(item));
        UndoneThenForgotten(changes, item);
        assert log[|old(log)|..] == changes + [Undo(item)] + [Forget(item)];
        if !forgotten { return false; }
      }
      ok := true;
    }
  }

  /** Every row forgotten is that of the object undone just before. */
  ghost predicate UndoneFirst(changes: seq<Change>) {
    forall i :: 0 <= i < |changes| ==>
      && (changes[i].Undo? || changes[i].Forget?)
      && (changes[i].Forget? ==> i > 0 && changes[i - 1] == Undo(changes[i].item))
  }

  lemma UndoneThenForgotten(changes: seq<Change>, item: Object)
    requires UndoneFirst(changes)
    ensures UndoneFirst(changes + [Undo(item)] + [Forget(item)])
  {}

  // ---- many workers ----

  /** Where a worker stands. What it does after a passing lease check is one step with the
      check; remembering and forgetting are not checked. */
  datatype Pc =
    | Idle
    | Recorded(item: Object)                      // remembered, about to hold it back
    | Restoring(left: set<Object>)
    | Restored(item: Object, left: set<Object>)   // undone, about to be forgotten

  /** Held are the objects this code holds back; the owner is the last worker to have acquired
      the account lease, the only one whose checks can pass. */
  datatype World = World(ledger: Ledger, owner: Wid, workers: map<Wid, Pc>)

  datatype Event =
    | Acquire(w: Wid)
    | Record(w: Wid, item: Object)
    | Pause(w: Wid)
    | List(w: Wid)
    | Restore(w: Wid, item: Object)
    | Clear(w: Wid)
    | Finish(w: Wid)
    | GiveUp(w: Wid)
    | Outside(item: Object)  // somebody else undoes it at the provider

  function At(s: World, w: Wid, pc: Pc): World { s.(workers := s.workers[w := pc]) }

  function Changed(s: World, change: Change): World { s.(ledger := Applied(s.ledger, change)) }

  ghost predicate Steps(s: World, e: Event, s': World) {
    match e
    case Acquire(w) => w !in s.workers && s' == At(s, w, Idle).(owner := w)
    case Record(w, item) =>
      w in s.workers && s.workers[w].Idle? && s' == Changed(At(s, w, Recorded(item)), Remember(item))
    case Pause(w) =>
      && w in s.workers && s.workers[w].Recorded? && s.owner == w
      && s' == Changed(At(s, w, Idle), Hold(s.workers[w].item))
    case List(w) =>
      w in s.workers && s.workers[w].Idle? && s' == At(s, w, Restoring(s.ledger.rows))
    case Restore(w, item) =>
      && w in s.workers && s.workers[w].Restoring? && item in s.workers[w].left && s.owner == w
      && s' == Changed(At(s, w, Restored(item, s.workers[w].left - {item})), Undo(item))
    case Clear(w) =>
      && w in s.workers && s.workers[w].Restored?
      && var Restored(item, left) := s.workers[w];
         s' == Changed(At(s, w, if item in s.ledger.rows then Restoring(left) else Idle), Forget(item))
    case Finish(w) =>
      w in s.workers && s.workers[w].Restoring? && s.workers[w].left == {} && s' == At(s, w, Idle)
    case GiveUp(w) => w in s.workers && s' == At(s, w, Idle)
    case Outside(item) => s' == Changed(s, Undo(item))
  }

  /** Every object this code holds back has its row. */
  predicate IsRecorded(s: World) { s.ledger.held <= s.ledger.rows }

  /** A forget is safe if the object is not held again, and the worker that owns the account is
      not about to hold it again. The first is known to the provider and the second to the owner:
      no statement sees either, so it takes the lease to be sure of them. */
  predicate Safe(s: World, e: Event) {
    e.Clear? && e.w in s.workers && s.workers[e.w].Restored? ==>
      var item := s.workers[e.w].item;
      item !in s.ledger.held && !(s.owner in s.workers && s.workers[s.owner] == Recorded(item))
  }

  predicate Sound(s: World, w: Wid, pc: Pc) {
    var held, rows := s.ledger.held, s.ledger.rows;
    match pc
    case Recorded(item) => s.owner == w ==> item in rows
    case Restoring(left) => s.owner == w ==> held <= left
    case Restored(item, left) => s.owner == w ==> item !in held && held <= left
    case Idle => true
  }

  ghost predicate Inv(s: World) {
    IsRecorded(s) && forall w :: w in s.workers ==> Sound(s, w, s.workers[w])
  }

  lemma StepKeeps(s: World, e: Event, s': World)
    requires Inv(s) && Steps(s, e, s') && Safe(s, e)
    ensures Inv(s')
  {
    forall w | w in s'.workers
      ensures Sound(s', w, s'.workers[w])
    {
      assert w in s.workers ==> Sound(s, w, s.workers[w]);
    }
  }

  /** A forget takes away its row and nothing else; a worker that finds it gone already stops. */
  lemma WhatForgettingLeaves(s: World, e: Event, s': World)
    requires Steps(s, e, s') && e.Clear?
    ensures var item := s.workers[e.w].item;
            && s'.ledger.rows == s.ledger.rows - {item} && s'.ledger.held == s.ledger.held
            && (item in s.ledger.rows ==> s'.workers[e.w] == Restoring(s.workers[e.w].left))
            && (item !in s.ledger.rows ==> s'.workers[e.w] == Idle)
  {}

  /** The owner's own forgets are always safe. */
  lemma OwnersForgetSafely(s: World, e: Event, s': World)
    requires Inv(s) && Steps(s, e, s') && (e.Clear? ==> s.owner == e.w)
    ensures Safe(s, e)
  {
    assert e.Clear? ==> Sound(s, e.w, s.workers[e.w]);
  }

  // ---- runs, from any point on ----

  ghost predicate From(s: World, ws: seq<World>, es: seq<Event>) {
    && |ws| == |es| + 1 && ws[0] == s
    && forall i :: 0 <= i < |es| ==> Steps(ws[i], es[i], ws[i + 1])
  }

  ghost predicate AllSafe(ws: seq<World>, es: seq<Event>)
    requires |ws| == |es| + 1
  {
    forall i :: 0 <= i < |es| ==> Safe(ws[i], es[i])
  }

  ghost predicate AllRecorded(ws: seq<World>) { forall i :: 0 <= i < |ws| ==> IsRecorded(ws[i]) }

  lemma {:induction false} FromKeeps(s: World, ws: seq<World>, es: seq<Event>, i: nat)
    requires Inv(s) && From(s, ws, es) && AllSafe(ws, es) && i < |ws|
    ensures Inv(ws[i])
  {
    hide Inv, Safe;
    if i > 0 {
      FromKeeps(s, ws, es, i - 1);
      assert Steps(ws[i - 1], es[i - 1], ws[i - 1 + 1]);
      StepKeeps(ws[i - 1], es[i - 1], ws[i]);
    }
  }

  ghost predicate Start(s: World) { s.ledger == Ledger({}, {}) && s.workers == map[] }

  /** At every point, whatever crashed and whoever lost the account, every object this code holds
      back has its row, as long as every forget was safe. */
  lemma HeldObjectsAreRecorded(ws: seq<World>, es: seq<Event>, i: nat)
    requires |ws| > 0 && Start(ws[0]) && From(ws[0], ws, es) && AllSafe(ws, es) && i < |ws|
    ensures IsRecorded(ws[i])
  {
    FromKeeps(ws[0], ws, es, i);
  }

  /** A restore that returns success while its worker owns the account leaves nothing held. */
  lemma RestoreLeavesNothingHeld(ws: seq<World>, es: seq<Event>, i: nat, w: Wid)
    requires |ws| > 0 && Start(ws[0]) && From(ws[0], ws, es) && AllSafe(ws, es) && i < |es|
    requires es[i] == Event.Finish(w) && ws[i].owner == w
    ensures ws[i + 1].ledger.held == {}
  {
    FromKeeps(ws[0], ws, es, i);
    assert Steps(ws[i], es[i], ws[i + 1]);
    assert Sound(ws[i], w, ws[i].workers[w]);
  }

  // ---- forgetting is not fenced: when it does harm ----

  /** Whatever happens next, as long as later forgets are safe. */
  ghost predicate KeptEverAfter(s: World) {
    forall ws: seq<World>, es: seq<Event> :: From(s, ws, es) && AllSafe(ws, es) ==> AllRecorded(ws)
  }

  /** A forget keeps the record in every continuation exactly when it is safe. */
  lemma ForgettingKeepsTheRecordExactlyWhen(s: World, e: Event, s': World)
    requires Inv(s) && Steps(s, e, s') && e.Clear?
    ensures Safe(s, e) <==> KeptEverAfter(s')
  {
    if Safe(s, e) {
      StepKeeps(s, e, s');
      forall ws: seq<World>, es: seq<Event> | From(s', ws, es) && AllSafe(ws, es)
        ensures AllRecorded(ws)
      {
        forall i | 0 <= i < |ws| ensures IsRecorded(ws[i]) { FromKeeps(s', ws, es, i); }
      }
    } else {
      UnsafeForgetsDoHarm(s, e, s');
    }
  }

  lemma UnsafeForgetsDoHarm(s: World, e: Event, s': World)
    requires Inv(s) && Steps(s, e, s') && e.Clear? && !Safe(s, e)
    ensures !KeptEverAfter(s')
  {
    var item := s.workers[e.w].item;
    if item in s.ledger.held {
      var none: seq<Event> := [];
      assert From(s', [s'], none) && AllSafe([s'], none);
      assert !IsRecorded([s'][0]);
    } else {
      var w := s.owner;
      var s'' := Changed(At(s', w, Idle), Hold(item));
      assert s'.workers[w] == Recorded(item);
      assert Steps(s', Pause(w), s'') && Safe(s', Pause(w));
      var ws, es := [s', s''], [Pause(w)];
      assert From(s', ws, es) && AllSafe(ws, es);
      assert item in s''.ledger.held && item !in s''.ledger.rows;
      assert !IsRecorded(ws[1]);
    }
  }

  /** The forget at i found its object not held, and whoever then held it again still had a row. */
  ghost predicate Harmless(ws: seq<World>, es: seq<Event>, i: nat)
    requires |ws| > 0 && From(ws[0], ws, es) && i < |es|
  {
    es[i].Clear? ==>
      assert Steps(ws[i], es[i], ws[i + 1]);
      var item := ws[i].workers[es[i].w].item;
      && item !in ws[i].ledger.held
      && forall j :: i < j < |es| && HoldsAgain(ws[j], es[j], item) ==> item in ws[j].ledger.rows
  }

  predicate HoldsAgain(s: World, e: Event, item: Object) {
    e.Pause? && e.w in s.workers && s.workers[e.w] == Recorded(item)
  }

  predicate Forgets(s: World, e: Event, item: Object) {
    e.Clear? && e.w in s.workers && s.workers[e.w].Restored? && s.workers[e.w].item == item
  }

  ghost predicate Forgotten(ws: seq<World>, es: seq<Event>, n: nat, item: Object) {
    exists i :: 0 <= i < n && i < |es| && i < |ws| && Forgets(ws[i], es[i], item)
  }

  /** A worker about to hold an object finds its row, unless the object was forgotten meanwhile. */
  lemma {:induction false} RecordedUnlessForgotten(ws: seq<World>, es: seq<Event>, n: nat, w: Wid, item: Object)
    requires |ws| > 0 && Start(ws[0]) && From(ws[0], ws, es) && n < |ws|
    requires w in ws[n].workers && ws[n].workers[w] == Recorded(item)
    ensures item in ws[n].ledger.rows || Forgotten(ws, es, n, item)
  {
    if n > 0 {
      assert Steps(ws[n - 1], es[n - 1], ws[n - 1 + 1]);
      if w in ws[n - 1].workers && ws[n - 1].workers[w] == Recorded(item) {
        RecordedUnlessForgotten(ws, es, n - 1, w, item);
        if item !in ws[n - 1].ledger.rows {
          var i :| 0 <= i < n - 1 && i < |es| && i < |ws| && Forgets(ws[i], es[i], item);
          assert Forgotten(ws, es, n, item);
        } else if item !in ws[n].ledger.rows {
          assert Forgets(ws[n - 1], es[n - 1], item);
        }
      }
    }
  }

  lemma {:induction false} HarmlessRunsKeep(ws: seq<World>, es: seq<Event>, n: nat)
    requires |ws| > 0 && Start(ws[0]) && From(ws[0], ws, es) && n < |ws|
    requires forall i :: 0 <= i < |es| ==> Harmless(ws, es, i)
    ensures IsRecorded(ws[n])
  {
    if n > 0 {
      HarmlessRunsKeep(ws, es, n - 1);
      var s, e := ws[n - 1], es[n - 1];
      assert Steps(s, e, ws[n - 1 + 1]) && Harmless(ws, es, n - 1);
      if e.Pause? {
        var item := s.workers[e.w].item;
        RecordedUnlessForgotten(ws, es, n - 1, e.w, item);
        if item !in s.ledger.rows {
          var i :| 0 <= i < n - 1 && i < |es| && i < |ws| && Forgets(ws[i], es[i], item);
          assert Harmless(ws, es, i) && HoldsAgain(ws[n - 1], es[n - 1], item);
        }
      }
    }
  }

  /** Over a whole run the record is kept at every point exactly when every forget was harmless. */
  lemma RunKeepsTheRecordExactlyWhen(ws: seq<World>, es: seq<Event>)
    requires |ws| > 0 && Start(ws[0]) && From(ws[0], ws, es)
    ensures AllRecorded(ws) <==> forall i :: 0 <= i < |es| ==> Harmless(ws, es, i)
  {
    if forall i :: 0 <= i < |es| ==> Harmless(ws, es, i) {
      forall n | 0 <= n < |ws| ensures IsRecorded(ws[n]) { HarmlessRunsKeep(ws, es, n); }
    }
    if AllRecorded(ws) {
      forall i | 0 <= i < |es| ensures Harmless(ws, es, i) { RecordedRunsAreHarmless(ws, es, i); }
    }
  }

  lemma RecordedRunsAreHarmless(ws: seq<World>, es: seq<Event>, i: nat)
    requires |ws| > 0 && From(ws[0], ws, es) && AllRecorded(ws) && i < |es|
    ensures Harmless(ws, es, i)
  {
    assert Steps(ws[i], es[i], ws[i + 1]) && IsRecorded(ws[i + 1]);
    if es[i].Clear? {
      var item := ws[i].workers[es[i].w].item;
      forall j | i < j < |es| && HoldsAgain(ws[j], es[j], item)
        ensures item in ws[j].ledger.rows
      {
        assert Steps(ws[j], es[j], ws[j + 1]) && IsRecorded(ws[j + 1]);
      }
    }
  }

  // ---- two runs that lose a record ----

  lemma Extend(ws: seq<World>, es: seq<Event>, e: Event, s: World) returns (longer: seq<World>, events: seq<Event>)
    requires |ws| > 0 && Start(ws[0]) && From(ws[0], ws, es) && Steps(ws[|ws| - 1], e, s)
    ensures |longer| > 0 && Start(longer[0]) && From(longer[0], longer, events) && longer[|longer| - 1] == s
    ensures longer == ws + [s] && events == es + [e]
  {
    longer, events := ws + [s], es + [e];
  }

  /** A worker holds an object back, undoes that, and stalls before forgetting it; another
      acquires the account and remembers the object again, which finds the row still there. */
  lemma StallBeforeForgetting(x: Object) returns (ws: seq<World>, es: seq<Event>)
    ensures |ws| > 0 && Start(ws[0]) && From(ws[0], ws, es)
    ensures ws[|ws| - 1] == World(Ledger({x}, {}), 2, map[1 := Restored(x, {}), 2 := Recorded(x)])
  {
    var s0 := World(Ledger({}, {}), 0, map[]);
    var s1 := World(Ledger({}, {}), 1, map[1 := Idle]);
    var s2 := World(Ledger({x}, {}), 1, map[1 := Recorded(x)]);
    var s3 := World(Ledger({x}, {x}), 1, map[1 := Idle]);
    var s4 := World(Ledger({x}, {x}), 1, map[1 := Restoring({x})]);
    var s5 := World(Ledger({x}, {}), 1, map[1 := Restored(x, {})]);
    var s6 := World(Ledger({x}, {}), 2, map[1 := Restored(x, {}), 2 := Idle]);
    var s7 := World(Ledger({x}, {}), 2, map[1 := Restored(x, {}), 2 := Recorded(x)]);
    assert Steps(s0, Acquire(1), s1) && Steps(s1, Record(1, x), s2);
    assert Steps(s2, Pause(1), s3) && Steps(s3, List(1), s4);
    assert Steps(s4, Restore(1, x), s5) && Steps(s5, Acquire(2), s6) && Steps(s6, Record(2, x), s7);
    hide Steps;
    ws, es := Extend([s0], [], Acquire(1), s1);
    ws, es := Extend(ws, es, Record(1, x), s2);
    ws, es := Extend(ws, es, Pause(1), s3);
    ws, es := Extend(ws, es, List(1), s4);
    ws, es := Extend(ws, es, Restore(1, x), s5);
    ws, es := Extend(ws, es, Acquire(2), s6);
    ws, es := Extend(ws, es, Record(2, x), s7);
  }

  ghost predicate LosesTheRecord(ws: seq<World>, es: seq<Event>, x: Object) {
    && |ws| > 0 && Start(ws[0]) && From(ws[0], ws, es)
    && x in ws[|ws| - 1].ledger.held && x !in ws[|ws| - 1].ledger.rows
  }

  /** The successor holds the object again, and then the stalled worker forgets it. */
  lemma AStalledForgetLosesTheRecord(x: Object)
    ensures exists ws: seq<World>, es: seq<Event> :: LosesTheRecord(ws, es, x) && es[|es| - 1] == Clear(1)
  {
    var ws, es := StallBeforeForgetting(x);
    var s7 := ws[|ws| - 1];
    var s8 := World(Ledger({x}, {x}), 2, map[1 := Restored(x, {}), 2 := Idle]);
    var s9 := World(Ledger({}, {x}), 2, map[1 := Restoring({}), 2 := Idle]);
    assert Steps(s7, Pause(2), s8) && Steps(s8, Clear(1), s9);
    hide Steps;
    ws, es := Extend(ws, es, Pause(2), s8);
    ws, es := Extend(ws, es, Clear(1), s9);
    assert LosesTheRecord(ws, es, x);
  }

  /** Or the stalled worker forgets the object while nobody holds it, between the successor's
      remembering and its holding. */
  lemma AForgetBeforeTheHoldLosesTheRecord(x: Object)
    ensures exists ws: seq<World>, es: seq<Event> ::
              && LosesTheRecord(ws, es, x) && |es| > 1 && es[|es| - 2..] == [Clear(1), Pause(2)]
              && x !in ws[|es| - 1].ledger.held
  {
    var ws, es := StallBeforeForgetting(x);
    var s7 := ws[|ws| - 1];
    var s8 := World(Ledger({}, {}), 2, map[1 := Restoring({}), 2 := Recorded(x)]);
    var s9 := World(Ledger({}, {x}), 2, map[1 := Restoring({}), 2 := Idle]);
    assert Steps(s7, Clear(1), s8) && Steps(s8, Pause(2), s9);
    hide Steps;
    var longer, events := Extend(ws, es, Clear(1), s8);
    longer, events := Extend(longer, events, Pause(2), s9);
    assert events == es + [Clear(1), Pause(2)];
    assert longer[|es| + 1] == s8;
    assert LosesTheRecord(longer, events, x);
  }
}
