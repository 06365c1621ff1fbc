/**
 What the mirror's guard and its reconcile add up to over many writes: the guarded upsert is a
 maximum register, and payment events delivered in any order end in the same place, except
 where the guard's order and the evidence order disagree.
 */
module Deliveries {
  import opened Common
  import opened Evidence
  import opened Mirror

  // ---- the guarded upsert ----

  lemma AcceptsUnlessBelow(stored: Row, row: Row)
    requires row.subscription == stored.subscription
    ensures Accepts(stored, row) <==> !Below(StampOf(row), StampOf(stored))
  {}

  lemma BelowIsTotal(a: Stamp, b: Stamp, c: Stamp)
    ensures !Below(a, a)
    ensures Below(a, b) ==> !Below(b, a)
    ensures !Below(a, b) && !Below(b, a) ==> a == b
    ensures !Below(b, a) && !Below(c, b) ==> !Below(c, a)
  {}

  /** Any interleaving of writers is some sequence of guarded writes. */
  function Written(stored: Option<Row>, writes: seq<Row>): Option<Row> {
    if writes == [] then stored
    else Some(Saved(Written(stored, writes[..|writes| - 1]), writes[|writes| - 1]))
  }

  /** While the subscription stays the same, what is stored never goes down, and is the
      greatest of what was there and what was offered. */
  lemma {:induction false} UpsertKeepsTheMaximum(stored: Option<Row>, writes: seq<Row>, subscription: string)
    requires forall i :: 0 <= i < |writes| ==> writes[i].subscription == subscription
    requires stored.Some? ==> stored.value.subscription == subscription
    ensures stored.Some? || |writes| > 0 ==> Written(stored, writes).Some?
    ensures var end := Written(stored, writes); end.Some? ==>
              && (end == stored || end.value in writes) && end.value.subscription == subscription
              && (stored.Some? ==> !Below(StampOf(end.value), StampOf(stored.value)))
              && forall i :: 0 <= i < |writes| ==> !Below(StampOf(end.value), StampOf(writes[i]))
  {
    if writes != [] {
      var front, last := writes[..|writes| - 1], writes[|writes| - 1];
      UpsertKeepsTheMaximum(stored, front, subscription);
      var before, end := Written(stored, front), Written(stored, writes);
      if before.Some? {
        AcceptsUnlessBelow(before.value, last);
        BelowIsTotal(StampOf(last), StampOf(before.value), StampOf(last));
        forall i | 0 <= i < |writes|
          ensures !Below(StampOf(end.value), StampOf(writes[i]))
        {
          if i < |front| { BelowIsTotal(StampOf(writes[i]), StampOf(before.value), StampOf(end.value)); }
        }
        if stored.Some? { BelowIsTotal(StampOf(stored.value), StampOf(before.value), StampOf(end.value)); }
      }
    }
  }

  /** So the order of the writers does not matter. */
  lemma UpsertOrderDoesNotMatter(stored: Option<Row>, first: seq<Row>, second: seq<Row>, subscription: string)
    requires forall row :: row in first <==> row in second
    requires forall row :: row in first ==> row.subscription == subscription
    requires stored.Some? ==> stored.value.subscription == subscription
    requires |first| > 0
    ensures Written(stored, first).Some? && Written(stored, second).Some?
    ensures StampOf(Written(stored, first).value) == StampOf(Written(stored, second).value)
  {
    assert first[0] in second;
    UpsertKeepsTheMaximum(stored, first, subscription);
    UpsertKeepsTheMaximum(stored, second, subscription);
    var a, b := Written(stored, first).value, Written(stored, second).value;
    assert a in first ==> a in second;
    assert b in second ==> b in first;
    BelowIsTotal(StampOf(a), StampOf(b), StampOf(a));
  }

  // ---- deliveries for one paying subscription ----

  /** Evidence about the subscription that carries a state and positive creation stamps. */
  predicate Dated(u: Update, sub: ProviderSubscription) {
    u.subscription == sub.id && !u.state.NoState? && u.source > 0 && u.event > 0
  }

  predicate NoLater(a: Update, b: Update) {
    a.source < b.source || (a.source == b.source && a.event <= b.event)
  }

  ghost predicate InPool(u: Update, sub: ProviderSubscription, events: seq<Update>) {
    u in events || (u == sub.invoice && !u.state.NoState?)
  }

  ghost predicate AllDated(sub: ProviderSubscription, events: seq<Update>) {
    sub.id != "" && sub.Paying() && forall u :: InPool(u, sub, events) ==> Dated(u, sub)
  }

  /** Dated evidence, with pending never later than an end of the same payment. */
  ghost predicate WellOrdered(sub: ProviderSubscription, events: seq<Update>) {
    && AllDated(sub, events)
    && (forall p, t :: InPool(p, sub, events) && InPool(t, sub, events) && p.state.Pending? && Terminal(t.state) ==>
          NoLater(p, t))
  }

  /** The rows as the events are delivered one by one: each reconcile sees the same provider
      snapshot and every event stored so far, read back in any order. */
  ghost predicate Delivered(sub: ProviderSubscription, events: seq<Update>, logs: seq<seq<Update>>,
          rows: seq<Option<Row>>) {
    && |rows| == |events| + 1 && |logs| == |events| && rows[0] == None
    && (forall i :: 0 <= i < |events| ==> SameEvents(logs[i], events[..i + 1]))
    && (forall i :: 0 <= i < |events| ==> rows[i + 1] == Reconciled(rows[i], [sub], logs[i], events[i], true))
  }

  ghost predicate SameEvents(a: seq<Update>, b: seq<Update>) { forall u :: u in a <==> u in b }

  /** The row says what the greatest evidence says. */
  ghost predicate Reflects(row: Option<Row>, sub: ProviderSubscription, best: Update) {
    && row.Some? && row.value.subscription == sub.id
    && StoredUpdate(row.value) == best && row.value.rank == Rank(best.state)
  }

  ghost predicate Watermark(row: Row, events: seq<Update>) {
    && (forall i :: 0 <= i < |events| ==> events[i].event <= row.reconciled)
    && (exists i :: 0 <= i < |events| && events[i].event == row.reconciled)
  }

  function Greatest(sub: ProviderSubscription, events: seq<Update>): Update { Latest(events, sub.id, sub.invoice) }

  /** Adding the row's own evidence, which was offered before, changes nothing. */
  lemma ResolvedIsGreatest(sub: ProviderSubscription, existing: Row, log: seq<Update>, front: seq<Update>, u: Update)
    requires AllDated(sub, front + [u]) && SameEvents(log, front + [u])
    requires existing == NO_ROW ||
               (existing.subscription == sub.id && Offered(StoredUpdate(existing), front + [u], sub.id, sub.invoice))
    ensures Resolved(sub, existing, log, u) == Greatest(sub, front + [u])
    ensures InPool(Greatest(sub, front + [u]), sub, front + [u])
    ensures existing != NO_ROW ==> !After(StoredUpdate(existing), Greatest(sub, front + [u]))
    ensures existing != NO_ROW ==> InPool(StoredUpdate(existing), sub, front + [u])
  {
    hide AllDated, Latest, Known, After;
    var events := front + [u];
    var known := Known(sub, existing, u);
    assert u in events;
    KnownIsOffered(sub, existing, events, u);
    assert Stated(log) && Stated(events) by { AllStated(sub, events, log); }
    LatestIsLatest(events, sub.id, sub.invoice);
    LatestIsLatest(log, sub.id, known);
    LatestAgree(sub, events, log, known, Resolved(sub, existing, log, u), Greatest(sub, events));
  }

  lemma AllStated(sub: ProviderSubscription, events: seq<Update>, log: seq<Update>)
    requires AllDated(sub, events) && SameEvents(log, events)
    ensures Stated(events) && Stated(log)
  {
    forall v | v in events
      ensures !v.state.NoState?
    {
      assert InPool(v, sub, events);
    }
    assert forall i :: 0 <= i < |log| ==> log[i] in log;
  }

  lemma GreatestWasOffered(sub: ProviderSubscription, front: seq<Update>, u: Update)
    requires AllDated(sub, front + [u]) && front != []
    ensures var best := Greatest(sub, front);
            Offered(best, front + [u], sub.id, sub.invoice) && InPool(best, sub, front + [u])
  {
    forall v | v in front
      ensures v in front + [u] && InPool(v, sub, front + [u]) && Dated(v, sub)
    {}
    assert forall i :: 0 <= i < |front| ==> front[i] in front;
    LatestIsLatest(front, sub.id, sub.invoice);
    assert front[0] in front && Offered(front[0], front, sub.id, sub.invoice);
    assert Offered(Greatest(sub, front), front, sub.id, sub.invoice);
  }

  lemma LatestAgree(sub: ProviderSubscription, events: seq<Update>, log: seq<Update>, known: Update,
          resolved: Update, greatest: Update)
    requires AllDated(sub, events) && SameEvents(log, events)
    requires Offered(known, events, sub.id, sub.invoice) && !known.state.NoState?
    requires !sub.invoice.state.NoState? ==> !After(sub.invoice, known)
    requires IsLatest(resolved, log, sub.id, known) && IsLatest(greatest, events, sub.id, sub.invoice)
    ensures resolved == greatest && InPool(greatest, sub, events)
    ensures forall v :: Offered(v, events, sub.id, sub.invoice) ==> !After(v, greatest)
  {
    assert Offered(known, log, sub.id, known);
    assert Offered(resolved, log, sub.id, known);
    assert Offered(resolved, events, sub.id, sub.invoice);
    assert Offered(greatest, events, sub.id, sub.invoice);
    assert InPool(resolved, sub, events) && InPool(greatest, sub, events);
    if greatest in events {
      assert Offered(greatest, log, sub.id, known);
    } else {
      AfterIsAnOrder(sub.invoice, known, resolved);
    }
    AfterIsAnOrder(resolved, greatest, resolved);
    SameKeySameUpdate(sub, resolved, greatest);
  }

  lemma KnownIsOffered(sub: ProviderSubscription, existing: Row, events: seq<Update>, u: Update)
    requires AllDated(sub, events) && u in events
    requires existing == NO_ROW ||
               (existing.subscription == sub.id && Offered(StoredUpdate(existing), events, sub.id, sub.invoice))
    ensures Offered(Known(sub, existing, u), events, sub.id, sub.invoice)
    ensures !Known(sub, existing, u).state.NoState?
    ensures !sub.invoice.state.NoState? ==> !After(sub.invoice, Known(sub, existing, u))
  {
    assert InPool(u, sub, events);
    assert !sub.invoice.state.NoState? ==> InPool(sub.invoice, sub, events);
    if existing != NO_ROW {
      var stored := StoredUpdate(existing);
      assert InPool(stored, sub, events);
      var triggered := if After(u, sub.invoice) then u else sub.invoice;
      if !sub.invoice.state.NoState? { AfterIsAnOrder(sub.invoice, triggered, stored); }
    }
    if !sub.invoice.state.NoState? { AfterIsAnOrder(sub.invoice, u, sub.invoice); }
  }

  lemma SameKeySameUpdate(sub: ProviderSubscription, a: Update, b: Update)
    requires Dated(a, sub) && Dated(b, sub) && KeyOf(a) == KeyOf(b)
    ensures a == b
  {}

  lemma OnlyOne(sub: ProviderSubscription, existing: Row, log: seq<Update>, u: Update)
    ensures Selected([sub], existing, log, u) == Some(sub)
  {
    assert [sub][..0] == [];
    assert Entitled([sub], existing, log, u) == [sub] || Entitled([sub], existing, log, u) == [];
    assert Select([sub]) == Some(sub);
  }

  /** The row a reconcile computes for a subscription that pays. */
  lemma PayingRow(sub: ProviderSubscription, existing: Row, log: seq<Update>, u: Update)
    requires sub.Paying()
    ensures var row, best := Computed(existing, [sub], log, u), Resolved(sub, existing, log, u);
            && row.subscription == sub.id && row.reconciled == Max(existing.reconciled, u.event)
            && (Applies(best, sub) ==>
                  || (best.state.Pending? && existing.subscription == sub.id && Terminal(existing.state))
                  || (StoredUpdate(row) == best.(subscription := sub.id) && row.rank == Rank(best.state)))
  {
    hide Resolved, Selected, FirstFailure;
    OnlyOne(sub, existing, log, u);
  }

  /** One more delivery: the write is never refused, and leaves what the greatest evidence says. */
  lemma DeliverOne(sub: ProviderSubscription, row: Option<Row>, log: seq<Update>, front: seq<Update>, u: Update)
    requires WellOrdered(sub, front + [u]) && SameEvents(log, front + [u])
    requires if front == [] then row == None
               else Reflects(row, sub, Greatest(sub, front)) && Watermark(row.value, front)
    ensures var next := Reconciled(row, [sub], log, u, true);
            && Reflects(next, sub, Greatest(sub, front + [u])) && Watermark(next.value, front + [u])
            && next == Some(Computed(Loaded(row), [sub], log, u))
  {
    hide Resolved, Computed, Latest, Watermark;
    var existing := Loaded(row);
    assert existing != NO_ROW ==> front != [];
    assert InPool(u, sub, front + [u]);
    assert [sub][0].id == u.subscription;
    if row.Some? { GreatestWasOffered(sub, front, u); }
    ResolvedIsGreatest(sub, existing, log, front, u);
    var best := Greatest(sub, front + [u]);
    PayingRow(sub, existing, log, u);
    var next := Computed(existing, [sub], log, u);
    if row.Some? { AcceptsUnlessBelow(existing, next); }
    WatermarkGrows(row, front, u, next);
  }

  lemma WatermarkGrows(row: Option<Row>, front: seq<Update>, u: Update, next: Row)
    requires if front == [] then row == None && u.event > 0 else row.Some? && Watermark(row.value, front)
    requires next.reconciled == Max(Loaded(row).reconciled, u.event)
    ensures Watermark(next, front + [u])
  {
    var events := front + [u];
    assert events[|front|] == u;
    if front != [] {
      var i :| 0 <= i < |front| && front[i].event == row.value.reconciled;
      assert events[i] == front[i];
    }
  }

  /** The row after n deliveries, if there was any. */
  ghost predicate ReflectsAt(sub: ProviderSubscription, events: seq<Update>, row: Option<Row>, n: nat) {
    n <= |events| && Reflects(row, sub, Greatest(sub, events[..n])) && Watermark(row.value, events[..n])
  }

  lemma DeliverNext(sub: ProviderSubscription, events: seq<Update>, log: seq<Update>, row: Option<Row>, n: nat)
    requires WellOrdered(sub, events) && 0 < n <= |events| && SameEvents(log, events[..n])
    requires if n == 1 then row == None else ReflectsAt(sub, events, row, n - 1)
    ensures ReflectsAt(sub, events, Reconciled(row, [sub], log, events[n - 1], true), n)
    ensures Reconciled(row, [sub], log, events[n - 1], true) == Some(Computed(Loaded(row), [sub], log, events[n - 1]))
  {
    WellOrderedPrefix(sub, events, n);
    var front := events[..n - 1];
    assert events[..n] == front + [events[n - 1]];
    assert front == [] <==> n == 1;
    hide WellOrdered, Reconciled, Computed, Watermark, Greatest, Reflects;
    DeliverOne(sub, row, log, front, events[n - 1]);
  }

  lemma DeliveredAt(sub: ProviderSubscription, events: seq<Update>, logs: seq<seq<Update>>, rows: seq<Option<Row>>,
          n: nat)
    requires Delivered(sub, events, logs, rows) && 0 < n <= |events|
    ensures SameEvents(logs[n - 1], events[..n])
    ensures rows[n] == Reconciled(rows[n - 1], [sub], logs[n - 1], events[n - 1], true)
  {
    hide Reconciled;
    assert rows[n - 1 + 1] == Reconciled(rows[n - 1], [sub], logs[n - 1], events[n - 1], true);
    assert SameEvents(logs[n - 1], events[..n - 1 + 1]);
  }

  lemma {:induction false} DeliveredReflects(sub: ProviderSubscription, events: seq<Update>,
          logs: seq<seq<Update>>, rows: seq<Option<Row>>, n: nat)
    requires WellOrdered(sub, events) && Delivered(sub, events, logs, rows) && 0 < n <= |events|
    ensures ReflectsAt(sub, events, rows[n], n)
    ensures rows[n] == Some(Computed(Loaded(rows[n - 1]), [sub], logs[n - 1], events[n - 1]))
  {
    hide WellOrdered, Reconciled, Computed, ReflectsAt;
    DeliveredAt(sub, events, logs, rows, n);
    if n > 1 { DeliveredReflects(sub, events, logs, rows, n - 1); }
    DeliverNext(sub, events, logs[n - 1], rows[n - 1], n);
  }

  lemma WellOrderedPrefix(sub: ProviderSubscription, events: seq<Update>, n: nat)
    requires WellOrdered(sub, events) && n <= |events|
    ensures WellOrdered(sub, events[..n])
  {
    assert forall u :: InPool(u, sub, events[..n]) ==> InPool(u, sub, events);
  }

  /** Whatever the order and repetition of the deliveries, the stored payment state and its
      watermark are those of the greatest evidence. */
  lemma DeliveryOrderDoesNotMatter(sub: ProviderSubscription,
                                   first: seq<Update>, logs1: seq<seq<Update>>, rows1: seq<Option<Row>>,
                                   second: seq<Update>, logs2: seq<seq<Update>>, rows2: seq<Option<Row>>)
    requires WellOrdered(sub, first) && WellOrdered(sub, second)
    requires Delivered(sub, first, logs1, rows1) && Delivered(sub, second, logs2, rows2)
    requires SameEvents(first, second) && first != []
    ensures rows1[|first|].Some? && rows2[|second|].Some?
    ensures var a, b := rows1[|first|].value, rows2[|second|].value;
            && IsLatest(StoredUpdate(a), first, sub.id, sub.invoice)
            && a.subscription == b.subscription && a.state == b.state
            && StampOf(a) == StampOf(b)
  {
    assert first[0] in first;
    assert second != [];
    DeliveredReflects(sub, first, logs1, rows1, |first|);
    DeliveredReflects(sub, second, logs2, rows2, |second|);
    assert first[..|first|] == first && second[..|second|] == second;
    GreatestAgree(sub, first, second);
    WatermarksAgree(rows1[|first|].value, first, rows2[|second|].value, second);
  }

  lemma GreatestAgree(sub: ProviderSubscription, first: seq<Update>, second: seq<Update>)
    requires AllDated(sub, first) && AllDated(sub, second) && SameEvents(first, second) && first != []
    ensures Greatest(sub, first) == Greatest(sub, second)
    ensures IsLatest(Greatest(sub, first), first, sub.id, sub.invoice)
  {
    AllStated(sub, first, second);
    LatestIsLatest(first, sub.id, sub.invoice);
    LatestIsLatest(second, sub.id, sub.invoice);
    var a, b := Greatest(sub, first), Greatest(sub, second);
    assert first[0] in first && InPool(first[0], sub, first) && Offered(first[0], first, sub.id, sub.invoice);
    assert Offered(first[0], second, sub.id, sub.invoice);
    assert InPool(a, sub, first) && InPool(b, sub, second);
    LatestIsDetermined(a, first, b, second, sub.id, sub.invoice);
    SameKeySameUpdate(sub, a, b);
  }

  lemma WatermarksAgree(a: Row, first: seq<Update>, b: Row, second: seq<Update>)
    requires Watermark(a, first) && Watermark(b, second) && SameEvents(first, second)
    ensures a.reconciled == b.reconciled
  {
    var i :| 0 <= i < |first| && first[i].event == a.reconciled;
    var j :| 0 <= j < |second| && second[j].event == b.reconciled;
    assert first[i] in second && second[j] in first;
  }

  // ---- any dated evidence ----

  /** The row says what the greatest evidence says; or it says pending, of a payment that some
      evidence ends, and was created after that evidence. */
  ghost predicate Stands(row: Option<Row>, sub: ProviderSubscription, front: seq<Update>) {
    && row.Some? && row.value.subscription == sub.id && row.value.rank == Rank(row.value.state)
    && InPool(StoredUpdate(row.value), sub, front) && Watermark(row.value, front)
    && var stored, best := StoredUpdate(row.value), Greatest(sub, front);
       stored == best || (stored.state.Pending? && Terminal(best.state) && !NoLater(stored, best))
  }

  lemma GreatestIsOffered(sub: ProviderSubscription, events: seq<Update>)
    requires AllDated(sub, events) && events != []
    ensures var best := Greatest(sub, events);
            && InPool(best, sub, events) && Dated(best, sub)
            && forall v :: InPool(v, sub, events) ==> !After(v, best)
  {
    hide Latest, After;
    AllStated(sub, events, events);
    LatestIsLatest(events, sub.id, sub.invoice);
    assert InPool(events[0], sub, events) && Offered(events[0], events, sub.id, sub.invoice);
    forall v | InPool(v, sub, events)
      ensures !After(v, Greatest(sub, events))
    {
      assert Dated(v, sub) && Offered(v, events, sub.id, sub.invoice);
    }
  }

  /** What a delivery makes of a row that stands: the greatest evidence, unless the row is of a
      pending payment that the event cannot overtake. */
  lemma StandNext(sub: ProviderSubscription, row: Option<Row>, log: seq<Update>, front: seq<Update>, u: Update)
    requires AllDated(sub, front + [u]) && SameEvents(log, front + [u])
    requires if front == [] then row == None else Stands(row, sub, front)
    ensures var next, best := Reconciled(row, [sub], log, u, true), Greatest(sub, front + [u]);
            var refused := row.Some? && row.value.state.Pending? && Terminal(best.state)
                           && u.event <= row.value.reconciled && !NoLater(StoredUpdate(row.value), best);
            && Stands(next, sub, front + [u])
            && (refused ==> next == row) && (!refused ==> StoredUpdate(next.value) == best)
            && (row.Some? && Terminal(row.value.state) ==> Terminal(best.state))
  {
    var existing, best := Loaded(row), Greatest(sub, front + [u]);
    assert existing != NO_ROW ==> row.Some? && Offered(StoredUpdate(existing), front + [u], sub.id, sub.invoice);
    assert InPool(u, sub, front + [u]);
    assert [sub][0].id == u.subscription;
    hide Resolved, Computed, Latest, Watermark, Greatest;
    ResolvedIsGreatest(sub, existing, log, front, u);
    PoolApplies(sub, best, front + [u]);
    PayingRow(sub, existing, log, u);
    var next := Computed(existing, [sub], log, u);
    assert Reconciled(row, [sub], log, u, true) == Some(Saved(row, next));
    assert StoredUpdate(next) == best && next.rank == Rank(best.state);
    WatermarkGrows(row, front, u, next);
    if row.Some? {
      AcceptsUnlessBelow(existing, next);
      if !Accepts(existing, next) { WatermarkStays(existing, front, u); }
    }
  }

  lemma WatermarkStays(row: Row, front: seq<Update>, u: Update)
    requires Watermark(row, front) && u.event <= row.reconciled
    ensures Watermark(row, front + [u])
  {
    var i :| 0 <= i < |front| && front[i].event == row.reconciled;
    assert (front + [u])[i] == front[i];
  }

  lemma DatedPrefix(sub: ProviderSubscription, events: seq<Update>, n: nat)
    requires AllDated(sub, events) && n <= |events|
    ensures AllDated(sub, events[..n])
  {
    assert forall u :: InPool(u, sub, events[..n]) ==> InPool(u, sub, events);
  }

  lemma {:induction false} DeliveredStands(sub: ProviderSubscription, events: seq<Update>,
          logs: seq<seq<Update>>, rows: seq<Option<Row>>, n: nat)
    requires AllDated(sub, events) && Delivered(sub, events, logs, rows) && 0 < n <= |events|
    ensures Stands(rows[n], sub, events[..n])
  {
    hide AllDated, Reconciled, Stands;
    if n > 1 { DeliveredStands(sub, events, logs, rows, n - 1); }
    StandAt(sub, events, logs, rows, n);
  }

  /** The n-th delivery, by what it finds. */
  lemma StandAt(sub: ProviderSubscription, events: seq<Update>, logs: seq<seq<Update>>,
          rows: seq<Option<Row>>, n: nat)
    requires AllDated(sub, events) && Delivered(sub, events, logs, rows) && 0 < n <= |events|
    requires n > 1 ==> Stands(rows[n - 1], sub, events[..n - 1])
    ensures Stands(rows[n], sub, events[..n])
    ensures var row, u, best := rows[n - 1], events[n - 1], Greatest(sub, events[..n]);
            var refused := row.Some? && row.value.state.Pending? && Terminal(best.state)
                           && u.event <= row.value.reconciled && !NoLater(StoredUpdate(row.value), best);
            && (refused ==> rows[n] == row) && (!refused ==> StoredUpdate(rows[n].value) == best)
            && (row.Some? && Terminal(row.value.state) ==> Terminal(best.state))
  {
    DatedPrefix(sub, events, n);
    DeliveredAt(sub, events, logs, rows, n);
    var front := events[..n - 1];
    assert events[..n] == front + [events[n - 1]];
    assert front == [] <==> n == 1;
    hide AllDated, Reconciled, Stands, Greatest, NoLater;
    StandNext(sub, rows[n - 1], logs[n - 1], front, events[n - 1]);
  }

  // ---- where the guard's order and the evidence order disagree ----

  /** A row that stands for some dated piece of evidence. */
  predicate StandsFor(row: Row, sub: ProviderSubscription) {
    Dated(StoredUpdate(row), sub) && row.rank == Rank(row.state)
  }

  /** With a subscription that pays, the upsert refuses the newest evidence exactly when the
      event is no newer than the row's, the row is pending, and the evidence that ends the
      payment was created before the pending one. */
  lemma RefusedExactlyWhen(sub: ProviderSubscription, existing: Row, log: seq<Update>, u: Update)
    requires sub.Paying() && Own(sub) && Stated(log) && StandsFor(existing, sub)
    requires var best := Resolved(sub, existing, log, u); best.source > 0 && best.event > 0
    ensures var best := Resolved(sub, existing, log, u);
            !Accepts(existing, Computed(existing, [sub], log, u)) <==>
              && u.event <= existing.reconciled
              && existing.state.Pending? && Terminal(best.state) && !NoLater(StoredUpdate(existing), best)
  {
    hide Resolved, Computed;
    ResolvedCoversTheRow(sub, existing, log, u);
    PayingRow(sub, existing, log, u);
    AcceptsUnlessBelow(existing, Computed(existing, [sub], log, u));
  }

  /** Pending evidence that is later than the payment's end, delivered first, is never
      overtaken: the same two events end pending or paid depending on their order. */
  lemma LaterPendingHidesPayment(sub: ProviderSubscription)
    requires sub.id != "" && sub.Paying() && sub.invoice == NOTHING
    ensures var pending, paid := Update(Pending, sub.id, 20, 20), Update(Paid, sub.id, 10, 10);
            var row := Reconciled(None, [sub], [pending], pending, true);
            var last := Reconciled(row, [sub], [paid, pending], paid, true);
            && last.Some? && last.value.state.Pending? && last == row
            && Reconciled(last, [sub], [paid, pending], paid, true) == last
    ensures var pending, paid := Update(Pending, sub.id, 20, 20), Update(Paid, sub.id, 10, 10);
            var row := Reconciled(None, [sub], [paid], paid, true);
            var last := Reconciled(row, [sub], [pending, paid], pending, true);
            last.Some? && last.value.state.Paid?
  {
    var pending, paid := Update(Pending, sub.id, 20, 20), Update(Paid, sub.id, 10, 10);
    assert [sub][0].id == sub.id;
    ResolvedIs(sub, NO_ROW, [pending], pending, pending);
    ResolvedIs(sub, NO_ROW, [paid], paid, paid);
    var first := Computed(NO_ROW, [sub], [pending], pending);
    PayingRow(sub, NO_ROW, [pending], pending);
    assert Reconciled(None, [sub], [pending], pending, true) == Some(first);
    ResolvedIs(sub, first, [paid, pending], paid, paid);
    PayingRow(sub, first, [paid, pending], paid);
    var second := Computed(NO_ROW, [sub], [paid], paid);
    PayingRow(sub, NO_ROW, [paid], paid);
    assert Reconciled(None, [sub], [paid], paid, true) == Some(second);
    ResolvedIs(sub, second, [pending, paid], pending, paid);
    PayingRow(sub, second, [pending, paid], pending);
  }

  /** The evidence a reconcile settles on, when no invoice says anything. */
  lemma ResolvedIs(sub: ProviderSubscription, row: Row, log: seq<Update>, u: Update, best: Update)
    requires sub.id != "" && sub.invoice == NOTHING
    requires forall v :: v in log ==> Dated(v, sub) && !After(v, best)
    requires u in log && best in log
    requires row == NO_ROW || (row.subscription == sub.id && StoredUpdate(row) in log)
    ensures Resolved(sub, row, log, u) == best
  {
    var known := Known(sub, row, u);
    assert known in log;
    assert forall i :: 0 <= i < |log| ==> log[i] in log;
    LatestIsLatest(log, sub.id, known);
    assert Offered(best, log, sub.id, known);
    var latest := Latest(log, sub.id, known);
    assert Offered(latest, log, sub.id, known);
    AfterIsAnOrder(latest, best, latest);
    SameKeySameUpdate(sub, latest, best);
  }

  // ---- which sets of events end the same in every order ----

  /** Evidence of an end whose event is later than every pending one. */
  ghost predicate Leads(t: Update, all: seq<Update>) {
    Terminal(t.state) && forall p :: p in all && p.state.Pending? ==> p.event < t.event
  }

  /** The invoice says how the payment ended, or some event of an end is later than every pending
      one, or no pending evidence was created after the greatest. */
  ghost predicate Orderless(sub: ProviderSubscription, events: seq<Update>) {
    || Terminal(sub.invoice.state)
    || (exists t :: t in events && Leads(t, events))
    || (forall p :: InPool(p, sub, events) && p.state.Pending? ==> NoLater(p, Greatest(sub, events)))
  }

  /** With the invoice settled, the row is from the first delivery on. */
  lemma {:induction false} SettledFromTheStart(sub: ProviderSubscription, events: seq<Update>,
          logs: seq<seq<Update>>, rows: seq<Option<Row>>, n: nat)
    requires AllDated(sub, events) && Delivered(sub, events, logs, rows) && 0 < n <= |events|
    requires Terminal(sub.invoice.state)
    ensures rows[n].Some? && Terminal(rows[n].value.state)
  {
    hide Reconciled, Greatest, Watermark, NoLater;
    if n > 1 {
      SettledFromTheStart(sub, events, logs, rows, n - 1);
      DeliveredStands(sub, events, logs, rows, n - 1);
    }
    DatedPrefix(sub, events, n);
    GreatestIsOffered(sub, events[..n]);
    assert InPool(sub.invoice, sub, events[..n]);
    StandAt(sub, events, logs, rows, n);
  }

  /** Once an event of an end that is later than every pending one has been delivered, the row
      is settled. */
  lemma {:induction false} SettledByTheLeader(sub: ProviderSubscription, events: seq<Update>,
          logs: seq<seq<Update>>, rows: seq<Option<Row>>, n: nat, k: nat)
    requires AllDated(sub, events) && Delivered(sub, events, logs, rows) && k < n <= |events|
    requires Leads(events[k], events)
    ensures rows[n].Some? && Terminal(rows[n].value.state)
    decreases n
  {
    hide Reconciled, Greatest, NoLater;
    StandsBefore(sub, events, logs, rows, n);
    StandAt(sub, events, logs, rows, n);
    if k < n - 1 {
      SettledByTheLeader(sub, events, logs, rows, n - 1, k);
    } else {
      LeaderEnds(sub, events, n);
      if n > 1 && !Terminal(rows[n - 1].value.state) && events[k].event <= rows[n - 1].value.reconciled {
        var i :| 0 <= i < n - 1 && events[..n - 1][i].event == rows[n - 1].value.reconciled;
        assert events[i] in events && InPool(events[i], sub, events);
        assert Leads(events[i], events);
        SettledByTheLeader(sub, events, logs, rows, n - 1, i);
      }
    }
  }

  lemma StandsBefore(sub: ProviderSubscription, events: seq<Update>,
          logs: seq<seq<Update>>, rows: seq<Option<Row>>, n: nat)
    requires AllDated(sub, events) && Delivered(sub, events, logs, rows) && 0 < n <= |events|
    ensures n > 1 ==> Stands(rows[n - 1], sub, events[..n - 1])
    ensures n == 1 ==> rows[n - 1] == None
  {
    hide Stands, Reconciled;
    if n > 1 { DeliveredStands(sub, events, logs, rows, n - 1); }
  }

  /** The greatest of any events with an end among them is an end. */
  lemma LeaderEnds(sub: ProviderSubscription, events: seq<Update>, n: nat)
    requires AllDated(sub, events) && 0 < n <= |events| && Terminal(events[n - 1].state)
    ensures Terminal(Greatest(sub, events[..n]).state)
  {
    hide Greatest;
    DatedPrefix(sub, events, n);
    GreatestIsOffered(sub, events[..n]);
    assert events[..n][n - 1] == events[n - 1];
    assert InPool(events[n - 1], sub, events[..n]);
  }

  lemma SameGreatest(sub: ProviderSubscription, events: seq<Update>, es: seq<Update>)
    requires AllDated(sub, events) && SameEvents(es, events) && events != []
    ensures AllDated(sub, es) && es != [] && Greatest(sub, es) == Greatest(sub, events)
  {
    assert events[0] in es;
    assert forall u :: InPool(u, sub, es) <==> InPool(u, sub, events);
    hide Greatest;
    GreatestAgree(sub, es, events);
  }

  /** Then every order ends at the greatest evidence. */
  lemma OrderlessEndsAtTheGreatest(sub: ProviderSubscription, events: seq<Update>,
          es: seq<Update>, logs: seq<seq<Update>>, rows: seq<Option<Row>>)
    requires AllDated(sub, events) && events != [] && Orderless(sub, events)
    requires SameEvents(es, events) && Delivered(sub, es, logs, rows)
    ensures Reflects(rows[|es|], sub, Greatest(sub, events))
  {
    SameGreatest(sub, events, es);
    assert es[..|es|] == es;
    DeliveredStands(sub, es, logs, rows, |es|);
    var best := Greatest(sub, events);
    hide Greatest, NoLater, Delivered, Watermark;
    if Terminal(sub.invoice.state) {
      SettledFromTheStart(sub, es, logs, rows, |es|);
    } else if t :| t in events && Leads(t, events) {
      var k :| 0 <= k < |es| && es[k] == t;
      assert Leads(es[k], es);
      SettledByTheLeader(sub, es, logs, rows, |es|, k);
    } else {
      var stored := StoredUpdate(rows[|es|].value);
      assert InPool(stored, sub, events);
    }
  }

  // ---- and which do not ----

  function Chosen(events: seq<Update>, pending: bool): seq<Update> {
    if events == [] then []
    else
      var front, last := Chosen(events[..|events| - 1], pending), events[|events| - 1];
      if last.state.Pending? == pending then front + [last] else front
  }

  lemma {:induction false} ChosenMembers(events: seq<Update>, pending: bool)
    ensures forall u :: u in Chosen(events, pending) <==> u in events && u.state.Pending? == pending
  {
    if events != [] {
      ChosenMembers(events[..|events| - 1], pending);
      assert events == events[..|events| - 1] + [events[|events| - 1]];
    }
  }

  /** The logs and rows of a delivery in which each reconcile reads back what came before it. */
  function LogsOf(es: seq<Update>): seq<seq<Update>> {
    if es == [] then [] else LogsOf(es[..|es| - 1]) + [es]
  }

  function RowsOf(sub: ProviderSubscription, es: seq<Update>): (rows: seq<Option<Row>>)
    ensures |rows| == |es| + 1
  {
    if es == [] then [None]
    else
      var before := RowsOf(sub, es[..|es| - 1]);
      before + [Reconciled(before[|es| - 1], [sub], es, es[|es| - 1], true)]
  }

  lemma {:induction false} InTurn(sub: ProviderSubscription, es: seq<Update>)
    ensures Delivered(sub, es, LogsOf(es), RowsOf(sub, es))
  {
    hide Reconciled;
    if es != [] {
      var front := es[..|es| - 1];
      InTurn(sub, front);
      var logs, rows := LogsOf(es), RowsOf(sub, es);
      assert logs[..|front|] == LogsOf(front) && rows[..|es|] == RowsOf(sub, front);
      forall i | 0 <= i < |es|
        ensures SameEvents(logs[i], es[..i + 1])
        ensures rows[i + 1] == Reconciled(rows[i], [sub], logs[i], es[i], true)
      {
        if i < |front| {
          assert logs[i] == LogsOf(front)[i] && SameEvents(LogsOf(front)[i], front[..i + 1]);
          assert front[..i + 1] == es[..i + 1] && front[i] == es[i];
          assert rows[i] == RowsOf(sub, front)[i] && rows[i + 1] == RowsOf(sub, front)[i + 1];
        } else {
          assert es[..i + 1] == es;
        }
      }
    }
  }

  /** Delivered after every pending event, an end that none of them lets lead is refused each time. */
  lemma {:induction false} StuckPending(sub: ProviderSubscription, ps: seq<Update>, es: seq<Update>,
          logs: seq<seq<Update>>, rows: seq<Option<Row>>, n: nat, best: Update)
    requires AllDated(sub, es) && Delivered(sub, es, logs, rows) && 0 < |ps| <= n <= |es| && ps <= es
    requires forall p :: p in ps ==> p.state.Pending?
    requires forall i :: |ps| <= i < |es| ==>
               Terminal(es[i].state) && exists p :: p in ps && es[i].event <= p.event
    requires !Terminal(sub.invoice.state)
    requires forall v :: InPool(v, sub, es) ==> !After(v, best)
    requires Terminal(best.state) && Dated(best, sub) && !NoLater(Greatest(sub, ps), best)
    ensures rows[n].Some? && StoredUpdate(rows[n].value) == Greatest(sub, ps) && rows[n].value.state.Pending?
    ensures forall p :: p in ps ==> p.event <= rows[n].value.reconciled
    decreases n
  {
    hide Reconciled, Greatest;
    if n == |ps| {
      PendingReflected(sub, ps, es, logs, rows);
    } else {
      StuckPending(sub, ps, es, logs, rows, n - 1, best);
      DeliveredStands(sub, es, logs, rows, n - 1);
      StandAt(sub, es, logs, rows, n);
      DatedPrefix(sub, es, n);
      GreatestIsOffered(sub, es[..n]);
      LeaderEnds(sub, es, n);
      var now := Greatest(sub, es[..n]);
      assert InPool(now, sub, es) && !After(now, best);
      hide Delivered, Stands, AllDated, After;
      StillLater(Greatest(sub, ps), now, best, sub);
    }
  }

  lemma StillLater(p: Update, now: Update, best: Update, sub: ProviderSubscription)
    requires Terminal(now.state) && Terminal(best.state) && Dated(now, sub) && Dated(best, sub)
    requires !After(now, best) && !NoLater(p, best)
    ensures !NoLater(p, now)
  {}

  lemma PendingReflected(sub: ProviderSubscription, ps: seq<Update>, es: seq<Update>,
          logs: seq<seq<Update>>, rows: seq<Option<Row>>)
    requires AllDated(sub, es) && Delivered(sub, es, logs, rows) && 0 < |ps| <= |es| && ps <= es
    requires !Terminal(sub.invoice.state) && forall p :: p in ps ==> p.state.Pending?
    ensures var row := rows[|ps|];
            && row.Some? && StoredUpdate(row.value) == Greatest(sub, ps) && row.value.state.Pending?
            && forall p :: p in ps ==> p.event <= row.value.reconciled
  {
    hide Reconciled, Greatest, NoLater;
    assert es[..|ps|] == ps;
    DeliveredStands(sub, es, logs, rows, |ps|);
    DatedPrefix(sub, es, |ps|);
    GreatestIsOffered(sub, ps);
    assert InPool(Greatest(sub, ps), sub, ps);
  }

  /** Otherwise, delivering what is pending first never ends there. */
  lemma PendingFirstStaysPending(sub: ProviderSubscription, events: seq<Update>)
    returns (es: seq<Update>, logs: seq<seq<Update>>, rows: seq<Option<Row>>)
    requires AllDated(sub, events) && events != [] && !Orderless(sub, events)
    ensures SameEvents(es, events) && Delivered(sub, es, logs, rows)
    ensures !Reflects(rows[|es|], sub, Greatest(sub, events))
  {
    var ps, ts := Chosen(events, true), Chosen(events, false);
    var best := Greatest(sub, events);
    ChosenMembers(events, true);
    ChosenMembers(events, false);
    es := ps + ts;
    SameGreatest(sub, events, es);
    GreatestIsOffered(sub, events);
    logs, rows := LogsOf(es), RowsOf(sub, es);
    InTurn(sub, es);
    LatePendingBeatsTheBest(sub, events, ps);
    hide Greatest, NoLater, Chosen;
    forall i | |ps| <= i < |es|
      ensures Terminal(es[i].state) && exists p :: p in ps && es[i].event <= p.event
    {
      assert es[i] in ts && es[i] in events && InPool(es[i], sub, events) && Dated(es[i], sub);
      assert !Leads(es[i], events);
    }
    StuckPending(sub, ps, es, logs, rows, |es|, best);
  }

  lemma LatePendingBeatsTheBest(sub: ProviderSubscription, events: seq<Update>, ps: seq<Update>)
    requires AllDated(sub, events) && events != [] && !Orderless(sub, events)
    requires forall u :: u in ps <==> u in events && u.state.Pending?
    ensures ps != [] && Terminal(Greatest(sub, events).state)
    ensures !NoLater(Greatest(sub, ps), Greatest(sub, events))
  {
    var best := Greatest(sub, events);
    GreatestIsOffered(sub, events);
    var p :| InPool(p, sub, events) && p.state.Pending? && !NoLater(p, best);
    assert Dated(p, sub) && !After(p, best);
    assert best in events && !Leads(best, events);
    var q :| q in events && q.state.Pending?;
    assert q in ps;
    assert forall v :: InPool(v, sub, ps) ==> InPool(v, sub, events);
    GreatestIsOffered(sub, ps);
    assert InPool(p, sub, ps) && !After(p, Greatest(sub, ps));
  }

  /** Dated evidence about one paying subscription ends at the greatest in every order and with any
      repetition exactly when the invoice is settled, or an event of an end is later than every
      pending one, or no pending evidence was created after the greatest. */
  lemma OrderMattersExactlyWhen(sub: ProviderSubscription, events: seq<Update>)
    requires AllDated(sub, events) && events != []
    ensures Orderless(sub, events) <==>
              forall es: seq<Update>, logs: seq<seq<Update>>, rows: seq<Option<Row>> ::
                SameEvents(es, events) && Delivered(sub, es, logs, rows) ==>
                  Reflects(rows[|es|], sub, Greatest(sub, events))
  {
    if Orderless(sub, events) {
      forall es: seq<Update>, logs: seq<seq<Update>>, rows: seq<Option<Row>>
        | SameEvents(es, events) && Delivered(sub, es, logs, rows)
        ensures Reflects(rows[|es|], sub, Greatest(sub, events))
      {
        OrderlessEndsAtTheGreatest(sub, events, es, logs, rows);
      }
    } else {
      var es, logs, rows := PendingFirstStaysPending(sub, events);
    }
  }

  // ---- the lapse clock ----

  /** The clock of a failed row only ever moves back, so it is the first failure of the lapse
      exactly when it was unset or not already earlier. */
  lemma ClockMovesBack(row: Row, log: seq<Update>, failure: Update)
    requires row.state.Failed? && FirstFailure(log, row.subscription, failure) > 0
    ensures var first := FirstFailure(log, row.subscription, failure);
            && (Clocked(row, log, failure).failedAt == first <==> row.failedAt == 0 || first <= row.failedAt)
            && (row.failedAt > 0 ==> Clocked(row, log, failure).failedAt == Min(row.failedAt, first))
            && 0 < Clocked(row, log, failure).failedAt <= first
  {}

  /** The first failure of the current lapse, as far as these events tell. */
  function Onset(sub: ProviderSubscription, events: seq<Update>): nat {
    FirstFailure(events, sub.id, Greatest(sub, events))
  }

  lemma OnsetIsDated(sub: ProviderSubscription, events: seq<Update>)
    requires WellOrdered(sub, events) && events != [] && Greatest(sub, events).state.Failed?
    ensures Onset(sub, events) > 0
  {
    hide Latest, FirstFailure;
    var best := Greatest(sub, events);
    FirstFailureIsFirst(events, sub.id, best);
    AllStated(sub, events, events);
    LatestIsLatest(events, sub.id, sub.invoice);
    assert InPool(events[0], sub, events) && Offered(events[0], events, sub.id, sub.invoice);
    assert InPool(best, sub, events);
    forall p | Settles(p, events, sub.id, best) && p.state.Paid?
      ensures After(best, p)
    {
      assert Offered(p, events, sub.id, sub.invoice);
      AfterIsAnOrder(best, p, best);
    }
    assert Current(best, events, sub.id, best);
  }

  lemma OnsetReadBack(sub: ProviderSubscription, events: seq<Update>, log: seq<Update>)
    requires SameEvents(log, events)
    ensures FirstFailure(log, sub.id, Greatest(sub, events)) == Onset(sub, events)
  {
    var best := Greatest(sub, events);
    FirstFailureIsFirst(log, sub.id, best);
    FirstFailureIsFirst(events, sub.id, best);
    FirstFailureIsDetermined(FirstFailure(log, sub.id, best), log, FirstFailure(events, sub.id, best), events, sub.id,
        best);
  }

  /** What a row's state makes of the clock it finds. */
  function Ticked(before: nat, state: State, onset: nat): nat {
    match state
    case Paid => 0
    case Failed => if before == 0 || onset < before then onset else before
    case _ => before
  }

  lemma ComputedClock(sub: ProviderSubscription, existing: Row, log: seq<Update>, u: Update, best: Update, onset: nat)
    requires sub.Paying() && sub.id != "" && best == Resolved(sub, existing, log, u) && Applies(best, sub)
    requires existing == NO_ROW || existing.subscription == sub.id
    requires best.state.Failed? ==> onset == FirstFailure(log, sub.id, best) && onset > 0
    requires !(best.state.Pending? && existing.subscription == sub.id && Terminal(existing.state))
    ensures Computed(existing, [sub], log, u).failedAt == Ticked(existing.failedAt, best.state, onset)
  {
    hide Resolved, FirstFailure, Selected;
    OnlyOne(sub, existing, log, u);
    if best.state.Failed? {
      ClockMovesBack(Mirrored(existing, sub, best, Max(existing.reconciled, u.event)), log, best);
    }
  }

  lemma PoolApplies(sub: ProviderSubscription, u: Update, events: seq<Update>)
    requires AllDated(sub, events) && InPool(u, sub, events)
    ensures Applies(u, sub)
  {}

  /** The onset after n deliveries. */
  function OnsetAt(sub: ProviderSubscription, events: seq<Update>, n: int): nat {
    if 0 <= n <= |events| then Onset(sub, events[..n]) else 0
  }

  /** The n-th delivery's effect on the clock; a settled row is never followed by a pending one. */
  ghost predicate Ticks(sub: ProviderSubscription, events: seq<Update>, before: Option<Row>, after: Option<Row>,
          n: nat) {
    && after.Some? && (before.None? <==> n == 1)
    && after.value.failedAt == Ticked(Loaded(before).failedAt, after.value.state, OnsetAt(sub, events, n))
    && (after.value.state.Failed? ==> OnsetAt(sub, events, n) > 0)
    && (Terminal(Loaded(before).state) ==> Terminal(after.value.state))
  }

  lemma TickOf(sub: ProviderSubscription, log: seq<Update>, front: seq<Update>, u: Update, existing: Row)
    requires WellOrdered(sub, front + [u]) && SameEvents(log, front + [u])
    requires existing == NO_ROW || (Reflects(Some(existing), sub, Greatest(sub, front)) && front != [])
    ensures var best := Greatest(sub, front + [u]);
            && Computed(existing, [sub], log, u).failedAt ==
                  Ticked(existing.failedAt, best.state, Onset(sub, front + [u]))
            && (best.state.Failed? ==> Onset(sub, front + [u]) > 0)
            && (Terminal(existing.state) ==> Terminal(best.state))
  {
    var now := front + [u];
    hide Computed, Latest, FirstFailure, Resolved;
    if existing != NO_ROW { GreatestWasOffered(sub, front, u); }
    ResolvedIsGreatest(sub, existing, log, front, u);
    OnsetReadBack(sub, now, log);
    var best := Greatest(sub, now);
    if best.state.Failed? { OnsetIsDated(sub, now); }
    PoolApplies(sub, best, now);
    assert existing.state == StoredUpdate(existing).state;
    ComputedClock(sub, existing, log, u, best, Onset(sub, now));
  }

  lemma NextTicks(sub: ProviderSubscription, events: seq<Update>, log: seq<Update>, before: Option<Row>, n: nat)
    requires WellOrdered(sub, events) && 0 < n <= |events| && SameEvents(log, events[..n])
    requires if n == 1 then before == None else ReflectsAt(sub, events, before, n - 1)
    ensures Ticks(sub, events, before, Reconciled(before, [sub], log, events[n - 1], true), n)
  {
    WellOrderedPrefix(sub, events, n);
    var front, u := events[..n - 1], events[n - 1];
    assert events[..n] == front + [u];
    assert front == [] <==> n == 1;
    hide WellOrdered, Computed, Watermark, Greatest, Onset, Reconciled, Ticked, SameEvents, Rank, StoredUpdate;
    DeliverNext(sub, events, log, before, n);
    hide AllDated, InPool;
    assert Loaded(before) != NO_ROW ==> before.Some? && front != [];
    TickOf(sub, log, front, u, Loaded(before));
    assert Reconciled(before, [sub], log, u, true).value.state == Greatest(sub, events[..n]).state by {
      TickedState(sub, events, Reconciled(before, [sub], log, u, true), n);
    }
  }

  lemma TickedState(sub: ProviderSubscription, events: seq<Update>, row: Option<Row>, n: nat)
    requires ReflectsAt(sub, events, row, n)
    ensures row.value.state == Greatest(sub, events[..n]).state
  {
    assert StoredUpdate(row.value).state == row.value.state;
  }

  lemma DeliveryTicks(sub: ProviderSubscription, events: seq<Update>, logs: seq<seq<Update>>,
          rows: seq<Option<Row>>, n: nat)
    requires WellOrdered(sub, events) && Delivered(sub, events, logs, rows) && 0 < n <= |events|
    ensures Ticks(sub, events, rows[n - 1], rows[n], n)
  {
    hide WellOrdered, Reconciled, Computed, ReflectsAt, Ticks;
    DeliveredAt(sub, events, logs, rows, n);
    if n > 1 { DeliveredReflects(sub, events, logs, rows, n - 1); }
    NextTicks(sub, events, logs[n - 1], rows[n - 1], n);
  }

  /** Every row from the m-th to the n-th has failed: they belong to one lapse of the mirror. */
  predicate Lapsed(rows: seq<Option<Row>>, m: int, n: int) {
    0 < m <= n < |rows| && forall k :: m <= k <= n ==> rows[k].Some? && rows[k].value.state.Failed?
  }

  /** The clock of a failed row is the earliest onset any row of its lapse has seen. */
  ghost predicate EarliestSeen(sub: ProviderSubscription, events: seq<Update>, rows: seq<Option<Row>>, n: nat) {
    && n < |rows| && rows[n].Some?
    && if rows[n].value.state.Failed? then
         && (exists m :: Lapsed(rows, m, n) && rows[n].value.failedAt == OnsetAt(sub, events, m) > 0)
         && (forall m :: Lapsed(rows, m, n) ==> rows[n].value.failedAt <= OnsetAt(sub, events, m))
       else rows[n].value.failedAt == 0
  }

  lemma EarliestNext(sub: ProviderSubscription, events: seq<Update>, rows: seq<Option<Row>>, n: nat)
    requires 0 < n < |rows| && Ticks(sub, events, rows[n - 1], rows[n], n)
    requires n > 1 ==> EarliestSeen(sub, events, rows, n - 1)
    ensures EarliestSeen(sub, events, rows, n)
  {
    hide OnsetAt;
    if rows[n].value.state.Failed? {
      assert Lapsed(rows, n, n);
      if n > 1 && rows[n - 1].value.state.Failed? {
        var before :| Lapsed(rows, before, n - 1) && rows[n - 1].value.failedAt == OnsetAt(sub, events, before);
        assert Lapsed(rows, before, n);
      }
      forall m | Lapsed(rows, m, n)
        ensures rows[n].value.failedAt <= OnsetAt(sub, events, m)
      {
        if m < n { assert Lapsed(rows, m, n - 1); }
      }
    }
  }

  lemma {:induction false} ClockIsTheEarliestSeen(sub: ProviderSubscription, events: seq<Update>,
          logs: seq<seq<Update>>, rows: seq<Option<Row>>, n: nat)
    requires WellOrdered(sub, events) && Delivered(sub, events, logs, rows) && 0 < n <= |events|
    ensures EarliestSeen(sub, events, rows, n)
  {
    assert |rows| == |events| + 1;
    hide WellOrdered, Delivered, Ticks, EarliestSeen;
    if n > 1 { ClockIsTheEarliestSeen(sub, events, logs, rows, n - 1); }
    DeliveryTicks(sub, events, logs, rows, n);
    EarliestNext(sub, events, rows, n);
  }

  /** After any deliveries, the clock of a failed row is the first failure its evidence tells of
      exactly when no row of the same lapse, since the last that was not failed, saw an earlier one. */
  lemma ClockIsFirstFailureExactlyWhen(sub: ProviderSubscription, events: seq<Update>,
          logs: seq<seq<Update>>, rows: seq<Option<Row>>, n: nat)
    requires WellOrdered(sub, events) && Delivered(sub, events, logs, rows) && 0 < n <= |events|
    requires rows[n].Some? && rows[n].value.state.Failed?
    ensures 0 < rows[n].value.failedAt <= OnsetAt(sub, events, n)
    ensures rows[n].value.failedAt == OnsetAt(sub, events, n) <==>
              forall m :: Lapsed(rows, m, n) ==> OnsetAt(sub, events, n) <= OnsetAt(sub, events, m)
  {
    ClockIsTheEarliestSeen(sub, events, logs, rows, n);
    assert |rows| == |events| + 1;
    hide WellOrdered, Delivered, OnsetAt;
    assert Lapsed(rows, n, n);
  }

  /** A payment between two failures that is delivered last does not move the clock forward
      again: the stored first failure depends on the order of delivery. */
  lemma ClockDependsOnDeliveryOrder(sub: ProviderSubscription)
    requires sub.id != "" && sub.Paying() && sub.invoice == NOTHING
    ensures var a, p, b := Update(Failed, sub.id, 10, 10), Update(Paid, sub.id, 20, 20), Update(Failed, sub.id, 30, 30);
            var orderly := Delivery3(sub, a, p, b);
            var late := Delivery3(sub, a, b, p);
            && orderly.Some? && late.Some?
            && StampOf(orderly.value) == StampOf(late.value) && orderly.value.state == late.value.state
            && orderly.value.failedAt == 30 && late.value.failedAt == 10
  {
    hide Reconciled;
    FirstFails(sub);
    ThenPays(sub);
    ThenFailsAgain(sub);
    FailsAgainFirst(sub);
    PaysTooLate(sub);
  }

  function Fails(sub: ProviderSubscription, at: nat): Update { Update(Failed, sub.id, at, at) }

  function Failing(sub: ProviderSubscription, since: nat, at: nat): Row {
    Row(sub.id, sub.status, Failed, since, at, at, 2, at)
  }

  function PaidUp(sub: ProviderSubscription): Row { Row(sub.id, sub.status, Paid, 0, 20, 20, 3, 20) }

  /** Both runs begin with the first failure; */
  lemma FirstFails(sub: ProviderSubscription)
    requires sub.id != "" && sub.Paying() && sub.invoice == NOTHING
    ensures var a, p, b := Fails(sub, 10), Update(Paid, sub.id, 20, 20), Fails(sub, 30);
            Reconciled(None, [sub], [a], a, true) == Some(Failing(sub, 10, 10))
  {
    hide FirstFailure, Reconciled;
    var a, p, b := Fails(sub, 10), Update(Paid, sub.id, 20, 20), Fails(sub, 30);
    FirstFailureIs(sub, [a], a, a);
    Delivers(sub, None, [a], a, a, Failing(sub, 10, 10));
  }

  /** one goes on with the payment, and the second failure starts a new clock; */
  lemma ThenPays(sub: ProviderSubscription)
    requires sub.id != "" && sub.Paying() && sub.invoice == NOTHING
    ensures var a, p, b := Fails(sub, 10), Update(Paid, sub.id, 20, 20), Fails(sub, 30);
            Reconciled(Some(Failing(sub, 10, 10)), [sub], [a, p], p, true) == Some(PaidUp(sub))
  {
    hide FirstFailure, Reconciled;
    var a, p, b := Fails(sub, 10), Update(Paid, sub.id, 20, 20), Fails(sub, 30);
    Delivers(sub, Some(Failing(sub, 10, 10)), [a, p], p, p, PaidUp(sub));
  }

  lemma ThenFailsAgain(sub: ProviderSubscription)
    requires sub.id != "" && sub.Paying() && sub.invoice == NOTHING
    ensures var a, p, b := Fails(sub, 10), Update(Paid, sub.id, 20, 20), Fails(sub, 30);
            Reconciled(Some(PaidUp(sub)), [sub], [a, p, b], b, true) == Some(Failing(sub, 30, 30))
  {
    hide FirstFailure, Reconciled;
    var a, p, b := Fails(sub, 10), Update(Paid, sub.id, 20, 20), Fails(sub, 30);
    FirstFailureIs(sub, [a, p, b], b, b);
    Delivers(sub, Some(PaidUp(sub)), [a, p, b], b, b, Failing(sub, 30, 30));
  }

  /** the other learns of the payment last, and keeps the clock it had. */
  lemma FailsAgainFirst(sub: ProviderSubscription)
    requires sub.id != "" && sub.Paying() && sub.invoice == NOTHING
    ensures var a, p, b := Fails(sub, 10), Update(Paid, sub.id, 20, 20), Fails(sub, 30);
            Reconciled(Some(Failing(sub, 10, 10)), [sub], [a, b], b, true) == Some(Failing(sub, 10, 30))
  {
    hide FirstFailure, Reconciled;
    var a, p, b := Fails(sub, 10), Update(Paid, sub.id, 20, 20), Fails(sub, 30);
    FirstFailureIs(sub, [a, b], b, a);
    Delivers(sub, Some(Failing(sub, 10, 10)), [a, b], b, b, Failing(sub, 10, 30));
  }

  lemma PaysTooLate(sub: ProviderSubscription)
    requires sub.id != "" && sub.Paying() && sub.invoice == NOTHING
    ensures var a, p, b := Fails(sub, 10), Update(Paid, sub.id, 20, 20), Fails(sub, 30);
            Reconciled(Some(Failing(sub, 10, 30)), [sub], [a, b, p], p, true) == Some(Failing(sub, 10, 30))
  {
    hide FirstFailure, Reconciled;
    var a, p, b := Fails(sub, 10), Update(Paid, sub.id, 20, 20), Fails(sub, 30);
    FirstFailureIs(sub, [a, b, p], b, b);
    Delivers(sub, Some(Failing(sub, 10, 30)), [a, b, p], p, b, Failing(sub, 10, 30));
  }

  lemma FirstFailureIs(sub: ProviderSubscription, log: seq<Update>, best: Update, first: Update)
    requires forall v :: v in log ==> Dated(v, sub)
    requires best in log && Current(first, log, sub.id, best)
    requires forall f :: f in log && f.state.Failed? && FailureTime(f) < FailureTime(first) ==>
               !Current(f, log, sub.id, best)
    ensures FirstFailure(log, sub.id, best) == FailureTime(first)
  {
    FirstFailureIsFirst(log, sub.id, best);
    FirstFailureIsDetermined(FirstFailure(log, sub.id, best), log, FailureTime(first), log, sub.id, best);
  }

  /** Three deliveries, each reconcile reading back what came before it. */
  function Delivery3(sub: ProviderSubscription, x: Update, y: Update, z: Update): Option<Row> {
    var one := Reconciled(None, [sub], [x], x, true);
    var two := Reconciled(one, [sub], [x, y], y, true);
    Reconciled(two, [sub], [x, y, z], z, true)
  }

  /** A delivery whose greatest evidence is known. */
  lemma Delivers(sub: ProviderSubscription, row: Option<Row>, log: seq<Update>, u: Update, best: Update, next: Row)
    requires sub.Paying() && sub.id != "" && sub.invoice == NOTHING
    requires forall v :: v in log ==> Dated(v, sub) && !After(v, best)
    requires u in log && best in log && Terminal(best.state)
    requires row.Some? ==> row.value.subscription == sub.id && StoredUpdate(row.value) in log
    requires next == Clocked(Mirrored(Loaded(row), sub, best, Max(Loaded(row).reconciled, u.event)), log, best)
    requires row.None? || Accepts(row.value, next)
    ensures Reconciled(row, [sub], log, u, true) == Some(next)
  {
    ResolvedIs(sub, Loaded(row), log, u, best);
    assert [sub][0].id == u.subscription;
    hide Resolved, Mirrored, Clocked;
    OnlyOne(sub, Loaded(row), log, u);
  }
}
