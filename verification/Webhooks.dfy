/**
 From a signed event to the row: what each type of event makes of a subscription, and how two
 events, or an event and the invoice it is about, fit together.
 */
module Webhooks {
  import opened Common
  import opened Evidence
  import opened Mirror
  import opened Deliveries

  /** The only stored evidence about a subscription is this event. */
  ghost predicate OnlyEvidence(log: seq<Event>, e: Event) {
    && e in log
    && forall x :: x in log && x.subscription == e.subscription && IsEvidence(x.kind) ==> x == e
  }

  /** An event is the first evidence about a subscription that pays: what the row says then. A
      settled invoice or checkout makes it paid, one that failed makes it failed since the event's
      own time, or else the invoice's; a checkout that completed waits unless nothing was owed, and
      a change of the subscription proves nothing. */
  lemma AFirstEventIsMirrored(stored: Option<Row>, sub: ProviderSubscription, log: seq<Event>, e: Event)
    requires sub.Paying() && sub.id != "" && sub.invoice == NOTHING && e.subscription == sub.id
    requires stored.Some? ==> stored.value.subscription != sub.id
    requires !e.kind.OtherEvent? && OnlyEvidence(log, e)
    ensures var row := Received(stored, [sub], log, e);
            && row.Some? && row.value.subscription == sub.id && row.value.status == sub.status
            && row.value.reconciled == Max(Loaded(stored).reconciled, e.created)
            && (e.kind.InvoicePaid? || e.kind.CheckoutPaid? ==> row.value.state.Paid?)
            && (e.kind.InvoiceFailed? || e.kind.InvoiceFinalizationFailed? || e.kind.CheckoutFailed? ==>
                  && row.value.state.Failed?
                  && row.value.failedAt == if e.created > 0 then e.created else Max(e.sourceCreated, 0))
            && (e.kind.CheckoutCompleted? ==>
                  if e.paymentStatus == "paid" || e.paymentStatus == "no_payment_required"
                  then row.value.state.Paid? else row.value.state.Pending?)
            && (e.kind.SubscriptionChanged? ==> row.value.state.Pending?)
            && (!row.value.state.Failed? ==> row.value.failedAt == 0)
            && StampOf(row.value) ==
                 if e.kind.SubscriptionChanged? then Stamp(row.value.reconciled, 0, 0, 0)
                 else Stamp(row.value.reconciled, e.sourceCreated, e.created,
                            if row.value.state.Paid? then 3 else if row.value.state.Failed? then 2 else 1)
  {
    var update, updates, existing := PaymentUpdate(e), UpdatesOf(log), Loaded(stored);
    var best := if IsEvidence(e.kind) then update else NOTHING;
    OnlyEvidenceResolves(sub, existing, log, e);
    OnlyOne(sub, existing, updates, update);
    if best.state.Failed? { OnlyFailureIsFirst(log, e); }
    assert [sub][0].id == sub.id;
    hide Resolved, Selected, FirstFailure, UpdatesOf;
  }

  lemma OnlyEvidenceResolves(sub: ProviderSubscription, existing: Row, log: seq<Event>, e: Event)
    requires sub.invoice == NOTHING && e.subscription == sub.id && existing.subscription != sub.id
    requires OnlyEvidence(log, e)
    ensures Resolved(sub, existing, UpdatesOf(log), PaymentUpdate(e))
         == if IsEvidence(e.kind) then PaymentUpdate(e) else NOTHING
  {
    var update, updates := PaymentUpdate(e), UpdatesOf(log);
    UpdatesOfMean(log);
    LatestIsLatest(updates, sub.id, update);
    EvidenceTypesCarryState(e);
    assert Known(sub, existing, update) == update;
    hide UpdatesOf, Latest, After;
    var best := Latest(updates, sub.id, update);
    if IsEvidence(e.kind) { assert Offered(update, updates, sub.id, update); }
  }

  lemma OnlyFailureIsFirst(log: seq<Event>, e: Event)
    requires OnlyEvidence(log, e) && PaymentUpdate(e).state.Failed?
    ensures FirstFailure(UpdatesOf(log), e.subscription, PaymentUpdate(e)) == FailureTime(PaymentUpdate(e))
  {
    var update, updates := PaymentUpdate(e), UpdatesOf(log);
    UpdatesOfMean(log);
    FirstFailureIsFirst(updates, e.subscription, update);
    hide UpdatesOf, FirstFailure;
    assert Current(update, updates, e.subscription, update);
  }

  /** Evidence about a subscription the provider does not report, or about none, changes nothing. */
  lemma AnUnreportedSubscriptionChangesNothing(stored: Option<Row>, subs: seq<ProviderSubscription>, log: seq<Event>,
          e: Event)
    requires !e.kind.SubscriptionChanged?
    requires e.subscription == "" || forall sub :: sub in subs ==> sub.id != e.subscription
    ensures Received(stored, subs, log, e) == stored
  {
    hide Computed, Saved, UpdatesOf;
    assert forall i :: 0 <= i < |subs| ==> subs[i] in subs;
  }

  // ---- an invoice and the event about it ----

  /** The invoice read from the provider says what its event says: settled, what a settlement
      event does, and owed after an attempt, what a failure event does, of the same invoice time.
      So an event that never arrives is made up for by any later reconcile. */
  lemma AnInvoiceSaysWhatItsEventSays(sub: ProviderSubscription, invoice: Invoice, e: Event, change: Event)
    requires sub.Paying() && sub.id != "" && invoice.subscription == sub.id && e.subscription == sub.id
    requires e.sourceCreated == invoice.created && change.kind.SubscriptionChanged?
    requires || (e.kind.InvoicePaid? && (invoice.paid || invoice.status == "paid") && invoice.paidAt > 0)
             || (e.kind.InvoiceFailed? && invoice.status == "open" && !invoice.paid && invoice.attempts > 0)
    ensures var known := Latest(InvoiceUpdates([invoice]), sub.id, NOTHING);
            var read := Received(None, [sub.(invoice := known)], [], change);
            var told := Received(None, [sub.(invoice := NOTHING)], [e], e);
            && read.Some? && told.Some? && read.value.subscription == told.value.subscription == sub.id
            && read.value.state == told.value.state && read.value.source == told.value.source
            && (read.value.event == told.value.event <==>
                  e.created == if e.kind.InvoicePaid? then invoice.paidAt else invoice.created)
  {
    var evidence := InvoiceEvidence(invoice);
    InvoiceIsKnown(sub.id, invoice);
    var known := evidence.value;
    var before, after := sub.(invoice := NOTHING), sub.(invoice := known);
    assert UpdatesOf([]) == [];
    assert Resolved(after, NO_ROW, [], PaymentUpdate(change)) == known;
    hide Resolved, FirstFailure, Latest, UpdatesOf;
    OnlyOne(after, NO_ROW, [], PaymentUpdate(change));
    hide Selected;
    AFirstEventIsMirrored(None, before, [e], e);
  }

  lemma InvoiceIsKnown(subscription: string, invoice: Invoice)
    requires invoice.subscription == subscription && InvoiceEvidence(invoice).Some?
    ensures Latest(InvoiceUpdates([invoice]), subscription, NOTHING) == InvoiceEvidence(invoice).value
  {
    var u := InvoiceEvidence(invoice).value;
    assert [invoice][..0] == [] && InvoiceUpdates([invoice]) == [u];
    assert [u][..0] == [];
  }

  // ---- many events ----

  /** An event that tells of a payment. */
  predicate TellsPaid(e: Event) {
    || e.kind.InvoicePaid? || e.kind.CheckoutPaid?
    || (e.kind.CheckoutCompleted? && (e.paymentStatus == "paid" || e.paymentStatus == "no_payment_required"))
  }

  /** An event that tells of a payment that failed. */
  predicate TellsFailed(e: Event) {
    e.kind.InvoiceFailed? || e.kind.InvoiceFinalizationFailed? || e.kind.CheckoutFailed?
  }

  /** An event that tells how a payment ended. */
  predicate TellsEnd(e: Event) { TellsPaid(e) || TellsFailed(e) }

  /** About an older invoice or session, or older news about the same one. */
  predicate Precedes(a: Event, b: Event) {
    a.sourceCreated < b.sourceCreated || (a.sourceCreated == b.sourceCreated && a.created < b.created)
  }

  /** Evidence about the subscription with positive stamps, and no checkout still waiting that is
      newer than the news of an end. */
  ghost predicate Datable(events: seq<Event>, sub: ProviderSubscription) {
    && (forall e :: e in events ==>
          IsEvidence(e.kind) && e.subscription == sub.id && e.sourceCreated > 0 && e.created > 0)
    && (forall w, e :: w in events && e in events && !TellsEnd(w) && TellsEnd(e) ==> !Precedes(e, w))
  }

  /** The rows as the events arrive one by one. */
  ghost predicate Arrived(sub: ProviderSubscription, events: seq<Event>, rows: seq<Option<Row>>) {
    && |rows| == |events| + 1 && rows[0] == None
    && forall i :: 0 <= i < |events| ==> rows[i + 1] == Received(rows[i], [sub], events[..i + 1], events[i])
  }

  /** In whatever order and however often the events arrive, the row ends at the one no other end
      comes after: paid if that one tells of a payment, failed if it tells of a failure, and of two
      that tell of the same moment the payment stands. */
  lemma TheLastEndDecides(sub: ProviderSubscription, events: seq<Event>, rows: seq<Option<Row>>, last: Event)
    requires sub.Paying() && sub.id != "" && sub.invoice == NOTHING
    requires Datable(events, sub) && Arrived(sub, events, rows)
    requires last in events && TellsEnd(last)
    requires forall e :: e in events && TellsEnd(e) ==>
               Precedes(e, last) || (!Precedes(last, e) && (TellsPaid(last) || TellsFailed(e)))
    ensures var row := rows[|events|];
            && row.Some? && row.value.subscription == sub.id
            && (TellsPaid(last) ==> row.value.state.Paid?) && (TellsFailed(last) ==> row.value.state.Failed?)
            && row.value.source == last.sourceCreated && row.value.event == last.created
  {
    var best := Greatest(sub, UpdatesOf(events));
    ArrivedReflects(sub, events, rows);
    hide Greatest, UpdatesOf, Arrived;
    LastIsGreatest(sub, events, last, best);
    assert rows[|events|].value.state == StoredUpdate(rows[|events|].value).state;
  }

  lemma ArrivedReflects(sub: ProviderSubscription, events: seq<Event>, rows: seq<Option<Row>>)
    requires sub.Paying() && sub.id != "" && sub.invoice == NOTHING
    requires Datable(events, sub) && Arrived(sub, events, rows) && events != []
    ensures var row, best := rows[|events|], Greatest(sub, UpdatesOf(events));
            && row.Some? && row.value.subscription == sub.id && StoredUpdate(row.value) == best
            && best in UpdatesOf(events) && forall u :: u in UpdatesOf(events) ==> !After(u, best)
  {
    var updates := UpdatesOf(events);
    hide WellOrdered, Arrived, UpdatesOf, Greatest, Watermark, Delivered, Computed;
    AllEvidence(events);
    DatableIsWellOrdered(events, sub);
    hide Datable;
    var logs := DeliveredAsUpdates(sub, events, rows);
    DeliveredReflects(sub, updates, logs, rows, |updates|);
    assert updates[..|updates|] == updates;
    DatedGreatest(sub, updates);
  }

  lemma DatedGreatest(sub: ProviderSubscription, updates: seq<Update>)
    requires WellOrdered(sub, updates) && updates != [] && sub.invoice == NOTHING
    ensures var best := Greatest(sub, updates);
            best in updates && forall u :: u in updates ==> !After(u, best)
  {
    GreatestIsOffered(sub, updates);
    hide Greatest, After;
    assert forall u :: u in updates ==> InPool(u, sub, updates);
  }

  lemma {:induction false} AllEvidence(events: seq<Event>)
    requires forall e :: e in events ==> IsEvidence(e.kind)
    ensures |UpdatesOf(events)| == |events|
    ensures forall i :: 0 <= i < |events| ==> UpdatesOf(events)[i] == PaymentUpdate(events[i])
    ensures forall n :: 0 <= n <= |events| ==> UpdatesOf(events[..n]) == UpdatesOf(events)[..n]
  {
    hide PaymentUpdate, IsEvidence;
    if events == [] {
      assert forall n :: 0 <= n <= 0 ==> events[..n] == events;
    } else {
      var front, last := events[..|events| - 1], events[|events| - 1];
      assert last in events && forall e :: e in front ==> e in events;
      AllEvidence(front);
      assert UpdatesOf(events) == UpdatesOf(front) + [PaymentUpdate(last)];
      hide UpdatesOf;
      forall n | 0 <= n <= |events|
        ensures UpdatesOf(events[..n]) == UpdatesOf(events)[..n]
      {
        if n < |events| {
          assert events[..n] == front[..n];
          assert UpdatesOf(front)[..n] == UpdatesOf(events)[..n];
        } else {
          assert events[..n] == events;
        }
      }
    }
  }

  lemma DatableIsWellOrdered(events: seq<Event>, sub: ProviderSubscription)
    requires sub.Paying() && sub.id != "" && sub.invoice == NOTHING && Datable(events, sub)
    ensures WellOrdered(sub, UpdatesOf(events))
  {
    var updates := UpdatesOf(events);
    UpdatesOfMean(events);
    hide UpdatesOf;
    forall u | u in updates
      ensures Dated(u, sub)
    {
      var e :| e in events && PaymentUpdate(e) == u;
    }
    forall p, t | InPool(p, sub, updates) && InPool(t, sub, updates) && p.state.Pending? && Terminal(t.state)
      ensures NoLater(p, t)
    {
      var w :| w in events && PaymentUpdate(w) == p;
      var e :| e in events && PaymentUpdate(e) == t;
    }
  }

  lemma DeliveredAsUpdates(sub: ProviderSubscription, events: seq<Event>, rows: seq<Option<Row>>)
    returns (logs: seq<seq<Update>>)
    requires Arrived(sub, events, rows) && forall e :: e in events ==> IsEvidence(e.kind)
    ensures Delivered(sub, UpdatesOf(events), logs, rows) && |rows| == |events| + 1
  {
    logs := seq(|events|, i requires 0 <= i < |events| => UpdatesOf(events[..i + 1]));
    var updates := UpdatesOf(events);
    AllEvidence(events);
    hide Reconciled, PaymentUpdate, UpdatesOf;
    forall i | 0 <= i < |updates|
      ensures SameEvents(logs[i], updates[..i + 1])
      ensures rows[i + 1] == Reconciled(rows[i], [sub], logs[i], updates[i], true)
    {
      assert UpdatesOf(events[..i + 1]) == updates[..i + 1];
      assert events[i] in events && rows[i + 1] == Received(rows[i], [sub], events[..i + 1], events[i]);
    }
  }

  lemma LastIsGreatest(sub: ProviderSubscription, events: seq<Event>, last: Event, best: Update)
    requires last in events && TellsEnd(last)
    requires forall e :: e in events ==> e.sourceCreated > 0 && IsEvidence(e.kind)
    requires forall e :: e in events && TellsEnd(e) ==>
               Precedes(e, last) || (!Precedes(last, e) && (TellsPaid(last) || TellsFailed(e)))
    requires best in UpdatesOf(events) && forall u :: u in UpdatesOf(events) ==> !After(u, best)
    ensures best.source == last.sourceCreated && best.event == last.created
    ensures (TellsPaid(last) ==> best.state.Paid?) && (TellsFailed(last) ==> best.state.Failed?)
  {
    UpdatesOfMean(events);
    hide UpdatesOf;
    var e :| e in events && PaymentUpdate(e) == best;
    assert PaymentUpdate(last) in UpdatesOf(events);
  }
}
