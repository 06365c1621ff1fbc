/**
 The order of payment evidence, and the two folds over it: the latest update for a
 subscription, and the first failure of its current lapse.
 */
module Evidence {
  import opened Common

  /** NoState is the empty string of an update that says nothing about payment. */
  datatype State = NoState | Pending | Paid | Failed

  datatype Update = Update(state: State, subscription: string, source: int, event: int)

  const NOTHING := Update(NoState, "", 0, 0)

  predicate Terminal(s: State) { s.Paid? || s.Failed? }

  function Rank(s: State): nat {
    match s
    case Paid => 3
    case Failed => 2
    case Pending => 1
    case NoState => 0
  }

  function SourceOf(u: Update): int { if u.source == 0 then u.event else u.source }

  /** Whether the candidate is later evidence than what is current. */
  predicate After(candidate: Update, current: Update) {
    if current.state.NoState? then true
    else if Terminal(candidate.state) != Terminal(current.state) then Terminal(candidate.state)
    else if SourceOf(candidate) != SourceOf(current) then SourceOf(candidate) > SourceOf(current)
    else if candidate.event != current.event then candidate.event > current.event
    else Rank(candidate.state) > Rank(current.state)
  }

  /** Seconds since the epoch; zero is the unset time. */
  function FailureTime(u: Update): nat {
    if u.event > 0 then u.event else if u.source > 0 then u.source else 0
  }

  // ---- After is an order ----

  datatype Key = Key(terminal: bool, source: int, event: int, rank: nat)

  function KeyOf(u: Update): Key { Key(Terminal(u.state), SourceOf(u), u.event, Rank(u.state)) }

  /** Lexicographic, an end beating no end first. */
  predicate Less(a: Key, b: Key) {
    if a.terminal != b.terminal then b.terminal
    else if a.source != b.source then a.source < b.source
    else if a.event != b.event then a.event < b.event
    else a.rank < b.rank
  }

  /** Between pieces of evidence, After is a strict weak order, and two that it does not tell
      apart say the same thing about payment. */
  lemma AfterIsAnOrder(a: Update, b: Update, c: Update)
    requires !a.state.NoState? && !b.state.NoState? && !c.state.NoState?
    ensures After(a, b) <==> Less(KeyOf(b), KeyOf(a))
    ensures !After(a, a)
    ensures After(a, b) ==> !After(b, a)
    ensures After(a, b) && After(b, c) ==> After(a, c)
    ensures !After(a, b) && !After(b, c) ==> !After(a, c)
    ensures !After(a, b) && !After(b, a) <==> KeyOf(a) == KeyOf(b)
    ensures KeyOf(a) == KeyOf(b) ==> a.state == b.state && FailureTime(a) == FailureTime(b)
  {}

  /** Of two ends the later is the one of the later invoice or session, then the one told later,
      and then the payment; evidence without such a time of its own goes by when it was told. And
      an end is later than anything pending. */
  lemma LaterMeans(a: Update, b: Update)
    requires Terminal(a.state) && !b.state.NoState?
    ensures b.state.Pending? ==> After(a, b) && !After(b, a)
    ensures !b.state.Pending? ==>
              var x, y := if a.source != 0 then a.source else a.event, if b.source != 0 then b.source else b.event;
              After(a, b) <==>
                x > y || (x == y && (a.event > b.event || (a.event == b.event && a.state.Paid? && b.state.Failed?)))
  {}

  // ---- the latest update ----

  /** Evidence for a subscription: what is current, and what was signed and stored. */
  ghost predicate Offered(u: Update, evidence: seq<Update>, subscription: string, current: Update) {
    && u.subscription == subscription
    && ((u == current && !u.state.NoState?) || u in evidence)
  }

  /** Nothing offered comes after it, and it was offered, if anything was. */
  ghost predicate IsLatest(best: Update, evidence: seq<Update>, subscription: string, current: Update) {
    && (best == NOTHING || Offered(best, evidence, subscription, current))
    && forall u :: Offered(u, evidence, subscription, current) ==> !best.state.NoState? && !After(u, best)
  }

  /** Stored evidence always carries a state. */
  ghost predicate Stated(evidence: seq<Update>) {
    forall i :: 0 <= i < |evidence| ==> !evidence[i].state.NoState?
  }

  function Later(u: Update, best: Update, subscription: string): Update {
    if u.subscription == subscription && After(u, best) then u else best
  }

  /** The fold over stored evidence, starting from what is current. */
  function Latest(evidence: seq<Update>, subscription: string, current: Update): Update {
    if evidence == [] then
      if current.subscription == subscription && !current.state.NoState? then current else NOTHING
    else
      Later(evidence[|evidence| - 1], Latest(evidence[..|evidence| - 1], subscription, current), subscription)
  }

  method LatestPaymentUpdate(evidence: seq<Update>, subscription: string, current: Update) returns (best: Update)
    requires Stated(evidence)
    ensures best == Latest(evidence, subscription, current)
    ensures IsLatest(best, evidence, subscription, current)
  {
    best := NOTHING;
    if current.subscription == subscription && !current.state.NoState? {
      best := current;
    }
    for i := 0 to |evidence|
      invariant best == Latest(evidence[..i], subscription, current)
    {
      var candidate := evidence[i];
      assert evidence[..i + 1][..i] == evidence[..i];
      if candidate.subscription == subscription && After(candidate, best) {
        best := candidate;
      }
    }
    assert evidence[..|evidence|] == evidence;
    LatestIsLatest(evidence, subscription, current);
  }

  lemma {:induction false} LatestIsLatest(evidence: seq<Update>, subscription: string, current: Update)
    requires Stated(evidence)
    ensures IsLatest(Latest(evidence, subscription, current), evidence, subscription, current)
  {
    if evidence != [] {
      var front, u := evidence[..|evidence| - 1], evidence[|evidence| - 1];
      LatestIsLatest(front, subscription, current);
      LatestStep(front, subscription, current, Latest(front, subscription, current), u);
      assert evidence == front + [u];
    }
  }

  lemma LatestStep(evidence: seq<Update>, subscription: string, current: Update, best: Update, u: Update)
    requires Stated(evidence) && !u.state.NoState? && IsLatest(best, evidence, subscription, current)
    ensures IsLatest(Later(u, best, subscription), evidence + [u], subscription, current)
  {
    var next := Later(u, best, subscription);
    assert Offered(best, evidence, subscription, current) ==> Offered(best, evidence + [u], subscription, current);
    assert u in evidence + [u];
    forall v | Offered(v, evidence + [u], subscription, current)
      ensures !next.state.NoState? && !After(v, next)
    {
      assert v == u || Offered(v, evidence, subscription, current);
      AfterIsAnOrder(u, u, u);
      if !best.state.NoState? && !v.state.NoState? { AfterIsAnOrder(v, best, u); }
    }
  }

  /** Two latest updates over the same evidence say the same thing, however it was delivered:
      order and repetition do not matter. */
  lemma LatestIsDetermined(a: Update, first: seq<Update>, b: Update, second: seq<Update>, subscription: string,
          current: Update)
    requires Stated(first) && Stated(second)
    requires IsLatest(a, first, subscription, current) && IsLatest(b, second, subscription, current)
    requires forall u :: u in first <==> u in second
    ensures KeyOf(a) == KeyOf(b) && a.state == b.state && a.subscription == b.subscription
  {
    assert forall u :: Offered(u, first, subscription, current) <==> Offered(u, second, subscription, current);
    if a != NOTHING && b != NOTHING {
      assert Offered(a, first, subscription, current) && Offered(b, first, subscription, current);
      AfterIsAnOrder(a, b, a);
    }
  }

  // ---- the first failure of the current lapse ----

  /** The settlement evidence for one subscription. */
  ghost predicate Settles(u: Update, evidence: seq<Update>, subscription: string, current: Update) {
    u.subscription == subscription && Terminal(u.state) && (u == current || u in evidence)
  }

  /** A failure that no payment came after. */
  ghost predicate Current(failure: Update, evidence: seq<Update>, subscription: string, current: Update) {
    && Settles(failure, evidence, subscription, current) && failure.state.Failed?
    && forall p :: Settles(p, evidence, subscription, current) && p.state.Paid? ==> After(failure, p)
  }

  /** The earliest dated failure among the current ones, or the unset time. */
  ghost predicate IsFirstFailure(t: nat, evidence: seq<Update>, subscription: string, current: Update) {
    && (t > 0 ==> exists f :: Current(f, evidence, subscription, current) && FailureTime(f) == t)
    && (forall f :: Current(f, evidence, subscription, current) && FailureTime(f) > 0 ==> 0 < t <= FailureTime(f))
  }

  lemma FirstFailureIsDetermined(s: nat, first: seq<Update>, t: nat, second: seq<Update>, subscription: string,
          current: Update)
    requires IsFirstFailure(s, first, subscription, current) && IsFirstFailure(t, second, subscription, current)
    requires forall u :: u in first <==> u in second
    ensures s == t
  {
    assert forall u :: Settles(u, first, subscription, current) <==> Settles(u, second, subscription, current);
    assert forall u :: Current(u, first, subscription, current) <==> Current(u, second, subscription, current);
  }

  /** Ascending, as the sort leaves it. */
  ghost predicate Ascending(updates: seq<Update>) {
    forall i, j :: 0 <= i < j < |updates| ==> !After(updates[i], updates[j])
  }

  ghost predicate AllTerminal(updates: seq<Update>) {
    forall i :: 0 <= i < |updates| ==> Terminal(updates[i].state)
  }

  /** Inserting after everything it is not before, which is what keeps the sort stable. */
  function Insert(sorted: seq<Update>, u: Update): (r: seq<Update>)
    ensures |r| == |sorted| + 1
    ensures forall x :: x in r <==> x == u || x in sorted
  {
    if sorted == [] then [u]
    else if After(sorted[|sorted| - 1], u) then Insert(sorted[..|sorted| - 1], u) + [sorted[|sorted| - 1]]
    else sorted + [u]
  }

  lemma {:induction false} InsertKeepsOrder(sorted: seq<Update>, u: Update)
    requires Ascending(sorted) && AllTerminal(sorted) && Terminal(u.state)
    ensures Ascending(Insert(sorted, u)) && AllTerminal(Insert(sorted, u))
  {
    if sorted != [] {
      var last := sorted[|sorted| - 1];
      var front := sorted[..|sorted| - 1];
      if After(last, u) {
        InsertKeepsOrder(front, u);
        var placed := Insert(front, u);
        forall i | 0 <= i < |placed|
          ensures !After(placed[i], last)
        {
          assert placed[i] in placed;
          AfterIsAnOrder(last, u, last);
        }
      } else {
        forall i | 0 <= i < |sorted|
          ensures !After(sorted[i], u)
        {
          AfterIsAnOrder(sorted[i], last, u);
        }
      }
    }
  }

  /** Settlement evidence in ascending order, the current piece first among equals. */
  function Settlements(evidence: seq<Update>, subscription: string, current: Update): seq<Update> {
    if evidence == [] then
      if current.subscription == subscription && Terminal(current.state) then [current] else []
    else
      var u := evidence[|evidence| - 1];
      var front := Settlements(evidence[..|evidence| - 1], subscription, current);
      if u.subscription == subscription && Terminal(u.state) then Insert(front, u) else front
  }

  lemma {:induction false} SettlementsAreSorted(evidence: seq<Update>, subscription: string, current: Update)
    ensures var updates := Settlements(evidence, subscription, current);
            && Ascending(updates) && AllTerminal(updates)
            && forall u :: u in updates <==> Settles(u, evidence, subscription, current)
  {
    if evidence != [] {
      var front, u := evidence[..|evidence| - 1], evidence[|evidence| - 1];
      SettlementsAreSorted(front, subscription, current);
      if u.subscription == subscription && Terminal(u.state) {
        InsertKeepsOrder(Settlements(front, subscription, current), u);
      }
      assert evidence == front + [u];
      assert forall v :: v in evidence <==> v in front || v == u;
    }
  }

  /** The fold: a payment clears the clock, and a failure sets it or moves it back. */
  function LapseStart(updates: seq<Update>): nat {
    if updates == [] then 0
    else Clock(LapseStart(updates[..|updates| - 1]), updates[|updates| - 1])
  }

  function Clock(failedAt: nat, u: Update): nat {
    match u.state
    case Paid => 0
    case Failed =>
      var candidate := FailureTime(u);
      if failedAt == 0 || (candidate != 0 && candidate < failedAt) then candidate else failedAt
    case _ => failedAt
  }

  function FirstFailure(evidence: seq<Update>, subscription: string, current: Update): nat {
    LapseStart(Settlements(evidence, subscription, current))
  }

  method FirstFailureInCurrentLapse(evidence: seq<Update>, subscription: string,
          current: Update) returns (failedAt: nat)
    ensures failedAt == FirstFailure(evidence, subscription, current)
    ensures IsFirstFailure(failedAt, evidence, subscription, current)
  {
    var updates: seq<Update> := [];
    if current.subscription == subscription && Terminal(current.state) {
      updates := [current];
    }
    for i := 0 to |evidence|
      invariant updates == Settlements(evidence[..i], subscription, current)
    {
      var candidate := evidence[i];
      assert evidence[..i + 1][..i] == evidence[..i];
      if candidate.subscription != subscription || !Terminal(candidate.state) { continue; }
      updates := Insert(updates, candidate);
    }
    assert evidence[..|evidence|] == evidence;
    failedAt := 0;
    for i := 0 to |updates|
      invariant failedAt == LapseStart(updates[..i])
    {
      var update := updates[i];
      assert updates[..i + 1][..i] == updates[..i];
      match update.state {
        case Paid =>
          failedAt := 0;
        case Failed =>
          var candidate := FailureTime(update);
          if failedAt == 0 || (candidate != 0 && candidate < failedAt) {
            failedAt := candidate;
          }
        case _ =>
      }
    }
    assert updates[..|updates|] == updates;
    FirstFailureIsFirst(evidence, subscription, current);
  }

  /** What the fold has seen since the last payment. */
  lemma {:induction false} LapseStartMeans(updates: seq<Update>) returns (lapse: nat)
    requires AllTerminal(updates)
    ensures lapse <= |updates|
    ensures lapse > 0 ==> updates[lapse - 1].state.Paid?
    ensures forall k :: lapse <= k < |updates| ==> updates[k].state.Failed?
    ensures var t := LapseStart(updates);
            && (t > 0 ==> exists k :: lapse <= k < |updates| && FailureTime(updates[k]) == t)
            && (forall k :: lapse <= k < |updates| && FailureTime(updates[k]) > 0 ==> 0 < t <= FailureTime(updates[k]))
  {
    lapse := 0;
    if updates != [] {
      var front, u := updates[..|updates| - 1], updates[|updates| - 1];
      lapse := LapseStartMeans(front);
      assert forall k :: 0 <= k < |front| ==> updates[k] == front[k];
      if u.state.Paid? { lapse := |updates|; }
    }
  }

  lemma FirstFailureIsFirst(evidence: seq<Update>, subscription: string, current: Update)
    ensures IsFirstFailure(FirstFailure(evidence, subscription, current), evidence, subscription, current)
  {
    SettlementsAreSorted(evidence, subscription, current);
    var updates := Settlements(evidence, subscription, current);
    var lapse := LapseStartMeans(updates);
    LapseIsCurrent(updates, lapse, evidence, subscription, current);
  }

  /** The tail after the last payment holds exactly the current failures. */
  lemma LapseIsCurrent(updates: seq<Update>, lapse: nat, evidence: seq<Update>, subscription: string, current: Update)
    requires Ascending(updates) && AllTerminal(updates) && lapse <= |updates|
    requires forall u :: u in updates <==> Settles(u, evidence, subscription, current)
    requires lapse > 0 ==> updates[lapse - 1].state.Paid?
    requires forall k :: lapse <= k < |updates| ==> updates[k].state.Failed?
    ensures forall k :: lapse <= k < |updates| ==> Current(updates[k], evidence, subscription, current)
    ensures forall f :: Current(f, evidence, subscription, current) ==>
              exists k :: lapse <= k < |updates| && updates[k] == f
  {
    forall k | lapse <= k < |updates|
      ensures Current(updates[k], evidence, subscription, current)
    {
      assert updates[k] in updates;
      forall p | Settles(p, evidence, subscription, current) && p.state.Paid?
        ensures After(updates[k], p)
      {
        assert p in updates;
        var i :| 0 <= i < |updates| && updates[i] == p;
        AfterIsAnOrder(updates[k], p, p);
      }
    }
    forall k | 0 <= k < lapse
      ensures !Current(updates[k], evidence, subscription, current)
    {
      assert updates[lapse - 1] in updates;
      AfterIsAnOrder(updates[k], updates[k], updates[k]);
    }
    forall f | Current(f, evidence, subscription, current)
      ensures exists k :: lapse <= k < |updates| && updates[k] == f
    {
      assert f in updates;
    }
  }

  // ---- where evidence comes from ----

  datatype EventType =
    | CheckoutCompleted | CheckoutPaid | CheckoutFailed
    | InvoicePaid | InvoiceFailed | InvoiceFinalizationFailed
    | SubscriptionChanged | OtherEvent

  /** A signed event: its own time, and the session or invoice it carries. */
  datatype Event = Event(kind: EventType, created: int, subscription: string, sourceCreated: int, paymentStatus: string)

  /** The types whose stored events are read back as evidence. */
  predicate IsEvidence(kind: EventType) { !kind.SubscriptionChanged? && !kind.OtherEvent? }

  function StateOf(e: Event): State {
    match e.kind
    case CheckoutPaid => Paid
    case CheckoutFailed => Failed
    case CheckoutCompleted =>
      if e.paymentStatus == "paid" || e.paymentStatus == "no_payment_required" then Paid else Pending
    case InvoicePaid => Paid
    case InvoiceFailed => Failed
    case InvoiceFinalizationFailed => Failed
    case _ => NoState
  }

  function PaymentUpdate(e: Event): Update {
    Update(StateOf(e), e.subscription, if IsEvidence(e.kind) then e.sourceCreated else 0, e.created)
  }

  /** Exactly the stored types say something about payment, and only a checkout that completed
      unpaid is undecided. */
  lemma EvidenceTypesCarryState(e: Event)
    ensures IsEvidence(e.kind) <==> !PaymentUpdate(e).state.NoState?
    ensures PaymentUpdate(e).state.Pending? ==> e.kind.CheckoutCompleted?
  {}

  /** What the stored events of an account say about payment. */
  function UpdatesOf(events: seq<Event>): seq<Update> {
    if events == [] then []
    else
      var front, last := UpdatesOf(events[..|events| - 1]), events[|events| - 1];
      if IsEvidence(last.kind) then front + [PaymentUpdate(last)] else front
  }

  method StoredPaymentUpdates(events: seq<Event>) returns (updates: seq<Update>)
    ensures updates == UpdatesOf(events)
    ensures Stated(updates)
    ensures forall u :: u in updates <==> exists e :: e in events && IsEvidence(e.kind) && PaymentUpdate(e) == u
  {
    updates := [];
    for i := 0 to |events|
      invariant updates == UpdatesOf(events[..i])
    {
      assert events[..i + 1][..i] == events[..i];
      if !IsEvidence(events[i].kind) { continue; }
      var candidate := PaymentUpdate(events[i]);
      if candidate.state.NoState? { continue; }
      updates := updates + [candidate];
    }
    assert events[..|events|] == events;
    UpdatesOfMean(events);
  }

  lemma {:induction false} UpdatesOfMean(events: seq<Event>)
    ensures Stated(UpdatesOf(events))
    ensures forall u :: u in UpdatesOf(events) <==>
              exists e :: e in events && IsEvidence(e.kind) && PaymentUpdate(e) == u
  {
    if events != [] {
      var front, last := events[..|events| - 1], events[|events| - 1];
      UpdatesOfMean(front);
      assert events == front + [last];
      assert last in events && forall e :: e in front ==> e in events;
      EvidenceTypesCarryState(last);
      hide PaymentUpdate;
    }
  }

  datatype Invoice = Invoice(subscription: string, created: int, status: string, paid: bool, paidAt: int, attempts: int)

  /** What one invoice proves about its subscription. */
  function InvoiceEvidence(invoice: Invoice): Option<Update> {
    if (invoice.paid || invoice.status == "paid") && invoice.paidAt > 0 then
      Some(Update(Paid, invoice.subscription, invoice.created, invoice.paidAt))
    else if invoice.status == "open" && invoice.attempts > 0 then
      Some(Update(Failed, invoice.subscription, invoice.created, invoice.created))
    else None
  }

  function InvoiceUpdates(invoices: seq<Invoice>): seq<Update> {
    if invoices == [] then []
    else
      var front, last := InvoiceUpdates(invoices[..|invoices| - 1]), InvoiceEvidence(invoices[|invoices| - 1]);
      if last.Some? then front + [last.value] else front
  }

  lemma {:induction false} InvoicesSettle(invoices: seq<Invoice>)
    ensures AllTerminal(InvoiceUpdates(invoices)) && Stated(InvoiceUpdates(invoices))
  {
    if invoices != [] { InvoicesSettle(invoices[..|invoices| - 1]); }
  }

  /** A subscription's invoice that was settled. */
  predicate SettledInvoice(invoice: Invoice, subscription: string) {
    invoice.subscription == subscription && (invoice.paid || invoice.status == "paid") && invoice.paidAt > 0
  }

  /** A subscription's invoice that was tried and is still owed. */
  predicate OwedInvoice(invoice: Invoice, subscription: string) {
    && invoice.subscription == subscription && invoice.status == "open" && invoice.attempts > 0
    && !(invoice.paid && invoice.paidAt > 0)
  }

  lemma {:induction false} InvoiceUpdatesMean(invoices: seq<Invoice>, subscription: string)
    ensures forall u :: u in InvoiceUpdates(invoices) && u.subscription == subscription ==>
              exists i :: i in invoices && ((SettledInvoice(i, subscription)
                                             && u == Update(Paid, subscription, i.created, i.paidAt))
                                            || (OwedInvoice(i, subscription)
                                                && u == Update(Failed, subscription, i.created, i.created)))
    ensures forall i :: i in invoices && SettledInvoice(i, subscription) ==>
              Update(Paid, subscription, i.created, i.paidAt) in InvoiceUpdates(invoices)
    ensures forall i :: i in invoices && OwedInvoice(i, subscription) ==>
              Update(Failed, subscription, i.created, i.created) in InvoiceUpdates(invoices)
  {
    if invoices != [] {
      var front, last := invoices[..|invoices| - 1], invoices[|invoices| - 1];
      InvoiceUpdatesMean(front, subscription);
      assert invoices == front + [last];
      assert last in invoices && forall i :: i in front ==> i in invoices;
    }
  }

  /** The latest settlement among a subscription's invoices; being active never proves paid, and
      invoices are never pending. */
  method ProviderInvoiceUpdate(subscription: string, invoices: seq<Invoice>) returns (best: Update)
    ensures best == Latest(InvoiceUpdates(invoices), subscription, NOTHING)
    ensures best.state.Paid? ==>
              exists i :: i in invoices && SettledInvoice(i, subscription)
                          && best == Update(Paid, subscription, i.created, i.paidAt)
    ensures best.state.Failed? ==>
              exists i :: i in invoices && OwedInvoice(i, subscription)
                          && best == Update(Failed, subscription, i.created, i.created)
    ensures !best.state.Paid? && !best.state.Failed? ==> best == NOTHING
    ensures best == NOTHING <==>
              forall i :: i in invoices ==> !SettledInvoice(i, subscription) && !OwedInvoice(i, subscription)
    ensures forall i :: i in invoices && SettledInvoice(i, subscription) ==>
              !After(Update(Paid, subscription, i.created, i.paidAt), best)
    ensures forall i :: i in invoices && OwedInvoice(i, subscription) ==>
              !After(Update(Failed, subscription, i.created, i.created), best)
  {
    best := NOTHING;
    for i := 0 to |invoices|
      invariant best == Latest(InvoiceUpdates(invoices[..i]), subscription, NOTHING)
    {
      var invoice := invoices[i];
      assert invoices[..i + 1][..i] == invoices[..i];
      if invoice.subscription != subscription { SkipsOther(invoices, i, subscription); continue; }
      var candidate := InvoiceEvidence(invoice);
      if candidate.None? { continue; }
      var front := InvoiceUpdates(invoices[..i]);
      assert (front + [candidate.value])[..|front|] == front;
      if After(candidate.value, best) { best := candidate.value; }
    }
    assert invoices[..|invoices|] == invoices;
    LatestInvoiceMeans(invoices, subscription);
  }

  lemma LatestInvoiceMeans(invoices: seq<Invoice>, subscription: string)
    ensures var best := Latest(InvoiceUpdates(invoices), subscription, NOTHING);
            && (best.state.Paid? ==>
                  exists i :: i in invoices && SettledInvoice(i, subscription)
                              && best == Update(Paid, subscription, i.created, i.paidAt))
            && (best.state.Failed? ==>
                  exists i :: i in invoices && OwedInvoice(i, subscription)
                              && best == Update(Failed, subscription, i.created, i.created))
            && (!best.state.Paid? && !best.state.Failed? ==> best == NOTHING)
            && (best == NOTHING <==>
                  forall i :: i in invoices ==> !SettledInvoice(i, subscription) && !OwedInvoice(i, subscription))
            && (forall i :: i in invoices && SettledInvoice(i, subscription) ==>
                  !After(Update(Paid, subscription, i.created, i.paidAt), best))
            && (forall i :: i in invoices && OwedInvoice(i, subscription) ==>
                  !After(Update(Failed, subscription, i.created, i.created), best))
  {
    var updates := InvoiceUpdates(invoices);
    InvoicesSettle(invoices);
    InvoiceUpdatesMean(invoices, subscription);
    LatestIsLatest(updates, subscription, NOTHING);
    hide Latest, After, SettledInvoice, OwedInvoice;
    var best := Latest(updates, subscription, NOTHING);
    assert best != NOTHING ==> Offered(best, updates, subscription, NOTHING);
    forall i | i in invoices && SettledInvoice(i, subscription)
      ensures best != NOTHING && !After(Update(Paid, subscription, i.created, i.paidAt), best)
    {
      assert Offered(Update(Paid, subscription, i.created, i.paidAt), updates, subscription, NOTHING);
    }
    forall i | i in invoices && OwedInvoice(i, subscription)
      ensures best != NOTHING && !After(Update(Failed, subscription, i.created, i.created), best)
    {
      assert Offered(Update(Failed, subscription, i.created, i.created), updates, subscription, NOTHING);
    }
  }

  lemma SkipsOther(invoices: seq<Invoice>, i: nat, subscription: string)
    requires i < |invoices| && invoices[i].subscription != subscription
    ensures Latest(InvoiceUpdates(invoices[..i + 1]), subscription, NOTHING) ==
              Latest(InvoiceUpdates(invoices[..i]), subscription, NOTHING)
  {
    assert invoices[..i + 1][..i] == invoices[..i];
    var front, last := InvoiceUpdates(invoices[..i]), InvoiceEvidence(invoices[i]);
    if last.Some? { assert (front + [last.value])[..|front|] == front; }
  }
}
