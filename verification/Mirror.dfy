/**
 The stored mirror of one account's subscription: what a reconcile writes, and the guard
 that refuses an older write.

 The provider's answers are parameters. Only the columns that decide access are modelled.
 */
module Mirror {
  import opened Common
  import opened Evidence

  /** A subscription as the provider reports it, with the evidence its invoices give. */
  datatype ProviderSubscription = ProviderSubscription(
    id: string, status: string, paused: bool, created: int, periodEnd: int, invoice: Update)
  {
    predicate Paying() { !paused && (status == "active" || status == "trialing") }

    predicate BlocksCheckout() { status != "canceled" && status != "incomplete_expired" }

    function DisplayRank(): nat { if Paying() then 3 else if BlocksCheckout() then 2 else 1 }
  }

  datatype Row = Row(
    subscription: string,
    status: string,
    state: State,
    failedAt: nat,
    source: int,
    event: int,
    rank: nat,
    reconciled: int)

  /** What loading an account without a row gives. */
  const NO_ROW := Row("", "none", NoState, 0, 0, 0, 0, 0)

  // ---- choosing the subscription ----

  predicate StringAfter(a: string, b: string) {
    |a| > 0 && (|b| == 0 || a[0] > b[0] || (a[0] == b[0] && StringAfter(a[1..], b[1..])))
  }

  predicate SubscriptionAfter(a: ProviderSubscription, b: ProviderSubscription) {
    if a.DisplayRank() != b.DisplayRank() then a.DisplayRank() > b.DisplayRank()
    else if a.created != b.created then a.created > b.created
    else if a.periodEnd != b.periodEnd then a.periodEnd > b.periodEnd
    else StringAfter(a.id, b.id)
  }

  function Select(subs: seq<ProviderSubscription>): Option<ProviderSubscription> {
    if subs == [] then None
    else
      var best := Select(subs[..|subs| - 1]);
      var candidate := subs[|subs| - 1];
      if best.None? || SubscriptionAfter(candidate, best.value) then Some(candidate) else best
  }

  // ---- what a reconcile computes ----

  /** The evidence the row itself stands for. */
  function StoredUpdate(row: Row): Update { Update(row.state, row.subscription, row.source, row.event) }

  /** The provider's, the trigger's and the row's own evidence for one subscription. */
  function Known(sub: ProviderSubscription, existing: Row, update: Update): Update {
    var provider := sub.invoice;
    var triggered := if update.subscription == sub.id && After(update, provider) then update else provider;
    if existing.subscription == sub.id && !existing.state.NoState? && After(StoredUpdate(existing), triggered)
    then StoredUpdate(existing) else triggered
  }

  function Resolved(sub: ProviderSubscription, existing: Row, evidence: seq<Update>, update: Update): Update {
    Latest(evidence, sub.id, Known(sub, existing, update))
  }

  function Entitled(subs: seq<ProviderSubscription>, existing: Row, evidence: seq<Update>,
          update: Update): seq<ProviderSubscription> {
    if subs == [] then []
    else
      var front := Entitled(subs[..|subs| - 1], existing, evidence, update);
      var sub := subs[|subs| - 1];
      if sub.Paying() && Resolved(sub, existing, evidence, update).state.Paid? then front + [sub] else front
  }

  function Selected(subs: seq<ProviderSubscription>, existing: Row, evidence: seq<Update>,
          update: Update): Option<ProviderSubscription> {
    var entitled := Entitled(subs, existing, evidence, update);
    Select(if |entitled| > 0 then entitled else subs)
  }

  predicate Applies(u: Update, sub: ProviderSubscription) {
    !u.state.NoState? && (u.subscription == "" || u.subscription == sub.id)
  }

  /** The columns a subscription starts from: a new one is pending until evidence says more. */
  function Based(existing: Row, sub: ProviderSubscription, reconciled: int): Row {
    if existing.subscription != sub.id then Row(sub.id, sub.status, Pending, 0, 0, 0, 0, reconciled)
    else existing.(status := sub.status, reconciled := reconciled)
  }

  /** The row for a selected subscription, before the lapse clock is set. */
  function Mirrored(existing: Row, sub: ProviderSubscription, selected: Update, reconciled: int): Row {
    var based := Based(existing, sub, reconciled);
    var applies := Applies(selected, sub);
    var settledBefore := existing.subscription == sub.id && Terminal(existing.state);
    var judged :=
      if applies && (!selected.state.Pending? || !settledBefore)
      then based.(state := selected.state, source := selected.source,
                  event := selected.event, rank := Rank(selected.state))
      else based;
    var shown := if sub.paused then judged.(status := "paused") else judged;
    var awaited := applies && (selected.state.Pending? || selected.state.Paid?);
    var settling := sub.status == "incomplete" && !sub.paused;
    if !sub.Paying() && !awaited && !settling then shown.(state := Failed) else shown
  }

  function WithoutSubscription(existing: Row, update: Update, reconciled: int): Row {
    existing.(subscription := "", status := "none", state := if update.state.Pending? then Pending else Failed,
              reconciled := reconciled)
  }

  /** Day zero of the current lapse: payment clears it, an earlier failure moves it back. */
  function Clocked(row: Row, evidence: seq<Update>, failure: Update): Row {
    match row.state
    case Paid => row.(failedAt := 0)
    case Failed =>
      var first := FirstFailure(evidence, row.subscription, failure);
      var failedAt := if first == 0 then FailureTime(failure) else first;
      if row.failedAt == 0 || (failedAt != 0 && failedAt < row.failedAt) then row.(failedAt := failedAt) else row
    case _ => row
  }

  function Computed(existing: Row, subs: seq<ProviderSubscription>, evidence: seq<Update>, update: Update): Row {
    var reconciled := Max(existing.reconciled, update.event);
    var chosen := Selected(subs, existing, evidence, update);
    match chosen
    case None => Clocked(WithoutSubscription(existing, update, reconciled), evidence, NOTHING)
    case Some(sub) =>
      var selected := Resolved(sub, existing, evidence, update);
      Clocked(Mirrored(existing, sub, selected, reconciled), evidence, selected)
  }

  // ---- the guarded upsert ----

  datatype Stamp = Stamp(reconciled: int, source: int, event: int, rank: nat)

  function StampOf(row: Row): Stamp { Stamp(row.reconciled, row.source, row.event, row.rank) }

  predicate Below(a: Stamp, b: Stamp) {
    if a.reconciled != b.reconciled then a.reconciled < b.reconciled
    else if a.source != b.source then a.source < b.source
    else if a.event != b.event then a.event < b.event
    else a.rank < b.rank
  }

  /** The condition on the conflicting update. */
  predicate Accepts(stored: Row, row: Row) {
    || row.subscription != stored.subscription
    || row.reconciled > stored.reconciled
    || (row.reconciled == stored.reconciled
        && (row.source > stored.source
            || (row.source == stored.source
                && (row.event > stored.event
                    || (row.event == stored.event && row.rank >= stored.rank)))))
  }

  function Saved(stored: Option<Row>, row: Row): Row {
    if stored.None? || Accepts(stored.value, row) then row else stored.value
  }

  function Loaded(stored: Option<Row>): Row { if stored.None? then NO_ROW else stored.value }

  /** A subscription the update names must be among those the provider reports. */
  predicate Matches(subs: seq<ProviderSubscription>, update: Update, mustMatch: bool) {
    mustMatch ==> update.subscription != "" && exists i :: 0 <= i < |subs| && subs[i].id == update.subscription
  }

  function Reconciled(stored: Option<Row>, subs: seq<ProviderSubscription>, evidence: seq<Update>,
          update: Update, mustMatch: bool): Option<Row> {
    if Matches(subs, update, mustMatch) then Some(Saved(stored, Computed(Loaded(stored), subs, evidence, update)))
    else stored
  }

  /** What one verified event of an account leaves: a type that is not acted on nothing, any other
      what a reconcile triggered by it does. */
  function Received(stored: Option<Row>, subs: seq<ProviderSubscription>, log: seq<Event>, e: Event): Option<Row> {
    if e.kind.OtherEvent? then stored
    else Reconciled(stored, subs, UpdatesOf(log), PaymentUpdate(e), IsEvidence(e.kind))
  }

  /** The evidence that decides each subscription, and the subscriptions it entitles. */
  method ResolveAll(subs: seq<ProviderSubscription>, existing: Row, evidence: seq<Update>, update: Update)
    returns (resolved: map<string, Update>, entitled: seq<ProviderSubscription>)
    requires Stated(evidence)
    requires Distinct(subs)
    ensures forall k :: 0 <= k < |subs| ==>
              subs[k].id in resolved && resolved[subs[k].id] == Resolved(subs[k], existing, evidence, update)
    ensures entitled == Entitled(subs, existing, evidence, update)
  {
    resolved, entitled := map[], [];
    for i := 0 to |subs|
      invariant forall k :: 0 <= k < i ==>
                  subs[k].id in resolved && resolved[subs[k].id] == Resolved(subs[k], existing, evidence, update)
      invariant entitled == Entitled(subs[..i], existing, evidence, update)
    {
      var sub := subs[i];
      assert subs[..i + 1][..i] == subs[..i];
      var candidate := ResolveOne(sub, existing, evidence, update);
      resolved := resolved[sub.id := candidate];
      if sub.Paying() && candidate.state.Paid? { entitled := entitled + [sub]; }
    }
    assert subs[..|subs|] == subs;
  }

  method ResolveOne(sub: ProviderSubscription, existing: Row, evidence: seq<Update>,
          update: Update) returns (candidate: Update)
    requires Stated(evidence)
    ensures candidate == Resolved(sub, existing, evidence, update)
  {
    candidate := sub.invoice;
    if update.subscription == sub.id && After(update, candidate) { candidate := update; }
    if existing.subscription == sub.id && !existing.state.NoState? {
      var kept := StoredUpdate(existing);
      if After(kept, candidate) { candidate := kept; }
    }
    candidate := LatestPaymentUpdate(evidence, sub.id, candidate);
  }

  class Store {
    var row: Option<Row>

    constructor ()
      ensures row == None
    {
      row := None;
    }

    /** Writes a snapshot unless the stored row is newer; says whether it did. */
    method SaveReconciled(mirror: Row) returns (saved: bool)
      modifies this
      ensures row == Some(Saved(old(row), mirror))
      ensures saved == (old(row).None? || Accepts(old(row).value, mirror))
    {
      saved := row.None? || Accepts(row.value, mirror);
      if saved { row := Some(mirror); }
    }

    /** One reconcile under the account lease; false when nothing was saved. */
    method Reconcile(subs: seq<ProviderSubscription>, evidence: seq<Update>, update: Update,
            mustMatch: bool) returns (applied: bool)
      requires Stated(evidence)
      requires Distinct(subs)
      modifies this
      ensures row == Reconciled(old(row), subs, evidence, update, mustMatch)
      ensures applied ==> row == Some(Computed(Loaded(old(row)), subs, evidence, update))
      ensures !applied ==> row == old(row)
      ensures applied <==> Matches(subs, update, mustMatch) &&
                           (old(row).None? ||
                            Accepts(old(row).value, Computed(Loaded(old(row)), subs, evidence, update)))
      // What it writes names a reported subscription, with that one's own status; nothing when it
      // reports none; and no event about an unreported subscription writes anything.
      ensures applied && subs != [] ==>
                exists sub :: sub in subs && row.value.subscription == sub.id
                              && row.value.status == if sub.paused then "paused" else sub.status
      ensures applied && subs == [] ==>
                && row.value.subscription == "" && row.value.status == "none"
                && row.value.state == if update.state.Pending? then Pending else Failed
      ensures applied ==> row.value.reconciled >= update.event &&
                          (row.value.reconciled == update.event ||
                           (old(row).Some? && row.value.reconciled == old(row).value.reconciled) ||
                           (old(row).None? && row.value.reconciled == 0))
      ensures mustMatch && (forall sub :: sub in subs ==> sub.id != update.subscription) ==> !applied
      ensures mustMatch && update.subscription == "" ==> !applied
    {
      hide Clocked, Mirrored, WithoutSubscription, Entitled, Resolved, Select;
      var existing := if row.None? then NO_ROW else row.value;
      if mustMatch {
        var named := update.subscription != "" && exists i :: 0 <= i < |subs| && subs[i].id == update.subscription;
        if !named { return false; }
      }
      var resolved, entitled := ResolveAll(subs, existing, evidence, update);
      EntitledAreReported(subs, existing, evidence, update);
      var selection := if |entitled| > 0 then entitled else subs;
      var subscription := SelectSubscription(selection);
      var selected := if subscription.None? then NOTHING else resolved[subscription.value.id];
      ComputedIsReported(existing, subs, evidence, update);
      applied := SaveSelected(existing, subscription, selected, evidence, update);
    }

    /** Acts on one verified event of the account, with the events stored so far. */
    method Receive(subs: seq<ProviderSubscription>, log: seq<Event>, e: Event) returns (applied: bool)
      requires Distinct(subs)
      modifies this
      ensures row == Received(old(row), subs, log, e)
      ensures !applied ==> row == old(row)
      ensures e.kind.OtherEvent? ==> !applied
    {
      if e.kind.OtherEvent? { return false; }
      var update := PaymentUpdate(e);
      if IsEvidence(e.kind) && update.subscription == "" { return false; }
      var evidence := StoredPaymentUpdates(log);
      hide PaymentUpdate, UpdatesOf, Computed;
      applied := Reconcile(subs, evidence, update, IsEvidence(e.kind));
    }

    /** Builds the row for what was selected, sets its lapse clock and saves it. */
    method SaveSelected(existing: Row, subscription: Option<ProviderSubscription>, selected: Update,
            evidence: seq<Update>, update: Update)
      returns (saved: bool)
      requires existing == Loaded(row)
      modifies this
      ensures var reconciled := Max(existing.reconciled, update.event);
              var judged := if subscription.None? then WithoutSubscription(existing, update, reconciled)
                            else Mirrored(existing, subscription.value, selected, reconciled);
              var mirror := Clocked(judged, evidence, selected);
              row == Some(Saved(old(row), mirror)) && saved == (old(row).None? || Accepts(old(row).value, mirror))
    {
      var reconciled := Max(existing.reconciled, update.event);
      var mirror;
      match subscription {
        case None => mirror := WithoutSubscription(existing, update, reconciled);
        case Some(sub) => mirror := Mirrored(existing, sub, selected, reconciled);
      }
      match mirror.state {
        case Paid => mirror := mirror.(failedAt := 0);
        case Failed =>
          var failedAt := FirstFailureInCurrentLapse(evidence, mirror.subscription, selected);
          if failedAt == 0 { failedAt := FailureTime(selected); }
          if mirror.failedAt == 0 || (failedAt != 0 && failedAt < mirror.failedAt) {
            mirror := mirror.(failedAt := failedAt);
          }
        case _ =>
      }
      saved := SaveReconciled(mirror);
    }
  }

  method SelectSubscription(subs: seq<ProviderSubscription>) returns (selected: Option<ProviderSubscription>)
    ensures selected == Select(subs)
    ensures selected.None? <==> subs == []
    ensures selected.Some? ==> selected.value in subs
  {
    selected := None;
    for i := 0 to |subs|
      invariant selected == Select(subs[..i])
      invariant selected.None? <==> i == 0
      invariant selected.Some? ==> selected.value in subs
    {
      var candidate := subs[i];
      assert subs[..i + 1][..i] == subs[..i];
      if selected.None? || SubscriptionAfter(candidate, selected.value) { selected := Some(candidate); }
    }
    assert subs[..|subs|] == subs;
  }

  lemma {:induction false} EntitledAreReported(subs: seq<ProviderSubscription>, existing: Row,
          evidence: seq<Update>, update: Update)
    ensures forall sub :: sub in Entitled(subs, existing, evidence, update) ==> sub in subs
  {
    if subs != [] {
      var front := subs[..|subs| - 1];
      EntitledAreReported(front, existing, evidence, update);
      assert forall sub :: sub in front ==> sub in subs;
    }
  }

  /** What a reconcile computes is about a subscription the provider reports, or about none. */
  lemma ComputedIsReported(existing: Row, subs: seq<ProviderSubscription>, evidence: seq<Update>, update: Update)
    ensures var row := Computed(existing, subs, evidence, update);
            && (subs != [] ==> exists sub :: sub in subs && row.subscription == sub.id
                                             && row.status == if sub.paused then "paused" else sub.status)
            && (subs == [] ==> row.subscription == "" && row.status == "none"
                               && row.state == if update.state.Pending? then Pending else Failed)
            && row.reconciled == Max(existing.reconciled, update.event)
  {
    EntitledAreReported(subs, existing, evidence, update);
    var entitled := Entitled(subs, existing, evidence, update);
    assert subs == [] ==> entitled == [];
    var selection := if |entitled| > 0 then entitled else subs;
    SelectIsGreatest(selection);
    hide Resolved, Entitled, Select, SubscriptionAfter, Mirrored, Clocked;
    if subs != [] {
      var sub := Select(selection).value;
      assert sub in subs;
      MirroredIsReported(existing, sub, Resolved(sub, existing, evidence, update),
        Max(existing.reconciled, update.event), evidence);
    } else {
      NoneIsReported(existing, update, Max(existing.reconciled, update.event), evidence);
    }
  }

  lemma MirroredIsReported(existing: Row, sub: ProviderSubscription, selected: Update, reconciled: int,
          evidence: seq<Update>)
    ensures var row := Clocked(Mirrored(existing, sub, selected, reconciled), evidence, selected);
            && row.subscription == sub.id && row.reconciled == reconciled
            && row.status == if sub.paused then "paused" else sub.status
  {
    hide FirstFailure;
  }

  lemma NoneIsReported(existing: Row, update: Update, reconciled: int, evidence: seq<Update>)
    ensures var row := Clocked(WithoutSubscription(existing, update, reconciled), evidence, NOTHING);
            && row.subscription == "" && row.status == "none" && row.reconciled == reconciled
            && row.state == if update.state.Pending? then Pending else Failed
  {
    hide FirstFailure;
  }

  /** When the stored row is about a subscription no longer reported, nothing but the watermark
      is carried over to the next one: not its state, its evidence or its lapse clock. */
  lemma ANewSubscriptionStartsAfresh(existing: Row, subs: seq<ProviderSubscription>, evidence: seq<Update>,
          update: Update)
    requires subs != [] && forall sub :: sub in subs ==> sub.id != existing.subscription && sub.id != ""
    ensures Computed(existing, subs, evidence, update)
         == Computed(NO_ROW.(reconciled := existing.reconciled), subs, evidence, update)
  {
    var blank := NO_ROW.(reconciled := existing.reconciled);
    SameEntitled(subs, existing, blank, evidence, update);
    EntitledAreReported(subs, existing, evidence, update);
    var entitled := Entitled(subs, existing, evidence, update);
    SelectIsGreatest(if |entitled| > 0 then entitled else subs);
    hide Latest, FirstFailure, Entitled, Select, SubscriptionAfter;
  }

  lemma {:induction false} SameEntitled(subs: seq<ProviderSubscription>, a: Row, b: Row, evidence: seq<Update>,
          update: Update)
    requires forall sub :: sub in subs ==> sub.id != a.subscription && sub.id != b.subscription
    ensures Entitled(subs, a, evidence, update) == Entitled(subs, b, evidence, update)
  {
    if subs != [] {
      hide Latest;
      SameEntitled(subs[..|subs| - 1], a, b, evidence, update);
      assert subs[|subs| - 1] in subs;
    }
  }

  // ---- choosing does not depend on the order of the answer ----

  lemma {:induction false} StringAfterIsTotal(a: string, b: string, c: string)
    ensures !StringAfter(a, a)
    ensures StringAfter(a, b) ==> !StringAfter(b, a)
    ensures a != b ==> StringAfter(a, b) || StringAfter(b, a)
    ensures StringAfter(a, b) && StringAfter(b, c) ==> StringAfter(a, c)
  {
    if a != "" || b != "" || c != "" {
      var x, y, z := Rest(a), Rest(b), Rest(c);
      StringAfterIsTotal(x, y, z);
      if a != "" && b != "" && a[0] == b[0] && x == y {
        assert a == [a[0]] + x && b == [b[0]] + y;
      }
    }
  }

  function Rest(s: string): string { if s == "" then "" else s[1..] }

  lemma SubscriptionAfterIsTotal(a: ProviderSubscription, b: ProviderSubscription, c: ProviderSubscription)
    ensures SubscriptionAfter(a, b) ==> !SubscriptionAfter(b, a)
    ensures a.id != b.id ==> SubscriptionAfter(a, b) || SubscriptionAfter(b, a)
    ensures SubscriptionAfter(a, b) && SubscriptionAfter(b, c) ==> SubscriptionAfter(a, c)
  {
    StringAfterIsTotal(a.id, b.id, c.id);
  }

  predicate Distinct(subs: seq<ProviderSubscription>) {
    forall i, j :: 0 <= i < j < |subs| ==> subs[i].id != subs[j].id
  }

  /** No subscription outranks the selected one; with distinct ids it outranks every other. */
  lemma {:induction false} SelectIsGreatest(subs: seq<ProviderSubscription>)
    ensures Select(subs).None? <==> subs == []
    ensures Select(subs).Some? ==> Select(subs).value in subs
    ensures forall sub :: sub in subs ==> !SubscriptionAfter(sub, Select(subs).value)
    ensures Distinct(subs) ==>
              forall sub :: sub in subs ==> sub == Select(subs).value || SubscriptionAfter(Select(subs).value, sub)
  {
    if subs != [] {
      var front, last := subs[..|subs| - 1], subs[|subs| - 1];
      SelectIsGreatest(front);
      var best, chosen := Select(front), Select(subs).value;
      forall sub | sub in subs
        ensures !SubscriptionAfter(sub, chosen)
      {
        assert sub == last || sub in front;
        SubscriptionAfterIsTotal(last, last, last);
        if best.Some? { SubscriptionAfterIsTotal(sub, last, best.value); }
      }
      if Distinct(subs) {
        forall sub | sub in subs && sub != chosen
          ensures SubscriptionAfter(chosen, sub)
        {
          var i :| 0 <= i < |subs| && subs[i] == sub;
          var j :| 0 <= j < |subs| && subs[j] == chosen;
          SubscriptionAfterIsTotal(sub, chosen, sub);
        }
      }
    }
  }

  /** So it ranks the same however the provider orders its answer, and with distinct ids it is
      the same. */
  lemma SelectIgnoresOrder(a: seq<ProviderSubscription>, b: seq<ProviderSubscription>)
    requires forall sub :: sub in a <==> sub in b
    ensures Select(a).Some? <==> Select(b).Some?
    ensures Select(a).Some? && Select(b).Some? ==>
              && !SubscriptionAfter(Select(a).value, Select(b).value)
              && !SubscriptionAfter(Select(b).value, Select(a).value)
    ensures Distinct(a) && Distinct(b) ==> Select(a) == Select(b)
  {
    SelectIsGreatest(a);
    SelectIsGreatest(b);
    if a != [] {
      assert a[0] in b;
      SubscriptionAfterIsTotal(Select(a).value, Select(b).value, Select(a).value);
    }
  }

  /** In good standing, as the provider's own words say it. */
  predicate Live(sub: ProviderSubscription) { !sub.paused && sub.status in {"active", "trialing"} }

  /** Over: it can never charge again. */
  predicate Ended(sub: ProviderSubscription) { sub.status in {"canceled", "incomplete_expired"} }

  /** The subscription chosen among those reported: a live one if there is any, else one that is not
      over if there is any; of those alike the one created last, then the one whose period ends
      last, then the one whose id comes last. */
  lemma TheSelectedSubscription(subs: seq<ProviderSubscription>)
    requires subs != [] && Distinct(subs)
    ensures Select(subs).Some?
    ensures var chosen := Select(subs).value;
            && chosen in subs
            && forall sub :: sub in subs ==>
                 && (Live(sub) ==> Live(chosen))
                 && (!Ended(sub) ==> !Ended(chosen))
                 && ((Live(sub) <==> Live(chosen)) && (Live(chosen) || (Ended(sub) <==> Ended(chosen))) ==>
                       && sub.created <= chosen.created
                       && (sub.created == chosen.created ==>
                             && sub.periodEnd <= chosen.periodEnd
                             && (sub.periodEnd == chosen.periodEnd ==> sub == chosen || ComesAfter(chosen.id, sub.id))))
  {
    SelectIsGreatest(subs);
    hide Select, StringAfter;
    var chosen := Select(subs).value;
    forall sub | sub in subs
      ensures StringAfter(chosen.id, sub.id) ==> ComesAfter(chosen.id, sub.id)
    {
      StringAfterMeans(chosen.id, sub.id);
    }
  }

  /** Where two strings first differ, the one that goes on or has the greater character. */
  ghost predicate ComesAfter(a: string, b: string) {
    exists i :: 0 <= i < |a| && i <= |b| && a[..i] == b[..i] && (i == |b| || a[i] > b[i])
  }

  lemma {:induction false} StringAfterMeans(a: string, b: string)
    ensures StringAfter(a, b) ==> ComesAfter(a, b)
  {
    if a != "" && b != "" && a[0] == b[0] {
      StringAfterMeans(a[1..], b[1..]);
      if ComesAfter(a[1..], b[1..]) {
        var i :| 0 <= i < |a[1..]| && i <= |b[1..]| && a[1..][..i] == b[1..][..i] &&
                 (i == |b[1..]| || a[1..][i] > b[1..][i]);
        assert a[..i + 1] == [a[0]] + a[1..][..i] && b[..i + 1] == [b[0]] + b[1..][..i];
        assert ComesAfter(a, b);
      }
    } else if a != "" {
      assert a[..0] == b[..0];
    }
  }

  // ---- what a reconcile decides ----

  /** What a subscription's invoices prove is about that subscription. */
  predicate Own(sub: ProviderSubscription) { sub.invoice == NOTHING || sub.invoice.subscription == sub.id }

  /** Evidence the row stands for is never lost sight of. */
  lemma ResolvedCoversTheRow(sub: ProviderSubscription, existing: Row, log: seq<Update>, u: Update)
    requires Stated(log) && Own(sub)
    ensures var best := Resolved(sub, existing, log, u);
            best == NOTHING || (best.subscription == sub.id && !best.state.NoState?)
    ensures existing.subscription == sub.id && !existing.state.NoState? ==>
              && !Resolved(sub, existing, log, u).state.NoState?
              && !After(StoredUpdate(existing), Resolved(sub, existing, log, u))
  {
    var stored, known, best := StoredUpdate(existing), Known(sub, existing, u), Resolved(sub, existing, log, u);
    LatestIsLatest(log, sub.id, known);
    if best != NOTHING {
      assert Offered(best, log, sub.id, known);
    }
    if existing.subscription == sub.id && !existing.state.NoState? {
      AfterIsAnOrder(stored, stored, stored);
      assert Offered(known, log, sub.id, known);
      AfterIsAnOrder(stored, known, best);
    }
  }

  /** The row of a selected subscription says paid exactly when the greatest evidence does, never
      because the provider calls it active; and failed exactly when that evidence does, or when
      there is none in its favour and it is neither paying nor still settling. */
  lemma StateExactlyWhen(existing: Row, sub: ProviderSubscription, log: seq<Update>, u: Update, reconciled: int)
    requires Stated(log) && Own(sub)
    ensures var best := Resolved(sub, existing, log, u);
            var row := Clocked(Mirrored(existing, sub, best, reconciled), log, best);
            && (row.state.Paid? <==> best.state.Paid?)
            && (row.state.Failed? <==>
                  best.state.Failed?
                  || (best.state.NoState? && !sub.Paying() && !(sub.status == "incomplete" && !sub.paused)))
            && (row.state.Paid? ==> row.failedAt == 0)
            && (sub.paused ==> row.status == "paused")
  {
    hide Resolved, FirstFailure, FailureTime;
    ResolvedCoversTheRow(sub, existing, log, u);
  }

  lemma {:induction false} EntitledMeans(subs: seq<ProviderSubscription>, existing: Row, log: seq<Update>, u: Update)
    ensures forall sub :: sub in Entitled(subs, existing, log, u) <==>
              sub in subs && sub.Paying() && Resolved(sub, existing, log, u).state.Paid?
    ensures Distinct(subs) ==> Distinct(Entitled(subs, existing, log, u))
  {
    if subs != [] {
      var front, last := subs[..|subs| - 1], subs[|subs| - 1];
      EntitledMeans(front, existing, log, u);
      assert subs == front + [last];
      hide Resolved;
      var kept := Entitled(front, existing, log, u);
      if Distinct(subs) {
        forall i | 0 <= i < |kept| ensures kept[i].id != last.id {
          assert kept[i] in front;
        }
      }
    }
  }

  /** An account with any paying subscription whose greatest evidence is paid is mirrored as
      paid, by one of those; and without any subscription it never is. */
  lemma APaidSubscriptionIsMirrored(existing: Row, subs: seq<ProviderSubscription>, log: seq<Update>, u: Update)
    requires Stated(log) && Distinct(subs) && forall sub :: sub in subs ==> Own(sub)
    ensures (exists sub :: sub in subs && sub.Paying() && Resolved(sub, existing, log, u).state.Paid?) ==>
              var chosen, row := Selected(subs, existing, log, u), Computed(existing, subs, log, u);
              && chosen.Some? && chosen.value in subs && chosen.value.Paying()
              && row.subscription == chosen.value.id && row.state.Paid? && row.failedAt == 0
    ensures subs == [] ==> !Computed(existing, subs, log, u).state.Paid?
  {
    EntitledMeans(subs, existing, log, u);
    var entitled := Entitled(subs, existing, log, u);
    SelectIsGreatest(entitled);
    hide Resolved, Mirrored, FirstFailure;
    if entitled != [] {
      var chosen := Select(entitled).value;
      assert chosen in entitled && chosen in subs;
      StateExactlyWhen(existing, chosen, log, u, Max(existing.reconciled, u.event));
      MirroredIsReported(existing, chosen, Resolved(chosen, existing, log, u), Max(existing.reconciled, u.event), log);
    } else {
      assert forall sub :: sub in subs ==> sub !in entitled;
    }
  }
}
