/**
 The durable lease that serialises billing work on one account, as a row in the database and
 the objects that hold it. Every statement reads its own clock, and no clock is trusted.
 */
module AccountLeases {
  import opened Common

  type Token = nat

  datatype Row = Row(token: Token, expires: int)

  /** Seconds. */
  const LEASE: int := 300

  // ---- the statements ----

  /** Insert, or take over a row that has expired. */
  function Acquired(row: Option<Row>, token: Token, now: int): (Option<Row>, bool) {
    if row.None? || row.value.expires <= now then (Some(Row(token, now + LEASE)), true) else (row, false)
  }

  /** Extend a row that is still this token's and has not expired. */
  function Renewed(row: Option<Row>, token: Token, now: int): (Option<Row>, bool) {
    if row.Some? && row.value.token == token && row.value.expires > now
    then (Some(Row(token, now + LEASE)), true) else (row, false)
  }

  /** Delete the row if it is this token's. */
  function Released(row: Option<Row>, token: Token): Option<Row> {
    if row.Some? && row.value.token == token then None else row
  }

  class LeaseTable {
    var row: Option<Row>

    constructor ()
      ensures row == None
    {
      row := None;
    }

    /** One attempt to take the account; the caller tries again until it succeeds. */
    method Acquire(token: Token, now: int) returns (lease: AccountLease?)
      modifies this
      ensures (row, lease != null) == Acquired(old(row), token, now)
      ensures lease != null <==> old(row).None? || old(row).value.expires <= now
      ensures row == if lease != null then Some(Row(token, now + 300)) else old(row)
      ensures lease != null ==>
                fresh(lease) && lease.table == this && lease.token == token && !lease.lost && !lease.released
    {
      lease := null;
      if row.None? || row.value.expires <= now {
        row := Some(Row(token, now + LEASE));
        lease := new AccountLease(this, token);
      }
    }
  }

  class AccountLease {
    const table: LeaseTable
    const token: Token
    var lost: bool
    var released: bool

    constructor (table: LeaseTable, token: Token)
      ensures this.table == table && this.token == token && !lost && !released
    {
      this.table, this.token, lost, released := table, token, false, false;
    }

    /** The fencing check made before every side effect. A lease its heartbeat found lost stays
        lost. */
    method Renew(now: int, reached: bool, answered: bool) returns (ok: bool)
      modifies table
      ensures lost ==> !ok && table.row == old(table.row)
      ensures !lost ==> table.row == if reached then Renewed(old(table.row), token, now).0 else old(table.row)
      ensures !lost ==> (ok <==> reached && answered && Renewed(old(table.row), token, now).1)
      ensures ok ==>
                && old(table.row).Some? && old(table.row).value.token == token && now < old(table.row).value.expires
                && table.row == Some(Row(token, now + 300))
    {
      if lost || !reached { return false; }
      ok := table.row.Some? && table.row.value.token == token && table.row.value.expires > now;
      if ok { table.row := Some(Row(token, now + LEASE)); }
      ok := ok && answered;
    }

    /** Any failed renewal in the background, even one that only went unanswered, loses the lease. */
    method Heartbeat(now: int, reached: bool, answered: bool)
      modifies this, table
      ensures released == old(released)
      ensures !lost <==> !old(lost) && reached && answered && Renewed(old(table.row), token, now).1
      ensures table.row == if old(lost) || !reached then old(table.row) else Renewed(old(table.row), token, now).0
    {
      var ok := Renew(now, reached, answered);
      if !ok { lost := true; }
    }

    /** Removes only this token's row, once. */
    method Release()
      modifies this, table
      ensures released && lost == old(lost)
      ensures table.row == if old(released) then old(table.row) else Released(old(table.row), token)
    {
      if released { return; }
      released := true;
      if table.row.Some? && table.row.value.token == token { table.row := None; }
    }
  }

  // ---- runs ----

  /** The row, and the tokens that have acquired it, oldest first. */
  datatype World = World(row: Option<Row>, owners: seq<Token>)

  /** Passed says whether the statement took effect. */
  datatype Event =
    | Acquire(token: Token, now: int, passed: bool)
    | Renew(token: Token, now: int, passed: bool)
    | Release(token: Token)
    | Cascade  // the team's deletion takes the row with it

  ghost predicate Next(w: World, e: Event, w': World) {
    match e
    case Acquire(token, now, passed) =>
      && token !in w.owners
      && (w'.row, passed) == Acquired(w.row, token, now)
      && w'.owners == if passed then w.owners + [token] else w.owners
    case Renew(token, now, passed) =>
      (w'.row, passed) == Renewed(w.row, token, now) && w'.owners == w.owners
    case Release(token) => w' == w.(row := Released(w.row, token))
    case Cascade => w' == w.(row := None)
  }

  ghost predicate Inv(w: World) {
    && (w.row.Some? ==> w.owners != [] && w.row.value.token == w.owners[|w.owners| - 1])
    && forall i, j :: 0 <= i < j < |w.owners| ==> w.owners[i] != w.owners[j]
  }

  ghost predicate Run(ws: seq<World>, es: seq<Event>) {
    && |ws| == |es| + 1 && ws[0] == World(None, [])
    && forall i :: 0 <= i < |es| ==> Next(ws[i], es[i], ws[i + 1])
  }

  lemma {:induction false} RunKeeps(ws: seq<World>, es: seq<Event>, i: nat)
    requires Run(ws, es) && i < |ws|
    ensures Inv(ws[i])
  {
    if i > 0 {
      RunKeeps(ws, es, i - 1);
      assert Next(ws[i - 1], es[i - 1], ws[i - 1 + 1]);
    }
  }

  lemma {:induction false} OwnersGrow(ws: seq<World>, es: seq<Event>, i: nat, j: nat)
    requires Run(ws, es) && i <= j < |ws|
    ensures ws[i].owners <= ws[j].owners
    decreases j
  {
    if i < j {
      OwnersGrow(ws, es, i, j - 1);
      assert Next(ws[j - 1], es[j - 1], ws[j - 1 + 1]);
    }
  }

  ghost predicate Passes(e: Event, token: Token) {
    (e.Acquire? || e.Renew?) && e.token == token && e.passed
  }

  lemma PassingOwnsTheRow(ws: seq<World>, es: seq<Event>, i: nat, token: Token)
    requires Run(ws, es) && i < |es| && Passes(es[i], token)
    ensures ws[i + 1].owners != [] && ws[i + 1].owners[|ws[i + 1].owners| - 1] == token
  {
    RunKeeps(ws, es, i);
    assert Next(ws[i], es[i], ws[i + 1]);
  }

  /** Fencing: once another worker has acquired the account or renewed it after us, no check of
      ours ever passes again, so the checks that pass never interleave. */
  lemma NoCheckPassesAgain(ws: seq<World>, es: seq<Event>, i: nat, j: nat, k: nat, mine: Token, theirs: Token)
    requires Run(ws, es) && i < j < k < |es| && mine != theirs
    requires Passes(es[i], mine) && Passes(es[j], theirs)
    ensures !Passes(es[k], mine)
  {
    PassingOwnsTheRow(ws, es, i, mine);
    PassingOwnsTheRow(ws, es, j, theirs);
    OwnersGrow(ws, es, i + 1, j + 1);
    OwnersGrow(ws, es, j + 1, k + 1);
    RunKeeps(ws, es, k + 1);
    var first, second, third := ws[i + 1].owners, ws[j + 1].owners, ws[k + 1].owners;
    assert first[|first| - 1] == second[|first| - 1] == third[|first| - 1] == mine;
    assert second[|second| - 1] == third[|second| - 1] == theirs;
    assert |first| < |second| <= |third|;
    assert third[|third| - 1] != mine;
    if Passes(es[k], mine) { PassingOwnsTheRow(ws, es, k, mine); }
  }

  // ---- when a check passes ----

  /** A statement that took effect. */
  predicate Passed(e: Event) { (e.Acquire? || e.Renew?) && e.passed }

  /** The last check that passed among the first n events. */
  function LastPass(es: seq<Event>, n: nat): (l: Option<nat>)
    requires n <= |es|
    ensures l.None? ==> forall k :: 0 <= k < n ==> !Passed(es[k])
    ensures l.Some? ==> l.value < n && Passed(es[l.value]) && forall k :: l.value < k < n ==> !Passed(es[k])
  {
    if n == 0 then None else if Passed(es[n - 1]) then Some(n - 1) else LastPass(es, n - 1)
  }

  /** After the l-th event and before the n-th, its worker has released the row, or the team's
      deletion has taken it. */
  predicate Freed(es: seq<Event>, l: nat, n: nat)
    requires l < n <= |es| && Passed(es[l])
  {
    exists k :: l < k < n && (es[k].Cascade? || (es[k].Release? && es[k].token == es[l].token))
  }

  /** The row as the first n events leave it. */
  predicate RowTold(es: seq<Event>, n: nat, row: Option<Row>)
    requires n <= |es|
  {
    match LastPass(es, n)
    case None => row == None
    case Some(l) => row == if Freed(es, l, n) then None else Some(Row(es[l].token, es[l].now + LEASE))
  }

  lemma TellNext(es: seq<Event>, n: nat, w: World, w': World)
    requires n < |es| && RowTold(es, n, w.row) && Next(w, es[n], w')
    ensures RowTold(es, n + 1, w'.row)
  {
    var last := LastPass(es, n);
    if !Passed(es[n]) && last.Some? { FreedNext(es, last.value, n); }
  }

  lemma FreedNext(es: seq<Event>, l: nat, n: nat)
    requires l < n < |es| && Passed(es[l])
    ensures Freed(es, l, n + 1) <==>
              Freed(es, l, n) || es[n].Cascade? || (es[n].Release? && es[n].token == es[l].token)
  {}

  lemma {:induction false} EventsTellTheRow(ws: seq<World>, es: seq<Event>, n: nat)
    requires Run(ws, es) && n < |ws|
    ensures RowTold(es, n, ws[n].row)
  {
    hide Next, RowTold;
    if n == 0 {
      NothingTold(es);
    } else {
      EventsTellTheRow(ws, es, n - 1);
      assert Next(ws[n - 1], es[n - 1], ws[n - 1 + 1]);
      TellNext(es, n - 1, ws[n - 1], ws[n]);
    }
  }

  lemma NothingTold(es: seq<Event>)
    ensures RowTold(es, 0, None)
  {}

  /** Over every run, from the events alone: an attempt to acquire passes exactly when no check has
      passed before, or the last one that did has since been released or taken away, or was made
      at least a lease earlier. So a crashed worker holds the account up for one lease. */
  lemma AttemptPassesExactlyWhen(ws: seq<World>, es: seq<Event>, n: nat)
    requires Run(ws, es) && n < |es| && es[n].Acquire?
    ensures var last := LastPass(es, n);
            es[n].passed <==>
              last.None? || Freed(es, last.value, n) || es[last.value].now + LEASE <= es[n].now
  {
    EventsTellTheRow(ws, es, n);
    assert Next(ws[n], es[n], ws[n + 1]);
  }

  /** A renewal passes exactly when the last check that passed was this worker's, nothing has taken
      the row away since, and less than a lease has gone by. */
  lemma RenewalPassesExactlyWhen(ws: seq<World>, es: seq<Event>, n: nat)
    requires Run(ws, es) && n < |es| && es[n].Renew?
    ensures var last := LastPass(es, n);
            es[n].passed <==>
              && last.Some? && !Freed(es, last.value, n) && es[last.value].token == es[n].token
              && es[n].now < es[last.value].now + LEASE
  {
    EventsTellTheRow(ws, es, n);
    assert Next(ws[n], es[n], ws[n + 1]);
  }

  /** A release, however late, leaves every other worker's row where it is. */
  lemma ReleaseTouchesOnlyItsOwn(ws: seq<World>, es: seq<Event>, i: nat, token: Token)
    requires Run(ws, es) && i < |es| && es[i] == Event.Release(token)
    ensures ws[i].row.Some? && ws[i].row.value.token != token ==> ws[i + 1].row == ws[i].row
    ensures ws[i + 1].row.Some? ==> ws[i + 1].row == ws[i].row && ws[i].row.value.token != token
  {
    assert Next(ws[i], es[i], ws[i + 1]);
  }
}
