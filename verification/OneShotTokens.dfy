/**
  The VerificationTokens table: single-use credentials that every consumer spends with one
  conditional update. Services/Tokens/MfaTicketService.cs, Services/Auth/PasswordResetService.cs,
  Services/Passkeys/PasskeyService.cs and the delete of
  BackgroundServices/ExpiredAuthArtifactCleanupService.cs.

  A token's plaintext and hash are one fresh number. Consumers are not transactions: only the
  conditional update is atomic, so a run is any interleaving of the steps below.
*/
module OneShotTokens {
  import opened Events
  import opened Options

  type Id = nat

  datatype Kind =
    | EmailVerification | PasswordReset | MfaChallenge
    | PasskeyRegistrationChallenge | PasskeyAuthenticationChallenge | SocialAuthorizationState

  datatype Row = Row(owner: Option<Id>, kind: Kind, expiresAt: int, consumedAt: Option<int>)

  /** Whether the WHERE clause compares the owner, as for passkey challenges. */
  datatype OwnerFilter = AnyOwner | OwnerIs(owner: Option<Id>)

  predicate Admits(filter: OwnerFilter, owner: Option<Id>) {
    filter.AnyOwner? || filter.owner == owner
  }

  datatype Table = Table(next: Id, rows: map<Id, Row>)

  function Insert(t: Table, owner: Option<Id>, kind: Kind, expiresAt: int): Table {
    Table(t.next + 1, t.rows[t.next := Row(owner, kind, expiresAt, None)])
  }

  /** The rows the conditional update matches. */
  predicate Consumable(t: Table, h: Id, kind: Kind, filter: OwnerFilter, now: int) {
    h in t.rows && t.rows[h].kind == kind && Admits(filter, t.rows[h].owner)
    && t.rows[h].consumedAt.None? && t.rows[h].expiresAt > now
  }

  function Consume(t: Table, h: Id, kind: Kind, filter: OwnerFilter, now: int): (Table, nat) {
    if Consumable(t, h, kind, filter, now)
    then (t.(rows := t.rows[h := t.rows[h].(consumedAt := Some(now))]), 1)
    else (t, 0)
  }

  predicate Deletable(row: Row, now: int) {
    row.expiresAt <= now || row.consumedAt.Some?
  }

  /** A cleanup batch: some of the rows that are expired or consumed. */
  function Delete(t: Table, ids: set<Id>, now: int): Table {
    t.(rows := map h | h in t.rows && !(h in ids && Deletable(t.rows[h], now)) :: t.rows[h])
  }

  /** The table and its writers. */
  class VerificationTokens {
    var next: Id
    var rows: map<Id, Row>

    constructor ()
      ensures Snapshot() == Table(0, map[])
    {
      next, rows := 0, map[];
    }

    function Snapshot(): Table
      reads this
    {
      Table(next, rows)
    }

    /** MfaTicketService.IssueAsync, PasswordResetService.RequestAsync, PasskeyService.StoreChallengeAsync. */
    method Issue(owner: Option<Id>, kind: Kind, lifetime: int, now: int) returns (token: Id)
      modifies this
      ensures token == old(next) && Snapshot() == Insert(old(Snapshot()), owner, kind, now + lifetime)
    {
      token := next;
      next := next + 1;
      rows := rows[token := Row(owner, kind, now + lifetime, None)];
    }

    /** The ExecuteUpdate of every consumer: how many rows it affected. */
    method ExecuteConsume(h: Id, kind: Kind, filter: OwnerFilter, now: int) returns (affected: nat)
      modifies this
      ensures (Snapshot(), affected) == Consume(old(Snapshot()), h, kind, filter, now)
    {
      affected := 0;
      if h in rows {
        var row := rows[h];
        if row.kind == kind && Admits(filter, row.owner) && row.consumedAt == None && row.expiresAt > now {
          rows := rows[h := row.(consumedAt := Some(now))];
          affected := 1;
        }
      }
    }

    /** MfaTicketService.ConsumeAsync, the update and the read-back with nothing in between. */
    method ConsumeTicket(ticket: Id, now: int) returns (user: Option<Id>)
      modifies this
      ensures Snapshot() == Consume(old(Snapshot()), ticket, MfaChallenge, AnyOwner, now).0
      ensures user == if Consumable(old(Snapshot()), ticket, MfaChallenge, AnyOwner, now)
                      then old(rows)[ticket].owner else None
    {
      var consumed := ExecuteConsume(ticket, MfaChallenge, AnyOwner, now);
      if consumed == 0 {
        return None;
      }
      user := rows[ticket].owner;
    }
  }

  // ---------------------------------------------------------------------------------------------
  // Runs
  // ---------------------------------------------------------------------------------------------

  datatype Action =
    | DoInsert(owner: Option<Id>, kind: Kind, expiresAt: int)
    | DoConsume(h: Id, kind: Kind, filter: OwnerFilter)
    | DoDelete(ids: set<Id>)

  datatype Success = Success(h: Id, kind: Kind, filter: OwnerFilter, now: int)

  /** `issued` keeps every row as it was inserted; `successes` every update that affected a row. */
  datatype World = World(table: Table, issued: map<Id, Row>, successes: seq<Success>, clock: int)

  function Next(w: World, e: Event<Action>): World {
    match e.action
    case DoInsert(owner, kind, expiresAt) =>
      World(Insert(w.table, owner, kind, expiresAt), w.issued[w.table.next := Row(owner, kind, expiresAt, None)],
            w.successes, e.now)
    case DoConsume(h, kind, filter) =>
      var (table, affected) := Consume(w.table, h, kind, filter, e.now);
      World(table, w.issued,
            if affected > 0 then w.successes + [Success(h, kind, filter, e.now)] else w.successes, e.now)
    case DoDelete(ids) => w.(table := Delete(w.table, ids, e.now), clock := e.now)
  }

  predicate Spent(w: World, h: Id) {
    exists i :: 0 <= i < |w.successes| && w.successes[i].h == h
  }

  /** A stored row is as issued but for its consumption; a missing one was spent or had expired. */
  ghost predicate Inv(w: World) {
    && (forall h :: h in w.table.rows ==> h in w.issued && w.issued[h] == w.table.rows[h].(consumedAt := None))
    && (forall h :: h in w.table.rows ==> (w.table.rows[h].consumedAt.Some? <==> Spent(w, h)))
    && (forall h :: h in w.issued && h !in w.table.rows ==> w.issued[h].expiresAt <= w.clock || Spent(w, h))
    && (forall h :: h in w.issued ==> h < w.table.next)
    && (forall i :: 0 <= i < |w.successes| ==> w.successes[i].h in w.issued)
    && (forall i, j :: 0 <= i < j < |w.successes| ==> w.successes[i].h != w.successes[j].h)
  }

  /** What it takes to spend a token, in terms of its issue and the spending so far alone. */
  predicate Rightful(w: World, h: Id, kind: Kind, filter: OwnerFilter, now: int) {
    && h in w.issued && w.issued[h].kind == kind && (filter.OwnerIs? ==> w.issued[h].owner == filter.owner)
    && now < w.issued[h].expiresAt && !Spent(w, h)
  }

  lemma ConsumableIsRightful(w: World, h: Id, kind: Kind, filter: OwnerFilter, now: int)
    requires Inv(w) && w.clock <= now
    ensures Consumable(w.table, h, kind, filter, now) <==> Rightful(w, h, kind, filter, now)
  {
    hide Spent;
  }

  lemma SpentAfter(w: World, s: Success, w': World)
    requires w'.successes == w.successes + [s]
    ensures forall h :: Spent(w', h) <==> Spent(w, h) || h == s.h
  {
    forall h ensures Spent(w', h) <==> Spent(w, h) || h == s.h {
      if Spent(w, h) {
        var i :| 0 <= i < |w.successes| && w.successes[i].h == h;
        assert w'.successes[i].h == h;
      }
      if h == s.h {
        assert w'.successes[|w.successes|].h == h;
      }
    }
  }

  lemma NextKeepsInv(w: World, e: Event<Action>)
    requires Inv(w) && w.clock <= e.now
    ensures Inv(Next(w, e)) && Next(w, e).clock == e.now
  {
    var w' := Next(w, e);
    if e.action.DoConsume? && Consumable(w.table, e.action.h, e.action.kind, e.action.filter, e.now) {
      ConsumedKeepsInv(w, e.action.h, e.action.kind, e.action.filter, e.now);
    } else {
      assert w'.successes == w.successes;
      assert forall h :: Spent(w', h) <==> Spent(w, h);
      hide Spent;
      assert e.action.DoInsert? ==> !Spent(w, w.table.next) by {
        FreshUnspent(w);
      }
    }
  }

  lemma FreshUnspent(w: World)
    requires Inv(w)
    ensures !Spent(w, w.table.next)
  {
  }

  lemma ConsumedKeepsInv(w: World, h: Id, kind: Kind, filter: OwnerFilter, now: int)
    requires Inv(w) && w.clock <= now && Consumable(w.table, h, kind, filter, now)
    ensures Inv(Next(w, Event(DoConsume(h, kind, filter), now)))
  {
    var w' := Next(w, Event(DoConsume(h, kind, filter), now));
    SpentAfter(w, Success(h, kind, filter, now), w');
    assert !Spent(w, h);
    forall i | 0 <= i < |w.successes| ensures w.successes[i].h != h {
      assert w.successes[i].h == h ==> Spent(w, h);
    }
    hide Spent;
  }

  ghost function Run(w: World, events: seq<Event<Action>>): (w': World)
    requires Inv(w) && Timely(w.clock, events)
    ensures Inv(w') && w'.clock == if events == [] then w.clock else events[|events| - 1].now
  {
    if events == [] then w
    else
      var before := Run(w, events[..|events| - 1]);
      NextKeepsInv(before, events[|events| - 1]);
      Next(before, events[|events| - 1])
  }

  ghost function Start(clock: int): (w: World)
    ensures Inv(w) && w.clock == clock
  {
    World(Table(0, map[]), map[], [], clock)
  }

  /** On every run each token is spent at most once, by its own kind and owner, before it expires. */
  lemma SpentAtMostOnce(clock: int, events: seq<Event<Action>>)
    requires Timely(clock, events)
    ensures var w := Run(Start(clock), events);
            && (forall i, j :: 0 <= i < j < |w.successes| ==> w.successes[i].h != w.successes[j].h)
            && AllWereRightful(w)
  {
    hide Inv;
    AllRightful(Start(clock), events);
    SuccessesDiffer(Run(Start(clock), events));
  }

  predicate WasRightful(w: World, s: Success) {
    && s.h in w.issued && w.issued[s.h].kind == s.kind
    && (s.filter.OwnerIs? ==> w.issued[s.h].owner == s.filter.owner)
    && s.now < w.issued[s.h].expiresAt
  }

  ghost predicate AllWereRightful(w: World) {
    forall i :: 0 <= i < |w.successes| ==> WasRightful(w, w.successes[i])
  }

  lemma SuccessesDiffer(w: World)
    requires Inv(w)
    ensures forall i, j :: 0 <= i < j < |w.successes| ==> w.successes[i].h != w.successes[j].h
  {
  }

  lemma SuccessesGrow(w: World, e: Event<Action>)
    ensures var s := Next(w, e).successes;
            s == w.successes || (|s| == |w.successes| + 1 && s == w.successes + [s[|w.successes|]])
  {
  }

  lemma RightfulStays(w: World, e: Event<Action>, s: Success)
    requires Inv(w) && WasRightful(w, s)
    ensures WasRightful(Next(w, e), s)
  {
  }

  lemma NewSuccessRightful(w: World, e: Event<Action>, s: Success)
    requires Inv(w) && w.clock <= e.now
    requires Next(w, e).successes == w.successes + [s]
    ensures WasRightful(Next(w, e), s)
  {
    var a := e.action;
    assert (w.successes + [s])[|w.successes|] == s;
    assert a.DoConsume? && Consumable(w.table, a.h, a.kind, a.filter, e.now);
    ConsumableIsRightful(w, a.h, a.kind, a.filter, e.now);
  }

  lemma {:induction false} AllRightful(w: World, events: seq<Event<Action>>)
    requires Inv(w) && Timely(w.clock, events)
    requires AllWereRightful(w)
    ensures AllWereRightful(Run(w, events))
  {
    hide Inv, Next;
    if events != [] {
      var before, last := Run(w, events[..|events| - 1]), events[|events| - 1];
      AllRightful(w, events[..|events| - 1]);
      var w' := Next(before, last);
      SuccessesGrow(before, last);
      forall i | 0 <= i < |w'.successes| ensures WasRightful(w', w'.successes[i]) {
        if i < |before.successes| {
          RightfulStays(before, last, before.successes[i]);
        } else {
          NewSuccessRightful(before, last, w'.successes[i]);
        }
      }
    }
  }

  /**
    Exactly which updates affect a row, on every run: deletions are invisible. A token that was
    deleted, by whatever batches, answers precisely as if it were still stored.
  */
  lemma ConsumeExactly(clock: int, events: seq<Event<Action>>, h: Id, kind: Kind, filter: OwnerFilter, now: int)
    requires Timely(clock, events) && Run(Start(clock), events).clock <= now
    ensures var w := Run(Start(clock), events);
            var (table, affected) := Consume(w.table, h, kind, filter, now);
            && affected == (if Rightful(w, h, kind, filter, now) then 1 else 0)
            && table.rows == if affected == 1 then w.table.rows[h := w.issued[h].(consumedAt := Some(now))]
                             else w.table.rows
  {
    hide Spent;
    ConsumableIsRightful(Run(Start(clock), events), h, kind, filter, now);
  }

  /** What is stored, on every run: a cleanup takes exactly those of its rows that have expired or been spent. */
  lemma DeletedExactly(clock: int, events: seq<Event<Action>>, ids: set<Id>, now: int, h: Id)
    requires Timely(clock, events) && Run(Start(clock), events).clock <= now
    ensures var w := Run(Start(clock), events);
            h in Next(w, Event(DoDelete(ids), now)).table.rows <==>
            h in w.table.rows && !(h in ids && (w.issued[h].expiresAt <= now || Spent(w, h)))
  {
    hide Spent;
  }
}
