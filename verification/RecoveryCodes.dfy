/**
  Recovery codes of Services/Mfa/TotpService.cs: replaced as a batch, and spent by the second branch
  of VerifyAsync, which reads a user's unused codes and later saves UsedAt on the one that matched.
  Read and save are separate steps and the row carries no concurrency token; neither is replacing,
  a delete and an insert, one step.

  A code and the row that keeps its hash are one fresh number.
*/
module RecoveryCodes {
  import opened Events
  import opened Options

  type Id = nat

  const BATCH := 10

  datatype Row = Row(user: Id, usedAt: Option<int>)

  datatype Table = Table(next: Id, rows: map<Id, Row>)

  function DeleteFor(t: Table, user: Id): Table {
    t.(rows := map c | c in t.rows && t.rows[c].user != user :: t.rows[c])
  }

  function InsertFor(t: Table, user: Id, count: nat): Table {
    if count == 0 then t
    else
      var before := InsertFor(t, user, count - 1);
      Table(before.next + 1, before.rows[before.next := Row(user, None)])
  }

  /** The read of VerifyAsync finds the presented code among the user's unused ones. */
  predicate Found(t: Table, user: Id, code: Id) {
    code in t.rows && t.rows[code].user == user && t.rows[code].usedAt.None?
  }

  /** The save updates the row by its id alone, and throws when the row is gone. */
  function Save(t: Table, code: Id, now: int): (Table, bool) {
    if code in t.rows then (t.(rows := t.rows[code := t.rows[code].(usedAt := Some(now))]), true) else (t, false)
  }

  ghost predicate Fresh(t: Table) {
    forall c :: c in t.rows ==> c < t.next
  }

  /** The user's codes are the ten new ones, unused; everybody else's are as they were. */
  ghost predicate Replaced(before: Table, after: Table, user: Id, codes: seq<Id>) {
    && |codes| == 10 && (forall i, j :: 0 <= i < j < 10 ==> codes[i] != codes[j])
    && (forall c :: c in codes ==> c !in before.rows && c in after.rows && after.rows[c] == Row(user, None))
    && (forall c :: c in after.rows && after.rows[c].user == user ==> c in codes)
    && (forall c :: c in after.rows && after.rows[c].user != user ==> c in before.rows)
    && (forall c :: c in before.rows && before.rows[c].user != user ==>
          c in after.rows && after.rows[c] == before.rows[c])
  }

  lemma ReplacedByTen(t: Table, user: Id, codes: seq<Id>)
    requires Fresh(t) && codes == seq(BATCH, i requires 0 <= i < BATCH => t.next + i)
    ensures Replaced(t, InsertFor(DeleteFor(t, user), user, BATCH), user, codes)
  {
    Inserted(DeleteFor(t, user), user, BATCH);
    forall c | t.next <= c < t.next + BATCH ensures c in codes {
      assert codes[c - t.next] == c;
    }
  }

  class RecoveryCodeTable {
    var next: Id
    var rows: map<Id, Row>

    constructor ()
      ensures Contents() == Table(0, map[])
    {
      next, rows := 0, map[];
    }

    function Contents(): Table
      reads this
    {
      Table(next, rows)
    }

    method ExecuteDelete(user: Id)
      modifies this
      ensures Contents() == DeleteFor(old(Contents()), user)
    {
      rows := map c | c in rows && rows[c].user != user :: rows[c];
    }

    method AddCodes(user: Id) returns (codes: seq<Id>)
      modifies this
      ensures Contents() == InsertFor(old(Contents()), user, BATCH)
      ensures codes == seq(BATCH, i requires 0 <= i < BATCH => old(next) + i)
    {
      codes := [];
      for k := 0 to BATCH
        invariant Contents() == InsertFor(old(Contents()), user, k)
        invariant next == old(next) + k && codes == seq(k, i requires 0 <= i < k => old(next) + i)
      {
        rows := rows[next := Row(user, None)];
        codes := codes + [next];
        next := next + 1;
      }
    }

    /** ReplaceRecoveryCodesAsync with nothing in between its two statements. */
    method Replace(user: Id) returns (codes: seq<Id>)
      modifies this
      ensures Contents() == InsertFor(DeleteFor(old(Contents()), user), user, BATCH)
      ensures codes == seq(BATCH, i requires 0 <= i < BATCH => old(next) + i)
      ensures Fresh(old(Contents())) ==> Replaced(old(Contents()), Contents(), user, codes)
    {
      ghost var before := Contents();
      ExecuteDelete(user);
      codes := AddCodes(user);
      if Fresh(before) {
        ReplacedByTen(before, user, codes);
      }
    }

    method SaveUsed(code: Id, now: int) returns (saved: bool)
      modifies this
      ensures (Contents(), saved) == Save(old(Contents()), code, now)
    {
      saved := code in rows;
      if saved {
        rows := rows[code := rows[code].(usedAt := Some(now))];
      }
    }
  }

  // ---------------------------------------------------------------------------------------------
  // Runs
  // ---------------------------------------------------------------------------------------------

  datatype Action =
    | DoDelete(user: Id)
    | DoInsert(user: Id)
    | DoRead(user: Id, code: Id)
    | DoSave(user: Id, code: Id)

  datatype Use = Use(user: Id, code: Id)

  /** `reading` holds the uses found so far: a request may save at any later time, or never. */
  datatype World = World(table: Table, reading: multiset<Use>, accepted: seq<Use>)

  function Start(): World {
    World(Table(0, map[]), multiset{}, [])
  }

  function Next(w: World, e: Event<Action>): World {
    match e.action
    case DoDelete(user) => w.(table := DeleteFor(w.table, user))
    case DoInsert(user) => w.(table := InsertFor(w.table, user, BATCH))
    case DoRead(user, code) =>
      if Found(w.table, user, code) then w.(reading := w.reading + multiset{Use(user, code)}) else w
    case DoSave(user, code) =>
      var use := Use(user, code);
      if use in w.reading then
        var (table, saved) := Save(w.table, code, e.now);
        World(table, w.reading - multiset{use}, if saved then w.accepted + [use] else w.accepted)
      else w
  }

  function Run(w: World, events: seq<Event<Action>>): World {
    if events == [] then w else Next(Run(w, events[..|events| - 1]), events[|events| - 1])
  }

  ghost predicate OnceEach(accepted: seq<Use>) {
    forall i, j :: 0 <= i < j < |accepted| ==> accepted[i].code != accepted[j].code
  }

  predicate Accepted(w: World, code: Id) {
    exists i :: 0 <= i < |w.accepted| && w.accepted[i].code == code
  }

  /** A stored code is marked used exactly when it was accepted. */
  ghost predicate Inv(w: World) {
    && (forall c :: c in w.table.rows ==> c < w.table.next && (w.table.rows[c].usedAt.Some? <==> Accepted(w, c)))
    && (forall i :: 0 <= i < |w.accepted| ==> w.accepted[i].code < w.table.next)
    && (forall use :: use in w.reading ==>
          use.code < w.table.next && (use.code in w.table.rows ==> w.table.rows[use.code].user == use.user))
  }

  /** A save that finds its code used since it was read. */
  predicate Stale(w: World, e: Event<Action>) {
    && e.action.DoSave? && Use(e.action.user, e.action.code) in w.reading
    && e.action.code in w.table.rows && w.table.rows[e.action.code].usedAt.Some?
  }

  lemma {:induction false} Inserted(t: Table, user: Id, count: nat)
    requires Fresh(t)
    ensures InsertFor(t, user, count).next == t.next + count
    ensures forall c :: c in InsertFor(t, user, count).rows <==> c in t.rows || t.next <= c < t.next + count
    ensures forall c :: c in t.rows ==> InsertFor(t, user, count).rows[c] == t.rows[c]
    ensures forall c :: t.next <= c < t.next + count ==> InsertFor(t, user, count).rows[c] == Row(user, None)
  {
    if count > 0 {
      Inserted(t, user, count - 1);
    }
  }

  lemma NextKeepsInv(w: World, e: Event<Action>)
    requires Inv(w)
    ensures Inv(Next(w, e))
  {
    var w' := Next(w, e);
    if e.action.DoInsert? {
      Inserted(w.table, e.action.user, BATCH);
      assert forall c :: Accepted(w', c) <==> Accepted(w, c);
    } else if w'.accepted != w.accepted {
      AcceptedNext(w, w', Use(e.action.user, e.action.code));
    } else {
      assert forall c :: Accepted(w', c) <==> Accepted(w, c);
    }
  }

  lemma AcceptedNext(w: World, w': World, use: Use)
    requires w'.accepted == w.accepted + [use]
    ensures forall c :: Accepted(w', c) <==> Accepted(w, c) || c == use.code
  {
    assert w'.accepted[|w.accepted|] == use;
    forall c | Accepted(w, c) ensures Accepted(w', c) {
      var i :| 0 <= i < |w.accepted| && w.accepted[i].code == c;
      assert w'.accepted[i].code == c;
    }
  }

  lemma {:induction false} RunKeepsInv(events: seq<Event<Action>>)
    ensures Inv(Run(Start(), events))
  {
    if events != [] {
      RunKeepsInv(events[..|events| - 1]);
      NextKeepsInv(Run(Start(), events[..|events| - 1]), events[|events| - 1]);
    }
  }

  ghost predicate SomeStale(events: seq<Event<Action>>) {
    exists i :: 0 <= i < |events| && Stale(Run(Start(), events[..i]), events[i])
  }

  /** Over every interleaving: some code is accepted twice exactly when some save was stale. */
  lemma {:induction false} OnceExactly(events: seq<Event<Action>>)
    ensures OnceEach(Run(Start(), events).accepted) <==> !SomeStale(events)
  {
    if events != [] {
      var last := |events| - 1;
      var front := events[..last];
      OnceExactly(front);
      RunKeepsInv(front);
      StaleFront(events);
      OnceStep(Run(Start(), front), events[last]);
    }
  }

  lemma StaleFront(events: seq<Event<Action>>)
    requires events != []
    ensures var last := |events| - 1;
            SomeStale(events) <==> SomeStale(events[..last]) || Stale(Run(Start(), events[..last]), events[last])
  {
    var last := |events| - 1;
    var front := events[..last];
    assert forall i :: 0 <= i < last ==> front[..i] == events[..i] && front[i] == events[i];
    if SomeStale(front) {
      var i :| 0 <= i < last && Stale(Run(Start(), front[..i]), front[i]);
      assert Stale(Run(Start(), events[..i]), events[i]);
    }
    if SomeStale(events) {
      var i :| 0 <= i <= last && Stale(Run(Start(), events[..i]), events[i]);
      assert i < last ==> Stale(Run(Start(), front[..i]), front[i]);
    }
  }

  lemma OnceStep(w: World, e: Event<Action>)
    requires Inv(w)
    ensures OnceEach(Next(w, e).accepted) <==> OnceEach(w.accepted) && !Stale(w, e)
  {
    var w' := Next(w, e);
    if w'.accepted != w.accepted {
      var code := e.action.code;
      assert w'.accepted[|w.accepted|].code == code;
      assert Stale(w, e) <==> Accepted(w, code);
      assert forall i :: 0 <= i < |w.accepted| ==> w'.accepted[i] == w.accepted[i];
      if Accepted(w, code) {
        var i :| 0 <= i < |w.accepted| && w.accepted[i].code == code;
        assert w'.accepted[i].code == w'.accepted[|w.accepted|].code;
      }
    }
  }

  /** Each save directly follows its own read, as if VerifyAsync were one step. */
  ghost predicate Atomic(events: seq<Event<Action>>) {
    forall i :: 0 <= i < |events| && events[i].action.DoSave? ==>
      i > 0 && events[i - 1].action == DoRead(events[i].action.user, events[i].action.code)
      && Found(Run(Start(), events[..i - 1]).table, events[i].action.user, events[i].action.code)
  }

  lemma AtomicIsFresh(events: seq<Event<Action>>, i: nat)
    requires Atomic(events) && i < |events|
    ensures !Stale(Run(Start(), events[..i]), events[i])
  {
    if events[i].action.DoSave? {
      var front := events[..i];
      assert front[..i - 1] == events[..i - 1] && front[i - 1] == events[i - 1];
      assert Run(Start(), front) == Next(Run(Start(), events[..i - 1]), events[i - 1]);
    }
  }

  /** Then every code works at most once. */
  lemma AtomicUseIsOnce(events: seq<Event<Action>>)
    requires Atomic(events)
    ensures OnceEach(Run(Start(), events).accepted)
  {
    forall i | 0 <= i < |events| ensures !Stale(Run(Start(), events[..i]), events[i]) {
      AtomicIsFresh(events, i);
    }
    OnceExactly(events);
  }

  /** Two requests that both read an unused code are both accepted. */
  lemma RacingReadsBothAccepted(w: World, user: Id, code: Id, now: int)
    requires Found(w.table, user, code)
    ensures var read, save := Event(DoRead(user, code), now), Event(DoSave(user, code), now);
            Next(Next(Next(Next(w, read), read), save), save).accepted
            == w.accepted + [Use(user, code), Use(user, code)]
  {
  }

  // ---------------------------------------------------------------------------------------------
  // Which codes work
  // ---------------------------------------------------------------------------------------------

  /** How many codes were made, ten a batch; they are numbered in that order. */
  function Made(events: seq<Event<Action>>): nat {
    if events == [] then 0
    else Made(events[..|events| - 1]) + if events[|events| - 1].action.DoInsert? then 10 else 0
  }

  /** `code` was made for `user`, whose codes were not deleted since. */
  predicate Standing(events: seq<Event<Action>>, user: Id, code: Id) {
    events != [] &&
      var front, action := events[..|events| - 1], events[|events| - 1].action;
      || (Standing(front, user, code) && action != DoDelete(user))
      || (action == DoInsert(user) && Made(front) <= code < Made(front) + 10)
  }

  lemma {:induction false} StoredExactly(events: seq<Event<Action>>, user: Id, code: Id)
    ensures var t := Run(Start(), events).table;
            && t.next == Made(events)
            && (code in t.rows && t.rows[code].user == user <==> Standing(events, user, code))
  {
    if events != [] {
      var front := events[..|events| - 1];
      StoredExactly(front, user, code);
      RunKeepsInv(front);
      var t := Run(Start(), front).table;
      if events[|events| - 1].action.DoInsert? {
        Inserted(t, events[|events| - 1].action.user, BATCH);
      }
    }
  }

  /**
    Over every interleaving, by the run alone: a read finds exactly a code that was made for the user,
    not deleted since and not accepted before; and the save of a request that found its code is accepted
    exactly if the code was not deleted in the meantime.
  */
  lemma WorksExactly(events: seq<Event<Action>>, user: Id, code: Id, now: int)
    ensures var w, use := Run(Start(), events), Use(user, code);
            && Next(w, Event(DoRead(user, code), now)).reading ==
               (if Standing(events, user, code) && !Accepted(w, code) then w.reading + multiset{use} else w.reading)
            && Next(w, Event(DoSave(user, code), now)).accepted ==
               (if use in w.reading && Standing(events, user, code) then w.accepted + [use] else w.accepted)
            && Next(w, Event(DoSave(user, code), now)).reading == w.reading - multiset{use}
            && (use in w.reading && Standing(events, user, code) ==>
                  var rows := Next(w, Event(DoSave(user, code), now)).table.rows;
                  code in rows && rows[code].usedAt == Some(now))
  {
    hide Accepted, Standing;
    StoredExactly(events, user, code);
    RunKeepsInv(events);
  }
}
