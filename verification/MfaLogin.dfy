/**
  The two requests of an MFA login, Services/Auth/LoginService.cs: LoginAsync issues a ticket for a
  user read with a confirmed credential, CompleteMfaAsync trades the ticket and a second factor for
  a session. Requests stop anywhere and interleave with each other, with other users of the token
  table, and with its cleanup. Whether a code verifies is left open; module Totp answers that.
*/
module MfaLogin {
  import opened Events
  import opened Options
  import opened Sets
  import opened OneShotTokens

  /** A LoginAsync request past its password check, with what it read and produced. */
  datatype Login = Login(user: Id, mfaConfirmed: bool, ticket: Option<Id>, signedIn: bool)

  /** A CompleteMfaAsync request whose ConsumeAsync affected a row. */
  datatype Completion = Completion(ticket: Id, user: Option<Id>, attempted: bool, passed: bool, signedIn: bool)

  datatype World = World(table: Table, logins: map<Id, Login>, completions: map<Id, Completion>,
                         issued: map<Id, Id>, consumed: set<Id>, next: Id)

  datatype Action =
    | DoAcceptPassword(user: Id, mfaConfirmed: bool)   // RegisterSuccess, with the credential as read
    | DoIssueTicket(login: Id, lifetime: int)
    | DoSignIn(login: Id)                              // password-only session
    | DoConsumeTicket(ticket: Id)
    | DoReadOwner(completion: Id)                      // fails when cleanup was faster
    | DoVerify(completion: Id, ok: bool)
    | DoCompleteSignIn(completion: Id)
    | DoOtherInsert(owner: Option<Id>, kind: Kind, expiresAt: int)
    | DoOtherConsume(h: Id, kind: Kind, filter: OwnerFilter)
    | DoCleanup(ids: set<Id>)

  function Start(): World {
    World.World(Table(0, map[]), map[], map[], map[], {}, 0)
  }

  function AcceptPassword(w: World, user: Id, mfaConfirmed: bool): World {
    w.(logins := w.logins[w.next := Login(user, mfaConfirmed, None, false)], next := w.next + 1)
  }

  /** Login, line 53: only for a confirmed credential, and once per request. */
  function IssueTicket(w: World, l: Id, expiresAt: int): World {
    if l in w.logins && w.logins[l].mfaConfirmed && w.logins[l].ticket.None? then
      var h := w.table.next;
      w.(table := Insert(w.table, Some(w.logins[l].user), MfaChallenge, expiresAt),
         logins := w.logins[l := w.logins[l].(ticket := Some(h))], issued := w.issued[h := l])
    else w
  }

  function SignIn(w: World, l: Id): World {
    if l in w.logins && !w.logins[l].mfaConfirmed && !w.logins[l].signedIn then
      w.(logins := w.logins[l := w.logins[l].(signedIn := true)])
    else w
  }

  function ConsumeTicket(w: World, h: Id, now: int): World {
    var (table, affected) := Consume(w.table, h, MfaChallenge, AnyOwner, now);
    if affected == 1 then
      w.(table := table, completions := w.completions[w.next := Completion(h, None, false, false, false)],
         consumed := w.consumed + {h}, next := w.next + 1)
    else w
  }

  function ReadOwner(w: World, c: Id): World {
    if c in w.completions && w.completions[c].user.None? && w.completions[c].ticket in w.table.rows then
      w.(completions := w.completions[c := w.completions[c].(user := w.table.rows[w.completions[c].ticket].owner)])
    else w
  }

  function Verify(w: World, c: Id, ok: bool): World {
    if c in w.completions && w.completions[c].user.Some? && !w.completions[c].attempted then
      w.(completions := w.completions[c := w.completions[c].(attempted := true, passed := ok)])
    else w
  }

  function CompleteSignIn(w: World, c: Id): World {
    if c in w.completions && w.completions[c].passed && !w.completions[c].signedIn then
      w.(completions := w.completions[c := w.completions[c].(signedIn := true)])
    else w
  }

  /** Other services insert and consume every kind but MFA tickets. */
  function Next(w: World, e: Event<Action>): World {
    match e.action
    case DoAcceptPassword(user, mfaConfirmed) => AcceptPassword(w, user, mfaConfirmed)
    case DoIssueTicket(l, lifetime) => IssueTicket(w, l, e.now + lifetime)
    case DoSignIn(l) => SignIn(w, l)
    case DoConsumeTicket(h) => ConsumeTicket(w, h, e.now)
    case DoReadOwner(c) => ReadOwner(w, c)
    case DoVerify(c, ok) => Verify(w, c, ok)
    case DoCompleteSignIn(c) => CompleteSignIn(w, c)
    case DoOtherInsert(owner, kind, expiresAt) =>
      if kind == MfaChallenge then w else w.(table := Insert(w.table, owner, kind, expiresAt))
    case DoOtherConsume(h, kind, filter) =>
      if kind == MfaChallenge then w else w.(table := Consume(w.table, h, kind, filter, e.now).0)
    case DoCleanup(ids) => w.(table := Delete(w.table, ids, e.now))
  }

  function Run(w: World, events: seq<Event<Action>>): World {
    if events == [] then w else Next(Run(w, events[..|events| - 1]), events[|events| - 1])
  }

  // ---------------------------------------------------------------------------------------------
  // Invariant
  // ---------------------------------------------------------------------------------------------

  /** Each ticket was issued by one login, which it names, for that login's user. */
  ghost predicate TicketsOfLogins(w: World) {
    && (forall h :: h in w.issued ==>
          h < w.table.next && w.issued[h] in w.logins && w.logins[w.issued[h]].ticket == Some(h)
          && w.logins[w.issued[h]].mfaConfirmed)
    && (forall h :: h in w.table.rows && w.table.rows[h].kind == MfaChallenge ==>
          h in w.issued && w.table.rows[h].owner == Some(w.logins[w.issued[h]].user))
    && (forall h :: h in w.issued && h in w.table.rows ==> w.table.rows[h].kind == MfaChallenge)
    && (forall h :: h in w.table.rows ==> h < w.table.next)
  }

  /** A consumed ticket is marked, and stays out of reach once its row is gone. */
  ghost predicate TicketsConsumed(w: World) {
    && w.consumed <= w.issued.Keys
    && (forall h :: h in w.consumed && h in w.table.rows ==> w.table.rows[h].consumedAt.Some?)
  }

  /** Each completion holds a consumed ticket of its own, and acts for that ticket's user. */
  ghost predicate CompletionsOfTickets(w: World) {
    && (forall c :: c in w.completions ==> w.completions[c].ticket in w.consumed && w.completions[c].ticket in w.issued)
    && (forall c, d :: c in w.completions && d in w.completions && c != d ==>
          w.completions[c].ticket != w.completions[d].ticket)
    && (forall c :: c in w.completions ==> CompletionOk(w, w.completions[c]))
  }

  predicate CompletionOk(w: World, c: Completion) {
    && (c.user.Some? ==>
          c.ticket in w.issued && w.issued[c.ticket] in w.logins && c.user.value == w.logins[w.issued[c.ticket]].user)
    && (c.attempted ==> c.user.Some?)
    && (c.passed ==> c.attempted)
    && (c.signedIn ==> c.passed)
  }

  ghost predicate Logins(w: World) {
    && (forall l :: l in w.logins ==> l < w.next && (w.logins[l].signedIn ==> !w.logins[l].mfaConfirmed))
    && (forall c :: c in w.completions ==> c < w.next)
  }

  ghost predicate Inv(w: World) {
    TicketsOfLogins(w) && TicketsConsumed(w) && CompletionsOfTickets(w) && Logins(w)
  }

  lemma AcceptKeepsInv(w: World, user: Id, mfaConfirmed: bool)
    requires Inv(w)
    ensures Inv(AcceptPassword(w, user, mfaConfirmed))
  {
  }

  lemma IssuedTickets(w: World, l: Id, expiresAt: int)
    requires TicketsOfLogins(w)
    ensures TicketsOfLogins(IssueTicket(w, l, expiresAt))
  {
  }

  lemma IssuedConsumption(w: World, l: Id, expiresAt: int)
    requires TicketsOfLogins(w) && TicketsConsumed(w)
    ensures TicketsConsumed(IssueTicket(w, l, expiresAt))
  {
  }

  lemma IssuedCompletions(w: World, l: Id, expiresAt: int)
    requires TicketsOfLogins(w) && CompletionsOfTickets(w)
    ensures CompletionsOfTickets(IssueTicket(w, l, expiresAt))
  {
    hide Insert;
    var w' := IssueTicket(w, l, expiresAt);
    forall c | c in w'.completions ensures CompletionOk(w', w'.completions[c]) {
      assert CompletionOk(w, w.completions[c]);
    }
  }

  lemma IssueKeepsInv(w: World, l: Id, expiresAt: int)
    requires Inv(w)
    ensures Inv(IssueTicket(w, l, expiresAt))
  {
    hide TicketsOfLogins, TicketsConsumed, CompletionsOfTickets;
    IssuedTickets(w, l, expiresAt);
    IssuedConsumption(w, l, expiresAt);
    IssuedCompletions(w, l, expiresAt);
  }

  lemma SignInKeepsInv(w: World, l: Id)
    requires Inv(w)
    ensures Inv(SignIn(w, l))
  {
  }

  lemma ConsumedTickets(w: World, h: Id, now: int)
    requires TicketsOfLogins(w) && TicketsConsumed(w)
    ensures TicketsOfLogins(ConsumeTicket(w, h, now)) && TicketsConsumed(ConsumeTicket(w, h, now))
  {
  }

  lemma ConsumedCompletions(w: World, h: Id, now: int)
    requires Inv(w)
    ensures CompletionsOfTickets(ConsumeTicket(w, h, now)) && Logins(ConsumeTicket(w, h, now))
  {
    var w' := ConsumeTicket(w, h, now);
    forall c | c in w'.completions ensures CompletionOk(w', w'.completions[c]) {
      assert c in w.completions ==> CompletionOk(w, w.completions[c]);
    }
  }

  lemma ConsumeKeepsInv(w: World, h: Id, now: int)
    requires Inv(w)
    ensures Inv(ConsumeTicket(w, h, now))
  {
    hide ConsumeTicket, TicketsOfLogins, TicketsConsumed, CompletionsOfTickets, Logins;
    ConsumedTickets(w, h, now);
    ConsumedCompletions(w, h, now);
  }

  /** Replacing a completion by one that holds the same ticket. */
  lemma UpdateCompletion(w: World, c: Id, completion: Completion)
    requires Inv(w) && c in w.completions && completion.ticket == w.completions[c].ticket
    requires CompletionOk(w, completion)
    ensures Inv(w.(completions := w.completions[c := completion]))
  {
  }

  lemma ReadOwnerKeepsInv(w: World, c: Id)
    requires Inv(w)
    ensures Inv(ReadOwner(w, c))
  {
    if c in w.completions && w.completions[c].user.None? && w.completions[c].ticket in w.table.rows {
      var owner := w.table.rows[w.completions[c].ticket].owner;
      assert CompletionOk(w, w.completions[c]);
      UpdateCompletion(w, c, w.completions[c].(user := owner));
    }
  }

  lemma VerifyKeepsInv(w: World, c: Id, ok: bool)
    requires Inv(w)
    ensures Inv(Verify(w, c, ok)) && Inv(CompleteSignIn(w, c))
  {
    if c in w.completions {
      var completion := w.completions[c];
      assert CompletionOk(w, completion);
      hide Inv, CompletionOk;
      if completion.user.Some? && !completion.attempted {
        AttemptOk(w, completion, ok);
        UpdateCompletion(w, c, completion.(attempted := true, passed := ok));
      }
      if completion.passed && !completion.signedIn {
        AttemptOk(w, completion, ok);
        UpdateCompletion(w, c, completion.(signedIn := true));
      }
    }
  }

  lemma AttemptOk(w: World, c: Completion, ok: bool)
    requires CompletionOk(w, c)
    ensures c.user.Some? && !c.attempted ==> CompletionOk(w, c.(attempted := true, passed := ok))
    ensures c.passed ==> CompletionOk(w, c.(signedIn := true))
  {
  }

  /** What other users of the table and its cleanup may do to it. */
  ghost predicate Elsewhere(t: Table, t': Table) {
    && t.next <= t'.next
    && (forall h :: h in t'.rows ==> h < t'.next)
    && (forall h :: h in t'.rows && t'.rows[h].kind == MfaChallenge ==>
          h in t.rows && t'.rows[h] == t.rows[h])
    && (forall h :: h in t'.rows && h in t.rows ==>
          t'.rows[h].kind == t.rows[h].kind && (t.rows[h].consumedAt.Some? ==> t'.rows[h].consumedAt.Some?))
    && (forall h :: h in t'.rows && h !in t.rows ==> t.next <= h)
  }

  lemma ElsewhereKeepsInv(w: World, t': Table)
    requires Inv(w) && Elsewhere(w.table, t')
    ensures Inv(w.(table := t'))
  {
  }

  lemma OtherIsElsewhere(t: Table, kind: Kind, owner: Option<Id>, expiresAt: int, h: Id, filter: OwnerFilter, now: int,
                         ids: set<Id>)
    requires forall g :: g in t.rows ==> g < t.next
    ensures kind != MfaChallenge ==> Elsewhere(t, Insert(t, owner, kind, expiresAt))
    ensures kind != MfaChallenge ==> Elsewhere(t, Consume(t, h, kind, filter, now).0)
    ensures Elsewhere(t, Delete(t, ids, now))
  {
  }

  lemma OtherKeepsInv(w: World, e: Event<Action>)
    requires Inv(w) && (e.action.DoOtherInsert? || e.action.DoOtherConsume? || e.action.DoCleanup?)
    ensures Inv(Next(w, e))
  {
    var w' := Next(w, e);
    var a := e.action;
    if a.DoOtherInsert? {
      OtherIsElsewhere(w.table, a.kind, a.owner, a.expiresAt, 0, AnyOwner, e.now, {});
    } else if a.DoOtherConsume? {
      OtherIsElsewhere(w.table, a.kind, None, 0, a.h, a.filter, e.now, {});
    } else {
      OtherIsElsewhere(w.table, MfaChallenge, None, 0, 0, AnyOwner, e.now, a.ids);
    }
    hide TicketsOfLogins, TicketsConsumed, CompletionsOfTickets, Logins, Elsewhere, Insert, Consume, Delete;
    if w' != w {
      ElsewhereKeepsInv(w, w'.table);
    }
  }

  lemma NextKeepsInv(w: World, e: Event<Action>)
    requires Inv(w)
    ensures Inv(Next(w, e))
  {
    hide Inv, AcceptPassword, IssueTicket, SignIn, ConsumeTicket, ReadOwner, Verify, CompleteSignIn;
    match e.action
    case DoAcceptPassword(user, mfaConfirmed) => AcceptKeepsInv(w, user, mfaConfirmed);
    case DoIssueTicket(l, lifetime) => IssueKeepsInv(w, l, e.now + lifetime);
    case DoSignIn(l) => SignInKeepsInv(w, l);
    case DoConsumeTicket(h) => ConsumeKeepsInv(w, h, e.now);
    case DoReadOwner(c) => ReadOwnerKeepsInv(w, c);
    case DoVerify(c, ok) => VerifyKeepsInv(w, c, ok);
    case DoCompleteSignIn(c) => VerifyKeepsInv(w, c, true);
    case _ => OtherKeepsInv(w, e);
  }

  lemma {:induction false} RunKeepsInv(events: seq<Event<Action>>)
    ensures Inv(Run(Start(), events))
  {
    if events != [] {
      hide Inv, Next;
      RunKeepsInv(events[..|events| - 1]);
      NextKeepsInv(Run(Start(), events[..|events| - 1]), events[|events| - 1]);
    }
  }

  // ---------------------------------------------------------------------------------------------
  // Conservation
  // ---------------------------------------------------------------------------------------------

  /** Accepted passwords of `user` that read a confirmed credential. */
  function Accepted(w: World, user: Id): set<Id> {
    set l | l in w.logins && w.logins[l].user == user && w.logins[l].mfaConfirmed
  }

  function TicketsIssued(w: World, user: Id): set<Id> {
    set h | h in w.issued && w.issued[h] in w.logins && w.logins[w.issued[h]].user == user
  }

  function TicketsConsumedBy(w: World, user: Id): set<Id> {
    set h | h in w.consumed && h in w.issued && w.issued[h] in w.logins && w.logins[w.issued[h]].user == user
  }

  function Checks(w: World, user: Id): set<Id> {
    set c | c in w.completions && w.completions[c].attempted && w.completions[c].user == Some(user)
  }

  function SecondFactorSessions(w: World, user: Id): set<Id> {
    set c | c in w.completions && w.completions[c].signedIn && w.completions[c].user == Some(user)
  }

  /** An injective map does not enlarge. */
  lemma {:induction false} Injected(a: set<Id>, b: set<Id>, f: map<Id, Id>)
    requires forall x :: x in a ==> x in f && f[x] in b
    requires forall x, y :: x in a && y in a && x != y ==> f[x] != f[y]
    ensures |a| <= |b|
  {
    EmptyOrNot(a);
    if a != {} {
      var x :| x in a;
      Injected(a - {x}, b - {f[x]}, f);
      assert |a - {x}| == |a| - 1;
      assert |b - {f[x]}| == |b| - 1;
    }
  }

  lemma {:induction false} Smaller(a: set<Id>, b: set<Id>)
    requires a <= b
    ensures |a| <= |b|
  {
    assert b == a + (b - a);
  }

  /**
    For every user and every run: sessions made with a second factor, checks made, tickets consumed,
    tickets issued and passwords accepted form a descending chain, each link an injection; and no
    request that read a confirmed credential signed its user in with the password alone.
  */
  lemma MfaConservation(events: seq<Event<Action>>, user: Id)
    ensures var w := Run(Start(), events);
            && |SecondFactorSessions(w, user)| <= |Checks(w, user)|
            && |Checks(w, user)| <= |TicketsConsumedBy(w, user)|
            && |TicketsConsumedBy(w, user)| <= |TicketsIssued(w, user)|
            && |TicketsIssued(w, user)| <= |Accepted(w, user)|
            && (forall l :: l in w.logins && w.logins[l].mfaConfirmed ==> !w.logins[l].signedIn)
  {
    RunKeepsInv(events);
    var w := Run(Start(), events);
    hide Run;
    Smaller(SecondFactorSessions(w, user), Checks(w, user));
    Injected(Checks(w, user), TicketsConsumedBy(w, user), map c | c in w.completions :: w.completions[c].ticket);
    Smaller(TicketsConsumedBy(w, user), TicketsIssued(w, user));
    Injected(TicketsIssued(w, user), Accepted(w, user), w.issued);
  }
}
