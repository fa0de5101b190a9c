/**
  When an MFA login ends in a session, told from the run: what its check was answered, and where its
  ticket came from.
*/
module MfaSignIn {
  import opened Events
  import opened MfaLogin
  import OneShotTokens
  import opened Options

  type Id = OneShotTokens.Id

  // ---------------------------------------------------------------------------------------------
  // The second factor
  // ---------------------------------------------------------------------------------------------

  predicate OwnerKnown(w: World, c: Id) {
    c in w.completions && w.completions[c].user.Some?
  }

  /** What the first check of completion `c` after its owner was read was answered. */
  function Checked(events: seq<Event<Action>>, c: Id): Option<bool> {
    if events == [] then None
    else
      var front, action := events[..|events| - 1], events[|events| - 1].action;
      if Checked(front, c).Some? then Checked(front, c)
      else if action.DoVerify? && action.completion == c && OwnerKnown(Run(Start(), front), c) then Some(action.ok)
      else None
  }

  /** Completion `c` asked for its session after its check. */
  predicate CompletedAfter(events: seq<Event<Action>>, c: Id) {
    events != [] &&
      var front, action := events[..|events| - 1], events[|events| - 1].action;
      CompletedAfter(front, c) || (action == DoCompleteSignIn(c) && Checked(front, c).Some?)
  }

  /** A login without a confirmed credential asked for its session. */
  predicate AskedAlone(events: seq<Event<Action>>, l: Id) {
    events != [] &&
      var front, action := events[..|events| - 1], events[|events| - 1].action;
      var w := Run(Start(), front);
      AskedAlone(front, l) || (action == DoSignIn(l) && l in w.logins && !w.logins[l].mfaConfirmed)
  }

  ghost predicate Answered(events: seq<Event<Action>>, w: World, c: Id) {
    (CompletedAfter(events, c) ==> Checked(events, c).Some?) &&
    if c in w.completions then
      && w.completions[c].attempted == Checked(events, c).Some?
      && w.completions[c].passed == (Checked(events, c) == Some(true))
      && w.completions[c].signedIn == (CompletedAfter(events, c) && Checked(events, c) == Some(true))
    else Checked(events, c).None? && !CompletedAfter(events, c)
  }

  lemma {:induction false} RunAnswered(events: seq<Event<Action>>, c: Id)
    ensures Answered(events, Run(Start(), events), c)
  {
    hide Inv;
    if events != [] {
      var front, last := events[..|events| - 1], events[|events| - 1];
      RunAnswered(front, c);
      RunKeepsInv(front);
      NextAnswered(front, Run(Start(), front), last, c);
    }
  }

  lemma NextAnswered(front: seq<Event<Action>>, w: World, last: Event<Action>, c: Id)
    requires Inv(w) && w == Run(Start(), front) && Answered(front, w, c)
    ensures Answered(front + [last], Next(w, last), c)
  {
    hide Run, TicketsOfLogins, TicketsConsumed, OneShotTokens.Consume, OneShotTokens.Insert, OneShotTokens.Delete;
    assert (front + [last])[..|front|] == front;
    assert c in w.completions ==> CompletionOk(w, w.completions[c]);
  }

  /**
    Over every interleaving: a completion ends in a session exactly if the first check after its owner
    was read was answered yes and the session was asked for afterwards; a login by password alone
    exactly if it had no confirmed credential and asked for it.
  */
  lemma SignedInExactly(events: seq<Event<Action>>, c: Id, l: Id)
    ensures var w := Run(Start(), events);
            && (c in w.completions && w.completions[c].signedIn <==>
                  Checked(events, c) == Some(true) && CompletedAfter(events, c))
            && (l in w.logins && w.logins[l].signedIn <==> AskedAlone(events, l))
  {
    hide Run;
    RunAnswered(events, c);
    AloneExactly(events, l);
  }

  lemma {:induction false} AloneExactly(events: seq<Event<Action>>, l: Id)
    ensures var w := Run(Start(), events); l in w.logins && w.logins[l].signedIn <==> AskedAlone(events, l)
  {
    hide Inv, OneShotTokens.Consume, OneShotTokens.Insert, OneShotTokens.Delete;
    if events != [] {
      var front, last := events[..|events| - 1], events[|events| - 1];
      AloneExactly(front, l);
      RunKeepsInv(front);
      FreshLogin(Run(Start(), front));
    }
  }

  lemma FreshLogin(w: World)
    requires Inv(w)
    ensures w.next !in w.logins && w.next !in w.completions
  {
  }

  // ---------------------------------------------------------------------------------------------
  // The first factor
  // ---------------------------------------------------------------------------------------------

  /** Position `a` accepted the user's password for request `l`, which read the credential as given. */
  predicate AcceptedAt(events: seq<Event<Action>>, a: nat, l: Id, user: Id, confirmed: bool)
    requires a < |events|
  {
    events[a].action == DoAcceptPassword(user, confirmed) && Run(Start(), events[..a]).next == l
  }

  /** Position `i` issued ticket `h` to request `l`, until `end`. */
  predicate IssuedAt(events: seq<Event<Action>>, i: nat, h: Id, l: Id, end: int)
    requires i < |events|
  {
    && events[i].action.DoIssueTicket? && events[i].action.login == l && Run(Start(), events[..i]).table.next == h
    && end == events[i].now + events[i].action.lifetime
  }

  /** Position `n` traded ticket `h` for completion `c`, before `end`. */
  predicate TradedAt(events: seq<Event<Action>>, n: nat, c: Id, h: Id, end: int)
    requires n < |events|
  {
    events[n].action == DoConsumeTicket(h) && Run(Start(), events[..n]).next == c && events[n].now < end
  }

  ghost predicate LoginTrail(events: seq<Event<Action>>, l: Id, user: Id, confirmed: bool) {
    exists a :: 0 <= a < |events| && AcceptedAt(events, a, l, user, confirmed)
  }

  ghost predicate TicketTrail(events: seq<Event<Action>>, h: Id, l: Id, user: Id, end: int) {
    exists a, i :: 0 <= a < i < |events| && AcceptedAt(events, a, l, user, true) && IssuedAt(events, i, h, l, end)
  }

  ghost predicate CompletionTrail(events: seq<Event<Action>>, c: Id, h: Id, user: Id) {
    exists a, i, n, l, end :: 0 <= a < i < n < |events| && AcceptedAt(events, a, l, user, true)
                              && IssuedAt(events, i, h, l, end) && TradedAt(events, n, c, h, end)
  }

  lemma SamePositions(front: seq<Event<Action>>, last: Event<Action>)
    ensures var events := front + [last];
            && events[|front|] == last && events[..|front|] == front
            && forall k :: 0 <= k < |front| ==> events[k] == front[k] && events[..k] == front[..k]
  {
  }

  lemma TrailsKept(front: seq<Event<Action>>, last: Event<Action>)
    ensures forall l, user, confirmed ::
              LoginTrail(front, l, user, confirmed) ==> LoginTrail(front + [last], l, user, confirmed)
    ensures forall h, l, user, end ::
              TicketTrail(front, h, l, user, end) ==> TicketTrail(front + [last], h, l, user, end)
    ensures forall c, h, user :: CompletionTrail(front, c, h, user) ==> CompletionTrail(front + [last], c, h, user)
  {
    hide Run;
    SamePositions(front, last);
    var events := front + [last];
    forall l, user, confirmed | LoginTrail(front, l, user, confirmed)
      ensures LoginTrail(events, l, user, confirmed)
    {
      var a :| 0 <= a < |front| && AcceptedAt(front, a, l, user, confirmed);
      assert AcceptedAt(events, a, l, user, confirmed);
    }
    forall h, l, user, end | TicketTrail(front, h, l, user, end) ensures TicketTrail(events, h, l, user, end) {
      var a, i :| 0 <= a < i < |front| && AcceptedAt(front, a, l, user, true) && IssuedAt(front, i, h, l, end);
      assert AcceptedAt(events, a, l, user, true) && IssuedAt(events, i, h, l, end);
    }
    forall c, h, user | CompletionTrail(front, c, h, user) ensures CompletionTrail(events, c, h, user) {
      var a, i, n, l, end :| 0 <= a < i < n < |front| && AcceptedAt(front, a, l, user, true)
                             && IssuedAt(front, i, h, l, end) && TradedAt(front, n, c, h, end);
      assert AcceptedAt(events, a, l, user, true) && IssuedAt(events, i, h, l, end) && TradedAt(events, n, c, h, end);
    }
  }

  ghost predicate TracedLogin(events: seq<Event<Action>>, w: World, l: Id)
    requires l in w.logins
  {
    LoginTrail(events, l, w.logins[l].user, w.logins[l].mfaConfirmed)
  }

  ghost predicate TracedTicket(events: seq<Event<Action>>, w: World, h: Id)
    requires h in w.table.rows
  {
    w.table.rows[h].kind == OneShotTokens.MfaChallenge ==>
      && h in w.issued && w.issued[h] in w.logins
      && TicketTrail(events, h, w.issued[h], w.logins[w.issued[h]].user, w.table.rows[h].expiresAt)
  }

  ghost predicate TracedCompletion(events: seq<Event<Action>>, w: World, c: Id)
    requires c in w.completions
  {
    && w.completions[c].ticket in w.issued && w.issued[w.completions[c].ticket] in w.logins
    && CompletionTrail(events, c, w.completions[c].ticket, w.logins[w.issued[w.completions[c].ticket]].user)
  }

  ghost predicate Traced(events: seq<Event<Action>>, w: World) {
    && (forall l :: l in w.logins ==> TracedLogin(events, w, l))
    && (forall h :: h in w.table.rows ==> TracedTicket(events, w, h))
    && (forall c :: c in w.completions ==> TracedCompletion(events, w, c))
  }

  /** What a step keeps, and what it adds. */
  lemma NextLogins(w: World, e: Event<Action>)
    requires Inv(w)
    ensures var w' := Next(w, e);
            && (forall l :: l in w.logins ==> l in w'.logins && w'.logins[l].user == w.logins[l].user
                                              && w'.logins[l].mfaConfirmed == w.logins[l].mfaConfirmed)
            && (forall l :: l in w'.logins && l !in w.logins ==>
                  l == w.next && e.action == DoAcceptPassword(w'.logins[l].user, w'.logins[l].mfaConfirmed))
            && (forall h :: h in w.issued ==> h in w'.issued && w'.issued[h] == w.issued[h])
  {
    hide TicketsConsumed, CompletionsOfTickets, OneShotTokens.Consume, OneShotTokens.Insert, OneShotTokens.Delete;
  }

  lemma NextTickets(w: World, e: Event<Action>, h: Id)
    requires Inv(w) && h in Next(w, e).table.rows && Next(w, e).table.rows[h].kind == OneShotTokens.MfaChallenge
    ensures var row := Next(w, e).table.rows[h];
            if h in w.table.rows then
              && w.table.rows[h].kind == OneShotTokens.MfaChallenge && w.table.rows[h].expiresAt == row.expiresAt
            else
              && h == w.table.next && e.action.DoIssueTicket? && e.action.login in w.logins
              && w.logins[e.action.login].mfaConfirmed && row.expiresAt == e.now + e.action.lifetime
              && h in Next(w, e).issued && Next(w, e).issued[h] == e.action.login
  {
    hide CompletionsOfTickets, TicketsConsumed;
  }

  lemma NextCompletions(w: World, e: Event<Action>, c: Id)
    requires Inv(w) && c in Next(w, e).completions
    ensures var h := Next(w, e).completions[c].ticket;
            if c in w.completions then h == w.completions[c].ticket
            else
              && c == w.next && e.action == DoConsumeTicket(h) && h in w.table.rows
              && w.table.rows[h].kind == OneShotTokens.MfaChallenge && e.now < w.table.rows[h].expiresAt
  {
    hide TicketsOfLogins, TicketsConsumed, CompletionsOfTickets, OneShotTokens.Insert, OneShotTokens.Delete;
  }

  lemma LoginTraced(front: seq<Event<Action>>, w: World, last: Event<Action>, l: Id)
    requires Inv(w) && w == Run(Start(), front) && l in Next(w, last).logins
    requires l in w.logins ==> TracedLogin(front, w, l)
    ensures TracedLogin(front + [last], Next(w, last), l)
  {
    hide Inv, Next, Run, LoginTrail;
    NextLogins(w, last);
    TrailsKept(front, last);
    if l !in w.logins {
      NewLogin(front, last, w, l, Next(w, last).logins[l].user, Next(w, last).logins[l].mfaConfirmed);
    }
  }

  lemma NewLogin(front: seq<Event<Action>>, last: Event<Action>, w: World, l: Id, user: Id, confirmed: bool)
    requires w == Run(Start(), front) && l == w.next && last.action == DoAcceptPassword(user, confirmed)
    ensures LoginTrail(front + [last], l, user, confirmed)
  {
    hide Run;
    SamePositions(front, last);
    assert AcceptedAt(front + [last], |front|, l, user, confirmed);
  }

  lemma TicketTraced(front: seq<Event<Action>>, w: World, last: Event<Action>, h: Id)
    requires Inv(w) && w == Run(Start(), front) && Traced(front, w) && h in Next(w, last).table.rows
    ensures TracedTicket(front + [last], Next(w, last), h)
  {
    hide Inv, Next, Run, LoginTrail, TicketTrail, TracedCompletion;
    if Next(w, last).table.rows[h].kind == OneShotTokens.MfaChallenge {
      NextLogins(w, last);
      NextTickets(w, last, h);
      TrailsKept(front, last);
      if h in w.table.rows {
        assert TracedTicket(front, w, h);
      } else {
        var l := last.action.login;
        assert TracedLogin(front, w, l);
        NewTicket(front, last, w, h, l, w.logins[l].user);
      }
    }
  }

  lemma NewTicket(front: seq<Event<Action>>, last: Event<Action>, w: World, h: Id, l: Id, user: Id)
    requires w == Run(Start(), front) && h == w.table.next && LoginTrail(front, l, user, true)
    requires last.action.DoIssueTicket? && last.action.login == l
    ensures TicketTrail(front + [last], h, l, user, last.now + last.action.lifetime)
  {
    hide Run;
    SamePositions(front, last);
    var a :| 0 <= a < |front| && AcceptedAt(front, a, l, user, true);
    assert AcceptedAt(front + [last], a, l, user, true);
    assert IssuedAt(front + [last], |front|, h, l, last.now + last.action.lifetime);
  }

  lemma CompletionTraced(front: seq<Event<Action>>, w: World, last: Event<Action>, c: Id)
    requires Inv(w) && w == Run(Start(), front) && Traced(front, w) && c in Next(w, last).completions
    ensures TracedCompletion(front + [last], Next(w, last), c)
  {
    hide Inv, Next, Run, LoginTrail, TicketTrail, CompletionTrail, TracedLogin;
    NextLogins(w, last);
    NextCompletions(w, last, c);
    TrailsKept(front, last);
    if c in w.completions {
      assert TracedCompletion(front, w, c);
    } else {
      var h := Next(w, last).completions[c].ticket;
      assert TracedTicket(front, w, h);
      NewCompletion(front, last, w, c, h, w.issued[h], w.logins[w.issued[h]].user, w.table.rows[h].expiresAt);
    }
  }

  lemma NewCompletion(front: seq<Event<Action>>, last: Event<Action>, w: World, c: Id, h: Id, l: Id, user: Id, end: int)
    requires w == Run(Start(), front) && c == w.next && TicketTrail(front, h, l, user, end)
    requires last.action == DoConsumeTicket(h) && last.now < end
    ensures CompletionTrail(front + [last], c, h, user)
  {
    hide Run;
    SamePositions(front, last);
    var a, i :| 0 <= a < i < |front| && AcceptedAt(front, a, l, user, true) && IssuedAt(front, i, h, l, end);
    assert AcceptedAt(front + [last], a, l, user, true) && IssuedAt(front + [last], i, h, l, end);
    assert TradedAt(front + [last], |front|, c, h, end);
  }

  lemma {:induction false} RunTraced(events: seq<Event<Action>>)
    ensures Traced(events, Run(Start(), events))
  {
    hide Inv, Next, TracedLogin, TracedTicket, TracedCompletion;
    if events != [] {
      var front, last := events[..|events| - 1], events[|events| - 1];
      RunTraced(front);
      RunKeepsInv(front);
      assert events == front + [last];
      var w, w' := Run(Start(), front), Run(Start(), events);
      forall l | l in w'.logins ensures TracedLogin(events, w', l) {
        LoginTraced(front, w, last, l);
      }
      forall h | h in w'.table.rows ensures TracedTicket(events, w', h) {
        TicketTraced(front, w, last, h);
      }
      forall c | c in w'.completions ensures TracedCompletion(events, w', c) {
        CompletionTraced(front, w, last, c);
      }
    }
  }

  /**
    Behind every session made with a second factor: the password of the same user was accepted first,
    by a request that read a confirmed credential; then a ticket was issued to that request, and traded
    in before it ended.
  */
  lemma SecondFactorTrail(events: seq<Event<Action>>, c: Id)
    requires var w := Run(Start(), events); c in w.completions && w.completions[c].signedIn
    ensures var completion := Run(Start(), events).completions[c];
            completion.user.Some? && CompletionTrail(events, c, completion.ticket, completion.user.value)
  {
    hide Run, CompletionTrail, TracedLogin, TracedTicket;
    RunTraced(events);
    RunKeepsInv(events);
    var w := Run(Start(), events);
    assert CompletionOk(w, w.completions[c]) && TracedCompletion(events, w, c);
  }

  // ---------------------------------------------------------------------------------------------
  // Rightful logins succeed
  // ---------------------------------------------------------------------------------------------


  /** After any run: a password, its ticket traded in before it ends, and a code that verifies make a session. */
  lemma SecondFactorSucceeds(events: seq<Event<Action>>, user: Id, lifetime: int, from: int, to: int)
    requires from <= to < from + lifetime
    ensures var w := Run(Start(), events);
            var l, h := w.next, w.table.next;
            var accepted := Next(w, Event(DoAcceptPassword(user, true), from));
            var ticket := Next(accepted, Event(DoIssueTicket(l, lifetime), from));
            var c := ticket.next;
            var traded := Next(Next(ticket, Event(DoConsumeTicket(h), to)), Event(DoReadOwner(c), to));
            var done := Next(Next(traded, Event(DoVerify(c, true), to)), Event(DoCompleteSignIn(c), to));
            && c in done.completions && done.completions[c].signedIn && done.completions[c].user == Some(user)
  {
    RunKeepsInv(events);
    hide Inv, Run;
  }

  lemma PasswordSucceeds(w: World, user: Id, now: int)
    ensures var l := w.next;
            var done := Next(Next(w, Event(DoAcceptPassword(user, false), now)), Event(DoSignIn(l), now));
            l in done.logins && done.logins[l].signedIn && done.logins[l].user == user
  {
  }

  // ---------------------------------------------------------------------------------------------
  // Lost tickets
  // ---------------------------------------------------------------------------------------------

  /** The ticket's row is gone before its owner was read. */
  predicate Lost(w: World, c: Id) {
    && c in w.completions && w.completions[c].user.None?
    && w.completions[c].ticket !in w.table.rows && w.completions[c].ticket < w.table.next
  }

  lemma LostStays(w: World, e: Event<Action>, c: Id)
    requires Inv(w) && Lost(w, c)
    ensures Lost(Next(w, e), c)
  {
    hide TicketsOfLogins, TicketsConsumed, CompletionsOfTickets;
  }

  lemma {:induction false} LostInRun(events: seq<Event<Action>>, c: Id, more: seq<Event<Action>>)
    requires Lost(Run(Start(), events), c)
    ensures Lost(Run(Start(), events + more), c)
  {
    hide Inv, Lost, Next;
    if more == [] {
      assert events + more == events;
    } else {
      var front := more[..|more| - 1];
      assert (events + more)[..|events + more| - 1] == events + front;
      LostInRun(events, c, front);
      RunKeepsInv(events + front);
      LostStays(Run(Start(), events + front), more[|more| - 1], c);
    }
  }

  /** A cleanup between the trade of a ticket and the read of its owner loses the login for good. */
  lemma CleanupLoses(events: seq<Event<Action>>, c: Id, now: int, more: seq<Event<Action>>)
    requires var w := Run(Start(), events); c in w.completions && w.completions[c].user.None?
    ensures var cleanup := Event(DoCleanup({Run(Start(), events).completions[c].ticket}), now);
            var w := Run(Start(), events + [cleanup] + more);
            c in w.completions && !w.completions[c].signedIn
  {
    hide Run;
    RunKeepsInv(events);
    var w := Run(Start(), events);
    var cleanup := Event(DoCleanup({w.completions[c].ticket}), now);
    CleanupTakes(w, c, now);
    OneMore(events, cleanup);
    LostInRun(events + [cleanup], c, more);
    RunKeepsInv(events + [cleanup] + more);
    var later := Run(Start(), events + [cleanup] + more);
    assert CompletionOk(later, later.completions[c]);
  }

  lemma OneMore(events: seq<Event<Action>>, e: Event<Action>)
    ensures Run(Start(), events + [e]) == Next(Run(Start(), events), e)
  {
    assert (events + [e])[..|events|] == events;
  }

  lemma CleanupTakes(w: World, c: Id, now: int)
    requires Inv(w) && c in w.completions && w.completions[c].user.None?
    ensures Lost(Next(w, Event(DoCleanup({w.completions[c].ticket}), now)), c)
  {
  }
}
