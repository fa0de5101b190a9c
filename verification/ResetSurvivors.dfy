/**
  Which sessions outlive a reset of the password they were opened with. A login verifies the password
  first (Services/Auth/LoginService.cs), reads the security stamp later, for an MFA login as late as
  its ticket allows, and inserts the session after that (Services/Tokens/SessionService.cs). A reset
  saves a new password and a new stamp together, and revokes the user's sessions in a later step
  (Services/Auth/PasswordResetService.cs). All of these interleave.

  Passwords and stamps are fresh numbers; positions in the run stand for time.
*/
module ResetSurvivors {
  import opened Options

  type Id = nat

  datatype Account = Account(password: Id, stamp: Id)

  /** What a login accepted and read, and the positions at which it did. */
  datatype Login = Login(user: Id, password: Id, acceptedAt: nat, read: Option<Reading>)

  datatype Reading = Reading(stamp: Id, at: nat)

  /** A session is numbered like its login. */
  datatype Session = Session(stamp: Id, insertedAt: nat, revoked: bool)

  datatype World = World(accounts: map<Id, Account>, logins: map<Id, Login>, sessions: map<Id, Session>, next: Id)

  datatype Event =
    | Register
    | Accept(user: Id, password: Id)
    | ReadStamp(login: Id)
    | Insert(login: Id)
    | Reset(user: Id)
    | RevokeAll(user: Id)
    | Revoke(session: Id)

  function Start(): World {
    World(map[], map[], map[], 0)
  }

  /** The step at position `at`. */
  function Next(w: World, e: Event, at: nat): World {
    match e
    case Register => w.(accounts := w.accounts[w.next := Account(w.next + 1, w.next + 2)], next := w.next + 3)
    case Accept(user, password) =>
      if user in w.accounts && w.accounts[user].password == password then
        w.(logins := w.logins[w.next := Login(user, password, at, None)], next := w.next + 1)
      else w
    case ReadStamp(l) =>
      if l in w.logins && w.logins[l].read.None? && w.logins[l].user in w.accounts then
        w.(logins := w.logins[l := w.logins[l].(read := Some(Reading(w.accounts[w.logins[l].user].stamp, at)))])
      else w
    case Insert(l) =>
      if l in w.logins && w.logins[l].read.Some? && l !in w.sessions then
        w.(sessions := w.sessions[l := Session(w.logins[l].read.value.stamp, at, false)])
      else w
    case Reset(user) =>
      if user in w.accounts then
        w.(accounts := w.accounts[user := Account(w.next, w.next + 1)], next := w.next + 2)
      else w
    case RevokeAll(user) =>
      w.(sessions := map s | s in w.sessions ::
        if s in w.logins && w.logins[s].user == user then w.sessions[s].(revoked := true) else w.sessions[s])
    case Revoke(s) =>
      if s in w.sessions then w.(sessions := w.sessions[s := w.sessions[s].(revoked := true)]) else w
  }

  function Run(events: seq<Event>): World {
    if events == [] then Start() else Next(Run(events[..|events| - 1]), events[|events| - 1], |events| - 1)
  }

  // ---------------------------------------------------------------------------------------------
  // The run's own account of it
  // ---------------------------------------------------------------------------------------------

  /** The user's password was reset at some position in [a, b). */
  ghost predicate ResetWithin(events: seq<Event>, user: Id, a: nat, b: nat)
    requires b <= |events|
  {
    exists n :: a <= n < b && events[n] == Reset(user)
  }

  /** The session was revoked, alone or with all of the user's, at position `a` or later. */
  ghost predicate RevokedSince(events: seq<Event>, session: Id, user: Id, a: nat) {
    exists n :: a <= n < |events| && (events[n] == RevokeAll(user) || events[n] == Revoke(session))
  }

  lemma ResetStep(events: seq<Event>, e: Event, user: Id, a: nat)
    requires a <= |events|
    ensures ResetWithin(events + [e], user, a, |events| + 1) <==>
            ResetWithin(events, user, a, |events|) || e == Reset(user)
  {
    var all := events + [e];
    assert all[|events|] == e;
    if ResetWithin(events, user, a, |events|) {
      var n :| a <= n < |events| && events[n] == Reset(user);
      assert all[n] == Reset(user);
    }
  }

  lemma ResetKept(events: seq<Event>, e: Event, user: Id, a: nat, b: nat)
    requires b <= |events|
    ensures ResetWithin(events + [e], user, a, b) <==> ResetWithin(events, user, a, b)
  {
    assert forall n :: 0 <= n < |events| ==> (events + [e])[n] == events[n];
  }

  lemma RevokedStep(events: seq<Event>, e: Event, session: Id, user: Id, a: nat)
    requires a <= |events|
    ensures RevokedSince(events + [e], session, user, a) <==>
            RevokedSince(events, session, user, a) || e == RevokeAll(user) || e == Revoke(session)
  {
    var all := events + [e];
    assert all[|events|] == e;
    if RevokedSince(events, session, user, a) {
      var n :| a <= n < |events| && (events[n] == RevokeAll(user) || events[n] == Revoke(session));
      assert all[n] == events[n];
    }
  }

  // ---------------------------------------------------------------------------------------------
  // Invariant
  // ---------------------------------------------------------------------------------------------

  ghost predicate Fresh(w: World) {
    && (forall u :: u in w.accounts ==> u < w.next && w.accounts[u].password < w.next && w.accounts[u].stamp < w.next)
    && (forall l :: l in w.logins ==> l < w.next && w.logins[l].user in w.accounts && w.logins[l].password < w.next)
    && (forall l :: l in w.logins && w.logins[l].read.Some? ==> w.logins[l].read.value.stamp < w.next)
    && (forall s :: s in w.sessions ==> s in w.logins && w.logins[s].read.Some?
                                        && w.sessions[s].stamp == w.logins[s].read.value.stamp)
  }

  /** What a login holds is still current exactly if nothing was reset since. */
  ghost predicate Dated(events: seq<Event>, w: World, l: Id)
    requires l in w.logins && w.logins[l].user in w.accounts
  {
    var login := w.logins[l];
    && login.acceptedAt <= |events|
    && (login.password == w.accounts[login.user].password <==>
          !ResetWithin(events, login.user, login.acceptedAt, |events|))
    && (login.read.Some? ==>
          && login.acceptedAt <= login.read.value.at <= |events|
          && (login.read.value.stamp == w.accounts[login.user].stamp <==>
                !ResetWithin(events, login.user, login.read.value.at, |events|)))
  }

  ghost predicate Recorded(events: seq<Event>, w: World, s: Id)
    requires s in w.sessions && s in w.logins
  {
    && w.sessions[s].insertedAt <= |events|
    && (w.sessions[s].revoked <==> RevokedSince(events, s, w.logins[s].user, w.sessions[s].insertedAt))
  }

  ghost predicate Inv(events: seq<Event>, w: World) {
    && Fresh(w)
    && (forall l :: l in w.logins ==> Dated(events, w, l))
    && (forall s :: s in w.sessions ==> Recorded(events, w, s))
  }

  lemma NextFresh(w: World, e: Event, at: nat)
    requires Fresh(w)
    ensures Fresh(Next(w, e, at))
  {
  }

  lemma NextDated(events: seq<Event>, w: World, e: Event, l: Id)
    requires Fresh(w) && l in Next(w, e, |events|).logins && (l in w.logins ==> Dated(events, w, l))
    ensures Next(w, e, |events|).logins[l].user in Next(w, e, |events|).accounts
    ensures Dated(events + [e], Next(w, e, |events|), l)
  {
    var w' := Next(w, e, |events|);
    var login := w'.logins[l];
    hide ResetWithin;
    ResetStep(events, e, login.user, login.acceptedAt);
    if l !in w.logins {
      NoneYet(events, login.user);
    }
    if login.read.Some? {
      ResetStep(events, e, login.user, login.read.value.at);
      if w.logins[l].read.None? {
        NoneYet(events, login.user);
      }
    }
  }

  lemma NoneYet(events: seq<Event>, user: Id)
    ensures !ResetWithin(events, user, |events|, |events|)
    ensures forall s :: !RevokedSince(events, s, user, |events|)
  {
  }

  lemma NextRecorded(events: seq<Event>, w: World, e: Event, s: Id)
    requires Fresh(w) && s in Next(w, e, |events|).sessions && (s in w.sessions ==> Recorded(events, w, s))
    ensures s in Next(w, e, |events|).logins && Recorded(events + [e], Next(w, e, |events|), s)
  {
    NextFresh(w, e, |events|);
    hide RevokedSince;
    var w' := Next(w, e, |events|);
    RevokedStep(events, e, s, w'.logins[s].user, w'.sessions[s].insertedAt);
    if s !in w.sessions {
      NoneYet(events, w'.logins[s].user);
    }
  }

  lemma {:induction false} RunKeepsInv(events: seq<Event>)
    ensures Inv(events, Run(events))
  {
    if events != [] {
      var front, last := events[..|events| - 1], events[|events| - 1];
      RunKeepsInv(front);
      hide Next, Fresh, Dated, Recorded, Run;
      var w, w' := Run(front), Next(Run(front), last, |front|);
      assert events == front + [last];
      NextFresh(w, last, |front|);
      forall l | l in w'.logins ensures Dated(events, w', l) {
        NextDated(front, w, last, l);
      }
      forall s | s in w'.sessions ensures Recorded(events, w', s) {
        NextRecorded(front, w, last, s);
      }
    }
  }

  /** Each login inserts one session, which keeps its stamp and its place in the run; users are added. */
  lemma InsertedOnce(w: World, e: Event, at: nat, s: Id)
    ensures s in w.sessions ==>
              && s in Next(w, e, at).sessions && Next(w, e, at).sessions[s].stamp == w.sessions[s].stamp
              && Next(w, e, at).sessions[s].insertedAt == w.sessions[s].insertedAt
    ensures w.next in Next(w, Register, at).accounts
  {
  }

  // ---------------------------------------------------------------------------------------------
  // Survivors
  // ---------------------------------------------------------------------------------------------

  /** A live session that was opened with a password its user no longer has. */
  ghost predicate Survives(w: World, s: Id)
    requires s in w.sessions && s in w.logins && w.logins[s].user in w.accounts
  {
    && !w.sessions[s].revoked && w.sessions[s].stamp == w.accounts[w.logins[s].user].stamp
    && w.logins[s].password != w.accounts[w.logins[s].user].password
  }

  lemma SplitResets(events: seq<Event>, user: Id, a: nat, b: nat)
    requires a <= b <= |events|
    ensures ResetWithin(events, user, a, |events|) <==>
            ResetWithin(events, user, a, b) || ResetWithin(events, user, b, |events|)
  {
  }

  /**
    On every run a session survives resets of its own password exactly when a reset fell between the
    login's acceptance of the password and its read of the stamp, none came after that read, and no
    revocation came after the insert.
  */
  lemma SurvivesExactly(events: seq<Event>, s: Id)
    requires s in Run(events).sessions
    ensures var w := Run(events);
            && s in w.logins && w.logins[s].user in w.accounts && w.logins[s].read.Some?
            && var login := w.logins[s];
               var readAt := login.read.value.at;
               && login.acceptedAt <= readAt <= |events|
               && (Survives(w, s) <==>
                     && ResetWithin(events, login.user, login.acceptedAt, readAt)
                     && !ResetWithin(events, login.user, readAt, |events|)
                     && !RevokedSince(events, s, login.user, w.sessions[s].insertedAt))
  {
    RunKeepsInv(events);
    hide Run, ResetWithin, RevokedSince;
    var login := Run(events).logins[s];
    assert Dated(events, Run(events), s) && Recorded(events, Run(events), s);
    SplitResets(events, login.user, login.acceptedAt, login.read.value.at);
  }

  /** After any run: accept, reset, read the stamp, revoke, insert; the new session survives. */
  lemma SurvivorFollows(w: World, user: Id, at: nat)
    requires Fresh(w) && user in w.accounts
    ensures var l := w.next;
            var accepted := Next(w, Accept(user, w.accounts[user].password), at);
            var read := Next(Next(accepted, Reset(user), at + 1), ReadStamp(l), at + 2);
            var inserted := Next(Next(read, RevokeAll(user), at + 3), Insert(l), at + 4);
            && l in inserted.sessions && l in inserted.logins && inserted.logins[l].user in inserted.accounts
            && Survives(inserted, l)
  {
    var l := w.next;
    var accepted := Next(w, Accept(user, w.accounts[user].password), at);
    var replaced := Next(accepted, Reset(user), at + 1);
    assert replaced.accounts[user] == Account(l + 1, l + 2) && l !in replaced.sessions;
    var read := Next(replaced, ReadStamp(l), at + 2);
    assert read.logins[l] == Login(user, w.accounts[user].password, at, Some(Reading(l + 2, at + 2)));
    var revoked := Next(read, RevokeAll(user), at + 3);
    assert l !in revoked.sessions && revoked.logins == read.logins && revoked.accounts == replaced.accounts;
  }
}
