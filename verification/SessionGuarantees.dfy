/** What every run of the session protocol guarantees. */
module SessionGuarantees {
  import opened Events
  import opened Options
  import opened AccessTokens
  import opened Sessions
  import opened SessionRuns

  /** The world reached from an empty database. */
  ghost function Reached(cfg: Config, clock: int, events: seq<Event<Action>>): (w: World)
    requires Timely(clock, events)
    ensures Inv(cfg, w)
  {
    StartInv(cfg, clock);
    Run(cfg, Start(clock), events)
  }

  /** A login keeps its times, and its chain only grows. */
  lemma LoginKept(cfg: Config, w: World, e: Event<Action>, s: Id)
    requires Inv(cfg, w) && s in w.logins
    ensures var w' := Next(cfg, w, e);
            && s in w'.logins
            && w'.logins[s].createdAt == w.logins[s].createdAt && w'.logins[s].methods == w.logins[s].methods
            && w'.logins[s].startedAt == w.logins[s].startedAt
            && (w.logins[s].stage == Completed ==> w'.logins[s].stage == Completed)
  {
    hide Chains, Path, TokenRows, Filed, SessionRows, Apply;
    match e.action
    case DoStartLogin(_, _, _) =>
    case DoIssueFirst(_) =>
    case DoMintFirst(_) =>
    case DoRotate(_) =>
    case _ =>
  }

  // ---------------------------------------------------------------------------------------------
  // Replay is never missed
  // ---------------------------------------------------------------------------------------------

  ghost predicate Spent(db: Db, t: Id, s: Id) {
    t in db.tokens && db.tokens[t].usedAt.Some? && db.tokens[t].session == s
  }

  lemma ApplyKeepsSpent(db: Db, action: Action, now: int, t: Id, s: Id)
    requires ForeignKeys(db) && Spent(db, t, s)
    requires now < db.tokens[t].expiresAt && now < db.sessions[s].absoluteExpiresAt
    ensures Spent(Apply(db, action, now), t, s)
  {
    hide ForeignKeys;
  }

  lemma RotateKeepsSpent(cfg: Config, db: Db, presented: Id, now: int, t: Id, s: Id)
    requires ForeignKeys(db) && Spent(db, t, s) && t < db.next
    ensures Spent(Rotate(cfg, db, presented, now).0, t, s)
  {
  }

  /** A spent token's row reaches the session's cap. */
  lemma SpentAtCap(cfg: Config, w: World, t: Id, s: Id)
    requires Inv(cfg, w) && Spent(w.db, t, s)
    ensures s in w.logins && s in w.db.sessions && t < w.db.next
    ensures w.db.tokens[t].expiresAt == w.db.sessions[s].absoluteExpiresAt == Cap(cfg, w, s)
  {
    hide Chains, Path;
    assert RowOk(w.archive[t], Cap(cfg, w, s), w.clock);
  }

  lemma SpentStays(cfg: Config, w: World, e: Event<Action>, t: Id, s: Id)
    requires Inv(cfg, w) && w.clock <= e.now && Spent(w.db, t, s)
    requires s in w.logins && e.now < Cap(cfg, w, s)
    ensures Spent(Next(cfg, w, e).db, t, s)
    ensures s in Next(cfg, w, e).logins && Cap(cfg, Next(cfg, w, e), s) == Cap(cfg, w, s)
  {
    hide Inv, Apply, Rotate;
    SpentAtCap(cfg, w, t, s);
    LoginKept(cfg, w, e, s);
    InvKeys(cfg, w);
    match e.action
    case DoStartLogin(_, _, _) =>
    case DoIssueFirst(_) =>
    case DoMintFirst(_) =>
    case DoRotate(presented) => RotateKeepsSpent(cfg, w.db, presented, e.now, t, s);
    case _ => ApplyKeepsSpent(w.db, e.action, e.now, t, s);
  }

  lemma InvKeys(cfg: Config, w: World)
    requires Inv(cfg, w)
    ensures ForeignKeys(w.db)
  {
  }

  lemma {:induction false} SpentStaysRun(cfg: Config, w: World, events: seq<Event<Action>>, t: Id, s: Id)
    requires Inv(cfg, w) && Timely(w.clock, events) && Spent(w.db, t, s)
    requires s in w.logins && forall i :: 0 <= i < |events| ==> events[i].now < Cap(cfg, w, s)
    ensures Spent(Run(cfg, w, events).db, t, s)
    ensures s in Run(cfg, w, events).logins && Cap(cfg, Run(cfg, w, events), s) == Cap(cfg, w, s)
  {
    hide Inv, Next, Spent;
    if events != [] {
      var front := events[..|events| - 1];
      SpentStaysRun(cfg, w, front, t, s);
      SpentStays(cfg, Run(cfg, w, front), events[|events| - 1], t, s);
    }
  }

  lemma RotatedIsSpent(cfg: Config, w: World, t: Id, now: int)
    requires Inv(cfg, w) && Rotate(cfg, w.db, t, now).1.Rotated?
    ensures t in w.db.tokens && w.db.tokens[t].session in w.db.sessions
    ensures Spent(Rotate(cfg, w.db, t, now).0, t, w.db.tokens[t].session)
    ensures w.db.tokens[t].session in w.logins
  {
    hide Chains, Path, TokenRows, SessionRows;
  }

  /**
    Once a token has been rotated, presenting it again at any time before its session's cap is
    answered ReuseDetected and leaves the session revoked for that reason, whatever happened in
    between: rotations, revocations, resets, cut-short tokens and cleanup batches.
  */
  lemma ReplayNeverMissed(cfg: Config, clock: int, before: seq<Event<Action>>, t: Id, now: int,
                          between: seq<Event<Action>>, again: int)
    requires Timely(clock, before) && Reached(cfg, clock, before).clock <= now
    requires var w := Reached(cfg, clock, before);
             && Rotate(cfg, w.db, t, now).1.Rotated?
             && again < w.db.sessions[w.db.tokens[t].session].absoluteExpiresAt
    requires Timely(now, between) && forall i :: 0 <= i < |between| ==> between[i].now <= again
    ensures var w := Reached(cfg, clock, before);
            var w' := Run(cfg, Step(cfg, w, Event(DoRotate(t), now)), between);
            var s := w.db.tokens[t].session;
            var (db, outcome) := Rotate(cfg, w'.db, t, again);
            && outcome == ReuseDetected(s)
            && s in db.sessions && db.sessions[s].revoked == Some(Revocation(again, TokenReuseDetected))
  {
    hide Inv, Rotate, Run, Cap;
    var w := Reached(cfg, clock, before);
    var rotation := Event(DoRotate(t), now);
    RotatedIsSpent(cfg, w, t, now);
    var w1 := Step(cfg, w, rotation);
    var s := w.db.tokens[t].session;
    LoginKept(cfg, w, rotation, s);
    CapOf(cfg, w, s);
    assert Spent(w1.db, t, s);
    SameCap(cfg, w, w1, s);
    SpentStaysRun(cfg, w1, between, t, s);
    SpentIsReuse(cfg, Run(cfg, w1, between), t, s, again);
  }

  lemma CapOf(cfg: Config, w: World, s: Id)
    requires Inv(cfg, w) && s in w.db.sessions && s in w.logins
    ensures w.db.sessions[s].absoluteExpiresAt == Cap(cfg, w, s)
  {
    hide Chains, Path, TokenRows, Filed;
  }

  lemma SameCap(cfg: Config, w: World, w': World, s: Id)
    requires s in w.logins && s in w'.logins && w.logins[s].createdAt == w'.logins[s].createdAt
    ensures Cap(cfg, w, s) == Cap(cfg, w', s)
  {
  }

  lemma SpentIsReuse(cfg: Config, w: World, t: Id, s: Id, now: int)
    requires Inv(cfg, w) && Spent(w.db, t, s)
    ensures var (db, outcome) := Rotate(cfg, w.db, t, now);
            && outcome == ReuseDetected(s)
            && s in db.sessions && db.sessions[s].revoked == Some(Revocation(now, TokenReuseDetected))
  {
    hide Chains, Path, TokenRows, SessionRows, Filed, FreshIds;
  }

  // ---------------------------------------------------------------------------------------------
  // One chain per session
  // ---------------------------------------------------------------------------------------------

  /**
    All tokens ever issued for a session form one path, at most one stored token is unspent, and a
    rotation that fails leaves all of that as it is.
  */
  lemma SingleChain(cfg: Config, clock: int, events: seq<Event<Action>>, s: Id)
    requires Timely(clock, events) && s in Reached(cfg, clock, events).logins
    ensures var w := Reached(cfg, clock, events);
            var chain := w.logins[s].chain;
            && Path(w.archive, s, chain)
            && (forall t :: t in w.archive && w.archive[t].session == s <==> t in chain)
            && (forall t, t' :: Unspent(w.db, t, s) && Unspent(w.db, t', s) ==> t == t')
            && (forall presented, now :: !Rotate(cfg, w.db, presented, now).1.Rotated? ==>
                  Rotate(cfg, w.db, presented, now).0.tokens == w.db.tokens)
  {
    var w := Reached(cfg, clock, events);
    hide Inv, Path, Rotate, Unspent, Run;
    InvKeys(cfg, w);
    ChainIsAll(cfg, w, s);
    forall t, t' | Unspent(w.db, t, s) && Unspent(w.db, t', s) ensures t == t' {
      OneUnspent(cfg, w, s, t, t');
    }
    forall presented, now | !Rotate(cfg, w.db, presented, now).1.Rotated?
      ensures Rotate(cfg, w.db, presented, now).0.tokens == w.db.tokens
    {
      FailedRotation(cfg, w.db, presented, now);
    }
  }

  lemma ChainIsAll(cfg: Config, w: World, s: Id)
    requires Inv(cfg, w) && s in w.logins
    ensures Path(w.archive, s, w.logins[s].chain)
    ensures forall t :: t in w.archive && w.archive[t].session == s <==> t in w.logins[s].chain
  {
    hide TokenRows, SessionRows, FreshIds, ForeignKeys, Filed;
    var chain := w.logins[s].chain;
    forall t ensures t in w.archive && w.archive[t].session == s <==> t in chain {
      if t in chain {
        var i :| 0 <= i < |chain| && chain[i] == t;
      }
    }
  }

  lemma OneUnspent(cfg: Config, w: World, s: Id, t: Id, t': Id)
    requires Inv(cfg, w) && Unspent(w.db, t, s) && Unspent(w.db, t', s)
    ensures t == t'
  {
    hide TokenRows, SessionRows, FreshIds, ForeignKeys, Path;
    UnspentIsLast(w, t);
    UnspentIsLast(w, t');
  }

  // ---------------------------------------------------------------------------------------------
  // Session bounds
  // ---------------------------------------------------------------------------------------------

  /** Every stored token ends by its session's cap, so TokenExpired always precedes SessionExpired. */
  lemma SessionExpiredUnreachable(cfg: Config, clock: int, events: seq<Event<Action>>, presented: Id, now: int)
    requires Timely(clock, events)
    ensures !Rotate(cfg, Reached(cfg, clock, events).db, presented, now).1.SessionExpired?
  {
    hide Chains, Path, FreshIds, Run;
    var w := Reached(cfg, clock, events);
    if presented in w.db.tokens {
      assert RowOk(w.archive[presented], Cap(cfg, w, w.archive[presented].session), w.clock);
    }
  }

  /** A rotation happens inside both bounds, moves the activity time only, and re-issues the login's evidence. */
  lemma RotationBounds(cfg: Config, clock: int, events: seq<Event<Action>>, presented: Id, now: int)
    requires Timely(clock, events)
    requires Rotate(cfg, Reached(cfg, clock, events).db, presented, now).1.Rotated?
    ensures var w := Reached(cfg, clock, events);
            var (db, outcome) := Rotate(cfg, w.db, presented, now);
            var s := outcome.session;
            && s in w.logins && s in w.db.sessions && s in db.sessions
            && now < w.logins[s].createdAt + cfg.absoluteLifetime
            && now < w.db.sessions[s].lastActiveAt + cfg.inactivityWindow
            && db.sessions[s] == w.db.sessions[s].(lastActiveAt := now)
            && outcome.access.session == s
            && outcome.access.methods == w.logins[s].methods
            && outcome.access.authTime == WholeSeconds(w.db.sessions[s].authenticatedAt)
  {
    hide Chains, Path, TokenRows, Filed, Run;
  }

  lemma ApplyFixed(db: Db, action: Action, now: int, s: Id)
    requires s in db.sessions && s in Apply(db, action, now).sessions
    ensures var before, after := db.sessions[s], Apply(db, action, now).sessions[s];
            && SameLogin(before, after)
            && after.authenticatedAt == (if action == DoReauthenticate(s) then now else before.authenticatedAt)
            && after.lastActiveAt ==
               (if action == DoReauthenticate(s) || action == DoTouch(s) then now else before.lastActiveAt)
  {
  }

  /** A rotation of session `s`. */
  ghost predicate Rotates(cfg: Config, db: Db, e: Event<Action>, s: Id)
    requires ForeignKeys(db)
  {
    && e.action.DoRotate?
    && var outcome := Rotate(cfg, db, e.action.presented, e.now).1; outcome.Rotated? && outcome.session == s
  }

  /**
    User, stamp, methods and cap of a stored session never change. Its authentication moves to the
    instant of a re-authentication and with nothing else, its activity also with a touch or a rotation.
  */
  lemma SessionFixed(cfg: Config, w: World, e: Event<Action>, s: Id)
    requires Inv(cfg, w) && s in w.db.sessions && s in Next(cfg, w, e).db.sessions
    ensures var before, after := w.db.sessions[s], Next(cfg, w, e).db.sessions[s];
            && SameLogin(before, after)
            && after.authenticatedAt == (if e.action == DoReauthenticate(s) then e.now else before.authenticatedAt)
            && after.lastActiveAt ==
               (if e.action == DoReauthenticate(s) || e.action == DoTouch(s) || Rotates(cfg, w.db, e, s)
                then e.now else before.lastActiveAt)
  {
    hide Chains, Path, TokenRows, SessionRows, Filed, Apply, Rotate;
    if e.action.DoRotate? {
      RotateFixed(cfg, w.db, e.action.presented, e.now, s);
    } else if !Special(e.action) {
      ApplyFixed(w.db, e.action, e.now, s);
    }
  }

  lemma RotateFixed(cfg: Config, db: Db, presented: Id, now: int, s: Id)
    requires ForeignKeys(db)
    ensures var db' := Rotate(cfg, db, presented, now).0;
            && db'.sessions.Keys == db.sessions.Keys
            && (s in db.sessions ==>
                  && SameLogin(db.sessions[s], db'.sessions[s])
                  && db'.sessions[s].authenticatedAt == db.sessions[s].authenticatedAt
                  && db'.sessions[s].lastActiveAt ==
                     if Rotates(cfg, db, Event(DoRotate(presented), now), s) then now
                     else db.sessions[s].lastActiveAt)
  {
  }

  /** A session row that is gone stays gone. */
  lemma NeverReborn(cfg: Config, w: World, e: Event<Action>, s: Id)
    requires Inv(cfg, w) && s in w.logins && s !in w.db.sessions
    ensures s !in Next(cfg, w, e).db.sessions
  {
    hide Chains, Path, TokenRows, SessionRows, Filed, Rotate;
    if e.action.DoRotate? {
      RotateFixed(cfg, w.db, e.action.presented, e.now, s);
    }
  }

  /** When the user of `s` last authenticated, `since` being when that was before `events`. */
  function Authenticated(events: seq<Event<Action>>, s: Id, since: int): int {
    if events == [] then since
    else
      var last := events[|events| - 1];
      if last.action == DoReauthenticate(s) then last.now else Authenticated(events[..|events| - 1], s, since)
  }

  /** When `s` was last active. */
  ghost function Active(cfg: Config, w: World, events: seq<Event<Action>>, s: Id, since: int): int
    requires Inv(cfg, w) && Timely(w.clock, events)
  {
    if events == [] then since
    else
      var front, last := events[..|events| - 1], events[|events| - 1];
      if last.action == DoReauthenticate(s) || last.action == DoTouch(s) || Rotates(cfg, Run(cfg, w, front).db, last, s)
      then last.now else Active(cfg, w, front, s, since)
  }

  /** Over any number of refreshes and other steps. */
  lemma {:induction false} SessionFixedInRun(cfg: Config, w: World, events: seq<Event<Action>>, s: Id)
    requires Inv(cfg, w) && Timely(w.clock, events)
    requires s in w.db.sessions && s in Run(cfg, w, events).db.sessions
    ensures var before, after := w.db.sessions[s], Run(cfg, w, events).db.sessions[s];
            && SameLogin(before, after)
            && after.authenticatedAt == Authenticated(events, s, before.authenticatedAt)
            && after.lastActiveAt == Active(cfg, w, events, s, before.lastActiveAt)
  {
    hide Next, Inv;
    if events != [] {
      var front, last := events[..|events| - 1], events[|events| - 1];
      var before := Run(cfg, w, front);
      LoginKeptInRun(cfg, w, front, s);
      if s !in before.db.sessions {
        NeverReborn(cfg, before, last, s);
      }
      SessionFixedInRun(cfg, w, front, s);
      SessionFixed(cfg, before, last, s);
    }
  }

  lemma {:induction false} LoginKeptInRun(cfg: Config, w: World, events: seq<Event<Action>>, s: Id)
    requires Inv(cfg, w) && Timely(w.clock, events) && (s in w.logins || s in w.db.sessions)
    ensures s in w.logins && s in Run(cfg, w, events).logins
    ensures Cap(cfg, Run(cfg, w, events), s) == Cap(cfg, w, s)
    ensures Run(cfg, w, events).logins[s].startedAt == w.logins[s].startedAt
    ensures Run(cfg, w, events).logins[s].methods == w.logins[s].methods
  {
    hide Next, Inv;
    StoredIsLogin(cfg, w, s);
    if events != [] {
      var front := events[..|events| - 1];
      LoginKeptInRun(cfg, w, front, s);
      LoginKept(cfg, Run(cfg, w, front), events[|events| - 1], s);
    }
  }

  lemma StoredIsLogin(cfg: Config, w: World, s: Id)
    requires Inv(cfg, w) && (s in w.logins || s in w.db.sessions)
    ensures s in w.logins
  {
    hide Chains, Path, TokenRows, SessionRows, Filed;
  }

  /** In any reachable state a login's first token rotates at every later instant inside both bounds. */
  lemma FreshLoginRotates(cfg: Config, clock: int, events: seq<Event<Action>>, user: Id, methods: seq<Method>,
                          at: int, now: int)
    requires Timely(clock, events) && user in Reached(cfg, clock, events).db.stamps
    requires Reached(cfg, clock, events).clock <= at <= now
    requires now < at + cfg.absoluteLifetime && now < at + cfg.inactivityWindow
    ensures var w := Reached(cfg, clock, events);
            var s := w.db.next;
            var started := Step(cfg, w, Event(DoStartLogin(user, methods, at), at));
            var issued := Step(cfg, started, Event(DoIssueFirst(s), at));
            && s in issued.logins && |issued.logins[s].chain| == 1
            && Rotate(cfg, issued.db, issued.logins[s].chain[0], now).1.Rotated?
            && Rotate(cfg, issued.db, issued.logins[s].chain[0], now).1.session == s
  {
    hide Chains, Path, TokenRows, SessionRows, Filed, FreshIds, Run;
    var w := Reached(cfg, clock, events);
    var started := Step(cfg, w, Event(DoStartLogin(user, methods, at), at));
    var s := w.db.next;
    assert started.db.sessions[s] == Session(user, w.db.stamps[user], methods, at, at, at + cfg.absoluteLifetime, None);
    assert started.logins[s].stage == Created;
    var issued := Step(cfg, started, Event(DoIssueFirst(s), at));
    assert issued.db.tokens[started.db.next] == RefreshToken(s, at + cfg.absoluteLifetime, None, None);
  }

  // ---------------------------------------------------------------------------------------------
  // Cleanup
  // ---------------------------------------------------------------------------------------------

  /** Cleanup deletes eligible rows only, and the session cascade takes no unexpired token with it. */
  lemma CleanupIsSafe(cfg: Config, w: World, e: Event<Action>)
    requires Inv(cfg, w) && w.clock <= e.now
    requires e.action.DoDeleteTokens? || e.action.DoDeleteSessions?
    ensures var w' := Next(cfg, w, e);
            && (forall t :: t in w.db.tokens && t !in w'.db.tokens ==> w.db.tokens[t].expiresAt <= e.now)
            && (forall s :: s in w.db.sessions && s !in w'.db.sessions ==> w.db.sessions[s].absoluteExpiresAt <= e.now)
            && (forall t :: t in w'.db.tokens ==> t in w.db.tokens && w'.db.tokens[t] == w.db.tokens[t])
            && (forall s :: s in w'.db.sessions ==> s in w.db.sessions && w'.db.sessions[s] == w.db.sessions[s])
  {
    hide Inv, RowOk;
    InvKeys(cfg, w);
    forall t | t in w.db.tokens && t !in Next(cfg, w, e).db.tokens ensures w.db.tokens[t].expiresAt <= e.now {
      EndsByCap(cfg, w, t);
    }
  }

  lemma EndsByCap(cfg: Config, w: World, t: Id)
    requires Inv(cfg, w) && t in w.db.tokens
    ensures w.db.tokens[t].session in w.db.sessions
    ensures w.db.tokens[t].expiresAt <= w.db.sessions[w.db.tokens[t].session].absoluteExpiresAt
  {
    hide Chains, Path, FreshIds;
    assert RowOk(w.archive[t], Cap(cfg, w, w.archive[t].session), w.clock);
  }

  // ---------------------------------------------------------------------------------------------
  // Revocation and reset are absorbing
  // ---------------------------------------------------------------------------------------------

  /** Revoked, swept away, or carrying a stamp its user no longer has. */
  ghost predicate DeadRow(db: Db, s: Id)
    requires ForeignKeys(db)
  {
    s in db.sessions ==>
      db.sessions[s].revoked.Some? || db.stamps[db.sessions[s].user] != db.sessions[s].stamp
  }

  ghost predicate Dead(w: World, s: Id)
    requires ForeignKeys(w.db)
  {
    s in w.logins && DeadRow(w.db, s)
  }

  lemma ApplyKeepsDead(db: Db, action: Action, now: int, s: Id)
    requires ForeignKeys(db) && FreshStamps(db) && s < db.next && DeadRow(db, s)
    requires s in db.sessions ==> db.sessions[s].stamp < db.next
    ensures ForeignKeys(Apply(db, action, now)) && DeadRow(Apply(db, action, now), s)
  {
    ApplyIsQuiet(db, action, now);
    hide ForeignKeys, FreshStamps, QuietTokens, QuietSessions;
  }

  lemma RotateKeepsDead(cfg: Config, db: Db, presented: Id, now: int, s: Id)
    requires ForeignKeys(db) && DeadRow(db, s)
    ensures ForeignKeys(Rotate(cfg, db, presented, now).0) && DeadRow(Rotate(cfg, db, presented, now).0, s)
  {
  }

  lemma CreateKeepsDead(cfg: Config, db: Db, user: Id, methods: seq<Method>, now: int, s: Id)
    requires ForeignKeys(db) && DeadRow(db, s) && s < db.next
    ensures var db' := CreateSession(cfg, db, user, methods, now).0;
            db'.stamps == db.stamps && (s in db'.sessions ==> s in db.sessions && db'.sessions[s] == db.sessions[s])
  {
  }

  lemma FreshLogin(cfg: Config, w: World, s: Id)
    requires Inv(cfg, w) && s in w.logins
    ensures FreshStamps(w.db) && s < w.db.next && (s in w.db.sessions ==> w.db.sessions[s].stamp < w.db.next)
  {
    hide Chains, Path, TokenRows, SessionRows, Filed;
  }

  lemma DeadStays(cfg: Config, w: World, e: Event<Action>, s: Id)
    requires Inv(cfg, w) && w.clock <= e.now && Dead(w, s)
    ensures Dead(Step(cfg, w, e), s)
  {
    hide Inv, Apply, Rotate, CreateSession, ForeignKeys, FreshStamps;
    InvKeys(cfg, w);
    InvKeys(cfg, Step(cfg, w, e));
    FreshLogin(cfg, w, s);
    LoginKept(cfg, w, e, s);
    match e.action
    case DoStartLogin(user, methods, _) => CreateKeepsDead(cfg, w.db, user, methods, e.now, s);
    case DoRotate(presented) => RotateKeepsDead(cfg, w.db, presented, e.now, s);
    case DoIssueFirst(_) =>
    case DoMintFirst(_) =>
    case _ => ApplyKeepsDead(w.db, e.action, e.now, s);
  }

  /** Logins and rotations: the steps other than Apply's. */
  predicate Special(action: Action) {
    action.DoStartLogin? || action.DoIssueFirst? || action.DoMintFirst? || action.DoRotate?
  }

  /** A dead session's tokens do not rotate. */
  lemma DeadNeverRotates(cfg: Config, w: World, presented: Id, now: int, s: Id)
    requires Inv(cfg, w) && Dead(w, s)
    ensures Rotate(cfg, w.db, presented, now).1.Rotated? ==> Rotate(cfg, w.db, presented, now).1.session != s
  {
    hide Chains, Path, TokenRows, SessionRows, Filed, FreshIds;
  }

  lemma {:induction false} DeadInRun(cfg: Config, w: World, events: seq<Event<Action>>, s: Id)
    requires Inv(cfg, w) && Timely(w.clock, events) && Dead(w, s)
    ensures Dead(Run(cfg, w, events), s)
  {
    hide FreshIds, SessionRows, Filed, TokenRows, Chains, ForeignKeys, Next, DeadRow;
    if events != [] {
      DeadInRun(cfg, w, events[..|events| - 1], s);
      DeadStays(cfg, Run(cfg, w, events[..|events| - 1]), events[|events| - 1], s);
    }
  }

  /** Once dead, a session never rotates again on any continuation. */
  lemma DeadForever(cfg: Config, w: World, events: seq<Event<Action>>, s: Id, presented: Id, now: int)
    requires Inv(cfg, w) && Timely(w.clock, events) && Dead(w, s)
    ensures var outcome := Rotate(cfg, Run(cfg, w, events).db, presented, now).1;
            outcome.Rotated? ==> outcome.session != s
  {
    hide Inv, Next, DeadRow, Run, Rotate;
    DeadInRun(cfg, w, events, s);
    DeadNeverRotates(cfg, Run(cfg, w, events), presented, now, s);
  }

  /** Revoking kills, and so does a fresh stamp, with or without the revocations that follow it. */
  lemma RevocationAndResetKill(cfg: Config, w: World, e: Event<Action>, s: Id)
    requires Inv(cfg, w) && w.clock <= e.now && s in w.db.sessions
    requires || (e.action.DoRevoke? && e.action.session == s)
             || (e.action.DoRevokeAll? && e.action.user == w.db.sessions[s].user && e.action.except != Some(s))
             || (e.action.DoReplaceStamp? && e.action.user == w.db.sessions[s].user)
             || (e.action.DoRotate? && Rotate(cfg, w.db, e.action.presented, e.now).1 == ReuseDetected(s))
    ensures Inv(cfg, Next(cfg, w, e)) && Dead(Next(cfg, w, e), s)
  {
    hide Chains, Path, TokenRows, SessionRows, Filed;
    NextKeepsInv(cfg, w, e);
  }

  // ---------------------------------------------------------------------------------------------
  // The tail of access tokens
  // ---------------------------------------------------------------------------------------------

  /** A login that has not minted its first access token still will, unless its session row is gone. */
  predicate InFlight(w: World, s: Id)
    requires s in w.logins
  {
    w.logins[s].stage == Issued || (w.logins[s].stage == Created && s in w.db.sessions)
  }

  lemma NextMints(cfg: Config, w: World, e: Event<Action>, m: Minted)
    requires Inv(cfg, w) && m in Next(cfg, w, e).minted && m !in w.minted
    ensures m.at == e.now
    ensures exists authTime, methods :: m.access == Mint(cfg.jwt, m.access.session, authTime, methods, e.now)
    ensures || (e.action == DoMintFirst(m.access.session) && m.access.session in w.logins
                && w.logins[m.access.session].stage == Issued)
            || (e.action.DoRotate? && Rotate(cfg, w.db, e.action.presented, e.now).1.Rotated?
                && Rotate(cfg, w.db, e.action.presented, e.now).1.session == m.access.session)
  {
    hide Chains, Path, TokenRows, SessionRows, Filed, Apply;
    match e.action
    case DoStartLogin(_, _, _) =>
    case DoIssueFirst(_) =>
    case DoMintFirst(s) =>
      assert m == Minted(Mint(cfg.jwt, s, w.logins[s].startedAt, w.logins[s].methods, e.now), e.now);
    case DoRotate(presented) =>
      var id := w.db.tokens[presented].session;
      var session := w.db.sessions[id];
      assert m == Minted(Mint(cfg.jwt, id, session.authenticatedAt, session.methods, e.now), e.now);
    case _ =>
  }

  /** Whatever is minted comes from Mint at its recorded time. */
  ghost predicate AllMinted(cfg: Config, w: World) {
    forall m :: m in w.minted ==>
      && m.at <= w.clock
      && exists authTime, methods :: m.access == Mint(cfg.jwt, m.access.session, authTime, methods, m.at)
  }

  lemma NotInFlightStays(cfg: Config, w: World, e: Event<Action>, s: Id)
    requires Inv(cfg, w) && s in w.logins && !InFlight(w, s)
    ensures s in Next(cfg, w, e).logins && !InFlight(Next(cfg, w, e), s)
  {
    hide Chains, Path, TokenRows, SessionRows, Filed;
    match e.action
    case DoStartLogin(_, _, _) =>
    case DoIssueFirst(_) =>
    case DoMintFirst(_) =>
    case DoRotate(_) =>
    case _ =>
  }

  lemma AllMintedStays(cfg: Config, w: World, e: Event<Action>)
    requires Inv(cfg, w) && w.clock <= e.now && AllMinted(cfg, w)
    ensures AllMinted(cfg, Step(cfg, w, e))
  {
    hide Inv, Next;
    forall m | m in Step(cfg, w, e).minted
      ensures m.at <= e.now
      ensures exists authTime, methods :: m.access == Mint(cfg.jwt, m.access.session, authTime, methods, m.at)
    {
      if m !in w.minted {
        NextMints(cfg, w, e, m);
      }
    }
  }

  /** A dead session whose login is over gets no further access token. */
  lemma NothingMinted(cfg: Config, w: World, e: Event<Action>, s: Id, m: Minted)
    requires Inv(cfg, w) && w.clock <= e.now && Dead(w, s) && !InFlight(w, s)
    requires m in Step(cfg, w, e).minted && m.access.session == s
    ensures m in w.minted
  {
    hide Inv, Next, Rotate;
    if m !in w.minted {
      NextMints(cfg, w, e, m);
      if e.action.DoRotate? {
        DeadNeverRotates(cfg, w, e.action.presented, e.now, s);
      }
    }
  }

  lemma {:induction false} NothingMintedInRun(cfg: Config, w: World, events: seq<Event<Action>>, s: Id)
    requires Inv(cfg, w) && Timely(w.clock, events) && Dead(w, s) && !InFlight(w, s)
    ensures Dead(Run(cfg, w, events), s) && !InFlight(Run(cfg, w, events), s)
    ensures forall m :: m in Run(cfg, w, events).minted && m.access.session == s ==> m in w.minted
  {
    hide FreshIds, SessionRows, Filed, TokenRows, Chains, ForeignKeys, Next, DeadRow, InFlight;
    DeadInRun(cfg, w, events, s);
    if events != [] {
      var front, last := events[..|events| - 1], events[|events| - 1];
      var before := Run(cfg, w, front);
      NothingMintedInRun(cfg, w, front, s);
      NotInFlightStays(cfg, before, last, s);
      forall m | m in Run(cfg, w, events).minted && m.access.session == s ensures m in w.minted {
        NothingMinted(cfg, before, last, s, m);
      }
    }
  }

  lemma {:induction false} AllMintedInRun(cfg: Config, w: World, events: seq<Event<Action>>)
    requires Inv(cfg, w) && Timely(w.clock, events) && AllMinted(cfg, w)
    ensures AllMinted(cfg, Run(cfg, w, events))
  {
    hide Inv, Next, AllMinted;
    if events != [] {
      AllMintedInRun(cfg, w, events[..|events| - 1]);
      AllMintedStays(cfg, Run(cfg, w, events[..|events| - 1]), events[|events| - 1]);
    }
  }

  /** No access token of `s` passes later than lifetime + skew from now, whatever happens from here on. */
  ghost predicate TailBounded(cfg: Config, w: World, s: Id)
    requires Inv(cfg, w)
  {
    forall events, m, at ::
      (&& Timely(w.clock, events) && m in Run(cfg, w, events).minted && m.access.session == s
       && Passes(cfg.jwt, m.access, at)) ==> at <= w.clock + cfg.jwt.lifetime + cfg.jwt.skew
  }

  lemma DeadTail(cfg: Config, w: World, s: Id)
    requires Inv(cfg, w) && AllMinted(cfg, w) && Dead(w, s) && !InFlight(w, s)
    ensures TailBounded(cfg, w, s)
  {
    hide Inv, Next, Dead, InFlight, Mint, Passes;
    forall events, m, at | Timely(w.clock, events) && m in Run(cfg, w, events).minted && m.access.session == s
                           && Passes(cfg.jwt, m.access, at)
      ensures at <= w.clock + cfg.jwt.lifetime + cfg.jwt.skew
    {
      NothingMintedInRun(cfg, w, events, s);
      var authTime, methods :| m.access == Mint(cfg.jwt, m.access.session, authTime, methods, m.at);
      MintedLifetime(cfg.jwt, m.access.session, authTime, methods, m.at, at);
    }
  }

  /** An in-flight login that issues its first token now and mints at `late`. */
  lemma LateMint(cfg: Config, w: World, s: Id, late: int)
    requires Inv(cfg, w) && s in w.logins && InFlight(w, s) && w.clock <= late
    ensures var events := [Event(DoIssueFirst(s), w.clock), Event(DoMintFirst(s), late)];
            && Timely(w.clock, events)
            && exists m :: m in Run(cfg, w, events).minted && m.access.session == s
                           && exists authTime, methods :: m.access == Mint(cfg.jwt, s, authTime, methods, late)
  {
    hide FreshIds, SessionRows, Filed, TokenRows, Chains, ForeignKeys, InFlight, IssueFirst, Mint;
    var issue, mint := Event(DoIssueFirst(s), w.clock), Event(DoMintFirst(s), late);
    var events := [issue, mint];
    assert [issue][..0] == [] && events[..1] == [issue];
    IssuedStage(cfg, w, s);
    var issued := Step(cfg, w, issue);
    var login := issued.logins[s];
    assert Run(cfg, w, [issue]) == issued;
    assert Run(cfg, w, events) == Step(cfg, issued, mint);
    var m := Minted(Mint(cfg.jwt, s, login.startedAt, login.methods, late), late);
    MintedFor(cfg.jwt, s, login.startedAt, login.methods, late);
    assert m in Run(cfg, w, events).minted && m.access == Mint(cfg.jwt, s, login.startedAt, login.methods, late);
  }

  lemma MintedFor(jwt: JwtOptions, s: Id, authTime: int, methods: seq<Method>, now: int)
    ensures Mint(jwt, s, authTime, methods, now).session == s
  {
  }

  /** Otherwise the login can still finish long after the revocation. */
  lemma InFlightTail(cfg: Config, w: World, s: Id)
    requires Inv(cfg, w) && ValidJwt(cfg.jwt) && s in w.logins && InFlight(w, s)
    ensures !TailBounded(cfg, w, s)
  {
    hide Inv, InFlight, Mint, Passes, Run, Timely;
    var late := w.clock + cfg.jwt.lifetime + cfg.jwt.skew + 1;
    LateMint(cfg, w, s, late);
    var events := [Event(DoIssueFirst(s), w.clock), Event(DoMintFirst(s), late)];
    var m :| m in Run(cfg, w, events).minted && m.access.session == s
             && exists authTime, methods :: m.access == Mint(cfg.jwt, s, authTime, methods, late);
    var authTime, methods :| m.access == Mint(cfg.jwt, s, authTime, methods, late);
    MintedLifetime(cfg.jwt, s, authTime, methods, late, late);
    assert Passes(cfg.jwt, m.access, late);
  }

  lemma IssuedStage(cfg: Config, w: World, s: Id)
    requires Inv(cfg, w) && s in w.logins && InFlight(w, s)
    ensures var w' := Step(cfg, w, Event(DoIssueFirst(s), w.clock)); s in w'.logins && w'.logins[s].stage == Issued
  {
    hide Inv;
  }

  /**
    After a revocation or reset the access tokens of a session die within lifetime + skew, exactly
    when the login that created the session is no longer in flight.
  */
  lemma AccessTailExact(cfg: Config, clock: int, events: seq<Event<Action>>, s: Id)
    requires Timely(clock, events) && ValidJwt(cfg.jwt) && Dead(Reached(cfg, clock, events), s)
    ensures TailBounded(cfg, Reached(cfg, clock, events), s) <==> !InFlight(Reached(cfg, clock, events), s)
  {
    hide Inv, InFlight, TailBounded, Timely, AllMinted;
    StartInv(cfg, clock);
    NoneMinted(cfg, clock);
    AllMintedInRun(cfg, Start(clock), events);
    var w := Reached(cfg, clock, events);
    if InFlight(w, s) {
      InFlightTail(cfg, w, s);
    } else {
      DeadTail(cfg, w, s);
    }
  }

  lemma NoneMinted(cfg: Config, clock: int)
    ensures AllMinted(cfg, Start(clock))
  {
  }
}
