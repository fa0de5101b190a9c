/**
  Every answer of RotateAsync, and every access token, told from the steps taken since the login
  rather than from the columns they wrote.
*/
module SessionHistory {
  import opened AccessTokens
  import opened Events
  import opened Options
  import opened SessionGuarantees
  import opened SessionRuns
  import opened Sessions

  // ---------------------------------------------------------------------------------------------
  // The database after a step
  // ---------------------------------------------------------------------------------------------

  ghost function DbAfter(cfg: Config, w: World, e: Event<Action>): Db
    requires ForeignKeys(w.db)
  {
    match e.action
    case DoStartLogin(user, methods, _) => CreateSession(cfg, w.db, user, methods, e.now).0
    case DoIssueFirst(session) =>
      if session in w.logins && w.logins[session].stage == Created then IssueToken(w.db, session).0 else w.db
    case DoMintFirst(_) => w.db
    case DoRotate(presented) => Rotate(cfg, w.db, presented, e.now).0
    case _ => Apply(w.db, e.action, e.now)
  }

  lemma NextDb(cfg: Config, w: World, e: Event<Action>)
    requires Inv(cfg, w)
    ensures var w' := Next(cfg, w, e);
            && w'.db == DbAfter(cfg, w, e) && w'.clock == e.now && w'.archive == w.archive + w'.db.tokens
    ensures forall t :: t in w.db.tokens ==> t in w.archive && w.archive[t] == w.db.tokens[t]
    ensures forall t :: t in w.archive ==> t < w.db.next && w.archive[t].session < w.db.next
    ensures forall s :: s in w.db.sessions ==> s < w.db.next && s in w.logins
  {
    hide Inv, CreateSession, IssueToken, Rotate, Apply, Mint;
    FiledTokens(cfg, w);
    InvKeys(cfg, w);
    assert w.archive == w.archive + w.db.tokens;
  }

  lemma FiledTokens(cfg: Config, w: World)
    requires Inv(cfg, w)
    ensures forall t :: t in w.db.tokens ==> t in w.archive && w.archive[t] == w.db.tokens[t]
    ensures forall t :: t in w.archive ==> t < w.db.next && w.archive[t].session < w.db.next
    ensures forall s :: s in w.db.sessions ==> s < w.db.next && s in w.logins
  {
    hide Path, SessionRows;
  }

  // ---------------------------------------------------------------------------------------------
  // Revocation
  // ---------------------------------------------------------------------------------------------

  /** What ends a session: its own revocation, one of all its user's others, or a replay. */
  ghost predicate Ends(db: Db, e: Event<Action>, s: Id, user: Id) {
    match e.action
    case DoRevoke(session, _) => session == s
    case DoRevokeAll(of, except, _) => of == user && except != Some(s)
    case DoRotate(presented) => Spent(db, presented, s)
    case _ => false
  }

  function ReasonOf(action: Action): Reason {
    match action
    case DoRevoke(_, reason) => reason
    case DoRevokeAll(_, _, reason) => reason
    case _ => TokenReuseDetected
  }

  /**
    Exactly the steps that end a session record it, with their own instant and reason; of a session
    that has ended already, only a replay rewrites the record.
  */
  lemma RevokedExactly(cfg: Config, w: World, e: Event<Action>, s: Id)
    requires Inv(cfg, w) && s in w.db.sessions && s in Next(cfg, w, e).db.sessions
    ensures var before, after := w.db.sessions[s], Next(cfg, w, e).db.sessions[s];
            after.revoked ==
              if Ends(w.db, e, s, before.user) && (before.revoked.None? || e.action.DoRotate?)
              then Some(Revocation(e.now, ReasonOf(e.action))) else before.revoked
  {
    hide Inv, Apply, Next, Mint;
    InvKeys(cfg, w);
    NextDb(cfg, w, e);
    match e.action
    case DoStartLogin(_, _, _) =>
    case DoIssueFirst(_) =>
    case DoMintFirst(_) =>
    case DoRotate(_) =>
    case _ => ApplyRevokes(w.db, e, s);
  }

  lemma ApplyRevokes(db: Db, e: Event<Action>, s: Id)
    requires s in db.sessions && s in Apply(db, e.action, e.now).sessions && !e.action.DoRotate?
    ensures var before, after := db.sessions[s], Apply(db, e.action, e.now).sessions[s];
            after.revoked ==
              if Ends(db, e, s, before.user) && before.revoked.None?
              then Some(Revocation(e.now, ReasonOf(e.action))) else before.revoked
  {
  }

  /** Some step of the run ended the session. */
  ghost predicate Ended(cfg: Config, w: World, events: seq<Event<Action>>, s: Id, user: Id)
    requires Inv(cfg, w) && Timely(w.clock, events)
  {
    events != [] &&
      var front := events[..|events| - 1];
      Ended(cfg, w, front, s, user) || Ends(Run(cfg, w, front).db, events[|events| - 1], s, user)
  }

  lemma {:induction false} RevokedInRun(cfg: Config, w: World, events: seq<Event<Action>>, s: Id)
    requires Inv(cfg, w) && Timely(w.clock, events)
    requires s in w.db.sessions && w.db.sessions[s].revoked.None? && s in Run(cfg, w, events).db.sessions
    ensures Run(cfg, w, events).db.sessions[s].revoked.Some? <==> Ended(cfg, w, events, s, w.db.sessions[s].user)
  {
    hide Inv, Next, Ends;
    if events != [] {
      var front, last := events[..|events| - 1], events[|events| - 1];
      StillStored(cfg, w, front, last, s);
      RevokedInRun(cfg, w, front, s);
      SessionFixedInRun(cfg, w, front, s);
      RevokedExactly(cfg, Run(cfg, w, front), last, s);
    }
  }

  lemma StillStored(cfg: Config, w: World, front: seq<Event<Action>>, last: Event<Action>, s: Id)
    requires Inv(cfg, w) && Timely(w.clock, front) && s in w.db.sessions
    requires s in Next(cfg, Run(cfg, w, front), last).db.sessions
    ensures s in Run(cfg, w, front).db.sessions
  {
    hide Inv, Next;
    LoginKeptInRun(cfg, w, front, s);
    if s !in Run(cfg, w, front).db.sessions {
      NeverReborn(cfg, Run(cfg, w, front), last, s);
    }
  }

  // ---------------------------------------------------------------------------------------------
  // Stamps
  // ---------------------------------------------------------------------------------------------

  /** The user's stamp was replaced. */
  predicate Replaced(events: seq<Event<Action>>, user: Id) {
    exists i :: 0 <= i < |events| && events[i].action == DoReplaceStamp(user)
  }

  lemma NextStamp(cfg: Config, w: World, e: Event<Action>, user: Id)
    requires Inv(cfg, w) && user in w.db.stamps
    ensures var w' := Next(cfg, w, e);
            && user in w'.db.stamps && w.db.next <= w'.db.next
            && (if e.action == DoReplaceStamp(user) then w'.db.stamps[user] >= w.db.next
                else w'.db.stamps[user] == w.db.stamps[user])
  {
    hide Inv, Rotate, Apply, Next;
    FreshUser(cfg, w, user);
    NextDb(cfg, w, e);
    match e.action
    case DoStartLogin(_, _, _) =>
    case DoIssueFirst(_) =>
    case DoMintFirst(_) =>
    case DoRotate(presented) => RotateKeepsStamps(cfg, w.db, presented, e.now);
    case _ => ApplyStamps(w.db, e.action, e.now, user);
  }

  /** Registration alone adds a user, with a stamp nobody had. */
  lemma UsersExactly(cfg: Config, w: World, e: Event<Action>, user: Id)
    requires Inv(cfg, w)
    ensures var before, after := w.db.stamps, Next(cfg, w, e).db.stamps;
            && (user in after <==> user in before || (e.action.DoRegister? && user == w.db.next))
            && (user in after && user !in before ==> after[user] >= w.db.next)
  {
    hide Inv, Rotate, Apply, Next;
    InvKeys(cfg, w);
    NextDb(cfg, w, e);
    match e.action
    case DoStartLogin(_, _, _) =>
    case DoIssueFirst(_) =>
    case DoMintFirst(_) =>
    case DoRotate(presented) => RotateKeepsStamps(cfg, w.db, presented, e.now);
    case _ => ApplyUsers(w.db, e.action, e.now, user);
  }

  lemma ApplyUsers(db: Db, action: Action, now: int, user: Id)
    ensures var before, after := db.stamps, Apply(db, action, now).stamps;
            && (user in after <==> user in before || (action.DoRegister? && user == db.next))
            && (user in after && user !in before ==> after[user] >= db.next)
  {
  }

  lemma FreshUser(cfg: Config, w: World, user: Id)
    requires Inv(cfg, w) && user in w.db.stamps
    ensures ForeignKeys(w.db) && user < w.db.next
  {
    hide Chains, Path, TokenRows, SessionRows, Filed;
  }

  lemma RotateKeepsStamps(cfg: Config, db: Db, presented: Id, now: int)
    requires ForeignKeys(db)
    ensures var db' := Rotate(cfg, db, presented, now).0; db'.stamps == db.stamps && db.next <= db'.next
  {
  }

  lemma ApplyStamps(db: Db, action: Action, now: int, user: Id)
    requires user in db.stamps && user < db.next
    ensures var db' := Apply(db, action, now);
            && user in db'.stamps && db.next <= db'.next
            && db'.stamps[user] == if action == DoReplaceStamp(user) then db.next else db.stamps[user]
  {
  }

  lemma ReplacedStep(events: seq<Event<Action>>, user: Id)
    requires events != []
    ensures Replaced(events, user) <==>
            Replaced(events[..|events| - 1], user) || events[|events| - 1].action == DoReplaceStamp(user)
  {
    var front := events[..|events| - 1];
    assert forall i :: 0 <= i < |front| ==> front[i] == events[i];
  }

  lemma {:induction false} StampInRun(cfg: Config, w: World, events: seq<Event<Action>>, user: Id)
    requires Inv(cfg, w) && Timely(w.clock, events) && user in w.db.stamps
    ensures var w' := Run(cfg, w, events);
            && user in w'.db.stamps && w.db.next <= w'.db.next
            && (if Replaced(events, user) then w'.db.stamps[user] >= w.db.next
                else w'.db.stamps[user] == w.db.stamps[user])
  {
    hide Inv, Next, Replaced;
    if events == [] {
      NothingReplaced(user);
    } else {
      var front := events[..|events| - 1];
      StampInRun(cfg, w, front, user);
      ReplacedStep(events, user);
      NextStamp(cfg, Run(cfg, w, front), events[|events| - 1], user);
    }
  }

  lemma NothingReplaced(user: Id)
    ensures !Replaced([], user)
  {
  }

  // ---------------------------------------------------------------------------------------------
  // Tokens
  // ---------------------------------------------------------------------------------------------

  /** The step cuts token `t` of session `s` short, the token being issued and unspent. */
  ghost predicate Cuts(w: World, e: Event<Action>, t: Id, s: Id) {
    e.action.DoExpireTokens? && s in e.action.of && t in w.archive && w.archive[t].usedAt.None?
  }

  ghost predicate CutShort(cfg: Config, w: World, events: seq<Event<Action>>, t: Id, s: Id)
    requires Inv(cfg, w) && Timely(w.clock, events)
  {
    events != [] &&
      var front := events[..|events| - 1];
      CutShort(cfg, w, front, t, s) || Cuts(Run(cfg, w, front), events[|events| - 1], t, s)
  }

  /** A cleanup took the token after it was cut short. */
  ghost predicate Swept(cfg: Config, w: World, events: seq<Event<Action>>, t: Id, s: Id)
    requires Inv(cfg, w) && Timely(w.clock, events)
  {
    events != [] &&
      var front, last := events[..|events| - 1], events[|events| - 1];
      Swept(cfg, w, front, t, s)
      || (last.action.DoDeleteTokens? && t in last.action.ids && CutShort(cfg, w, front, t, s))
  }

  /** What is left of token `t`, whose session ends at `cap`. */
  ghost predicate Left(w: World, t: Id, s: Id, cap: int, cut: bool, swept: bool) {
    && t in w.archive && w.archive[t].session == s
    && (if cut then w.archive[t].expiresAt <= w.clock && w.archive[t].usedAt.None? else w.archive[t].expiresAt == cap)
    && (swept ==> cut)
    && (t in w.db.tokens <==> !swept)
    && (t in w.db.tokens ==> w.db.tokens[t] == w.archive[t])
  }

  lemma ApplyLeaves(w: World, e: Event<Action>, t: Id, s: Id, cap: int, cut: bool, swept: bool)
    requires Left(w, t, s, cap, cut, swept) && w.clock <= e.now < cap && !Special(e.action)
    requires s in w.db.sessions && w.db.sessions[s].absoluteExpiresAt == cap
    requires cut ==> cap > w.clock
    ensures Left(Commit(w, Apply(w.db, e.action, e.now), e.now), t, s, cap, cut || Cuts(w, e, t, s),
                 swept || (e.action.DoDeleteTokens? && t in e.action.ids && cut))
  {
  }

  lemma RotateLeaves(cfg: Config, w: World, presented: Id, now: int, t: Id, s: Id, cap: int, cut: bool, swept: bool)
    requires ForeignKeys(w.db) && Left(w, t, s, cap, cut, swept) && w.clock <= now < cap && w.db.next !in w.archive
    ensures Left(Commit(w, Rotate(cfg, w.db, presented, now).0, now), t, s, cap, cut, swept)
  {
  }

  lemma IssueLeaves(w: World, session: Id, now: int, t: Id, s: Id, cap: int, cut: bool, swept: bool)
    requires Left(w, t, s, cap, cut, swept) && w.clock <= now < cap && w.db.next !in w.archive
    ensures Left(Commit(w, IssueToken(w.db, session).0, now), t, s, cap, cut, swept)
    ensures Left(Commit(w, w.db, now), t, s, cap, cut, swept)
  {
  }

  lemma SameLeft(w: World, w': World, t: Id, s: Id, cap: int, cut: bool, swept: bool)
    requires Left(w, t, s, cap, cut, swept)
    requires w'.archive == w.archive && w'.db.tokens == w.db.tokens && w'.clock == w.clock
    ensures Left(w', t, s, cap, cut, swept)
  {
  }

  lemma NextLeaves(cfg: Config, w: World, e: Event<Action>, t: Id, s: Id, cap: int, cut: bool, swept: bool)
    requires Inv(cfg, w) && Left(w, t, s, cap, cut, swept) && w.clock <= e.now < cap
    requires s in w.db.sessions && w.db.sessions[s].absoluteExpiresAt == cap
    ensures Left(Next(cfg, w, e), t, s, cap, cut || Cuts(w, e, t, s),
                 swept || (e.action.DoDeleteTokens? && t in e.action.ids && cut))
  {
    hide Inv, Left, Apply, Rotate, IssueToken, Next;
    InvKeys(cfg, w);
    NextDb(cfg, w, e);
    var committed := Commit(w, DbAfter(cfg, w, e), e.now);
    match e.action {
      case DoStartLogin(user, methods, _) =>
        IssueLeaves(w, 0, e.now, t, s, cap, cut, swept);
        SameLeft(Commit(w, w.db, e.now), committed, t, s, cap, cut, swept);
      case DoIssueFirst(session) => IssueLeaves(w, session, e.now, t, s, cap, cut, swept);
      case DoMintFirst(_) => IssueLeaves(w, 0, e.now, t, s, cap, cut, swept);
      case DoRotate(presented) => RotateLeaves(cfg, w, presented, e.now, t, s, cap, cut, swept);
      case _ => ApplyLeaves(w, e, t, s, cap, cut, swept);
    }
    var cut', swept' := cut || Cuts(w, e, t, s), swept || (e.action.DoDeleteTokens? && t in e.action.ids && cut);
    SameLeft(committed, Next(cfg, w, e), t, s, cap, cut', swept');
  }

  /** A session and its user are stored at least until the session's cap. */
  lemma {:induction false} StoredToCap(cfg: Config, w: World, events: seq<Event<Action>>, s: Id)
    requires Inv(cfg, w) && Timely(w.clock, events) && s in w.db.sessions
    requires forall i :: 0 <= i < |events| ==> events[i].now < w.db.sessions[s].absoluteExpiresAt
    ensures s in Run(cfg, w, events).db.sessions
  {
    hide Inv, Next;
    if events != [] {
      var front := events[..|events| - 1];
      StoredToCap(cfg, w, front, s);
      SessionFixedInRun(cfg, w, front, s);
      StoredNext(cfg, Run(cfg, w, front), events[|events| - 1], s);
    }
  }

  lemma StoredNext(cfg: Config, w: World, e: Event<Action>, s: Id)
    requires Inv(cfg, w) && s in w.db.sessions && e.now < w.db.sessions[s].absoluteExpiresAt
    ensures s in Next(cfg, w, e).db.sessions
  {
    hide Inv, Rotate, Apply, Next;
    InvKeys(cfg, w);
    NextDb(cfg, w, e);
    match e.action
    case DoStartLogin(_, _, _) =>
    case DoIssueFirst(_) =>
    case DoMintFirst(_) =>
    case DoRotate(presented) => RotateFixed(cfg, w.db, presented, e.now, s);
    case _ => ApplyStores(w.db, e.action, e.now, s);
  }

  lemma ApplyStores(db: Db, action: Action, now: int, s: Id)
    requires s in db.sessions && now < db.sessions[s].absoluteExpiresAt
    ensures s in Apply(db, action, now).sessions
  {
  }

  /** Rows go exactly in a cleanup that lists them, or their session, when they are over. */
  lemma GoneExactly(cfg: Config, w: World, e: Event<Action>, s: Id, t: Id)
    requires Inv(cfg, w)
    ensures var db, db' := w.db, Next(cfg, w, e).db;
            && (s in db.sessions ==>
                  (s !in db'.sessions <==>
                     e.action.DoDeleteSessions? && s in e.action.ids && db.sessions[s].absoluteExpiresAt <= e.now))
            && (t in db.tokens ==>
                  && db.tokens[t].session in db.sessions
                  && (t !in db'.tokens <==>
                        || (e.action.DoDeleteTokens? && t in e.action.ids && db.tokens[t].expiresAt <= e.now)
                        || db.tokens[t].session !in db'.sessions))
  {
    hide Inv, Rotate, Apply, Next;
    InvKeys(cfg, w);
    NextDb(cfg, w, e);
    match e.action
    case DoStartLogin(_, _, _) =>
    case DoIssueFirst(_) =>
    case DoMintFirst(_) =>
    case DoRotate(presented) => RotateStores(cfg, w.db, presented, e.now);
    case _ => ApplyDeletes(w.db, e, s, t);
  }

  lemma RotateStores(cfg: Config, db: Db, presented: Id, now: int)
    requires ForeignKeys(db)
    ensures var db' := Rotate(cfg, db, presented, now).0;
            db'.sessions.Keys == db.sessions.Keys && db.tokens.Keys <= db'.tokens.Keys
  {
  }

  lemma ApplyDeletes(db: Db, e: Event<Action>, s: Id, t: Id)
    requires ForeignKeys(db) && !e.action.DoRotate?
    ensures var db' := Apply(db, e.action, e.now);
            && (s in db.sessions ==>
                  (s !in db'.sessions <==>
                     e.action.DoDeleteSessions? && s in e.action.ids && db.sessions[s].absoluteExpiresAt <= e.now))
            && (t in db.tokens ==>
                  (t !in db'.tokens <==>
                     || (e.action.DoDeleteTokens? && t in e.action.ids && db.tokens[t].expiresAt <= e.now)
                     || db.tokens[t].session !in db'.sessions))
  {
  }

  /** A token that is filed by a step is stored, unspent, and ends with its session. */
  lemma NewToken(cfg: Config, w: World, e: Event<Action>, t: Id)
    requires Inv(cfg, w) && t in Next(cfg, w, e).archive && t !in w.archive
    ensures var w' := Next(cfg, w, e);
            var s := w'.archive[t].session;
            && s in w.db.sessions && t in w'.db.tokens && w'.db.tokens[t] == w'.archive[t]
            && w'.archive[t] == RefreshToken(s, w.db.sessions[s].absoluteExpiresAt, None, None)
  {
    hide Inv, Apply, Rotate, Next, QuietSessions;
    InvKeys(cfg, w);
    NextDb(cfg, w, e);
    match e.action
    case DoStartLogin(_, _, _) =>
    case DoIssueFirst(_) =>
    case DoMintFirst(_) =>
    case DoRotate(presented) => RotateIssues(cfg, w.db, presented, e.now, t);
    case _ => ApplyRows(w.db, e.action, e.now);
  }

  lemma RotateIssues(cfg: Config, db: Db, presented: Id, now: int, t: Id)
    requires ForeignKeys(db) && t in Rotate(cfg, db, presented, now).0.tokens && t !in db.tokens
    ensures var row := Rotate(cfg, db, presented, now).0.tokens[t];
            row.session in db.sessions
            && row == RefreshToken(row.session, db.sessions[row.session].absoluteExpiresAt, None, None)
  {
  }

  lemma ArchiveKept(cfg: Config, w: World, e: Event<Action>, t: Id)
    requires Inv(cfg, w) && t in w.archive
    ensures var w' := Next(cfg, w, e); t in w'.archive && w'.archive[t].session == w.archive[t].session
  {
    hide Inv, Apply, Rotate, Next, QuietSessions;
    InvKeys(cfg, w);
    NextDb(cfg, w, e);
    match e.action
    case DoStartLogin(_, _, _) =>
    case DoIssueFirst(_) =>
    case DoMintFirst(_) =>
    case DoRotate(presented) => RotateKeepsOwners(cfg, w.db, presented, e.now);
    case _ => ApplyRows(w.db, e.action, e.now);
  }

  lemma RotateKeepsOwners(cfg: Config, db: Db, presented: Id, now: int)
    requires ForeignKeys(db)
    ensures forall t :: t in Rotate(cfg, db, presented, now).0.tokens && t != db.next ==>
              t in db.tokens && Rotate(cfg, db, presented, now).0.tokens[t].session == db.tokens[t].session
  {
  }

  lemma {:induction false} ArchiveKeptInRun(cfg: Config, w: World, events: seq<Event<Action>>, t: Id)
    requires Inv(cfg, w) && Timely(w.clock, events) && t in w.archive
    ensures var w' := Run(cfg, w, events); t in w'.archive && w'.archive[t].session == w.archive[t].session
  {
    hide Inv, Next;
    if events != [] {
      ArchiveKeptInRun(cfg, w, events[..|events| - 1], t);
      ArchiveKept(cfg, Run(cfg, w, events[..|events| - 1]), events[|events| - 1], t);
    }
  }

  lemma {:induction false} NotYetCut(cfg: Config, w: World, events: seq<Event<Action>>, t: Id, s: Id)
    requires Inv(cfg, w) && Timely(w.clock, events) && t !in Run(cfg, w, events).archive
    ensures !CutShort(cfg, w, events, t, s) && !Swept(cfg, w, events, t, s)
  {
    hide Inv, Next;
    if events != [] {
      var front, last := events[..|events| - 1], events[|events| - 1];
      if t in Run(cfg, w, front).archive {
        ArchiveKept(cfg, Run(cfg, w, front), last, t);
      }
      NotYetCut(cfg, w, front, t, s);
    }
  }

  lemma {:induction false} LeftInRun(cfg: Config, w: World, events: seq<Event<Action>>, t: Id, s: Id)
    requires Inv(cfg, w) && Timely(w.clock, events) && s in w.db.sessions && t !in w.archive
    requires t in Run(cfg, w, events).archive && Run(cfg, w, events).archive[t].session == s
    requires forall i :: 0 <= i < |events| ==> events[i].now < w.db.sessions[s].absoluteExpiresAt
    ensures Left(Run(cfg, w, events), t, s, w.db.sessions[s].absoluteExpiresAt, CutShort(cfg, w, events, t, s),
                 Swept(cfg, w, events, t, s))
  {
    hide Inv, Next, Left, Cuts;
    var cap := w.db.sessions[s].absoluteExpiresAt;
    if events != [] {
      var front, last := events[..|events| - 1], events[|events| - 1];
      var before := Run(cfg, w, front);
      StoredToCap(cfg, w, front, s);
      SessionFixedInRun(cfg, w, front, s);
      if t in before.archive {
        ArchiveKept(cfg, before, last, t);
        LeftInRun(cfg, w, front, t, s);
        NextLeaves(cfg, before, last, t, s, cap, CutShort(cfg, w, front, t, s), Swept(cfg, w, front, t, s));
      } else {
        NotYetCut(cfg, w, front, t, s);
        InvKeys(cfg, before);
        NewToken(cfg, before, last, t);
        NewIsLeft(before, Next(cfg, before, last), last, t, s, cap);
      }
    }
  }

  lemma NewIsLeft(w: World, w': World, e: Event<Action>, t: Id, s: Id, cap: int)
    requires t !in w.archive && t in w'.archive && t in w'.db.tokens
    requires w'.db.tokens[t] == w'.archive[t] == RefreshToken(s, cap, None, None)
    ensures !Cuts(w, e, t, s) && Left(w', t, s, cap, false, false)
  {
  }

  // ---------------------------------------------------------------------------------------------
  // Every answer
  // ---------------------------------------------------------------------------------------------

  /** The world in which `user` has just been given a session, by a login that began at `startedAt`. */
  ghost function LoggedIn(cfg: Config, w: World, user: Id, methods: seq<Method>, startedAt: int, at: int): (w': World)
    requires Inv(cfg, w) && w.clock <= at && user in w.db.stamps
    ensures Inv(cfg, w') && w'.clock == at && w.db.next in w'.db.sessions && w.db.next in w'.logins
    ensures w'.db.sessions[w.db.next] ==
            Session(user, w.db.stamps[user], methods, at, at, at + cfg.absoluteLifetime, None)
    ensures w'.logins[w.db.next] == Login(startedAt, at, methods, Created, [])
    ensures forall t :: t in w'.archive ==> w'.archive[t].session != w.db.next
    ensures w'.db.stamps == w.db.stamps && w.db.stamps[user] < w'.db.next
  {
    LoginFresh(cfg, w, user, methods, startedAt, at);
    Step(cfg, w, Event(DoStartLogin(user, methods, startedAt), at))
  }

  lemma LoginFresh(cfg: Config, w: World, user: Id, methods: seq<Method>, startedAt: int, at: int)
    requires Inv(cfg, w) && user in w.db.stamps
    ensures var w' := Next(cfg, w, Event(DoStartLogin(user, methods, startedAt), at));
            && w.db.next in w'.db.sessions && w.db.next in w'.logins
            && w'.db.sessions[w.db.next] ==
               Session(user, w.db.stamps[user], methods, at, at, at + cfg.absoluteLifetime, None)
            && w'.logins[w.db.next] == Login(startedAt, at, methods, Created, [])
            && (forall t :: t in w'.archive ==> w'.archive[t].session != w.db.next)
            && w'.db.stamps == w.db.stamps && w.db.stamps[user] < w'.db.next
  {
    hide Path, SessionRows;
  }

  /** The answer to token `t` of session `s` at `now`, before the session's cap, told from the run since its login. */
  ghost predicate Answers(cfg: Config, w: World, events: seq<Event<Action>>, s: Id, user: Id, methods: seq<Method>,
                          at: int, t: Id, last: bool, now: int, outcome: Outcome)
    requires Inv(cfg, w) && Timely(w.clock, events)
  {
    if !last then outcome == ReuseDetected(s)
    else if Swept(cfg, w, events, t, s) then outcome == NotFound
    else if Ended(cfg, w, events, s, user) then outcome == SessionRevoked(s)
    else if CutShort(cfg, w, events, t, s) then outcome == TokenExpired(s)
    else if Active(cfg, w, events, s, at) + cfg.inactivityWindow <= now then outcome == SessionIdle(s)
    else if Replaced(events, user) then outcome == SecurityStampChanged(s)
    else
      && outcome.Rotated? && outcome.session == s
      && Says(cfg.jwt, outcome.access, s, Authenticated(events, s, at), methods, now)
  }

  /**
    From any reachable state: what a login's tokens are answered at any instant before its cap,
    whatever steps were taken since. `chain` are the tokens issued to it, in order.
  */
  lemma AnswersExactly(cfg: Config, clock: int, before: seq<Event<Action>>, user: Id, methods: seq<Method>,
                       startedAt: int, at: int, events: seq<Event<Action>>, i: nat, now: int)
    requires Timely(clock, before) && Reached(cfg, clock, before).clock <= at
    requires user in Reached(cfg, clock, before).db.stamps
    requires Timely(at, events) && at <= now < at + cfg.absoluteLifetime
    requires forall k :: 0 <= k < |events| ==> events[k].now <= now
    ensures var w := LoggedIn(cfg, Reached(cfg, clock, before), user, methods, startedAt, at);
            var s, w' := Reached(cfg, clock, before).db.next, Run(cfg, w, events);
            s in w'.logins && var chain := w'.logins[s].chain;
            i < |chain| ==>
              Answers(cfg, w, events, s, user, methods, at, chain[i], i == |chain| - 1, now,
                      Rotate(cfg, w'.db, chain[i], now).1)
  {
    hide Inv, Step, Run, Rotate, Replaced, Ended, CutShort, Swept, Active, Authenticated, Answers;
    var w := LoggedIn(cfg, Reached(cfg, clock, before), user, methods, startedAt, at);
    var s, w' := Reached(cfg, clock, before).db.next, Run(cfg, w, events);
    LoginKeptInRun(cfg, w, events, s);
    var chain := w'.logins[s].chain;
    if i < |chain| {
      StoredToCap(cfg, w, events, s);
      SessionFixedInRun(cfg, w, events, s);
      RevokedInRun(cfg, w, events, s);
      StampInRun(cfg, w, events, user);
      InChain(cfg, w', s, i);
      if chain[i] in w.archive {
        ArchiveKeptInRun(cfg, w, events, chain[i]);
      }
      LeftInRun(cfg, w, events, chain[i], s);
      InvKeys(cfg, w');
      AnswersFromRows(cfg, w, events, w', s, user, methods, at, chain[i], i == |chain| - 1, now);
    }
  }

  lemma InChain(cfg: Config, w: World, s: Id, i: nat)
    requires Inv(cfg, w) && s in w.logins && i < |w.logins[s].chain|
    ensures var chain := w.logins[s].chain;
            var t := chain[i];
            t in w.archive && w.archive[t].session == s && (w.archive[t].usedAt.None? <==> i == |chain| - 1)
  {
    hide TokenRows, SessionRows, FreshIds, ForeignKeys, Filed;
  }

  lemma AnswersFromRows(cfg: Config, w: World, events: seq<Event<Action>>, w': World, s: Id, user: Id,
                        methods: seq<Method>, at: int, t: Id, last: bool, now: int)
    requires Inv(cfg, w) && Timely(w.clock, events) && ForeignKeys(w'.db) && w'.clock <= now
    requires s in w.db.sessions && now < at + cfg.absoluteLifetime
    requires s in w'.db.sessions && user in w.db.stamps && w.db.stamps[user] < w.db.next && user in w'.db.stamps
    requires w'.db.sessions[s] == Session(user, w.db.stamps[user], methods, Authenticated(events, s, at),
                                          Active(cfg, w, events, s, at), at + cfg.absoluteLifetime,
                                          w'.db.sessions[s].revoked)
    requires w'.db.sessions[s].revoked.Some? <==> Ended(cfg, w, events, s, user)
    requires if Replaced(events, user) then w'.db.stamps[user] >= w.db.next
             else w'.db.stamps[user] == w.db.stamps[user]
    requires Left(w', t, s, at + cfg.absoluteLifetime, CutShort(cfg, w, events, t, s), Swept(cfg, w, events, t, s))
    requires w'.archive[t].usedAt.None? <==> last
    ensures Answers(cfg, w, events, s, user, methods, at, t, last, now, Rotate(cfg, w'.db, t, now).1)
  {
    hide Inv, Replaced, Ended, CutShort, Swept, Active, Authenticated, Says, Mint;
    var outcome := Rotate(cfg, w'.db, t, now).1;
    if outcome.Rotated? {
      MintedExactly(cfg.jwt, outcome.access, s, w'.db.sessions[s].authenticatedAt, methods, now);
    }
  }

  // ---------------------------------------------------------------------------------------------
  // Every access token
  // ---------------------------------------------------------------------------------------------

  /** The step finishes a login: its first access token is due. */
  predicate Finishes(w: World, e: Event<Action>) {
    e.action.DoMintFirst? && e.action.session in w.logins && w.logins[e.action.session].stage == Issued
  }

  /**
    Exactly the end of a login, which comes once, and a rotation mint an access token. The first one
    carries the instant at which the login began, later ones that of the session's last authentication.
  */
  lemma MintsExactly(cfg: Config, w: World, e: Event<Action>)
    requires Inv(cfg, w)
    ensures var w' := Next(cfg, w, e);
            if Finishes(w, e) then
              var login, s := w.logins[e.action.session], e.action.session;
              && |w'.minted| == |w.minted| + 1 && w.minted <= w'.minted && w'.minted[|w.minted|].at == e.now
              && Says(cfg.jwt, w'.minted[|w.minted|].access, s, login.startedAt, login.methods, e.now)
              && forall later: Event<Action> :: later.action == e.action ==> !Finishes(w', later)
            else if e.action.DoRotate? && Rotate(cfg, w.db, e.action.presented, e.now).1.Rotated? then
              var s := Rotate(cfg, w.db, e.action.presented, e.now).1.session;
              && |w'.minted| == |w.minted| + 1 && w.minted <= w'.minted && w'.minted[|w.minted|].at == e.now
              && s in w.db.sessions
              && Says(cfg.jwt, w'.minted[|w.minted|].access, s, w.db.sessions[s].authenticatedAt,
                      w.db.sessions[s].methods, e.now)
            else w'.minted == w.minted
  {
    hide Inv, Rotate, Apply, Mint, Says;
    InvKeys(cfg, w);
    if Finishes(w, e) {
      var s, login := e.action.session, w.logins[e.action.session];
      MintedExactly(cfg.jwt, Mint(cfg.jwt, s, login.startedAt, login.methods, e.now), s, login.startedAt,
                    login.methods, e.now);
    } else if e.action.DoRotate? && Rotate(cfg, w.db, e.action.presented, e.now).1.Rotated? {
      RotationSays(cfg, w, e.action.presented, e.now);
    }
  }

  lemma RotationSays(cfg: Config, w: World, presented: Id, now: int)
    requires Inv(cfg, w) && Rotate(cfg, w.db, presented, now).1.Rotated?
    ensures var outcome := Rotate(cfg, w.db, presented, now).1;
            var s := outcome.session;
            && s in w.logins && s in w.db.sessions
            && Says(cfg.jwt, outcome.access, s, w.db.sessions[s].authenticatedAt, w.db.sessions[s].methods, now)
  {
    hide Chains, Path, TokenRows, SessionRows, Filed;
    var outcome := Rotate(cfg, w.db, presented, now).1;
    var session := w.db.sessions[outcome.session];
    MintedExactly(cfg.jwt, outcome.access, outcome.session, session.authenticatedAt, session.methods, now);
  }

  /** An access token of `s` that step `k` of the run handed out. */
  ghost predicate HandedOut(cfg: Config, events: seq<Event<Action>>, k: nat, s: Id, startedAt: int, at: int,
                            methods: seq<Method>, m: Minted)
    requires k < |events|
  {
    && (events[k].action == DoMintFirst(s) || events[k].action.DoRotate?) && m.at == events[k].now
    && Says(cfg.jwt, m.access, s,
            if events[k].action == DoMintFirst(s) then startedAt else Authenticated(events[..k], s, at), methods, m.at)
  }

  lemma HandedOutBefore(cfg: Config, front: seq<Event<Action>>, last: Event<Action>, k: nat, s: Id, startedAt: int,
                        at: int, methods: seq<Method>, m: Minted)
    requires k < |front|
    ensures HandedOut(cfg, front + [last], k, s, startedAt, at, methods, m) <==>
            HandedOut(cfg, front, k, s, startedAt, at, methods, m)
  {
    assert (front + [last])[..k] == front[..k];
  }

  /** Over every run since its login: all access tokens of a session, and what they say. */
  lemma {:induction false} MintedByHistory(cfg: Config, w: World, events: seq<Event<Action>>, s: Id, m: Minted)
    requires Inv(cfg, w) && Timely(w.clock, events) && s in w.db.sessions && s in w.logins
    requires m in Run(cfg, w, events).minted && m !in w.minted && m.access.session == s
    ensures exists k :: 0 <= k < |events| && HandedOut(cfg, events, k, s, w.logins[s].startedAt,
                          w.db.sessions[s].authenticatedAt, w.db.sessions[s].methods, m)
  {
    hide Inv, Next, HandedOut, Rotate, Authenticated, Finishes, Says;
    if events != [] {
      var front, last := events[..|events| - 1], events[|events| - 1];
      var before := Run(cfg, w, front);
      assert events == front + [last];
      if m in before.minted {
        MintedByHistory(cfg, w, front, s, m);
        var k :| 0 <= k < |front| && HandedOut(cfg, front, k, s, w.logins[s].startedAt,
                                               w.db.sessions[s].authenticatedAt, w.db.sessions[s].methods, m);
        HandedOutBefore(cfg, front, last, k, s, w.logins[s].startedAt, w.db.sessions[s].authenticatedAt,
                        w.db.sessions[s].methods, m);
      } else {
        MintedLast(cfg, w, front, last, s, m);
        assert HandedOut(cfg, events, |front|, s, w.logins[s].startedAt, w.db.sessions[s].authenticatedAt,
                         w.db.sessions[s].methods, m);
      }
    }
  }

  lemma {:induction false} MintedLast(cfg: Config, w: World, front: seq<Event<Action>>, last: Event<Action>,
                                        s: Id, m: Minted)
    requires Inv(cfg, w) && Timely(w.clock, front) && s in w.db.sessions && s in w.logins
    requires m in Next(cfg, Run(cfg, w, front), last).minted && m !in Run(cfg, w, front).minted
    requires m.access.session == s
    ensures HandedOut(cfg, front + [last], |front|, s, w.logins[s].startedAt, w.db.sessions[s].authenticatedAt,
                      w.db.sessions[s].methods, m)
  {
    hide Inv, Next, Rotate, Authenticated, Mint, Run;
    var before := Run(cfg, w, front);
    InvKeys(cfg, before);
    MintsExactly(cfg, before, last);
    LoginKeptInRun(cfg, w, front, s);
    LoginMethods(cfg, w, s);
    var minted := Next(cfg, before, last).minted;
    assert minted == before.minted + [minted[|before.minted|]];
    assert (front + [last])[..|front|] == front;
    if last.action.DoRotate? {
      SessionFixedInRun(cfg, w, front, s);
    }
  }

  lemma LoginMethods(cfg: Config, w: World, s: Id)
    requires Inv(cfg, w) && s in w.db.sessions && s in w.logins
    ensures w.logins[s].methods == w.db.sessions[s].methods
  {
    hide Chains, Path, TokenRows, Filed;
  }
}
