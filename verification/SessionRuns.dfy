/**
  Runs of the session protocol: every interleaving of the atomic steps of Sessions, under a clock
  that never goes back. A world is the database together with a history the database does not keep:
  how far each login got, every refresh-token row ever inserted, and every access token minted.
*/
module SessionRuns {
  import opened Events
  import opened Options
  import opened AccessTokens
  import opened Sessions

  /** AuthenticationSessionFactory.CreateAsync takes three steps: session, first refresh token, access token. */
  datatype Stage = Created | Issued | Completed

  /** `chain` lists the session's refresh tokens in the order they were issued. */
  datatype Login = Login(startedAt: int, createdAt: int, methods: seq<Method>, stage: Stage, chain: seq<Id>)

  datatype Minted = Minted(access: AccessToken, at: int)

  /** `archive` keeps the last contents of every refresh-token row, deleted or not. */
  datatype World = World(db: Db, logins: map<Id, Login>, archive: map<Id, RefreshToken>, minted: seq<Minted>,
                         clock: int)

  datatype Action =
    | DoRegister
    | DoStartLogin(user: Id, methods: seq<Method>, startedAt: int)
    | DoIssueFirst(session: Id)
    | DoMintFirst(session: Id)
    | DoRotate(presented: Id)
    | DoExpireTokens(of: set<Id>)
    | DoRevoke(session: Id, reason: Reason)
    | DoRevokeAll(user: Id, except: Option<Id>, reason: Reason)
    | DoTouch(session: Id)
    | DoReauthenticate(session: Id)
    | DoReplaceStamp(user: Id)
    | DoDeleteTokens(ids: set<Id>)
    | DoDeleteSessions(ids: set<Id>)

  function Start(clock: int): World {
    World(Db(0, map[], map[], map[]), map[], map[], [], clock)
  }

  /** Replaces the database and files every row it holds. */
  function Commit(w: World, db: Db, now: int): World {
    w.(db := db, archive := w.archive + db.tokens, clock := now)
  }

  function StartLogin(cfg: Config, w: World, user: Id, methods: seq<Method>, startedAt: int, now: int): World {
    var (db, id) := CreateSession(cfg, w.db, user, methods, now);
    var w' := Commit(w, db, now);
    if id.Some? then w'.(logins := w'.logins[id.value := Login(startedAt, now, methods, Created, [])]) else w'
  }

  /** Each login issues one first token. */
  function IssueFirst(w: World, session: Id, now: int): World {
    if session in w.logins && w.logins[session].stage == Created then
      var (db, id) := IssueToken(w.db, session);
      var w' := Commit(w, db, now);
      if id.Some? then
        w'.(logins := w'.logins[session := w.logins[session].(stage := Issued, chain := [id.value])])
      else w'
    else w.(clock := now)
  }

  /** The first access token is minted without another look at the session. */
  function MintFirst(cfg: Config, w: World, session: Id, now: int): World {
    if session in w.logins && w.logins[session].stage == Issued then
      var login := w.logins[session];
      w.(logins := w.logins[session := login.(stage := Completed)],
         minted := w.minted + [Minted(Mint(cfg.jwt, session, login.startedAt, login.methods, now), now)],
         clock := now)
    else w.(clock := now)
  }

  function Refresh(cfg: Config, w: World, presented: Id, now: int): World
    requires ForeignKeys(w.db)
  {
    var (db, outcome) := Rotate(cfg, w.db, presented, now);
    var w' := Commit(w, db, now);
    if outcome.Rotated? && outcome.session in w.logins then
      var login := w.logins[outcome.session];
      w'.(logins := w'.logins[outcome.session := login.(chain := login.chain + [outcome.successor])],
          minted := w'.minted + [Minted(outcome.access, now)])
    else w'
  }

  /** The database steps that issue and spend nothing; a cleanup deletes eligible rows only. */
  function Apply(db: Db, action: Action, now: int): Db {
    match action
    case DoRegister => NewUser(db)
    case DoExpireTokens(of) => ExpireTokens(db, of, now)
    case DoRevoke(session, reason) => Revoke(db, session, reason, now)
    case DoRevokeAll(user, except, reason) => RevokeAll(db, user, except, reason, now)
    case DoTouch(session) => Touch(db, session, now)
    case DoReauthenticate(session) => MarkReauthenticated(db, session, now)
    case DoReplaceStamp(user) => ReplaceStamp(db, user)
    case DoDeleteTokens(ids) => DeleteTokens(db, ids * ExpiredTokens(db, now))
    case DoDeleteSessions(ids) => DeleteSessions(db, ids * ExpiredSessions(db, now))
    case _ => db
  }

  ghost function Next(cfg: Config, w: World, e: Event<Action>): World
    requires ForeignKeys(w.db)
  {
    match e.action
    case DoStartLogin(user, methods, startedAt) => StartLogin(cfg, w, user, methods, startedAt, e.now)
    case DoIssueFirst(session) => IssueFirst(w, session, e.now)
    case DoMintFirst(session) => MintFirst(cfg, w, session, e.now)
    case DoRotate(presented) => Refresh(cfg, w, presented, e.now)
    case _ => Commit(w, Apply(w.db, e.action, e.now), e.now)
  }

  // ---------------------------------------------------------------------------------------------
  // Invariant
  // ---------------------------------------------------------------------------------------------

  ghost predicate FreshIds(w: World) {
    && (forall s :: s in w.db.sessions ==> s in w.logins && w.db.sessions[s].stamp < w.db.next)
    && (forall s :: s in w.logins ==> s < w.db.next)
    && (forall u :: u in w.db.stamps ==> u < w.db.next && w.db.stamps[u] < w.db.next)
    && (forall t :: t in w.archive ==> t < w.db.next)
  }

  /** The session row agrees with the login that created it. */
  ghost predicate SessionRows(cfg: Config, w: World) {
    forall s :: s in w.db.sessions ==>
      && s in w.logins
      && w.db.sessions[s].absoluteExpiresAt == w.logins[s].createdAt + cfg.absoluteLifetime
      && w.db.sessions[s].methods == w.logins[s].methods
  }

  function Cap(cfg: Config, w: World, s: Id): int
    requires s in w.logins
  {
    w.logins[s].createdAt + cfg.absoluteLifetime
  }

  /** A token lives to its session's cap; only an unspent one can have been cut short, in the past. */
  predicate RowOk(row: RefreshToken, cap: int, clock: int) {
    && row.expiresAt <= cap
    && (row.expiresAt < cap ==> row.usedAt.None? && row.expiresAt <= clock)
    && (row.usedAt.Some? ==> row.usedAt.value <= clock)
  }

  ghost predicate Filed(w: World) {
    forall t :: t in w.db.tokens ==> t in w.archive && w.archive[t] == w.db.tokens[t]
  }

  ghost predicate TokenRows(cfg: Config, w: World) {
    forall t :: t in w.archive ==>
      w.archive[t].session in w.logins && RowOk(w.archive[t], Cap(cfg, w, w.archive[t].session), w.clock)
  }

  /** `chain` is a path under replacedBy: all its tokens but the last are spent, in order of time. */
  ghost predicate Path(archive: map<Id, RefreshToken>, s: Id, chain: seq<Id>) {
    && (forall i :: 0 <= i < |chain| ==> chain[i] in archive && archive[chain[i]].session == s)
    && (forall i, j :: 0 <= i < j < |chain| ==> chain[i] != chain[j])
    && (forall i :: 0 <= i < |chain| - 1 ==>
          archive[chain[i]].usedAt.Some? && archive[chain[i]].replacedBy == Some(chain[i + 1]))
    && (forall i, j :: 0 <= i < j < |chain| - 1 ==>
          archive[chain[i]].usedAt.value <= archive[chain[j]].usedAt.value)
    && (chain != [] ==> archive[chain[|chain| - 1]].usedAt.None? && archive[chain[|chain| - 1]].replacedBy.None?)
  }

  ghost predicate Chains(w: World) {
    && (forall s :: s in w.logins ==>
          Path(w.archive, s, w.logins[s].chain) && (w.logins[s].stage == Created <==> w.logins[s].chain == []))
    && (forall t :: t in w.archive ==> w.archive[t].session in w.logins && t in w.logins[w.archive[t].session].chain)
  }

  ghost predicate Inv(cfg: Config, w: World) {
    ForeignKeys(w.db) && FreshIds(w) && SessionRows(cfg, w) && Filed(w) && TokenRows(cfg, w) && Chains(w)
  }

  /** The steps that leave every token's owner and use alone keep the paths. */
  lemma SamePaths(archive: map<Id, RefreshToken>, archive': map<Id, RefreshToken>, s: Id, chain: seq<Id>)
    requires Path(archive, s, chain)
    requires forall t :: t in archive ==> t in archive'
    requires forall t :: t in archive && archive[t].session == s ==>
               && archive'[t].session == s && archive'[t].usedAt == archive[t].usedAt
               && archive'[t].replacedBy == archive[t].replacedBy
    ensures Path(archive', s, chain)
  {
  }

  /** Tokens keep their owner and use; only unspent ones are cut short, and to `now` at the earliest. */
  ghost predicate QuietTokens(db: Db, db': Db, now: int) {
    forall t :: t in db'.tokens ==>
      && t in db.tokens
      && db'.tokens[t].(expiresAt := 0) == db.tokens[t].(expiresAt := 0)
      && (db'.tokens[t].expiresAt == db.tokens[t].expiresAt
          || (db.tokens[t].usedAt.None? && db'.tokens[t].expiresAt == now < db.tokens[t].expiresAt))
  }

  /** Sessions change in activity, authentication time and revocation only. */
  ghost predicate QuietSessions(db: Db, db': Db) {
    forall s :: s in db'.sessions ==> s in db.sessions && SameLogin(db.sessions[s], db'.sessions[s])
  }

  predicate SameLogin(before: Session, after: Session) {
    && after.user == before.user && after.stamp == before.stamp && after.methods == before.methods
    && after.absoluteExpiresAt == before.absoluteExpiresAt
  }

  ghost predicate FreshStamps(db: Db) {
    forall u :: u in db.stamps ==> u < db.next && db.stamps[u] < db.next
  }

  ghost predicate Quiet(db: Db, db': Db, now: int) {
    && db.next <= db'.next && FreshStamps(db') && ForeignKeys(db')
    && QuietTokens(db, db', now) && QuietSessions(db, db')
  }

  lemma ApplyIsQuiet(db: Db, action: Action, now: int)
    requires ForeignKeys(db) && FreshStamps(db)
    ensures Quiet(db, Apply(db, action, now), now)
  {
    hide Quiet;
    ApplyKeys(db, action, now);
    ApplyRows(db, action, now);
    JoinQuiet(db, Apply(db, action, now), now);
  }

  lemma JoinQuiet(db: Db, db': Db, now: int)
    requires db.next <= db'.next && FreshStamps(db') && ForeignKeys(db')
    requires QuietTokens(db, db', now) && QuietSessions(db, db')
    ensures Quiet(db, db', now)
  {
  }

  lemma ApplyKeys(db: Db, action: Action, now: int)
    requires ForeignKeys(db) && FreshStamps(db)
    ensures db.next <= Apply(db, action, now).next
    ensures FreshStamps(Apply(db, action, now)) && ForeignKeys(Apply(db, action, now))
  {
  }

  lemma ApplyRows(db: Db, action: Action, now: int)
    ensures QuietTokens(db, Apply(db, action, now), now) && QuietSessions(db, Apply(db, action, now))
  {
  }

  lemma QuietFresh(w: World, db': Db, now: int)
    requires FreshIds(w) && Filed(w) && Quiet(w.db, db', now)
    ensures FreshIds(Commit(w, db', now))
  {
  }

  lemma QuietRows(cfg: Config, w: World, db': Db, now: int)
    requires SessionRows(cfg, w) && Filed(w) && TokenRows(cfg, w) && Quiet(w.db, db', now) && w.clock <= now
    ensures var w' := Commit(w, db', now); SessionRows(cfg, w') && Filed(w') && TokenRows(cfg, w')
  {
    var w' := Commit(w, db', now);
    forall t | t in w'.archive
      ensures w'.archive[t].session in w'.logins
      ensures RowOk(w'.archive[t], Cap(cfg, w', w'.archive[t].session), now)
    {
      assert w'.archive[t].session == w.archive[t].session;
      assert RowOk(w.archive[t], Cap(cfg, w, w.archive[t].session), w.clock);
    }
  }

  lemma QuietChains(w: World, db': Db, now: int)
    requires Filed(w) && Chains(w) && QuietTokens(w.db, db', now)
    ensures Chains(Commit(w, db', now))
  {
    hide Path;
    var w' := Commit(w, db', now);
    forall s | s in w'.logins ensures Path(w'.archive, s, w'.logins[s].chain) {
      SamePaths(w.archive, w'.archive, s, w.logins[s].chain);
    }
  }

  lemma QuietKeepsInv(cfg: Config, w: World, db': Db, now: int)
    requires Inv(cfg, w) && Quiet(w.db, db', now) && w.clock <= now
    ensures Inv(cfg, Commit(w, db', now))
  {
    hide FreshIds, SessionRows, Filed, TokenRows, Chains, ForeignKeys, QuietTokens, QuietSessions;
    QuietFresh(w, db', now);
    QuietRows(cfg, w, db', now);
    QuietChains(w, db', now);
  }

  /** A step that files nothing and leaves every chain alone keeps the chains. */
  lemma UntouchedChains(w: World, w': World)
    requires Chains(w) && w'.archive == w.archive
    requires forall s :: s in w.logins ==>
               && s in w'.logins && w'.logins[s].chain == w.logins[s].chain
               && (w'.logins[s].stage == Created <==> w.logins[s].stage == Created)
    requires forall s :: s in w'.logins && s !in w.logins ==> w'.logins[s].chain == [] && w'.logins[s].stage == Created
    ensures Chains(w')
  {
  }

  /** A step that adds at most one login keeps the rest. */
  lemma UntouchedRows(cfg: Config, w: World, w': World)
    requires TokenRows(cfg, w) && w'.archive == w.archive && w.clock <= w'.clock
    requires forall s :: s in w.logins ==> s in w'.logins && w'.logins[s].createdAt == w.logins[s].createdAt
    ensures TokenRows(cfg, w')
  {
    forall t | t in w'.archive
      ensures w'.archive[t].session in w'.logins
      ensures RowOk(w'.archive[t], Cap(cfg, w', w'.archive[t].session), w'.clock)
    {
      assert RowOk(w.archive[t], Cap(cfg, w, w.archive[t].session), w.clock);
    }
  }

  lemma StartLoginKeepsInv(cfg: Config, w: World, user: Id, methods: seq<Method>, startedAt: int, now: int)
    requires Inv(cfg, w) && w.clock <= now
    ensures Inv(cfg, StartLogin(cfg, w, user, methods, startedAt, now))
  {
    var w' := StartLogin(cfg, w, user, methods, startedAt, now);
    StartLoginKeys(cfg, w, user, methods, startedAt, now);
    StartLoginRows(cfg, w, user, methods, startedAt, now);
    hide SessionRows, FreshIds, ForeignKeys, Filed, TokenRows, Chains, Path;
    UntouchedChains(w, w');
    UntouchedRows(cfg, w, w');
  }

  lemma StartLoginKeys(cfg: Config, w: World, user: Id, methods: seq<Method>, startedAt: int, now: int)
    requires ForeignKeys(w.db) && FreshIds(w) && Filed(w)
    ensures var w' := StartLogin(cfg, w, user, methods, startedAt, now);
            && ForeignKeys(w'.db) && FreshIds(w') && Filed(w') && w'.archive == w.archive && w'.clock == now
            && (forall s :: s in w.logins ==> s in w'.logins && w'.logins[s] == w.logins[s])
            && (forall s :: s in w'.logins && s !in w.logins ==>
                  w'.logins[s].chain == [] && w'.logins[s].stage == Created)
  {
    assert StartLogin(cfg, w, user, methods, startedAt, now).archive == w.archive;
  }

  lemma SameSessionRows(cfg: Config, w: World, w': World)
    requires SessionRows(cfg, w) && QuietSessions(w.db, w'.db)
    requires forall s :: s in w.logins ==>
               && s in w'.logins && w'.logins[s].createdAt == w.logins[s].createdAt
               && w'.logins[s].methods == w.logins[s].methods
    ensures SessionRows(cfg, w')
  {
  }

  lemma StartLoginRows(cfg: Config, w: World, user: Id, methods: seq<Method>, startedAt: int, now: int)
    requires SessionRows(cfg, w) && w.db.next !in w.logins
    ensures SessionRows(cfg, StartLogin(cfg, w, user, methods, startedAt, now))
  {
  }

  /** What the other steps need to know about a world. */
  lemma Facts(cfg: Config, w: World)
    requires Inv(cfg, w)
    ensures FreshStamps(w.db) && w.db.next !in w.archive
    ensures forall t :: t in w.archive && w.archive[t].usedAt.Some? ==> w.archive[t].usedAt.value <= w.clock
  {
    hide Chains, Path;
    forall t | t in w.archive && w.archive[t].usedAt.Some? ensures w.archive[t].usedAt.value <= w.clock {
      assert RowOk(w.archive[t], Cap(cfg, w, w.archive[t].session), w.clock);
    }
  }

  lemma SinglePath(archive: map<Id, RefreshToken>, s: Id, t: Id)
    requires t in archive && archive[t].session == s && archive[t].usedAt.None? && archive[t].replacedBy.None?
    ensures Path(archive, s, [t])
  {
  }

  /** A freshly issued token starts the login's path. */
  lemma FirstTokenPaths(w: World, w': World, session: Id, row: RefreshToken)
    requires Chains(w) && session in w.logins && w.logins[session].stage == Created
    requires w.db.next !in w.archive && row.session == session && row.usedAt.None? && row.replacedBy.None?
    requires w'.archive == w.archive[w.db.next := row]
    requires w'.logins == w.logins[session := w.logins[session].(stage := Issued, chain := [w.db.next])]
    ensures Chains(w')
  {
    hide Path;
    SinglePath(w'.archive, session, w.db.next);
    forall s | s in w'.logins ensures Path(w'.archive, s, w'.logins[s].chain) {
      if s != session {
        SamePaths(w.archive, w'.archive, s, w.logins[s].chain);
      }
    }
    forall t | t in w'.archive
      ensures w'.archive[t].session in w'.logins && t in w'.logins[w'.archive[t].session].chain
    {
      if t != w.db.next {
        assert t in w.logins[w.archive[t].session].chain;
      } else {
        assert [t][0] == t;
      }
    }
  }

  /** A row filed for a session at its cap. */
  lemma FiledRow(cfg: Config, w: World, w': World, id: Id, row: RefreshToken)
    requires TokenRows(cfg, w) && w.clock <= w'.clock
    requires w'.archive == w.archive[id := row]
    requires w'.logins.Keys == w.logins.Keys
    requires forall s :: s in w.logins ==> w'.logins[s].createdAt == w.logins[s].createdAt
    requires row.session in w.logins && RowOk(row, Cap(cfg, w, row.session), w'.clock)
    ensures TokenRows(cfg, w')
  {
    forall t | t in w'.archive
      ensures w'.archive[t].session in w'.logins
      ensures RowOk(w'.archive[t], Cap(cfg, w', w'.archive[t].session), w'.clock)
    {
      if t != id {
        assert RowOk(w.archive[t], Cap(cfg, w, w.archive[t].session), w.clock);
      }
    }
  }

  /** Adding a token to the database keeps keys and sessions in order. */
  lemma AddTokenKeys(w: World, w': World, row: RefreshToken)
    requires ForeignKeys(w.db) && FreshIds(w) && Filed(w) && row.session in w.db.sessions
    requires w'.db == w.db.(next := w.db.next + 1, tokens := w.db.tokens[w.db.next := row])
    requires w'.archive == w.archive[w.db.next := row] && w'.logins.Keys == w.logins.Keys
    ensures ForeignKeys(w'.db) && FreshIds(w') && Filed(w')
  {
  }

  predicate Issuable(w: World, session: Id) {
    session in w.logins && w.logins[session].stage == Created && session in w.db.sessions
  }

  /** What issuing the first token writes. */
  lemma FirstTokenWrites(cfg: Config, w: World, session: Id, now: int)
    requires ForeignKeys(w.db) && FreshIds(w) && Filed(w) && SessionRows(cfg, w)
    ensures var w' := IssueFirst(w, session, now);
            && w'.clock == now && ForeignKeys(w'.db) && FreshIds(w') && Filed(w')
            && QuietSessions(w.db, w'.db)
            && if Issuable(w, session) then
                 && w'.archive == w.archive[w.db.next := RefreshToken(session, Cap(cfg, w, session), None, None)]
                 && w'.logins == w.logins[session := w.logins[session].(stage := Issued, chain := [w.db.next])]
               else w'.archive == w.archive && w'.logins == w.logins
  {
    var w' := IssueFirst(w, session, now);
    if Issuable(w, session) {
      var row := RefreshToken(session, Cap(cfg, w, session), None, None);
      assert w'.archive == w.archive[w.db.next := row];
      AddTokenKeys(w, w', row);
    } else {
      assert w'.archive == w.archive;
    }
  }

  lemma IssueFirstKeepsInv(cfg: Config, w: World, session: Id, now: int)
    requires Inv(cfg, w) && w.clock <= now
    ensures Inv(cfg, IssueFirst(w, session, now))
  {
    hide Chains, Path, TokenRows, FreshIds, SessionRows, Filed, ForeignKeys, IssueFirst, QuietSessions;
    var w' := IssueFirst(w, session, now);
    Facts(cfg, w);
    FirstTokenWrites(cfg, w, session, now);
    if Issuable(w, session) {
      var row := RefreshToken(session, Cap(cfg, w, session), None, None);
      FirstTokenPaths(w, w', session, row);
      FiledRow(cfg, w, w', w.db.next, row);
    } else {
      UntouchedChains(w, w');
      UntouchedRows(cfg, w, w');
    }
    SameSessionRows(cfg, w, w');
  }

  lemma MintFirstKeepsInv(cfg: Config, w: World, session: Id, now: int)
    requires Inv(cfg, w) && w.clock <= now
    ensures Inv(cfg, MintFirst(cfg, w, session, now))
  {
    hide Chains, Path, TokenRows, SessionRows;
    var w' := MintFirst(cfg, w, session, now);
    UntouchedChains(w, w');
    UntouchedRows(cfg, w, w');
    SameSessionRows(cfg, w, w');
  }

  /** Only the last token of a chain is unspent. */
  lemma UnspentIsLast(w: World, presented: Id)
    requires Filed(w) && Chains(w) && presented in w.db.tokens && w.db.tokens[presented].usedAt.None?
    ensures presented in w.archive && w.archive[presented] == w.db.tokens[presented]
    ensures w.archive[presented].session in w.logins
    ensures var chain := w.logins[w.archive[presented].session].chain;
            chain != [] && chain[|chain| - 1] == presented
  {
    var chain := w.logins[w.archive[presented].session].chain;
    var i :| 0 <= i < |chain| && chain[i] == presented;
  }

  lemma ExtendPath(archive: map<Id, RefreshToken>, archive': map<Id, RefreshToken>, s: Id, chain: seq<Id>,
                   successor: Id, now: int)
    requires Path(archive, s, chain) && chain != [] && successor !in archive
    requires forall t :: t in archive && archive[t].usedAt.Some? ==> archive[t].usedAt.value <= now
    requires successor in archive' && archive'[successor].session == s
    requires archive'[successor].usedAt.None? && archive'[successor].replacedBy.None?
    requires var last := chain[|chain| - 1];
             && last in archive' && archive'[last].session == s
             && archive'[last].usedAt == Some(now) && archive'[last].replacedBy == Some(successor)
    requires forall t :: t in archive && t != chain[|chain| - 1] ==> t in archive' && archive'[t] == archive[t]
    ensures Path(archive', s, chain + [successor])
  {
  }

  lemma RotatedPaths(w: World, archive': map<Id, RefreshToken>, presented: Id, spent: RefreshToken,
                     row: RefreshToken, now: int, s: Id)
    requires Chains(w) && w.db.next !in w.archive && presented in w.archive && s in w.logins
    requires forall t :: t in w.archive && w.archive[t].usedAt.Some? ==> w.archive[t].usedAt.value <= now
    requires var chain := w.logins[w.archive[presented].session].chain; chain != [] && chain[|chain| - 1] == presented
    requires spent.session == row.session == w.archive[presented].session
    requires spent.usedAt == Some(now) && spent.replacedBy == Some(w.db.next)
    requires row.usedAt.None? && row.replacedBy.None?
    requires archive' == w.archive[presented := spent][w.db.next := row]
    ensures Path(archive', s, if s == row.session then w.logins[s].chain + [w.db.next] else w.logins[s].chain)
  {
    hide Path;
    if s == row.session {
      ExtendPath(w.archive, archive', s, w.logins[s].chain, w.db.next, now);
    } else {
      SamePaths(w.archive, archive', s, w.logins[s].chain);
    }
  }

  lemma RotatedChains(w: World, w': World, presented: Id, spent: RefreshToken, row: RefreshToken, now: int)
    requires Chains(w) && w.db.next !in w.archive && presented in w.archive
    requires forall t :: t in w.archive && w.archive[t].usedAt.Some? ==> w.archive[t].usedAt.value <= now
    requires var chain := w.logins[w.archive[presented].session].chain; chain != [] && chain[|chain| - 1] == presented
    requires spent.session == row.session == w.archive[presented].session
    requires spent.usedAt == Some(now) && spent.replacedBy == Some(w.db.next)
    requires row.usedAt.None? && row.replacedBy.None?
    requires w'.archive == w.archive[presented := spent][w.db.next := row]
    requires var login := w.logins[row.session];
             w'.logins == w.logins[row.session := login.(chain := login.chain + [w.db.next])]
    ensures Chains(w')
  {
    hide Path;
    forall s | s in w'.logins ensures Path(w'.archive, s, w'.logins[s].chain) {
      RotatedPaths(w, w'.archive, presented, spent, row, now, s);
    }
    forall t | t in w'.archive
      ensures w'.archive[t].session in w'.logins && t in w'.logins[w'.archive[t].session].chain
    {
      if t == w.db.next {
        var login := w.logins[row.session];
        assert (login.chain + [t])[|login.chain|] == t;
      } else {
        assert t in w.logins[w.archive[t].session].chain;
      }
    }
  }

  /** The two rows a rotation writes are filed. */
  lemma RotatedTokenRows(cfg: Config, w: World, w': World, presented: Id, spent: RefreshToken, row: RefreshToken)
    requires TokenRows(cfg, w) && w.clock <= w'.clock
    requires w'.archive == w.archive[presented := spent][w.db.next := row]
    requires w'.logins.Keys == w.logins.Keys
    requires forall s :: s in w.logins ==> w'.logins[s].createdAt == w.logins[s].createdAt
    requires spent.session == row.session && row.session in w.logins
    requires RowOk(row, Cap(cfg, w, row.session), w'.clock) && RowOk(spent, Cap(cfg, w, row.session), w'.clock)
    ensures TokenRows(cfg, w')
  {
    var half := w'.(archive := w.archive[presented := spent]);
    FiledRow(cfg, w, half, presented, spent);
    FiledRow(cfg, half, w', w.db.next, row);
  }

  /** What a successful rotation writes. */
  lemma RotatedWrites(cfg: Config, w: World, presented: Id, now: int)
    requires ForeignKeys(w.db) && FreshIds(w) && Filed(w)
    requires Rotate(cfg, w.db, presented, now).1.Rotated?
    ensures var w' := Refresh(cfg, w, presented, now);
            var stored := w.db.tokens[presented];
            var id := stored.session;
            var spent := stored.(usedAt := Some(now), replacedBy := Some(w.db.next));
            var row := RefreshToken(id, w.db.sessions[id].absoluteExpiresAt, None, None);
            && presented in w.db.tokens && stored.usedAt.None? && stored.expiresAt > now
            && id in w.db.sessions && id in w.logins
            && w'.clock == now
            && w'.archive == w.archive[presented := spent][w.db.next := row]
            && w'.logins == w.logins[id := w.logins[id].(chain := w.logins[id].chain + [w.db.next])]
            && w'.db == w.db.(next := w.db.next + 1,
                              tokens := w.db.tokens[presented := spent][w.db.next := row],
                              sessions := w.db.sessions[id := w.db.sessions[id].(lastActiveAt := now)])
  {
    var w' := Refresh(cfg, w, presented, now);
    var stored := w.db.tokens[presented];
    var spent := stored.(usedAt := Some(now), replacedBy := Some(w.db.next));
    var row := RefreshToken(stored.session, w.db.sessions[stored.session].absoluteExpiresAt, None, None);
    assert w.db.next !in w.db.tokens;
    assert w'.db.tokens == w.db.tokens[presented := spent][w.db.next := row];
    assert w'.archive == w.archive[presented := spent][w.db.next := row];
  }

  lemma RotatedKeys(w: World, w': World, presented: Id, now: int)
    requires ForeignKeys(w.db) && FreshIds(w) && Filed(w) && presented in w.db.tokens
    requires var stored := w.db.tokens[presented];
             var id := stored.session;
             var spent := stored.(usedAt := Some(now), replacedBy := Some(w.db.next));
             var row := RefreshToken(id, w.db.sessions[id].absoluteExpiresAt, None, None);
             && w'.archive == w.archive[presented := spent][w.db.next := row]
             && w'.logins.Keys == w.logins.Keys
             && w'.db == w.db.(next := w.db.next + 1,
                               tokens := w.db.tokens[presented := spent][w.db.next := row],
                               sessions := w.db.sessions[id := w.db.sessions[id].(lastActiveAt := now)])
    ensures ForeignKeys(w'.db) && FreshIds(w') && Filed(w')
  {
  }

  /** The spent row was still at its session's cap, and so is its successor. */
  lemma RotatedRowsOk(cfg: Config, w: World, presented: Id, now: int)
    requires SessionRows(cfg, w) && TokenRows(cfg, w) && w.clock <= now
    requires presented in w.db.tokens && presented in w.archive && w.archive[presented] == w.db.tokens[presented]
    requires w.db.tokens[presented].usedAt.None? && w.db.tokens[presented].expiresAt > now
    requires w.db.tokens[presented].session in w.db.sessions
    ensures var stored := w.db.tokens[presented];
            && stored.session in w.logins
            && stored.expiresAt == w.db.sessions[stored.session].absoluteExpiresAt == Cap(cfg, w, stored.session)
  {
    var stored := w.db.tokens[presented];
    assert RowOk(stored, Cap(cfg, w, stored.session), w.clock);
  }

  lemma RotatedKeepsInv(cfg: Config, w: World, presented: Id, now: int)
    requires Inv(cfg, w) && w.clock <= now
    requires Rotate(cfg, w.db, presented, now).1.Rotated?
    ensures Inv(cfg, Refresh(cfg, w, presented, now))
  {
    hide Chains, Path, TokenRows, FreshIds, SessionRows, Filed, ForeignKeys, Refresh, Rotate;
    var w' := Refresh(cfg, w, presented, now);
    Facts(cfg, w);
    RotatedWrites(cfg, w, presented, now);
    RotatedKeys(w, w', presented, now);
    var stored := w.db.tokens[presented];
    UnspentIsLast(w, presented);
    RotatedRowsOk(cfg, w, presented, now);
    var spent := stored.(usedAt := Some(now), replacedBy := Some(w.db.next));
    var row := RefreshToken(stored.session, w.db.sessions[stored.session].absoluteExpiresAt, None, None);
    RotatedChains(w, w', presented, spent, row, now);
    RotatedTokenRows(cfg, w, w', presented, spent, row);
    SameSessionRows(cfg, w, w');
  }

  /** A rotation that fails writes nothing but a replay's revocation. */
  lemma FailedRotation(cfg: Config, db: Db, presented: Id, now: int)
    requires ForeignKeys(db) && !Rotate(cfg, db, presented, now).1.Rotated?
    ensures var (db', outcome) := Rotate(cfg, db, presented, now);
            && db'.tokens == db.tokens && db'.stamps == db.stamps && db'.next == db.next
            && (if outcome.ReuseDetected? then
                  && outcome.session in db.sessions
                  && var revoked := db.sessions[outcome.session].(revoked := Some(Revocation(now, TokenReuseDetected)));
                     db'.sessions == db.sessions[outcome.session := revoked]
                else db' == db)
  {
  }

  lemma FailedRotationIsQuiet(cfg: Config, db: Db, presented: Id, now: int)
    requires ForeignKeys(db) && FreshStamps(db)
    requires !Rotate(cfg, db, presented, now).1.Rotated?
    ensures Quiet(db, Rotate(cfg, db, presented, now).0, now)
  {
    hide Rotate;
    FailedRotation(cfg, db, presented, now);
  }

  lemma RefreshKeepsInv(cfg: Config, w: World, presented: Id, now: int)
    requires Inv(cfg, w) && w.clock <= now
    ensures Inv(cfg, Refresh(cfg, w, presented, now))
  {
    hide Chains, Path, TokenRows, SessionRows;
    if Rotate(cfg, w.db, presented, now).1.Rotated? {
      RotatedKeepsInv(cfg, w, presented, now);
    } else {
      Facts(cfg, w);
      FailedRotationIsQuiet(cfg, w.db, presented, now);
      QuietKeepsInv(cfg, w, Rotate(cfg, w.db, presented, now).0, now);
    }
  }

  lemma NextKeepsInv(cfg: Config, w: World, e: Event<Action>)
    requires Inv(cfg, w) && w.clock <= e.now
    ensures Inv(cfg, Next(cfg, w, e)) && Next(cfg, w, e).clock == e.now
  {
    hide Path, FreshIds, SessionRows, Filed, TokenRows, Chains, ForeignKeys, Apply, Quiet;
    match e.action
    case DoStartLogin(user, methods, startedAt) => StartLoginKeepsInv(cfg, w, user, methods, startedAt, e.now);
    case DoIssueFirst(session) => IssueFirstKeepsInv(cfg, w, session, e.now);
    case DoMintFirst(session) => MintFirstKeepsInv(cfg, w, session, e.now);
    case DoRotate(presented) => RefreshKeepsInv(cfg, w, presented, e.now);
    case _ =>
      Facts(cfg, w);
      ApplyIsQuiet(w.db, e.action, e.now);
      QuietKeepsInv(cfg, w, Apply(w.db, e.action, e.now), e.now);
  }

  /** One event in a run. */
  ghost function Step(cfg: Config, w: World, e: Event<Action>): (w': World)
    requires Inv(cfg, w) && w.clock <= e.now
    ensures Inv(cfg, w') && w' == Next(cfg, w, e) && w'.clock == e.now
  {
    NextKeepsInv(cfg, w, e);
    Next(cfg, w, e)
  }

  ghost function Run(cfg: Config, w: World, events: seq<Event<Action>>): (w': World)
    requires Inv(cfg, w) && Timely(w.clock, events)
    ensures Inv(cfg, w')
    ensures w'.clock == if events == [] then w.clock else events[|events| - 1].now
  {
    if events == [] then w
    else
      Step(cfg, Run(cfg, w, events[..|events| - 1]), events[|events| - 1])
  }

  lemma StartInv(cfg: Config, clock: int)
    ensures Inv(cfg, Start(clock))
  {
  }
}
