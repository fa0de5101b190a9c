/**
  The Sessions and RefreshTokens tables and the services that write them:
  Services/Tokens/RefreshTokenService.cs, Services/Tokens/SessionService.cs,
  Services/Sessions/SessionQueryService.cs, the stamp replacement of
  Services/Auth/PasswordResetService.cs and the deletes of
  BackgroundServices/ExpiredAuthArtifactCleanupService.cs.

  Each function below is one atomic database step; AuthDatabase carries the steps out in place.
  Generated ids and security stamps are fresh numbers, and a token's plaintext, its hash and its
  row id are one number, since hashing is taken to be injective.
*/
module Sessions {
  import opened Options
  import opened AccessTokens

  type Id = nat

  datatype Reason =
    | Logout | UserRevokedSession | UserRevokedAllSessions | PasswordChanged | PasswordReset
    | TokenReuseDetected | AdminRevoked | AccountDeleted | MfaDisabled

  datatype Revocation = Revocation(at: int, reason: Reason)

  datatype Session = Session(user: Id, stamp: Id, methods: seq<Method>, authenticatedAt: int,
                             lastActiveAt: int, absoluteExpiresAt: int, revoked: Option<Revocation>)

  datatype RefreshToken = RefreshToken(session: Id, expiresAt: int, usedAt: Option<int>, replacedBy: Option<Id>)

  /** `next` is the next fresh id; `stamps` maps a user to the current security stamp. */
  datatype Db = Db(next: Id, stamps: map<Id, Id>, sessions: map<Id, Session>, tokens: map<Id, RefreshToken>)

  datatype Config = Config(absoluteLifetime: int, inactivityWindow: int, jwt: JwtOptions)

  datatype Outcome =
    | Rotated(session: Id, successor: Id, access: AccessToken)
    | NotFound
    | ReuseDetected(session: Id)
    | TokenExpired(session: Id)
    | SessionIdle(session: Id)
    | SessionExpired(session: Id)
    | SessionRevoked(session: Id)
    | SecurityStampChanged(session: Id)

  /** The foreign keys the database enforces. */
  ghost predicate ForeignKeys(db: Db) {
    && (forall t :: t in db.tokens ==> db.tokens[t].session in db.sessions)
    && (forall s :: s in db.sessions ==> db.sessions[s].user in db.stamps)
  }

  predicate Unspent(db: Db, t: Id, session: Id) {
    t in db.tokens && db.tokens[t].session == session && db.tokens[t].usedAt.None?
  }

  // ---------------------------------------------------------------------------------------------
  // Steps
  // ---------------------------------------------------------------------------------------------

  function NewUser(db: Db): Db {
    db.(next := db.next + 2, stamps := db.stamps[db.next := db.next + 1])
  }

  /** SessionService.CreateAsync; None when the user does not exist. */
  function CreateSession(cfg: Config, db: Db, user: Id, methods: seq<Method>, now: int): (Db, Option<Id>) {
    if user !in db.stamps then (db, None)
    else
      var session := Session(user, db.stamps[user], methods, now, now, now + cfg.absoluteLifetime, None);
      (db.(next := db.next + 1, sessions := db.sessions[db.next := session]), Some(db.next))
  }

  /** RefreshTokenService.IssueAsync; None when the session does not exist. */
  function IssueToken(db: Db, session: Id): (Db, Option<Id>) {
    if session !in db.sessions then (db, None)
    else
      var token := RefreshToken(session, db.sessions[session].absoluteExpiresAt, None, None);
      (db.(next := db.next + 1, tokens := db.tokens[db.next := token]), Some(db.next))
  }

  /** RefreshTokenService.RotateAsync, its transaction as one step. */
  function Rotate(cfg: Config, db: Db, presented: Id, now: int): (Db, Outcome)
    requires ForeignKeys(db)
  {
    if presented !in db.tokens then (db, NotFound)
    else
      var stored := db.tokens[presented];
      var id := stored.session;
      var session := db.sessions[id];
      if stored.usedAt.Some? then
        (db.(sessions := db.sessions[id := session.(revoked := Some(Revocation(now, TokenReuseDetected)))]),
         ReuseDetected(id))
      else if session.revoked.Some? then (db, SessionRevoked(id))
      else if stored.expiresAt <= now then (db, TokenExpired(id))
      else if session.absoluteExpiresAt <= now then (db, SessionExpired(id))
      else if session.lastActiveAt + cfg.inactivityWindow <= now then (db, SessionIdle(id))
      else if db.stamps[session.user] != session.stamp then (db, SecurityStampChanged(id))
      else
        var (issued, successor) := IssueToken(db, id);
        var spent := stored.(usedAt := Some(now), replacedBy := Some(successor.value));
        (issued.(tokens := issued.tokens[presented := spent],
                 sessions := issued.sessions[id := session.(lastActiveAt := now)]),
         Rotated(id, successor.value, Mint(cfg.jwt, id, session.authenticatedAt, session.methods, now)))
  }

  /** RevokeForSessionAsync, and the same update over the sessions RevokeAllOthersAsync listed. */
  function ExpireTokens(db: Db, sessions: set<Id>, now: int): Db {
    db.(tokens := map t | t in db.tokens ::
      if db.tokens[t].session in sessions && db.tokens[t].usedAt.None? && db.tokens[t].expiresAt > now
      then db.tokens[t].(expiresAt := now) else db.tokens[t])
  }

  /** SessionService.RevokeAsync. */
  function Revoke(db: Db, session: Id, reason: Reason, now: int): Db {
    if session in db.sessions && db.sessions[session].revoked.None? then
      db.(sessions := db.sessions[session := db.sessions[session].(revoked := Some(Revocation(now, reason)))])
    else db
  }

  predicate LiveSession(db: Db, s: Id, user: Id, except: Option<Id>) {
    s in db.sessions && db.sessions[s].user == user && db.sessions[s].revoked.None? && except != Some(s)
  }

  /** SessionService.RevokeAllForUserAsync. */
  function RevokeAll(db: Db, user: Id, except: Option<Id>, reason: Reason, now: int): Db {
    db.(sessions := map s | s in db.sessions ::
      if LiveSession(db, s, user, except)
      then db.sessions[s].(revoked := Some(Revocation(now, reason))) else db.sessions[s])
  }

  /** SessionService.TouchAsync. */
  function Touch(db: Db, session: Id, now: int): Db {
    if session in db.sessions then
      db.(sessions := db.sessions[session := db.sessions[session].(lastActiveAt := now)])
    else db
  }

  /** SessionService.MarkReauthenticatedAsync. */
  function MarkReauthenticated(db: Db, session: Id, now: int): Db {
    if session in db.sessions then
      db.(sessions := db.sessions[session := db.sessions[session].(authenticatedAt := now, lastActiveAt := now)])
    else db
  }

  /** The new stamp PasswordResetService.ConfirmAsync saves. */
  function ReplaceStamp(db: Db, user: Id): Db {
    if user in db.stamps then db.(next := db.next + 1, stamps := db.stamps[user := db.next]) else db
  }

  function DeleteTokens(db: Db, ids: set<Id>): Db {
    db.(tokens := map t | t in db.tokens && t !in ids :: db.tokens[t])
  }

  /** Deleting a session cascades to its refresh tokens. */
  function DeleteSessions(db: Db, ids: set<Id>): Db {
    db.(sessions := map s | s in db.sessions && s !in ids :: db.sessions[s],
        tokens := map t | t in db.tokens && db.tokens[t].session !in ids :: db.tokens[t])
  }

  function ExpiredTokens(db: Db, now: int): set<Id> {
    set t | t in db.tokens && db.tokens[t].expiresAt <= now
  }

  function ExpiredSessions(db: Db, now: int): set<Id> {
    set s | s in db.sessions && db.sessions[s].absoluteExpiresAt <= now
  }
}
