/**
  What one atomic step for RefreshTokenService.RotateAsync leaves out. Its transaction takes no row
  lock and its rows carry no concurrency token, so under read-committed isolation other steps may
  commit between its reads and its writes. This module splits the two and says exactly when the
  split form is still the atomic step, and what two racing rotations do; RacedRuns takes the split
  form through whole runs.
*/
module RotationRace {
  import opened AccessTokens
  import opened Options
  import opened Sessions

  /**
    The writes of a rotation that was decided on `read`, carried out on `db`: changed columns only.
    The access token was issued in between, by its own reading of the clock.
  */
  function Late(cfg: Config, read: Db, db: Db, presented: Id, now: int, issuedAt: int): (Db, Outcome)
    requires ForeignKeys(read) && ForeignKeys(db) && Rotate(cfg, read, presented, now).1.Rotated?
    requires presented in db.tokens && db.tokens[presented].session == read.tokens[presented].session
  {
    var id := read.tokens[presented].session;
    var session, successor := read.sessions[id], db.next;
    var spent := db.tokens[presented].(usedAt := Some(now), replacedBy := Some(successor));
    var issued := RefreshToken(id, session.absoluteExpiresAt, None, None);
    (db.(next := db.next + 1,
         tokens := db.tokens[successor := issued][presented := spent],
         sessions := db.sessions[id := db.sessions[id].(lastActiveAt := now)]),
     Rotated(id, successor, Mint(cfg.jwt, id, session.authenticatedAt, session.methods, issuedAt)))
  }

  /** What RotateAsync checks, at the moment of the commit. */
  predicate StillAllowed(cfg: Config, db: Db, presented: Id, now: int)
    requires ForeignKeys(db) && presented in db.tokens
  {
    var stored := db.tokens[presented];
    var session := db.sessions[stored.session];
    && stored.usedAt.None? && session.revoked.None?
    && now < stored.expiresAt && now < session.absoluteExpiresAt && now < session.lastActiveAt + cfg.inactivityWindow
    && db.stamps[session.user] == session.stamp
  }

  /** The session's cap is as it was read; its authentication may have moved since. */
  predicate CapUnchanged(read: Db, db: Db, id: Id)
    requires id in read.sessions && id in db.sessions
  {
    read.sessions[id].absoluteExpiresAt == db.sessions[id].absoluteExpiresAt
  }

  predicate SameClaims(cfg: Config, read: Db, db: Db, id: Id, now: int, issuedAt: int)
    requires id in read.sessions && id in db.sessions
  {
    && WholeSeconds(now) == WholeSeconds(issuedAt)
    && WholeSeconds(now + cfg.jwt.lifetime) == WholeSeconds(issuedAt + cfg.jwt.lifetime)
    && WholeSeconds(read.sessions[id].authenticatedAt) == WholeSeconds(db.sessions[id].authenticatedAt)
    && read.sessions[id].methods == db.sessions[id].methods
  }

  /**
    A late rotation is the atomic one exactly when every check would still pass at the commit and
    the claims it carries are still the session's, to the second.
  */
  lemma LateExactly(cfg: Config, read: Db, db: Db, presented: Id, now: int, issuedAt: int)
    requires ForeignKeys(read) && ForeignKeys(db) && Rotate(cfg, read, presented, now).1.Rotated?
    requires presented in db.tokens && db.tokens[presented].session == read.tokens[presented].session
    requires CapUnchanged(read, db, db.tokens[presented].session)
    ensures Late(cfg, read, db, presented, now, issuedAt) == Rotate(cfg, db, presented, now) <==>
            && StillAllowed(cfg, db, presented, now)
            && SameClaims(cfg, read, db, db.tokens[presented].session, now, issuedAt)
  {
    var id := db.tokens[presented].session;
    var late, step := Late(cfg, read, db, presented, now, issuedAt), Rotate(cfg, db, presented, now);
    assert step.1.Rotated? <==> StillAllowed(cfg, db, presented, now);
    if step.1.Rotated? {
      assert late.0 == step.0;
      assert late.1.access == step.1.access <==> SameClaims(cfg, read, db, id, now, issuedAt);
    }
  }

  ghost predicate CanRace(cfg: Config, db: Db, presented: Id, now: int, later: int) {
    && ForeignKeys(db) && (forall t :: t in db.tokens ==> t < db.next)
    && Rotate(cfg, db, presented, now).1.Rotated? && Rotate(cfg, db, presented, later).1.Rotated?
  }

  /** Two rotations of one token that both read before either commits. */
  ghost function Raced(cfg: Config, db: Db, presented: Id, now: int, later: int): (r: (Db, Outcome, Outcome))
    requires CanRace(cfg, db, presented, now, later)
    ensures ForeignKeys(r.0) && r.1.Rotated? && r.2.Rotated?
  {
    var (db', first) := Rotate(cfg, db, presented, now);
    var (db'', second) := Late(cfg, db, db', presented, later, later);
    (db'', first, second)
  }

  /**
    Both succeed, the session stays unrevoked with two unspent tokens, and the first successor is
    lost from the chain.
  */
  lemma RaceForksChain(cfg: Config, db: Db, presented: Id, now: int, later: int)
    requires CanRace(cfg, db, presented, now, later)
    ensures var (after, first, second) := Raced(cfg, db, presented, now, later);
            && first.successor != second.successor
            && Unspent(after, first.successor, first.session) && Unspent(after, second.successor, first.session)
            && after.sessions[first.session].revoked.None?
            && after.tokens[presented].replacedBy == Some(second.successor)
  {
  }

  /** Until a bound of the session ends it, both branches then keep rotating and no replay is seen. */
  lemma ForkGoesUnnoticed(cfg: Config, db: Db, presented: Id, now: int, later: int, again: int)
    requires CanRace(cfg, db, presented, now, later) && cfg.inactivityWindow > 0
    requires again < later + cfg.inactivityWindow
    requires again < db.sessions[db.tokens[presented].session].absoluteExpiresAt
    ensures var (after, first, second) := Raced(cfg, db, presented, now, later);
            var (third, outcome) := Rotate(cfg, after, first.successor, again);
            outcome.Rotated? && ForeignKeys(third) && Rotate(cfg, third, second.successor, again).1.Rotated?
  {
    var (after, first, second) := Raced(cfg, db, presented, now, later);
    RaceForksChain(cfg, db, presented, now, later);
    assert StillAllowed(cfg, after, first.successor, again);
    var (third, outcome) := Rotate(cfg, after, first.successor, again);
    assert StillAllowed(cfg, third, second.successor, again);
  }
}
