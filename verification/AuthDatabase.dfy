/** The database itself: the services' methods, updating the tables in place. */
module AuthDatabases {
  import opened Options
  import opened AccessTokens
  import opened Sessions

  class AuthDatabase {
    const cfg: Config
    var next: Id
    var stamps: map<Id, Id>
    var sessions: map<Id, Session>
    var tokens: map<Id, RefreshToken>

    constructor (cfg: Config)
      ensures this.cfg == cfg && Snapshot() == Db(0, map[], map[], map[])
    {
      this.cfg := cfg;
      next, stamps, sessions, tokens := 0, map[], map[], map[];
    }

    function Snapshot(): Db
      reads this
    {
      Db(next, stamps, sessions, tokens)
    }

    method NewId() returns (id: Id)
      modifies this`next
      ensures id == old(next) && next == old(next) + 1
    {
      id := next;
      next := next + 1;
    }

    method Register() returns (user: Id)
      modifies this
      ensures Snapshot() == NewUser(old(Snapshot())) && user == old(next)
    {
      user := NewId();
      var stamp := NewId();
      stamps := stamps[user := stamp];
    }

    method CreateSession(user: Id, methods: seq<Method>, now: int) returns (id: Option<Id>)
      modifies this
      ensures (Snapshot(), id) == Sessions.CreateSession(cfg, old(Snapshot()), user, methods, now)
    {
      if user !in stamps {
        return None;
      }
      var session := NewId();
      sessions := sessions[session := Session(user, stamps[user], methods, now, now, now + cfg.absoluteLifetime, None)];
      id := Some(session);
    }

    /** CreateToken: a row bounded by the session's cap, not yet added. */
    method CreateToken(session: Id, sessionExpiry: int) returns (id: Id, row: RefreshToken)
      modifies this`next
      ensures id == old(next) && next == old(next) + 1
      ensures row == RefreshToken(session, sessionExpiry, None, None)
    {
      id := NewId();
      row := RefreshToken(session, sessionExpiry, None, None);
    }

    method Issue(session: Id) returns (token: Option<Id>)
      modifies this
      ensures (Snapshot(), token) == IssueToken(old(Snapshot()), session)
    {
      if session !in sessions {
        return None;
      }
      var id, row := CreateToken(session, sessions[session].absoluteExpiresAt);
      tokens := tokens[id := row];
      token := Some(id);
    }

    method Rotate(presented: Id, now: int) returns (outcome: Outcome)
      requires ForeignKeys(Snapshot())
      modifies this
      ensures (Snapshot(), outcome) == Sessions.Rotate(cfg, old(Snapshot()), presented, now)
    {
      if presented !in tokens {
        return NotFound;
      }
      var stored := tokens[presented];
      var id := stored.session;
      var session := sessions[id];
      if stored.usedAt.Some? {
        session := session.(revoked := Some(Revocation(now, TokenReuseDetected)));
        sessions := sessions[id := session];
        return ReuseDetected(id);
      }
      if session.revoked.Some? {
        return SessionRevoked(id);
      }
      if stored.expiresAt <= now {
        return TokenExpired(id);
      }
      if session.absoluteExpiresAt <= now {
        return SessionExpired(id);
      }
      if session.lastActiveAt + cfg.inactivityWindow <= now {
        return SessionIdle(id);
      }
      var currentStamp := stamps[session.user];
      if currentStamp != session.stamp {
        return SecurityStampChanged(id);
      }
      var successor, row := CreateToken(id, session.absoluteExpiresAt);
      stored := stored.(usedAt := Some(now));
      stored := stored.(replacedBy := Some(successor));
      tokens := tokens[successor := row];
      session := session.(lastActiveAt := now);
      var access := Mint(cfg.jwt, id, session.authenticatedAt, session.methods, now);
      tokens := tokens[presented := stored];
      sessions := sessions[id := session];
      outcome := Rotated(id, successor, access);
    }

    method RevokeForSession(session: Id, now: int)
      modifies this
      ensures Snapshot() == ExpireTokens(old(Snapshot()), {session}, now)
    {
      tokens := map t | t in tokens ::
        if tokens[t].session == session && tokens[t].usedAt.None? && tokens[t].expiresAt > now
        then tokens[t].(expiresAt := now) else tokens[t];
    }

    method Revoke(session: Id, reason: Reason, now: int)
      modifies this
      ensures Snapshot() == Sessions.Revoke(old(Snapshot()), session, reason, now)
    {
      if session in sessions && sessions[session].revoked.None? {
        sessions := sessions[session := sessions[session].(revoked := Some(Revocation(now, reason)))];
      }
    }

    method RevokeAllForUser(user: Id, except: Option<Id>, reason: Reason, now: int) returns (affected: nat)
      modifies this
      ensures Snapshot() == RevokeAll(old(Snapshot()), user, except, reason, now)
      ensures affected == |set s | s in old(sessions) && LiveSession(old(Snapshot()), s, user, except)|
    {
      var live := set s | s in sessions && sessions[s].user == user && sessions[s].revoked.None?
                          && (except == None || Some(s) != except);
      assert live == set s | s in sessions && LiveSession(Snapshot(), s, user, except);
      sessions := map s | s in sessions ::
        if s in live then sessions[s].(revoked := Some(Revocation(now, reason))) else sessions[s];
      affected := |live|;
    }

    method Touch(session: Id, now: int)
      modifies this
      ensures Snapshot() == Sessions.Touch(old(Snapshot()), session, now)
    {
      if session in sessions {
        sessions := sessions[session := sessions[session].(lastActiveAt := now)];
      }
    }

    method MarkReauthenticated(session: Id, now: int)
      modifies this
      ensures Snapshot() == Sessions.MarkReauthenticated(old(Snapshot()), session, now)
    {
      if session in sessions {
        var row := sessions[session].(authenticatedAt := now);
        sessions := sessions[session := row.(lastActiveAt := now)];
      }
    }

    /** SessionQueryService.RevokeAsync; false stands for ResourceNotFoundException. */
    method RevokeOwnSession(user: Id, session: Id, now: int) returns (found: bool)
      modifies this
      ensures found <==> LiveSession(old(Snapshot()), session, user, None)
      ensures Snapshot() ==
              if found
              then ExpireTokens(Sessions.Revoke(old(Snapshot()), session, UserRevokedSession, now), {session}, now)
              else old(Snapshot())
    {
      found := session in sessions && sessions[session].user == user && sessions[session].revoked.None?;
      if found {
        Revoke(session, UserRevokedSession, now);
        RevokeForSession(session, now);
      }
    }

    /** SessionQueryService.RevokeAllOthersAsync. */
    method RevokeAllOthers(user: Id, current: Id, now: int) returns (count: nat)
      modifies this
      ensures var others := set s | s in old(sessions) && LiveSession(old(Snapshot()), s, user, Some(current));
              && count == |others|
              && Snapshot() ==
                 ExpireTokens(RevokeAll(old(Snapshot()), user, Some(current), UserRevokedAllSessions, now), others, now)
    {
      var sessionIds := set s | s in sessions && sessions[s].user == user && s != current && sessions[s].revoked.None?;
      assert sessionIds == set s | s in sessions && LiveSession(Snapshot(), s, user, Some(current));
      count := RevokeAllForUser(user, Some(current), UserRevokedAllSessions, now);
      if |sessionIds| > 0 {
        tokens := map t | t in tokens ::
          if tokens[t].session in sessionIds && tokens[t].usedAt.None? && tokens[t].expiresAt > now
          then tokens[t].(expiresAt := now) else tokens[t];
      } else {
        assert sessionIds == {};
        assert tokens == ExpireTokens(Snapshot(), {}, now).tokens;
      }
    }

    /** The steps of PasswordResetService.ConfirmAsync after the token is consumed. */
    method ReplaceStampAndRevoke(user: Id, now: int)
      requires user in stamps
      modifies this
      ensures Snapshot() == RevokeAll(ReplaceStamp(old(Snapshot()), user), user, None, PasswordReset, now)
    {
      var stamp := NewId();
      stamps := stamps[user := stamp];
      var _ := RevokeAllForUser(user, None, PasswordReset, now);
    }
  }
}
