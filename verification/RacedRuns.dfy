/**
  Runs in which a rotation reads in one step and writes in a later one, with any other steps in
  between: what becomes of replay detection and of revocation then.
*/
module RacedRuns {
  import opened AccessTokens
  import opened Events
  import opened Options
  import opened RotationRace
  import opened SessionGuarantees
  import opened SessionRuns
  import opened Sessions

  /** A rotation that has passed all its checks on `read`, at `now`, and has yet to write. */
  datatype Pending = Pending(read: Db, presented: Id, now: int)

  /** A rotation that was written, with the access token it handed out. */
  datatype Rotation = Rotation(access: AccessToken, issuedAt: int)

  datatype Race = Race(db: Db, pending: multiset<Pending>, rotations: seq<Rotation>, clock: int)

  datatype Move =
    | Plain(action: Action)
    | Create(user: Id, methods: seq<Method>)
    | IssueFor(session: Id)
    | Read(presented: Id)
    | Write(p: Pending, issuedAt: int)

  ghost predicate Decided(cfg: Config, p: Pending) {
    ForeignKeys(p.read) && Rotate(cfg, p.read, p.presented, p.now).1.Rotated?
  }

  function Target(p: Pending): Id
    requires p.presented in p.read.tokens
  {
    p.read.tokens[p.presented].session
  }

  /** The update finds the token's row; a token never changes its session. */
  predicate Writable(db: Db, p: Pending) {
    && p.presented in p.read.tokens && p.presented in db.tokens
    && db.tokens[p.presented].session == p.read.tokens[p.presented].session
  }

  ghost predicate Keys(db: Db) {
    && ForeignKeys(db) && FreshStamps(db)
    && (forall t :: t in db.tokens ==> t < db.next)
    && (forall s :: s in db.sessions ==> s < db.next && db.sessions[s].stamp < db.next)
  }

  ghost predicate Sound(cfg: Config, w: Race) {
    && Keys(w.db)
    && (forall p :: p in w.pending ==> Decided(cfg, p) && p.presented < w.db.next && p.now <= w.clock)
    && (forall i :: 0 <= i < |w.rotations| ==> Minted(cfg, w.rotations[i], w.clock))
  }

  ghost predicate Minted(cfg: Config, r: Rotation, clock: int) {
    r.issuedAt <= clock
    && exists authTime, methods :: r.access == Mint(cfg.jwt, r.access.session, authTime, methods, r.issuedAt)
  }

  /** A rotation that fails, and the revocation a replay records, are one step. */
  ghost function ReadStep(cfg: Config, w: Race, presented: Id, now: int): Race
    requires Keys(w.db)
  {
    var (db, outcome) := Rotate(cfg, w.db, presented, now);
    if outcome.Rotated? then w.(pending := w.pending + multiset{Pending(w.db, presented, now)}, clock := now)
    else w.(db := db, clock := now)
  }

  /** A write whose row is gone throws. */
  ghost function WriteStep(cfg: Config, w: Race, p: Pending, issuedAt: int, now: int): Race
    requires Keys(w.db) && p in w.pending && Decided(cfg, p)
  {
    var rest := w.(pending := w.pending - multiset{p}, clock := now);
    if Writable(w.db, p) && p.now <= issuedAt <= now then
      var (db, outcome) := Late(cfg, p.read, w.db, p.presented, p.now, issuedAt);
      rest.(db := db, rotations := w.rotations + [Rotation(outcome.access, issuedAt)])
    else rest
  }

  ghost function Next(cfg: Config, w: Race, e: Event<Move>): Race
    requires Sound(cfg, w)
  {
    match e.action
    case Plain(action) => w.(db := Apply(w.db, action, e.now), clock := e.now)
    case Create(user, methods) => w.(db := CreateSession(cfg, w.db, user, methods, e.now).0, clock := e.now)
    case IssueFor(session) => w.(db := IssueToken(w.db, session).0, clock := e.now)
    case Read(presented) => ReadStep(cfg, w, presented, e.now)
    case Write(p, issuedAt) => if p in w.pending then WriteStep(cfg, w, p, issuedAt, e.now) else w.(clock := e.now)
  }

  // ---------------------------------------------------------------------------------------------
  // What every step keeps
  // ---------------------------------------------------------------------------------------------

  /** No token or session comes back, none changes hands, and no stamp is used again. */
  ghost predicate Onward(db: Db, db': Db) {
    && db.next <= db'.next
    && (forall t :: t in db'.tokens && t < db.next ==> t in db.tokens && db'.tokens[t].session == db.tokens[t].session)
  }

  lemma ApplyKeepsKeys(db: Db, action: Action, now: int)
    requires Keys(db)
    ensures Keys(Apply(db, action, now)) && Onward(db, Apply(db, action, now))
  {
    ApplyIsQuiet(db, action, now);
    hide Apply;
  }

  lemma CreateKeepsKeys(cfg: Config, db: Db, user: Id, methods: seq<Method>, now: int, session: Id)
    requires Keys(db)
    ensures var db' := CreateSession(cfg, db, user, methods, now).0; Keys(db') && Onward(db, db')
    ensures var db' := IssueToken(db, session).0; Keys(db') && Onward(db, db')
  {
  }

  lemma ReadKeepsKeys(cfg: Config, db: Db, presented: Id, now: int)
    requires Keys(db) && !Rotate(cfg, db, presented, now).1.Rotated?
    ensures Keys(Rotate(cfg, db, presented, now).0) && Onward(db, Rotate(cfg, db, presented, now).0)
  {
    hide Rotate;
    FailedRotation(cfg, db, presented, now);
  }

  lemma WriteKeepsKeys(cfg: Config, p: Pending, db: Db, issuedAt: int)
    requires Keys(db) && Decided(cfg, p) && Writable(db, p)
    ensures var (db', outcome) := Late(cfg, p.read, db, p.presented, p.now, issuedAt);
            && outcome.Rotated? && Keys(db') && Onward(db, db')
            && outcome.access.session == Target(p)
            && exists authTime, methods :: outcome.access == Mint(cfg.jwt, Target(p), authTime, methods, issuedAt)
  {
    var session := p.read.sessions[Target(p)];
    assert Late(cfg, p.read, db, p.presented, p.now, issuedAt).1.access
        == Mint(cfg.jwt, Target(p), session.authenticatedAt, session.methods, issuedAt);
  }

  /** What the steps keep of the database. */
  lemma NextKeepsKeys(cfg: Config, w: Race, e: Event<Move>)
    requires Sound(cfg, w)
    ensures Keys(Next(cfg, w, e).db) && Onward(w.db, Next(cfg, w, e).db) && Next(cfg, w, e).clock == e.now
  {
    hide Keys, Onward, Apply, Late, Rotate, CreateSession, IssueToken, Minted, Writable;
    match e.action
    case Plain(action) => ApplyKeepsKeys(w.db, action, e.now);
    case Create(user, methods) => CreateKeepsKeys(cfg, w.db, user, methods, e.now, 0);
    case IssueFor(session) => CreateKeepsKeys(cfg, w.db, 0, [], e.now, session);
    case Read(presented) =>
      SameOnward(w.db);
      HasForeignKeys(w.db);
      if !Rotate(cfg, w.db, presented, e.now).1.Rotated? {
        ReadKeepsKeys(cfg, w.db, presented, e.now);
      }
    case Write(p, issuedAt) =>
      SameOnward(w.db);
      if p in w.pending && Writable(w.db, p) {
        WriteKeepsKeys(cfg, p, w.db, issuedAt);
      }
  }

  lemma SameOnward(db: Db)
    ensures Onward(db, db)
  {
  }

  lemma HasForeignKeys(db: Db)
    requires Keys(db)
    ensures ForeignKeys(db)
  {
  }

  lemma ReadIsDecided(cfg: Config, db: Db, presented: Id, now: int)
    requires Keys(db) && Rotate(cfg, db, presented, now).1.Rotated?
    ensures Decided(cfg, Pending(db, presented, now)) && presented < db.next
    ensures Target(Pending(db, presented, now)) == Rotate(cfg, db, presented, now).1.session
    ensures Writable(db, Pending(db, presented, now))
  {
  }

  /** What the steps keep of the rotations under way and done. */
  lemma NextLists(cfg: Config, w: Race, e: Event<Move>)
    requires Sound(cfg, w)
    ensures var w' := Next(cfg, w, e);
            && (forall p :: p in w'.pending ==>
                  p in w.pending
                  || (e.action == Read(p.presented) && p == Pending(w.db, p.presented, e.now)
                      && Rotate(cfg, w.db, p.presented, e.now).1.Rotated?))
            && (w'.rotations != w.rotations ==>
                  && e.action.Write? && e.action.p in w.pending && Writable(w.db, e.action.p)
                  && var (p, issuedAt) := (e.action.p, e.action.issuedAt);
                     var access := Late(cfg, p.read, w.db, p.presented, p.now, issuedAt).1.access;
                     && w'.rotations == w.rotations + [Rotation(access, issuedAt)] && issuedAt <= e.now)
  {
    hide Keys, Onward, Apply, Late, Rotate, CreateSession, IssueToken, Minted, Writable;
  }

  lemma NextKeepsSound(cfg: Config, w: Race, e: Event<Move>)
    requires Sound(cfg, w) && w.clock <= e.now
    ensures Sound(cfg, Next(cfg, w, e))
  {
    hide Next, Onward, Late, Rotate, Writable, Keys;
    NextKeepsKeys(cfg, w, e);
    NextOnward(w.db, Next(cfg, w, e).db);
    NextLists(cfg, w, e);
    HasForeignKeys(w.db);
    var w' := Next(cfg, w, e);
    forall p | p in w'.pending ensures Decided(cfg, p) && p.presented < w'.db.next && p.now <= w'.clock {
      if p !in w.pending {
        ReadIsDecided(cfg, w.db, p.presented, e.now);
      }
    }
    forall i | 0 <= i < |w'.rotations| ensures Minted(cfg, w'.rotations[i], w'.clock) {
      if i < |w.rotations| {
        assert Minted(cfg, w.rotations[i], w.clock);
      } else {
        WriteKeepsKeys(cfg, e.action.p, w.db, e.action.issuedAt);
      }
    }
  }

  lemma NextOnward(db: Db, db': Db)
    requires Onward(db, db')
    ensures db.next <= db'.next
  {
  }

  ghost function Start(cfg: Config, clock: int): (w: Race)
    ensures Sound(cfg, w)
  {
    Race(Db(0, map[], map[], map[]), multiset{}, [], clock)
  }

  ghost function Step(cfg: Config, w: Race, e: Event<Move>): (w': Race)
    requires Sound(cfg, w) && w.clock <= e.now
    ensures Sound(cfg, w') && w' == Next(cfg, w, e) && w'.clock == e.now
  {
    NextKeepsSound(cfg, w, e);
    NextKeepsKeys(cfg, w, e);
    Next(cfg, w, e)
  }

  ghost function Run(cfg: Config, w: Race, events: seq<Event<Move>>): (w': Race)
    requires Sound(cfg, w) && Timely(w.clock, events)
    ensures Sound(cfg, w')
    ensures w'.clock == if events == [] then w.clock else events[|events| - 1].now
  {
    if events == [] then w else Step(cfg, Run(cfg, w, events[..|events| - 1]), events[|events| - 1])
  }

  // ---------------------------------------------------------------------------------------------
  // Replay
  // ---------------------------------------------------------------------------------------------

  /** A spent token of `s` that ends with the session, at `cap`, or later. */
  ghost predicate SpentToCap(db: Db, t: Id, s: Id, cap: int) {
    && Spent(db, t, s) && db.tokens[t].expiresAt >= cap
    && s in db.sessions && db.sessions[s].absoluteExpiresAt == cap
  }

  lemma ApplyKeepsCap(db: Db, action: Action, now: int, t: Id, s: Id, cap: int)
    requires ForeignKeys(db) && FreshStamps(db) && SpentToCap(db, t, s, cap) && now < cap
    ensures SpentToCap(Apply(db, action, now), t, s, cap)
  {
    ApplyKeepsSpent(db, action, now, t, s);
    ApplyIsQuiet(db, action, now);
    hide Apply;
  }

  lemma CreateKeepsCap(
      cfg: Config, db: Db, user: Id, methods: seq<Method>, now: int, session: Id, t: Id, s: Id, cap: int)
    requires Keys(db) && SpentToCap(db, t, s, cap)
    ensures SpentToCap(CreateSession(cfg, db, user, methods, now).0, t, s, cap)
    ensures SpentToCap(IssueToken(db, session).0, t, s, cap)
  {
  }

  lemma ReadKeepsCap(cfg: Config, db: Db, presented: Id, now: int, t: Id, s: Id, cap: int)
    requires Keys(db) && SpentToCap(db, t, s, cap) && !Rotate(cfg, db, presented, now).1.Rotated?
    ensures SpentToCap(Rotate(cfg, db, presented, now).0, t, s, cap)
  {
    hide Rotate;
    FailedRotation(cfg, db, presented, now);
  }

  lemma WriteKeepsCap(cfg: Config, p: Pending, db: Db, issuedAt: int, t: Id, s: Id, cap: int)
    requires Keys(db) && SpentToCap(db, t, s, cap) && Decided(cfg, p) && Writable(db, p)
    ensures SpentToCap(Late(cfg, p.read, db, p.presented, p.now, issuedAt).0, t, s, cap)
  {
  }

  lemma NextKeepsCap(cfg: Config, w: Race, e: Event<Move>, t: Id, s: Id, cap: int)
    requires Sound(cfg, w) && SpentToCap(w.db, t, s, cap) && e.now < cap
    ensures SpentToCap(Next(cfg, w, e).db, t, s, cap)
  {
    assert ForeignKeys(w.db) && FreshStamps(w.db);
    hide Keys, SpentToCap, Apply, Late, Rotate, CreateSession, IssueToken, Minted, Writable;
    match e.action
    case Plain(action) => ApplyKeepsCap(w.db, action, e.now, t, s, cap);
    case Create(user, methods) => CreateKeepsCap(cfg, w.db, user, methods, e.now, 0, t, s, cap);
    case IssueFor(session) => CreateKeepsCap(cfg, w.db, 0, [], e.now, session, t, s, cap);
    case Read(presented) =>
      if !Rotate(cfg, w.db, presented, e.now).1.Rotated? {
        ReadKeepsCap(cfg, w.db, presented, e.now, t, s, cap);
      }
    case Write(p, issuedAt) =>
      if p in w.pending && Writable(w.db, p) {
        WriteKeepsCap(cfg, p, w.db, issuedAt, t, s, cap);
      }
  }

  lemma {:induction false} RunKeepsCap(cfg: Config, w: Race, events: seq<Event<Move>>, t: Id, s: Id, cap: int)
    requires Sound(cfg, w) && Timely(w.clock, events) && SpentToCap(w.db, t, s, cap)
    requires forall i :: 0 <= i < |events| ==> events[i].now < cap
    ensures SpentToCap(Run(cfg, w, events).db, t, s, cap)
  {
    hide Sound, Next, SpentToCap;
    if events != [] {
      RunKeepsCap(cfg, w, events[..|events| - 1], t, s, cap);
      NextKeepsCap(cfg, Run(cfg, w, events[..|events| - 1]), events[|events| - 1], t, s, cap);
    }
  }

  /** Presenting `t` before `cap`, after any steps, is answered ReuseDetected. */
  ghost predicate Recognised(cfg: Config, w: Race, t: Id, cap: int)
    requires Sound(cfg, w)
  {
    forall events: seq<Event<Move>>, again: int ::
      (&& Timely(w.clock, events) && w.clock <= again < cap
       && (forall i :: 0 <= i < |events| ==> events[i].now <= again)) ==>
        Rotate(cfg, Run(cfg, w, events).db, t, again).1.ReuseDetected?
  }

  /**
    Over all runs with races, replays of a spent token are recognised until the session's cap exactly
    when the token ends no earlier than that.
  */
  lemma ReplayExactly(cfg: Config, w: Race, t: Id, s: Id)
    requires Sound(cfg, w) && Spent(w.db, t, s)
    ensures s in w.db.sessions
    ensures var cap := w.db.sessions[s].absoluteExpiresAt;
            Recognised(cfg, w, t, cap) <==> w.db.tokens[t].expiresAt >= cap || w.clock >= cap
  {
    var cap, ends := w.db.sessions[s].absoluteExpiresAt, w.db.tokens[t].expiresAt;
    if ends >= cap {
      forall events: seq<Event<Move>>, again: int |
          && Timely(w.clock, events) && w.clock <= again < cap
          && (forall i :: 0 <= i < |events| ==> events[i].now <= again)
        ensures Rotate(cfg, Run(cfg, w, events).db, t, again).1.ReuseDetected?
      {
        hide Sound, Run, Rotate;
        RunKeepsCap(cfg, w, events, t, s, cap);
        SpentIsReused(cfg, Run(cfg, w, events), t, s, again);
      }
    } else if w.clock < cap {
      SweptAway(cfg, w, t, if ends <= w.clock then w.clock else ends);
    }
  }

  lemma SpentIsReused(cfg: Config, w: Race, t: Id, s: Id, now: int)
    requires Sound(cfg, w) && Spent(w.db, t, s)
    ensures Rotate(cfg, w.db, t, now).1.ReuseDetected?
  {
  }

  /** A cleanup at `at` takes a token that has ended by then. */
  lemma SweptAway(cfg: Config, w: Race, t: Id, at: int)
    requires Sound(cfg, w) && t in w.db.tokens && w.db.tokens[t].expiresAt <= at && w.clock <= at
    ensures var events := [Event(Plain(DoDeleteTokens({t})), at)];
            && Timely(w.clock, events) && (forall i :: 0 <= i < |events| ==> events[i].now <= at)
            && Rotate(cfg, Run(cfg, w, events).db, t, at).1.NotFound?
  {
    hide Sound, Rotate;
    var e := Event(Plain(DoDeleteTokens({t})), at);
    OneStep(cfg, w, e);
    assert t !in Next(cfg, w, e).db.tokens;
    HasKeys(cfg, Step(cfg, w, e));
    UnknownToken(cfg, Step(cfg, w, e).db, t, at);
  }

  lemma OneStep(cfg: Config, w: Race, e: Event<Move>)
    requires Sound(cfg, w) && w.clock <= e.now
    ensures Timely(w.clock, [e]) && Run(cfg, w, [e]) == Step(cfg, w, e)
  {
    hide Sound, Next;
    assert [e][..0] == [];
  }

  lemma HasKeys(cfg: Config, w: Race)
    requires Sound(cfg, w)
    ensures Keys(w.db)
  {
  }

  lemma UnknownToken(cfg: Config, db: Db, t: Id, now: int)
    requires ForeignKeys(db) && t !in db.tokens
    ensures Rotate(cfg, db, t, now).1.NotFound?
  {
  }

  /**
    After a late write: exactly when the token was not cut short between the rotation's read and its
    write, or the session has reached its cap.
  */
  lemma LateReplayExactly(cfg: Config, w: Race, p: Pending, issuedAt: int, now: int)
    requires Sound(cfg, w) && p in w.pending && Writable(w.db, p) && w.clock <= now && p.now <= issuedAt <= now
    ensures Target(p) in w.db.sessions
    ensures var cap := w.db.sessions[Target(p)].absoluteExpiresAt;
            Recognised(cfg, Step(cfg, w, Event(Write(p, issuedAt), now)), p.presented, cap) <==>
            w.db.tokens[p.presented].expiresAt >= cap || now >= cap
  {
    hide Recognised, Rotate;
    var after := Step(cfg, w, Event(Write(p, issuedAt), now));
    WrittenIsSpent(cfg, p, w.db, issuedAt);
    ReplayExactly(cfg, after, p.presented, Target(p));
  }

  lemma WrittenIsSpent(cfg: Config, p: Pending, db: Db, issuedAt: int)
    requires Keys(db) && Decided(cfg, p) && Writable(db, p)
    ensures Target(p) in db.sessions
    ensures var db' := Late(cfg, p.read, db, p.presented, p.now, issuedAt).0;
            && Spent(db', p.presented, Target(p))
            && db'.tokens[p.presented].expiresAt == db.tokens[p.presented].expiresAt
            && Target(p) in db'.sessions
            && db'.sessions[Target(p)].absoluteExpiresAt == db.sessions[Target(p)].absoluteExpiresAt
  {
  }

  // ---------------------------------------------------------------------------------------------
  // Revocation
  // ---------------------------------------------------------------------------------------------

  /** A rotation of `s` that was decided and could still write. */
  ghost predicate Underway(cfg: Config, w: Race, s: Id)
    requires Sound(cfg, w)
  {
    exists p :: p in w.pending && Writable(w.db, p) && Target(p) == s
  }

  /** How many rotations of `s` were written. */
  function RotationsOf(rotations: seq<Rotation>, s: Id): nat {
    if rotations == [] then 0
    else
      RotationsOf(rotations[..|rotations| - 1], s) + if rotations[|rotations| - 1].access.session == s then 1 else 0
  }

  lemma NextKeepsDead(cfg: Config, w: Race, e: Event<Move>, s: Id)
    requires Sound(cfg, w) && DeadRow(w.db, s) && s < w.db.next
    ensures ForeignKeys(Next(cfg, w, e).db) && DeadRow(Next(cfg, w, e).db, s)
  {
    hide Sound, Keys, Apply, Late, Rotate, CreateSession, ForeignKeys, FreshStamps, Minted, Writable, Onward;
    NextKeepsKeys(cfg, w, e);
    HasForeignKeys(Next(cfg, w, e).db);
    HasKeys(cfg, w);
    FreshKeys(w.db, s);
    match e.action
    case Plain(action) => ApplyKeepsDead(w.db, action, e.now, s);
    case Create(user, methods) => CreateKeepsDead(cfg, w.db, user, methods, e.now, s);
    case IssueFor(session) =>
    case Read(presented) => RotateKeepsDead(cfg, w.db, presented, e.now, s);
    case Write(p, issuedAt) =>
      if p in w.pending && Writable(w.db, p) {
        PendingIsDecided(cfg, w, p);
        WriteKeepsDead(cfg, p, w.db, issuedAt, s);
      }
  }

  lemma FreshKeys(db: Db, s: Id)
    requires Keys(db)
    ensures ForeignKeys(db) && FreshStamps(db) && (s in db.sessions ==> db.sessions[s].stamp < db.next)
  {
  }

  lemma PendingIsDecided(cfg: Config, w: Race, p: Pending)
    requires Sound(cfg, w) && p in w.pending
    ensures Keys(w.db) && Decided(cfg, p) && p.now <= w.clock
  {
  }

  lemma WriteKeepsDead(cfg: Config, p: Pending, db: Db, issuedAt: int, s: Id)
    requires Keys(db) && Decided(cfg, p) && Writable(db, p) && DeadRow(db, s)
    ensures var db' := Late(cfg, p.read, db, p.presented, p.now, issuedAt).0; ForeignKeys(db') && DeadRow(db', s)
  {
  }

  /** A row that is gone stays gone, so no write becomes possible again. */
  lemma WritableBefore(db: Db, db': Db, p: Pending)
    requires Onward(db, db') && Writable(db', p) && p.presented < db.next
    ensures Writable(db, p)
  {
  }

  lemma RotationIsNotDead(cfg: Config, db: Db, presented: Id, now: int, s: Id)
    requires ForeignKeys(db) && DeadRow(db, s) && Rotate(cfg, db, presented, now).1.Rotated?
    ensures Rotate(cfg, db, presented, now).1.session != s
  {
  }

  lemma NextKeepsQuiet(cfg: Config, w: Race, e: Event<Move>, s: Id)
    requires Sound(cfg, w) && w.clock <= e.now && DeadRow(w.db, s) && s < w.db.next && !Underway(cfg, w, s)
    ensures !Underway(cfg, Step(cfg, w, e), s)
    ensures RotationsOf(Step(cfg, w, e).rotations, s) == RotationsOf(w.rotations, s)
  {
    NextKeepsKeys(cfg, w, e);
    NextLists(cfg, w, e);
    HasForeignKeys(w.db);
    hide Next, Keys, Onward, Late, Rotate, Writable, Minted, DeadRow, ForeignKeys;
    var w' := Step(cfg, w, e);
    forall p | p in w'.pending && Writable(w'.db, p) ensures Target(p) != s {
      if p in w.pending {
        WritableBefore(w.db, w'.db, p);
      } else {
        ReadIsDecided(cfg, w.db, p.presented, e.now);
        RotationIsNotDead(cfg, w.db, p.presented, e.now, s);
      }
    }
    if w'.rotations != w.rotations {
      var p := e.action.p;
      WriteKeepsKeys(cfg, p, w.db, e.action.issuedAt);
      assert w'.rotations[..|w.rotations|] == w.rotations;
    }
  }

  lemma {:induction false} RunKeepsQuiet(cfg: Config, w: Race, events: seq<Event<Move>>, s: Id)
    requires Sound(cfg, w) && Timely(w.clock, events) && DeadRow(w.db, s) && s < w.db.next && !Underway(cfg, w, s)
    ensures var w' := Run(cfg, w, events);
            && Keys(w'.db) && DeadRow(w'.db, s) && s < w'.db.next && !Underway(cfg, w', s)
            && RotationsOf(w'.rotations, s) == RotationsOf(w.rotations, s)
  {
    hide Next, Underway, RotationsOf, DeadRow, Sound;
    HasKeys(cfg, w);
    if events != [] {
      var front, last := events[..|events| - 1], events[|events| - 1];
      RunKeepsQuiet(cfg, w, front, s);
      var before := Run(cfg, w, front);
      NextKeepsQuiet(cfg, before, last, s);
      NextKeepsDead(cfg, before, last, s);
      NextKeepsKeys(cfg, before, last);
      NextOnward(before.db, Next(cfg, before, last).db);
      HasKeys(cfg, Step(cfg, before, last));
    }
  }

  /** Some continuation writes another rotation of `s`. */
  ghost predicate CanRotate(cfg: Config, w: Race, s: Id)
    requires Sound(cfg, w)
  {
    exists events :: Timely(w.clock, events)
                     && RotationsOf(Run(cfg, w, events).rotations, s) > RotationsOf(w.rotations, s)
  }

  /** A read that passes every check puts the rotation under way and writes nothing; any other is answered at once. */
  lemma ReadExactly(cfg: Config, w: Race, presented: Id, now: int)
    requires Sound(cfg, w) && w.clock <= now
    ensures ForeignKeys(w.db)
    ensures var w' := Step(cfg, w, Event(Read(presented), now));
            var (db, outcome) := Rotate(cfg, w.db, presented, now);
            if outcome.Rotated? then
              w'.db == w.db && w'.pending == w.pending + multiset{Pending(w.db, presented, now)}
              && Underway(cfg, w', outcome.session)
            else w'.db == db && w'.pending == w.pending
  {
    hide Rotate, Minted, Keys;
    HasKeys(cfg, w);
    HasForeignKeys(w.db);
    if Rotate(cfg, w.db, presented, now).1.Rotated? {
      var p := Pending(w.db, presented, now);
      ReadIsDecided(cfg, w.db, presented, now);
      assert p in Step(cfg, w, Event(Read(presented), now)).pending;
    }
  }

  /** The write of a decided rotation, at any later time: it succeeds on a dead session too. */
  lemma WriteRotates(cfg: Config, w: Race, p: Pending, now: int)
    requires Sound(cfg, w) && p in w.pending && Writable(w.db, p) && w.clock <= now
    ensures var e := Event(Write(p, now), now);
            var w' := Step(cfg, w, e);
            && Timely(w.clock, [e]) && Run(cfg, w, [e]) == w' && w'.pending == w.pending - multiset{p}
            && RotationsOf(w'.rotations, Target(p)) == RotationsOf(w.rotations, Target(p)) + 1
            && w'.rotations != [] && w'.rotations[|w'.rotations| - 1].access.session == Target(p)
            && w'.rotations[|w'.rotations| - 1].issuedAt == now
            && Unspent(w'.db, w.db.next, Target(p))
            && (DeadRow(w.db, Target(p)) ==> DeadRow(w'.db, Target(p)))
  {
    hide Sound, Keys, Minted, Late, Decided, DeadRow, Unspent, Next, ForeignKeys;
    OneStep(cfg, w, Event(Write(p, now), now));
    PendingIsDecided(cfg, w, p);
    Written(cfg, w, p, now);
    LeavesUnspent(cfg, p, w.db, now);
    HasForeignKeys(w.db);
    if DeadRow(w.db, Target(p)) {
      WriteKeepsDead(cfg, p, w.db, now, Target(p));
    }
  }

  lemma Written(cfg: Config, w: Race, p: Pending, now: int)
    requires Sound(cfg, w) && p in w.pending && Writable(w.db, p) && w.clock <= now
    ensures Decided(cfg, p) && Keys(w.db)
    ensures var w' := Next(cfg, w, Event(Write(p, now), now));
            && w'.db == Late(cfg, p.read, w.db, p.presented, p.now, now).0
            && w'.pending == w.pending - multiset{p}
            && RotationsOf(w'.rotations, Target(p)) == RotationsOf(w.rotations, Target(p)) + 1
            && w'.rotations != [] && w'.rotations[|w'.rotations| - 1].access.session == Target(p)
            && w'.rotations[|w'.rotations| - 1].issuedAt == now
  {
    hide Sound, Keys, Minted, Late, Rotate, RotationsOf;
    PendingIsDecided(cfg, w, p);
    HasForeignKeys(w.db);
    WriteKeepsKeys(cfg, p, w.db, now);
    OneRotation(w.rotations, Rotation(Late(cfg, p.read, w.db, p.presented, p.now, now).1.access, now), Target(p));
  }

  lemma OneRotation(rotations: seq<Rotation>, r: Rotation, s: Id)
    requires r.access.session == s
    ensures RotationsOf(rotations + [r], s) == RotationsOf(rotations, s) + 1
  {
    assert (rotations + [r])[..|rotations|] == rotations;
  }

  lemma LeavesUnspent(cfg: Config, p: Pending, db: Db, issuedAt: int)
    requires Keys(db) && Decided(cfg, p) && Writable(db, p)
    ensures Unspent(Late(cfg, p.read, db, p.presented, p.now, issuedAt).0, db.next, Target(p))
  {
  }

  /**
    A session that is revoked, or whose stamp is replaced, rotates again on some run with races
    exactly while a rotation decided before is still under way. That one leaves a fresh unspent token,
    which, the session being dead, is never rotated in turn.
  */
  lemma DeadRotatesExactly(cfg: Config, w: Race, s: Id)
    requires Sound(cfg, w) && DeadRow(w.db, s) && s < w.db.next
    ensures CanRotate(cfg, w, s) <==> Underway(cfg, w, s)
  {
    hide Sound, DeadRow;
    if Underway(cfg, w, s) {
      var p :| p in w.pending && Writable(w.db, p) && Target(p) == s;
      WriteRotates(cfg, w, p, w.clock);
    } else {
      forall events | Timely(w.clock, events)
        ensures RotationsOf(Run(cfg, w, events).rotations, s) == RotationsOf(w.rotations, s)
      {
        RunKeepsQuiet(cfg, w, events, s);
      }
    }
  }

  /** No access token a rotation of `s` handed out passes later than lifetime + skew from now. */
  ghost predicate RotatedTailBounded(cfg: Config, w: Race, s: Id)
    requires Sound(cfg, w)
  {
    forall events, i, at ::
      (&& Timely(w.clock, events) && 0 <= i < |Run(cfg, w, events).rotations|
       && Run(cfg, w, events).rotations[i].access.session == s
       && Passes(cfg.jwt, Run(cfg, w, events).rotations[i].access, at)) ==>
        at <= w.clock + cfg.jwt.lifetime + cfg.jwt.skew
  }

  lemma {:induction false} RotationsGrow(cfg: Config, w: Race, events: seq<Event<Move>>)
    requires Sound(cfg, w) && Timely(w.clock, events)
    ensures w.rotations <= Run(cfg, w, events).rotations
  {
    hide Sound, Next;
    if events != [] {
      RotationsGrow(cfg, w, events[..|events| - 1]);
      NextLists(cfg, Run(cfg, w, events[..|events| - 1]), events[|events| - 1]);
    }
  }

  /** With no more of them in the longer list, every rotation of `s` is in the shorter. */
  lemma {:induction false} NoneAdded(earlier: seq<Rotation>, later: seq<Rotation>, s: Id, i: nat)
    requires earlier <= later && RotationsOf(later, s) == RotationsOf(earlier, s)
    requires i < |later| && later[i].access.session == s
    ensures i < |earlier|
    decreases |later|
  {
    if |later| == |earlier| {
      assert later == earlier;
    } else {
      var front := later[..|later| - 1];
      assert earlier <= front;
      AtLeastAsMany(earlier, front, s);
      if i < |later| - 1 {
        NoneAdded(earlier, front, s, i);
      }
    }
  }

  lemma {:induction false} AtLeastAsMany(earlier: seq<Rotation>, later: seq<Rotation>, s: Id)
    requires earlier <= later
    ensures RotationsOf(earlier, s) <= RotationsOf(later, s)
    decreases |later|
  {
    if |later| == |earlier| {
      assert later == earlier;
    } else {
      AtLeastAsMany(earlier, later[..|later| - 1], s);
    }
  }

  lemma MintedBy(cfg: Config, w: Race, i: nat, at: int)
    requires Sound(cfg, w) && i < |w.rotations| && Passes(cfg.jwt, w.rotations[i].access, at)
    ensures at <= w.clock + cfg.jwt.lifetime + cfg.jwt.skew
  {
    var r := w.rotations[i];
    assert Minted(cfg, r, w.clock);
    var authTime, methods :| r.access == Mint(cfg.jwt, r.access.session, authTime, methods, r.issuedAt);
    MintedLifetime(cfg.jwt, r.access.session, authTime, methods, r.issuedAt, at);
  }

  lemma LastPasses(cfg: Config, w: Race, at: int)
    requires Sound(cfg, w) && ValidJwt(cfg.jwt) && w.rotations != [] && w.rotations[|w.rotations| - 1].issuedAt == at
    ensures Passes(cfg.jwt, w.rotations[|w.rotations| - 1].access, at)
  {
    var r := w.rotations[|w.rotations| - 1];
    assert Minted(cfg, r, w.clock);
    var authTime, methods :| r.access == Mint(cfg.jwt, r.access.session, authTime, methods, r.issuedAt);
    MintedLifetime(cfg.jwt, r.access.session, authTime, methods, r.issuedAt, at);
  }

  /** The tail of a dead session's rotated access tokens is bounded under the same condition. */
  lemma RotatedTailExactly(cfg: Config, w: Race, s: Id)
    requires Sound(cfg, w) && ValidJwt(cfg.jwt) && DeadRow(w.db, s) && s < w.db.next
    ensures RotatedTailBounded(cfg, w, s) <==> !Underway(cfg, w, s)
  {
    hide Sound, DeadRow, Run, Passes, RotationsOf;
    if Underway(cfg, w, s) {
      var p :| p in w.pending && Writable(w.db, p) && Target(p) == s;
      var late := w.clock + cfg.jwt.lifetime + cfg.jwt.skew + 1;
      WriteRotates(cfg, w, p, late);
      var w' := Run(cfg, w, [Event(Write(p, late), late)]);
      LastPasses(cfg, w', late);
      assert Passes(cfg.jwt, w'.rotations[|w'.rotations| - 1].access, late);
    } else {
      forall events, i, at |
          && Timely(w.clock, events) && 0 <= i < |Run(cfg, w, events).rotations|
          && Run(cfg, w, events).rotations[i].access.session == s
          && Passes(cfg.jwt, Run(cfg, w, events).rotations[i].access, at)
        ensures at <= w.clock + cfg.jwt.lifetime + cfg.jwt.skew
      {
        RunKeepsQuiet(cfg, w, events, s);
        RotationsGrow(cfg, w, events);
        NoneAdded(w.rotations, Run(cfg, w, events).rotations, s, i);
        MintedBy(cfg, w, i, at);
      }
    }
  }
}
