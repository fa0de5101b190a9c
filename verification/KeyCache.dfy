/**
  The cache ResolveValidationKeyAsync reads through (Services/Tokens/SigningKeyManager.cs). An answer
  read from the database may be served, from whichever tier and replica it was stored in, until its
  lifetime after that read is over; RetireElapsedKeysAsync removes what it can reach, but a replica's
  own copy, or a read stored late, stays.
*/
module KeyCache {
  import opened KeyRing
  import opened Options

  datatype Reading = Reading(kid: Kid, found: bool, at: int)

  datatype Answer = Answer(kid: Kid, found: bool, at: int)

  /** `retired` is when each retired key's retirement was committed. */
  datatype Cached = Cached(w: World, readings: set<Reading>, retired: map<Kid, int>, answers: seq<Answer>)

  datatype Move =
    | Ring(e: Event)
    | Look(kid: Kid)
    | Remove(readings: set<Reading>)
    | Serve(reading: Reading)

  function NewlyRetired(before: Ring, after: Ring, clock: int): map<Kid, int> {
    map k | 0 <= k < |after| && after[k].Retired? && !(k < |before| && before[k].Retired?) :: clock
  }

  function RingStep(cfg: Config, c: Cached, e: Event): Cached {
    var w := Next(cfg, c.w, e);
    c.(w := w, retired := c.retired + NewlyRetired(c.w.ring, w.ring, c.w.clock))
  }

  /** `lifetime` is how long an answer is served after it was read. */
  function CachedNext(cfg: Config, lifetime: int, c: Cached, m: Move): Cached {
    match m
    case Ring(e) => RingStep(cfg, c, e)
    case Look(kid) => c.(readings := c.readings + {Reading(kid, Resolves(c.w.ring, kid), c.w.clock)})
    case Remove(readings) => c.(readings := c.readings - readings)
    case Serve(r) =>
      if r in c.readings && c.w.clock < r.at + lifetime then
        c.(answers := c.answers + [Answer(r.kid, r.found, c.w.clock)])
      else c
  }

  function CachedStart(clock: int): Cached {
    Cached(Start(clock), {}, map[], [])
  }

  function CachedRun(cfg: Config, lifetime: int, c: Cached, moves: seq<Move>): Cached {
    if moves == [] then c
    else CachedNext(cfg, lifetime, CachedRun(cfg, lifetime, c, moves[..|moves| - 1]), moves[|moves| - 1])
  }

  // ---------------------------------------------------------------------------------------------
  // Invariant
  // ---------------------------------------------------------------------------------------------

  predicate IsRetired(ring: Ring, kid: Kid) {
    kid < |ring| && ring[kid].Retired?
  }

  /** A key is found only in what was read before it was retired. */
  ghost predicate ReadBefore(c: Cached) {
    forall r :: r in c.readings ==>
      && r.at <= c.w.clock && (r.found ==> r.kid < |c.w.ring|)
      && (r.found && r.kid in c.retired ==> r.at <= c.retired[r.kid])
  }

  ghost predicate ServedBefore(lifetime: int, c: Cached) {
    forall i :: 0 <= i < |c.answers| ==>
      && c.answers[i].at <= c.w.clock
      && (c.answers[i].found && c.answers[i].kid in c.retired ==>
            c.answers[i].at < c.retired[c.answers[i].kid] + lifetime)
  }

  ghost predicate CachedInv(lifetime: int, c: Cached) {
    && RingValid(c.w.ring)
    && (forall k: Kid :: k in c.retired <==> IsRetired(c.w.ring, k))
    && (forall k :: k in c.retired ==> c.retired[k] <= c.w.clock)
    && ReadBefore(c) && ServedBefore(lifetime, c)
  }

  lemma RingOnward(cfg: Config, w: World, e: Event)
    ensures var w' := Next(cfg, w, e);
            && w.clock <= w'.clock && |w.ring| <= |w'.ring|
            && (forall k: Kid :: IsRetired(w.ring, k) ==> IsRetired(w'.ring, k))
  {
  }

  lemma RingKeepsInv(cfg: Config, lifetime: int, c: Cached, e: Event)
    requires CachedInv(lifetime, c) && lifetime >= 1
    ensures CachedInv(lifetime, RingStep(cfg, c, e))
  {
    NextKeepsRing(cfg, c.w, e);
    RingOnward(cfg, c.w, e);
    hide Next, RingValid;
    var c' := RingStep(cfg, c, e);
    forall k: Kid ensures k in c'.retired <==> IsRetired(c'.w.ring, k) {
      assert k in c.retired <==> IsRetired(c.w.ring, k);
    }
  }

  lemma CachedKeepsInv(cfg: Config, lifetime: int, c: Cached, m: Move)
    requires CachedInv(lifetime, c) && lifetime >= 1
    ensures CachedInv(lifetime, CachedNext(cfg, lifetime, c, m))
  {
    if m.Ring? {
      RingKeepsInv(cfg, lifetime, c, m.e);
    } else {
      hide Next, RingValid, RingStep;
      if m.Look? {
        assert IsRetired(c.w.ring, m.kid) <==> m.kid in c.retired;
      }
    }
  }

  lemma {:induction false} CachedRunKeepsInv(cfg: Config, lifetime: int, clock: int, moves: seq<Move>)
    requires lifetime >= 1
    ensures CachedInv(lifetime, CachedRun(cfg, lifetime, CachedStart(clock), moves))
  {
    if moves != [] {
      hide CachedInv, CachedNext;
      CachedRunKeepsInv(cfg, lifetime, clock, moves[..|moves| - 1]);
      CachedKeepsInv(cfg, lifetime, CachedRun(cfg, lifetime, CachedStart(clock), moves[..|moves| - 1]),
                     moves[|moves| - 1]);
    }
  }

  // ---------------------------------------------------------------------------------------------
  // How long a retired key is still found
  // ---------------------------------------------------------------------------------------------

  /** On every run a retired key is found no later than `delay` after its retirement. */
  ghost predicate FoundNoLaterThan(cfg: Config, lifetime: int, delay: int) {
    forall clock, moves, i ::
      var c := CachedRun(cfg, lifetime, CachedStart(clock), moves);
      0 <= i < |c.answers| && c.answers[i].found && c.answers[i].kid in c.retired ==>
        c.answers[i].at <= c.retired[c.answers[i].kid] + delay
  }

  lemma OneMove(cfg: Config, lifetime: int, c: Cached, moves: seq<Move>, m: Move)
    ensures CachedRun(cfg, lifetime, c, moves + [m]) == CachedNext(cfg, lifetime, CachedRun(cfg, lifetime, c, moves), m)
  {
    assert (moves + [m])[..|moves|] == moves;
  }

  /** A key looked up in the instant of its retirement is served as long as it may be. */
  lemma LastLook(cfg: Config, lifetime: int, at: int)
    requires lifetime >= 1 && at >= 0 && at >= cfg.grace
    ensures var c := Looked(cfg, lifetime, at);
            var retired := CachedNext(cfg, lifetime, c, Ring(Retire(at)));
            var late := CachedNext(cfg, lifetime, retired, Ring(Tick(at + lifetime - 1)));
            var served := CachedNext(cfg, lifetime, late, Serve(Reading(0, true, at)));
            served.retired == map[0 := at] && served.answers == [Answer(0, true, at + lifetime - 1)]
  {
    var c := Looked(cfg, lifetime, at);
    assert c.w.ring == [Retiring(0), Active] && c.retired == map[] && c.readings == {Reading(0, true, at)};
    var retired := CachedNext(cfg, lifetime, c, Ring(Retire(at)));
    assert retired.w.ring == [Retired(0), Active];
    assert retired.retired == map[0 := at];
    var late := CachedNext(cfg, lifetime, retired, Ring(Tick(at + lifetime - 1)));
    assert NewlyRetired(retired.w.ring, late.w.ring, late.w.clock) == map[];
  }

  /** A demoted key, looked up at `at`. */
  function Looked(cfg: Config, lifetime: int, at: int): Cached {
    var created := CachedNext(cfg, lifetime, CachedStart(0), Ring(Bootstrap));
    var rotated := CachedNext(cfg, lifetime, created, Ring(Rotate(0)));
    CachedNext(cfg, lifetime, CachedNext(cfg, lifetime, rotated, Ring(Tick(at))), Look(0))
  }

  lemma SevenMoves(cfg: Config, lifetime: int, c: Cached, m0: Move, m1: Move, m2: Move, m3: Move, m4: Move, m5: Move,
                   m6: Move)
    ensures var c4 := CachedNext(cfg, lifetime, CachedNext(cfg, lifetime, CachedNext(cfg, lifetime,
                        CachedNext(cfg, lifetime, c, m0), m1), m2), m3);
            CachedRun(cfg, lifetime, c, [m0, m1, m2, m3, m4, m5, m6])
            == CachedNext(cfg, lifetime, CachedNext(cfg, lifetime, CachedNext(cfg, lifetime, c4, m4), m5), m6)
  {
    hide CachedNext;
    OneMove(cfg, lifetime, c, [], m0);
    OneMove(cfg, lifetime, c, [m0], m1);
    OneMove(cfg, lifetime, c, [m0, m1], m2);
    OneMove(cfg, lifetime, c, [m0, m1, m2], m3);
    OneMove(cfg, lifetime, c, [m0, m1, m2, m3], m4);
    OneMove(cfg, lifetime, c, [m0, m1, m2, m3, m4], m5);
    OneMove(cfg, lifetime, c, [m0, m1, m2, m3, m4, m5], m6);
    assert [] + [m0] == [m0] && [m0] + [m1] == [m0, m1] && [m0, m1] + [m2] == [m0, m1, m2];
    assert [m0, m1, m2] + [m3] == [m0, m1, m2, m3] && [m0, m1, m2, m3] + [m4] == [m0, m1, m2, m3, m4];
    assert [m0, m1, m2, m3, m4] + [m5] == [m0, m1, m2, m3, m4, m5];
    assert [m0, m1, m2, m3, m4, m5] + [m6] == [m0, m1, m2, m3, m4, m5, m6];
  }

  /** Over all runs retired keys stop being found within an answer's lifetime, and no bound is smaller. */
  lemma FoundAfterRetirementExactly(cfg: Config, lifetime: int, delay: int)
    requires lifetime >= 1
    ensures FoundNoLaterThan(cfg, lifetime, delay) <==> delay >= lifetime - 1
  {
    hide CachedNext, CachedRun, CachedStart, Looked;
    if delay >= lifetime - 1 {
      forall clock, moves, i |
          var c := CachedRun(cfg, lifetime, CachedStart(clock), moves);
          0 <= i < |c.answers| && c.answers[i].found && c.answers[i].kid in c.retired
        ensures var c := CachedRun(cfg, lifetime, CachedStart(clock), moves);
                c.answers[i].at <= c.retired[c.answers[i].kid] + delay
      {
        CachedRunKeepsInv(cfg, lifetime, clock, moves);
      }
    } else {
      var at := if cfg.grace >= 0 then cfg.grace else 0;
      TooLate(cfg, lifetime, at);
      var moves := Moves(lifetime, at);
      var c := CachedRun(cfg, lifetime, CachedStart(0), moves);
      assert c.answers[0].at == c.retired[0] + lifetime - 1;
    }
  }

  function Moves(lifetime: int, at: int): seq<Move> {
    [Ring(Bootstrap), Ring(Rotate(0)), Ring(Tick(at)), Look(0), Ring(Retire(at)), Ring(Tick(at + lifetime - 1)),
     Serve(Reading(0, true, at))]
  }

  lemma TooLate(cfg: Config, lifetime: int, at: int)
    requires lifetime >= 1 && at >= 0 && at >= cfg.grace
    ensures var c := CachedRun(cfg, lifetime, CachedStart(0), Moves(lifetime, at));
            c.retired == map[0 := at] && c.answers == [Answer(0, true, at + lifetime - 1)]
  {
    hide CachedNext, CachedRun;
    LastLook(cfg, lifetime, at);
    SevenMoves(cfg, lifetime, CachedStart(0), Ring(Bootstrap), Ring(Rotate(0)), Ring(Tick(at)), Look(0),
               Ring(Retire(at)), Ring(Tick(at + lifetime - 1)), Serve(Reading(0, true, at)));
  }

  // ---------------------------------------------------------------------------------------------
  // A removal that reaches every copy
  // ---------------------------------------------------------------------------------------------

  /** The key is retired, and no stored answer finds it. */
  ghost predicate Forgotten(c: Cached, kid: Kid) {
    IsRetired(c.w.ring, kid) && forall r :: r in c.readings && r.kid == kid ==> !r.found
  }

  lemma ForgottenStays(cfg: Config, lifetime: int, c: Cached, m: Move, kid: Kid)
    requires Forgotten(c, kid)
    ensures var c' := CachedNext(cfg, lifetime, c, m);
            && Forgotten(c', kid) && c.answers <= c'.answers
            && (forall i :: |c.answers| <= i < |c'.answers| && c'.answers[i].kid == kid ==> !c'.answers[i].found)
  {
    if m.Ring? {
      RingOnward(cfg, c.w, m.e);
    }
    hide Next;
  }

  lemma {:induction false} ForgottenInRun(cfg: Config, lifetime: int, c: Cached, moves: seq<Move>, kid: Kid)
    requires Forgotten(c, kid)
    ensures var c' := CachedRun(cfg, lifetime, c, moves);
            && Forgotten(c', kid) && c.answers <= c'.answers
            && (forall i :: |c.answers| <= i < |c'.answers| && c'.answers[i].kid == kid ==> !c'.answers[i].found)
  {
    hide Forgotten, CachedNext;
    if moves != [] {
      ForgottenInRun(cfg, lifetime, c, moves[..|moves| - 1], kid);
      ForgottenStays(cfg, lifetime, CachedRun(cfg, lifetime, c, moves[..|moves| - 1]), moves[|moves| - 1], kid);
    }
  }

  /** Once its stored answers are all removed, a retired key is never found again. */
  lemma RemovedIsFinal(cfg: Config, lifetime: int, c: Cached, moves: seq<Move>, kid: Kid)
    requires IsRetired(c.w.ring, kid)
    ensures var removed := CachedNext(cfg, lifetime, c, Remove(set r | r in c.readings && r.kid == kid));
            var c' := CachedRun(cfg, lifetime, removed, moves);
            forall i :: |c.answers| <= i < |c'.answers| && c'.answers[i].kid == kid ==> !c'.answers[i].found
  {
    hide CachedRun;
    var removed := CachedNext(cfg, lifetime, c, Remove(set r | r in c.readings && r.kid == kid));
    ForgottenInRun(cfg, lifetime, removed, moves, kid);
  }
}
