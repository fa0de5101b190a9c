/**
  The signing-key ring (Services/Tokens/SigningKeyManager.cs), the issuer that signs with it
  (Services/Tokens/AccessTokenIssuer.cs) and the kid resolver of
  Handlers/Authentication/ConfigureJwtBearerOptions.cs.

  A kid is the hash of a fresh public key and key rows are never deleted, so keys are numbered in
  the order they are created and the kid is that number.
*/
module KeyRing {
  import opened AccessTokens
  import opened Options

  type Kid = nat

  /** A key, with the RetiringAt of a demoted one. */
  datatype Key = Active | Retiring(at: int) | Retired(at: int)

  type Ring = seq<Key>

  datatype Config = Config(jwt: JwtOptions, grace: int)

  datatype Request = Request(session: nat, authenticatedAt: int, methods: seq<Method>)

  datatype Signed = Signed(kid: Kid, issuedAt: int, token: AccessToken)

  /** The ring, the clock, and every token signed and handed out so far. */
  datatype World = World(ring: Ring, clock: int, tokens: seq<Signed>)

  // ---------------------------------------------------------------------------------------------
  // Steps on the ring
  // ---------------------------------------------------------------------------------------------

  /** Exactly the newest key is active. */
  ghost predicate RingValid(ring: Ring) {
    forall i :: 0 <= i < |ring| ==> (ring[i].Active? <==> i == |ring| - 1)
  }

  function GetOrCreate(ring: Ring): Ring {
    if Active in ring then ring else ring + [Active]
  }

  /** RotateAsync with the clock reading it started from. */
  function Rotated(ring: Ring, now: int): Ring {
    seq(|ring|, i requires 0 <= i < |ring| => if ring[i].Active? then Retiring(now) else ring[i]) + [Active]
  }

  function WithoutElapsed(ring: Ring, cutoff: int): Ring {
    seq(|ring|, i requires 0 <= i < |ring| =>
      if ring[i].Retiring? && ring[i].at <= cutoff then Retired(ring[i].at) else ring[i])
  }

  /** The keys among the first `n` that WithoutElapsed retires. */
  ghost function Elapsed(ring: Ring, cutoff: int, n: nat): set<Kid>
    requires n <= |ring|
  {
    set i | 0 <= i < n && ring[i].Retiring? && ring[i].at <= cutoff
  }

  /** Exact match against Active and Retiring; nothing else is tried. */
  predicate Resolves(ring: Ring, kid: Kid) {
    kid < |ring| && !ring[kid].Retired?
  }

  function Sign(cfg: Config, ring: Ring, issuedAt: int, request: Request): Signed
    requires ring != []
  {
    Signed(|ring| - 1, issuedAt,
           Mint(cfg.jwt, request.session, request.authenticatedAt, request.methods, issuedAt))
  }

  datatype Event =
    | Tick(to: int)
    | Bootstrap
    | Rotate(startedAt: int)
    | Retire(startedAt: int)
    | Issue(issuedAt: int, request: Request)

  function Next(cfg: Config, w: World, e: Event): World {
    match e
    case Tick(to) => if w.clock <= to then w.(clock := to) else w
    case Bootstrap => w.(ring := GetOrCreate(w.ring))
    case Rotate(startedAt) => w.(ring := Rotated(w.ring, startedAt))
    case Retire(startedAt) => w.(ring := WithoutElapsed(w.ring, startedAt - cfg.grace))
    case Issue(issuedAt, request) =>
      var ring := GetOrCreate(w.ring);
      w.(ring := ring, tokens := w.tokens + [Sign(cfg, ring, issuedAt, request)])
  }

  function Run(cfg: Config, w: World, events: seq<Event>): World {
    if events == [] then w
    else Next(cfg, Run(cfg, w, events[..|events| - 1]), events[|events| - 1])
  }

  // ---------------------------------------------------------------------------------------------
  // The services
  // ---------------------------------------------------------------------------------------------

  /** What other callers do while one attempt runs: before it reads the kid, and before it signs. */
  datatype Round = Round(beforeRead: seq<Event>, beforeSign: seq<Event>)

  const ATTEMPTS := 3

  function Read(cfg: Config, w: World, round: Round): World {
    Next(cfg, Run(cfg, w, round.beforeRead), Bootstrap)
  }

  function Resume(cfg: Config, w: World, round: Round): World {
    Next(cfg, Run(cfg, Read(cfg, w, round), round.beforeSign), Bootstrap)
  }

  /** An issuer that gives up when its rounds are used up. */
  function IssueIn(cfg: Config, w: World, rounds: seq<Round>, issuedAt: int, request: Request): (World, Option<Signed>)
    decreases |rounds|
  {
    if rounds == [] then (w, None)
    else
      var read, resumed := Read(cfg, w, rounds[0]), Resume(cfg, w, rounds[0]);
      if |read.ring| != |resumed.ring| then IssueIn(cfg, resumed, rounds[1..], issuedAt, request)
      else
        var done := Next(cfg, resumed, Issue(issuedAt, request));
        (done, Some(done.tokens[|done.tokens| - 1]))
  }

  class SigningKeyManager {
    const cfg: Config
    var ring: Ring
    var clock: int
    ghost var tokens: seq<Signed>

    constructor (cfg: Config, clock: int)
      ensures this.cfg == cfg && Contents() == World([], clock, []) && RingValid(ring)
    {
      this.cfg, this.clock := cfg, clock;
      ring, tokens := [], [];
    }

    ghost function Contents(): World
      reads this
    {
      World(ring, clock, tokens)
    }

    method GetOrCreateActiveKey() returns (kid: Kid)
      requires RingValid(ring)
      modifies this
      ensures Contents() == Next(cfg, old(Contents()), Bootstrap) && RingValid(ring)
      ensures kid < |ring| && ring[kid].Active?
    {
      if Active in ring {
        kid := |ring| - 1;
        assert ring[kid].Active? by {
          var i :| 0 <= i < |ring| && ring[i].Active?;
        }
      } else {
        kid := |ring|;
        ring := ring + [Active];
      }
    }

    /** `now` is the clock as read on entry. */
    method RotateAsync(now: int) returns (kid: Kid)
      requires RingValid(ring)
      modifies this
      ensures Contents() == Next(cfg, old(Contents()), Rotate(now)) && RingValid(ring)
      ensures kid == |old(ring)| < |ring| && ring[kid].Active?
    {
      kid := |ring|;
      if ring != [] {
        ring := ring[|ring| - 1 := Retiring(now)];
      }
      ring := ring + [Active];
      assert ring == Rotated(old(ring), now);
    }

    method RetireElapsedKeys(now: int) returns (count: nat)
      requires RingValid(ring)
      modifies this
      ensures Contents() == Next(cfg, old(Contents()), Retire(now)) && RingValid(ring)
      ensures count == |Elapsed(old(ring), now - cfg.grace, |old(ring)|)|
    {
      var cutoff := now - cfg.grace;
      count := 0;
      var i := 0;
      while i < |ring|
        invariant 0 <= i <= |ring| == |old(ring)|
        invariant clock == old(clock) && tokens == old(tokens)
        invariant forall k :: 0 <= k < i ==> ring[k] == WithoutElapsed(old(ring), cutoff)[k]
        invariant forall k :: i <= k < |ring| ==> ring[k] == old(ring)[k]
        invariant count == |Elapsed(old(ring), cutoff, i)|
      {
        if ring[i].Retiring? && ring[i].at <= cutoff {
          ring := ring[i := Retired(ring[i].at)];
          count := count + 1;
          assert Elapsed(old(ring), cutoff, i + 1) == Elapsed(old(ring), cutoff, i) + {i};
        } else {
          assert Elapsed(old(ring), cutoff, i + 1) == Elapsed(old(ring), cutoff, i);
        }
        i := i + 1;
      }
      assert ring == WithoutElapsed(old(ring), cutoff);
    }

    method ResolveValidationKey(kid: Kid) returns (found: bool)
      ensures found <==> Resolves(ring, kid)
    {
      found := kid < |ring| && (ring[kid].Active? || ring[kid].Retiring?);
    }

    /** Steps of other replicas and of the maintenance command, one after another. */
    method Interleave(events: seq<Event>)
      requires RingValid(ring)
      modifies this
      ensures Contents() == Run(cfg, old(Contents()), events) && RingValid(ring)
    {
      var i := 0;
      while i < |events|
        invariant 0 <= i <= |events|
        invariant Contents() == Run(cfg, old(Contents()), events[..i]) && RingValid(ring)
      {
        assert events[..i + 1][..i] == events[..i];
        match events[i] {
          case Tick(to) => clock := if clock <= to then to else clock;
          case Bootstrap => var _ := GetOrCreateActiveKey();
          case Rotate(startedAt) => var _ := RotateAsync(startedAt);
          case Retire(startedAt) => var _ := RetireElapsedKeys(startedAt);
          case Issue(issuedAt, request) =>
            var kid := GetOrCreateActiveKey();
            ghost var signed := Sign(cfg, ring, issuedAt, request);
            tokens := tokens + [signed];
        }
        i := i + 1;
      }
      assert events[..i] == events;
    }

    /** IssueAsync; None stands for the exception after the last attempt. */
    method IssueAccessToken(issuedAt: int, request: Request, rounds: seq<Round>) returns (issued: Option<Signed>)
      requires RingValid(ring) && |rounds| == ATTEMPTS
      modifies this
      ensures (Contents(), issued) == IssueIn(cfg, old(Contents()), rounds, issuedAt, request) && RingValid(ring)
    {
      var attempt := 0;
      while attempt < ATTEMPTS
        invariant 0 <= attempt <= ATTEMPTS && RingValid(ring)
        invariant IssueIn(cfg, old(Contents()), rounds, issuedAt, request)
               == IssueIn(cfg, Contents(), rounds[attempt..], issuedAt, request)
      {
        assert rounds[attempt..][1..] == rounds[attempt + 1..];
        Interleave(rounds[attempt].beforeRead);
        var kid := GetOrCreateActiveKey();
        Interleave(rounds[attempt].beforeSign);
        var signer := GetOrCreateActiveKey();
        if signer == kid {
          var signed := Sign(cfg, ring, issuedAt, request);
          tokens := tokens + [signed];
          return Some(signed);
        }
        attempt := attempt + 1;
      }
      issued := None;
    }
  }

  // ---------------------------------------------------------------------------------------------
  // The retry loop
  // ---------------------------------------------------------------------------------------------

  predicate HasRotation(events: seq<Event>) {
    exists i :: 0 <= i < |events| && events[i].Rotate?
  }

  /** On a ring with an active key, a run keeps that key active exactly when nobody rotates. */
  lemma {:induction false} KeyKeptUnlessRotated(cfg: Config, w: World, events: seq<Event>)
    requires RingValid(w.ring) && w.ring != []
    ensures RingValid(Run(cfg, w, events).ring)
    ensures |w.ring| <= |Run(cfg, w, events).ring|
    ensures |w.ring| == |Run(cfg, w, events).ring| <==> !HasRotation(events)
  {
    if events != [] {
      var last := |events| - 1;
      var before := Run(cfg, w, events[..last]);
      KeyKeptUnlessRotated(cfg, w, events[..last]);
      NextKeepsRing(cfg, before, events[last]);
      RotationLast(events);
    }
  }

  lemma RotationLast(events: seq<Event>)
    requires events != []
    ensures HasRotation(events) <==> HasRotation(events[..|events| - 1]) || events[|events| - 1].Rotate?
  {
    assert forall i :: 0 <= i < |events| - 1 ==> events[..|events| - 1][i] == events[i];
  }

  lemma NextKeepsRing(cfg: Config, w: World, e: Event)
    requires RingValid(w.ring)
    ensures RingValid(Next(cfg, w, e).ring)
    ensures w.ring != [] ==> |Next(cfg, w, e).ring| == |w.ring| + if e.Rotate? then 1 else 0
  {
    if w.ring != [] {
      assert w.ring[|w.ring| - 1].Active?;
    }
  }

  lemma {:induction false} RunKeepsRing(cfg: Config, w: World, events: seq<Event>)
    requires RingValid(w.ring)
    ensures RingValid(Run(cfg, w, events).ring)
  {
    if events != [] {
      RunKeepsRing(cfg, w, events[..|events| - 1]);
      NextKeepsRing(cfg, Run(cfg, w, events[..|events| - 1]), events[|events| - 1]);
    }
  }

  lemma RoundReadsActive(cfg: Config, w: World, round: Round)
    requires RingValid(w.ring)
    ensures RingValid(Read(cfg, w, round).ring) && Read(cfg, w, round).ring != []
    ensures RingValid(Resume(cfg, w, round).ring) && Resume(cfg, w, round).ring != []
    ensures |Read(cfg, w, round).ring| == |Resume(cfg, w, round).ring| <==> !HasRotation(round.beforeSign)
  {
    RunKeepsRing(cfg, w, round.beforeRead);
    NextKeepsRing(cfg, Run(cfg, w, round.beforeRead), Bootstrap);
    var read := Read(cfg, w, round);
    KeyKeptUnlessRotated(cfg, read, round.beforeSign);
    NextKeepsRing(cfg, Run(cfg, read, round.beforeSign), Bootstrap);
  }

  lemma SignedSays(cfg: Config, ring: Ring, issuedAt: int, request: Request)
    requires ring != []
    ensures Says(cfg.jwt, Sign(cfg, ring, issuedAt, request).token, request.session, request.authenticatedAt,
                 request.methods, issuedAt)
  {
    MintedExactly(cfg.jwt, Sign(cfg, ring, issuedAt, request).token, request.session, request.authenticatedAt,
                  request.methods, issuedAt);
  }

  /**
    Issuing fails exactly when the ring was rotated between the read and the signature in every
    attempt. A token that is returned names the key that signed it, which is then the active key, and
    carries the request's claims.
  */
  lemma {:induction false} IssueExactly(cfg: Config, w: World, rounds: seq<Round>, issuedAt: int, request: Request)
    requires RingValid(w.ring)
    ensures var (after, issued) := IssueIn(cfg, w, rounds, issuedAt, request);
            && RingValid(after.ring)
            && (issued.None? <==> forall i :: 0 <= i < |rounds| ==> HasRotation(rounds[i].beforeSign))
            && (issued.Some? ==>
                  && issued.value.kid < |after.ring| && after.ring[issued.value.kid].Active?
                  && issued.value.issuedAt == issuedAt && after.tokens != []
                  && after.tokens[|after.tokens| - 1] == issued.value
                  && Says(cfg.jwt, issued.value.token, request.session, request.authenticatedAt, request.methods,
                          issuedAt))
    decreases |rounds|
  {
    if rounds != [] {
      var read, resumed := Read(cfg, w, rounds[0]), Resume(cfg, w, rounds[0]);
      RoundReadsActive(cfg, w, rounds[0]);
      if |read.ring| != |resumed.ring| {
        IssueExactly(cfg, resumed, rounds[1..], issuedAt, request);
        assert forall i :: 1 <= i < |rounds| ==> rounds[i] == rounds[1..][i - 1];
      } else {
        NextKeepsRing(cfg, resumed, Issue(issuedAt, request));
        SignedSays(cfg, GetOrCreate(resumed.ring), issuedAt, request);
        assert !HasRotation(rounds[0].beforeSign);
      }
    }
  }

  lemma {:induction false} RunAppend(cfg: Config, w: World, first: seq<Event>, second: seq<Event>)
    ensures Run(cfg, w, first + second) == Run(cfg, Run(cfg, w, first), second)
  {
    if second == [] {
      assert first + second == first;
    } else {
      var last := |second| - 1;
      RunAppend(cfg, w, first, second[..last]);
      assert (first + second)[..|first| + last] == first + second[..last];
    }
  }

  /** The steps of one failed attempt. */
  function Steps(round: Round): seq<Event> {
    round.beforeRead + [Bootstrap] + round.beforeSign + [Bootstrap]
  }

  lemma ResumeIsRun(cfg: Config, w: World, round: Round)
    ensures Resume(cfg, w, round) == Run(cfg, w, Steps(round))
  {
    assert forall v: World, e :: Run(cfg, v, [e]) == Next(cfg, v, e) by {
      assert forall e: Event :: [e][..0] == [];
    }
    RunAppend(cfg, w, round.beforeRead, [Bootstrap]);
    RunAppend(cfg, w, round.beforeRead + [Bootstrap], round.beforeSign);
    RunAppend(cfg, w, round.beforeRead + [Bootstrap] + round.beforeSign, [Bootstrap]);
  }

  /** Issuing is a run of ordinary steps, so what holds of every run holds of it. */
  lemma {:induction false} IssueIsRun(cfg: Config, w: World, rounds: seq<Round>, issuedAt: int, request: Request)
      returns (events: seq<Event>)
    ensures IssueIn(cfg, w, rounds, issuedAt, request).0 == Run(cfg, w, events)
    ensures IssueIn(cfg, w, rounds, issuedAt, request).1.Some? ==>
              events != [] && events[|events| - 1] == Issue(issuedAt, request)
    decreases |rounds|
  {
    if rounds == [] {
      events := [];
    } else {
      var read, resumed := Read(cfg, w, rounds[0]), Resume(cfg, w, rounds[0]);
      ResumeIsRun(cfg, w, rounds[0]);
      if |read.ring| != |resumed.ring| {
        var rest := IssueIsRun(cfg, resumed, rounds[1..], issuedAt, request);
        events := Steps(rounds[0]) + rest;
        RunAppend(cfg, w, Steps(rounds[0]), rest);
      } else {
        events := Steps(rounds[0]) + [Issue(issuedAt, request)];
        RunAppend(cfg, w, Steps(rounds[0]), [Issue(issuedAt, request)]);
        assert [Issue(issuedAt, request)][..0] == [];
      }
    }
  }

  /** A retired key never resolves again. */
  lemma {:induction false} RetirementIsFinal(cfg: Config, w: World, events: seq<Event>, kid: Kid)
    requires kid < |w.ring| && w.ring[kid].Retired?
    ensures kid < |Run(cfg, w, events).ring| && !Resolves(Run(cfg, w, events).ring, kid)
  {
    if events != [] {
      RetirementIsFinal(cfg, w, events[..|events| - 1], kid);
    }
  }

  // ---------------------------------------------------------------------------------------------
  // Verification across rotation
  // ---------------------------------------------------------------------------------------------

  /**
    Clock readings a step may act on: never from the future, and a rotation commits within `lag` of
    the reading it records as RetiringAt.
  */
  ghost predicate Timely(w: World, e: Event, lag: nat) {
    match e
    case Rotate(startedAt) => startedAt <= w.clock <= startedAt + lag
    case Retire(startedAt) => startedAt <= w.clock
    case Issue(issuedAt, _) => issuedAt <= w.clock
    case _ => true
  }

  ghost predicate TimelyRun(cfg: Config, w: World, events: seq<Event>, lag: nat) {
    forall i :: 0 <= i < |events| ==> Timely(Run(cfg, w, events[..i]), events[i], lag)
  }

  function Start(clock: int): World {
    World([], clock, [])
  }

  /** A key that may not sign any more was demoted at most `lag` before its last token's iat. */
  ghost predicate Covered(cfg: Config, w: World, signed: Signed, lag: nat) {
    && signed.token.expiresAt <= signed.issuedAt + cfg.jwt.lifetime
    && signed.issuedAt <= w.clock
    && signed.kid < |w.ring|
    && (w.ring[signed.kid].Retiring? ==> signed.issuedAt <= w.ring[signed.kid].at + lag)
    && (w.ring[signed.kid].Retired? ==>
          && signed.issuedAt <= w.ring[signed.kid].at + lag
          && w.ring[signed.kid].at + cfg.grace <= w.clock)
  }

  ghost predicate Inv(cfg: Config, w: World, lag: nat) {
    && RingValid(w.ring)
    && forall i :: 0 <= i < |w.tokens| ==> Covered(cfg, w, w.tokens[i], lag)
  }

  lemma StaysCovered(cfg: Config, w: World, e: Event, signed: Signed, lag: nat)
    requires RingValid(w.ring) && Timely(w, e, lag) && Covered(cfg, w, signed, lag)
    ensures Covered(cfg, Next(cfg, w, e), signed, lag)
  {
  }

  lemma NextKeepsInv(cfg: Config, w: World, e: Event, lag: nat)
    requires Inv(cfg, w, lag) && Timely(w, e, lag)
    ensures Inv(cfg, Next(cfg, w, e), lag)
  {
    NextKeepsRing(cfg, w, e);
    var after := Next(cfg, w, e);
    forall i | 0 <= i < |after.tokens|
      ensures Covered(cfg, after, after.tokens[i], lag)
    {
      if i < |w.tokens| {
        StaysCovered(cfg, w, e, w.tokens[i], lag);
      } else {
        var end := e.issuedAt + cfg.jwt.lifetime;
        assert end == end / TICKS_PER_SECOND * TICKS_PER_SECOND + end % TICKS_PER_SECOND;
      }
    }
  }

  lemma {:induction false} RunKeepsInv(cfg: Config, w: World, events: seq<Event>, lag: nat)
    requires Inv(cfg, w, lag) && TimelyRun(cfg, w, events, lag)
    ensures Inv(cfg, Run(cfg, w, events), lag)
  {
    if events != [] {
      var last := |events| - 1;
      assert forall i :: 0 <= i < last ==> events[..last][..i] == events[..i] && events[..last][i] == events[i];
      RunKeepsInv(cfg, w, events[..last], lag);
      NextKeepsInv(cfg, Run(cfg, w, events[..last]), events[last], lag);
    }
  }

  /** Every token that passes the lifetime check at the world's instant also finds its key. */
  ghost predicate Verifiable(cfg: Config, w: World) {
    forall i :: 0 <= i < |w.tokens| && Passes(cfg.jwt, w.tokens[i].token, w.clock) ==>
      Resolves(w.ring, w.tokens[i].kid)
  }

  ghost predicate AlwaysVerifiable(cfg: Config, lag: nat) {
    forall clock, events :: TimelyRun(cfg, Start(clock), events, lag) ==>
      Verifiable(cfg, Run(cfg, Start(clock), events))
  }

  predicate GraceCovers(cfg: Config, lag: nat) {
    cfg.grace > cfg.jwt.lifetime + cfg.jwt.skew + lag
  }

  lemma CoveredRunsVerify(cfg: Config, clock: int, events: seq<Event>, lag: nat)
    requires GraceCovers(cfg, lag) && TimelyRun(cfg, Start(clock), events, lag)
    ensures Verifiable(cfg, Run(cfg, Start(clock), events))
  {
    RunKeepsInv(cfg, Start(clock), events, lag);
  }

  /** A token signed just before its key is demoted, and the key retired as soon as it may be. */
  function EarlyRetirement(cfg: Config, issuedAt: int, lag: nat): seq<Event> {
    [Bootstrap, Issue(issuedAt, Request(0, issuedAt, [])), Rotate(issuedAt - lag),
     Tick(issuedAt + cfg.jwt.lifetime + cfg.jwt.skew), Retire(issuedAt + cfg.jwt.lifetime + cfg.jwt.skew)]
  }

  lemma EarlyRetirementRun(cfg: Config, issuedAt: int, lag: nat)
    requires ValidJwt(cfg.jwt) && !GraceCovers(cfg, lag)
    ensures var w := Run(cfg, Start(issuedAt), EarlyRetirement(cfg, issuedAt, lag));
            && TimelyRun(cfg, Start(issuedAt), EarlyRetirement(cfg, issuedAt, lag), lag)
            && w.ring == [Retired(issuedAt - lag), Active]
            && w.clock == issuedAt + cfg.jwt.lifetime + cfg.jwt.skew
            && w.tokens == [Sign(cfg, [Active], issuedAt, Request(0, issuedAt, []))]
  {
    hide Run, Timely, Sign;
    var events := EarlyRetirement(cfg, issuedAt, lag);
    var w := Start(issuedAt);
    NotStarted(cfg, w, events);
    RunPrefix(cfg, w, events, 0);
    RunPrefix(cfg, w, events, 1);
    RunPrefix(cfg, w, events, 2);
    RunPrefix(cfg, w, events, 3);
    RunPrefix(cfg, w, events, 4);
    assert events[..5] == events;
    EarlyRetirementSteps(cfg, issuedAt, lag);
  }

  lemma NotStarted(cfg: Config, w: World, events: seq<Event>)
    ensures Run(cfg, w, events[..0]) == w
  {
  }

  lemma RunPrefix(cfg: Config, w: World, events: seq<Event>, k: nat)
    requires k < |events|
    ensures Run(cfg, w, events[..k + 1]) == Next(cfg, Run(cfg, w, events[..k]), events[k])
  {
    assert events[..k + 1][..k] == events[..k];
  }

  lemma EarlyRetirementSteps(cfg: Config, issuedAt: int, lag: nat)
    requires ValidJwt(cfg.jwt) && !GraceCovers(cfg, lag)
    ensures var events, end := EarlyRetirement(cfg, issuedAt, lag), issuedAt + cfg.jwt.lifetime + cfg.jwt.skew;
            var w1 := Next(cfg, Start(issuedAt), events[0]);
            var w2 := Next(cfg, w1, events[1]);
            var w3 := Next(cfg, w2, events[2]);
            var w4 := Next(cfg, w3, events[3]);
            && Timely(Start(issuedAt), events[0], lag) && Timely(w1, events[1], lag) && Timely(w2, events[2], lag)
            && Timely(w3, events[3], lag) && Timely(w4, events[4], lag)
            && Next(cfg, w4, events[4]) ==
               World([Retired(issuedAt - lag), Active], end, [Sign(cfg, [Active], issuedAt, Request(0, issuedAt, []))])
  {
    hide Sign;
    var events := EarlyRetirement(cfg, issuedAt, lag);
    var w1 := Next(cfg, Start(issuedAt), events[0]);
    assert w1.ring == [Active];
    var w3 := Next(cfg, Next(cfg, w1, events[1]), events[2]);
    assert w3.ring == [Retiring(issuedAt - lag), Active];
  }

  lemma ShortGraceLosesToken(cfg: Config, lag: nat)
    requires ValidJwt(cfg.jwt) && !GraceCovers(cfg, lag)
    ensures !AlwaysVerifiable(cfg, lag)
  {
    var issuedAt := -cfg.jwt.lifetime;
    assert WholeSeconds(issuedAt + cfg.jwt.lifetime) == 0;
    EarlyRetirementRun(cfg, issuedAt, lag);
    var w := Run(cfg, Start(issuedAt), EarlyRetirement(cfg, issuedAt, lag));
    assert Passes(cfg.jwt, w.tokens[0].token, w.clock) && !Resolves(w.ring, w.tokens[0].kid);
  }

  /**
    Issued tokens find their key at every instant they pass the lifetime check, over all runs,
    exactly when the grace exceeds lifetime + skew by more than a rotation may take to commit.
  */
  lemma VerifiableExactly(cfg: Config, lag: nat)
    requires ValidJwt(cfg.jwt)
    ensures AlwaysVerifiable(cfg, lag) <==> GraceCovers(cfg, lag)
  {
    if GraceCovers(cfg, lag) {
      forall clock, events | TimelyRun(cfg, Start(clock), events, lag)
        ensures Verifiable(cfg, Run(cfg, Start(clock), events))
      {
        CoveredRunsVerify(cfg, clock, events, lag);
      }
    } else {
      ShortGraceLosesToken(cfg, lag);
    }
  }

  /** JwtOptionsValidator accepts a grace of exactly lifetime + skew, which is one instant short. */
  predicate ValidatorAccepts(cfg: Config) {
    ValidJwt(cfg.jwt) && cfg.grace >= cfg.jwt.lifetime + cfg.jwt.skew
  }

  lemma ValidatorBoundary(cfg: Config)
    requires ValidatorAccepts(cfg)
    ensures AlwaysVerifiable(cfg, 0) <==> cfg.grace != cfg.jwt.lifetime + cfg.jwt.skew
  {
    VerifiableExactly(cfg, 0);
  }

  const MINUTE := 60 * TICKS_PER_SECOND

  /** The defaults leave a rotation any time short of four and a half minutes to commit. */
  lemma DefaultsTolerate(lag: nat)
    ensures AlwaysVerifiable(Config(JwtOptions(15 * MINUTE, MINUTE / 2), 20 * MINUTE), lag)
            <==> 2 * lag < 9 * MINUTE
  {
    VerifiableExactly(Config(JwtOptions(15 * MINUTE, MINUTE / 2), 20 * MINUTE), lag);
  }
}
