/**
  The periodic cleanup of BackgroundServices/ExpiredAuthArtifactCleanupService.cs: one bounded batch
  per table and pass. Verification tokens and audit entries appear with the columns the deletes
  read; key retirement, the last step of a pass, is in module KeyRing.
*/
module Cleanup {
  import opened Options
  import opened Sessions
  import opened Batches

  datatype Verification = Verification(expiresAt: int, consumed: bool)

  datatype Tables = Tables(db: Db, verifications: map<Id, Verification>, audit: map<Id, int>)

  function TokenCandidates(tokens: map<Id, RefreshToken>, now: int): map<Id, int> {
    map i | i in tokens && tokens[i].expiresAt <= now :: tokens[i].expiresAt
  }

  function SessionCandidates(sessions: map<Id, Session>, now: int): map<Id, int> {
    map i | i in sessions && sessions[i].absoluteExpiresAt <= now :: sessions[i].absoluteExpiresAt
  }

  function VerificationCandidates(verifications: map<Id, Verification>, now: int): map<Id, int> {
    map i | i in verifications && (verifications[i].expiresAt <= now || verifications[i].consumed) ::
      verifications[i].expiresAt
  }

  function AuditCandidates(audit: map<Id, int>, cutoff: int): map<Id, int> {
    map i | i in audit && audit[i] <= cutoff :: audit[i]
  }

  datatype Batch = Batch(tokens: set<Id>, sessions: set<Id>, verifications: set<Id>, audit: set<Id>)

  datatype Config = Config(batchSize: nat, auditRetention: int)

  function Delete(t: Tables, b: Batch): Tables {
    Tables(DeleteSessions(DeleteTokens(t.db, b.tokens), b.sessions),
           map i | i in t.verifications && i !in b.verifications :: t.verifications[i],
           map i | i in t.audit && i !in b.audit :: t.audit[i])
  }

  /** The batches one pass may choose. */
  ghost predicate IsPass(cfg: Config, t: Tables, b: Batch, now: int) {
    && IsBatch(TokenCandidates(t.db.tokens, now), cfg.batchSize, b.tokens)
    && IsBatch(SessionCandidates(t.db.sessions, now), cfg.batchSize, b.sessions)
    && IsBatch(VerificationCandidates(t.verifications, now), cfg.batchSize, b.verifications)
    && IsBatch(AuditCandidates(t.audit, now - cfg.auditRetention), cfg.batchSize, b.audit)
  }

  /** The four tables the worker cleans. */
  class ArtifactStore {
    const cfg: Config
    var db: Db
    var verifications: map<Id, Verification>
    var audit: map<Id, int>

    constructor (cfg: Config, db: Db)
      ensures this.cfg == cfg && Snapshot() == Tables(db, map[], map[])
    {
      this.cfg := cfg;
      this.db := db;
      verifications, audit := map[], map[];
    }

    function Snapshot(): Tables
      reads this
    {
      Tables(db, verifications, audit)
    }

    method DeleteRefreshTokens(now: int) returns (ids: set<Id>)
      modifies this`db
      ensures IsBatch(TokenCandidates(old(db).tokens, now), cfg.batchSize, ids)
      ensures db == DeleteTokens(old(db), ids)
    {
      ids := Take(TokenCandidates(db.tokens, now), cfg.batchSize);
      db := DeleteTokens(db, ids);
    }

    method DeleteExpiredSessions(now: int) returns (ids: set<Id>)
      modifies this`db
      ensures IsBatch(SessionCandidates(old(db).sessions, now), cfg.batchSize, ids)
      ensures db == DeleteSessions(old(db), ids)
    {
      ids := Take(SessionCandidates(db.sessions, now), cfg.batchSize);
      db := DeleteSessions(db, ids);
    }

    method DeleteVerificationTokens(now: int) returns (ids: set<Id>)
      modifies this`verifications
      ensures IsBatch(VerificationCandidates(old(verifications), now), cfg.batchSize, ids)
      ensures verifications == map i | i in old(verifications) && i !in ids :: old(verifications)[i]
    {
      ids := Take(VerificationCandidates(verifications, now), cfg.batchSize);
      verifications := map i | i in verifications && i !in ids :: verifications[i];
    }

    method DeleteAuditEntries(cutoff: int) returns (ids: set<Id>)
      modifies this`audit
      ensures IsBatch(AuditCandidates(old(audit), cutoff), cfg.batchSize, ids)
      ensures audit == map i | i in old(audit) && i !in ids :: old(audit)[i]
    {
      ids := Take(AuditCandidates(audit, cutoff), cfg.batchSize);
      audit := map i | i in audit && i !in ids :: audit[i];
    }

    method CleanupOnce(now: int) returns (b: Batch)
      modifies this
      ensures IsPass(cfg, old(Snapshot()), b, now)
      ensures Snapshot() == Delete(old(Snapshot()), b)
    {
      hide IsBatch, TokenCandidates, SessionCandidates, VerificationCandidates, AuditCandidates;
      var tokens := DeleteRefreshTokens(now);
      var sessions := DeleteExpiredSessions(now);
      var verifying := DeleteVerificationTokens(now);
      var entries := DeleteAuditEntries(now - cfg.auditRetention);
      b := Batch(tokens, sessions, verifying, entries);
    }
  }

  // ---------------------------------------------------------------------------------------------
  // Draining
  // ---------------------------------------------------------------------------------------------

  datatype Backlog = Backlog(tokens: nat, sessions: nat, verifications: nat, audit: nat)

  /** How many rows of each table are eligible. */
  function Eligible(cfg: Config, t: Tables, now: int): Backlog {
    Backlog(|TokenCandidates(t.db.tokens, now).Keys|, |SessionCandidates(t.db.sessions, now).Keys|,
            |VerificationCandidates(t.verifications, now).Keys|,
            |AuditCandidates(t.audit, now - cfg.auditRetention).Keys|)
  }

  function Minus(n: nat, k: nat): nat {
    if n <= k then 0 else n - k
  }

  lemma SubsetSize(a: set<Id>, b: set<Id>)
    requires a <= b
    ensures |b - a| == |b| - |a| && |a| <= |b|
  {
    assert b == a + (b - a);
  }

  lemma AtMostRemaining(candidates: map<Id, int>, size: nat, ids: set<Id>, rest: map<Id, int>)
    requires IsBatch(candidates, size, ids) && rest.Keys <= candidates.Keys - ids
    ensures |rest.Keys| <= Minus(|candidates.Keys|, size)
  {
    SubsetSize(ids, candidates.Keys);
    SubsetSize(rest.Keys, candidates.Keys - ids);
  }

  lemma Remaining(candidates: map<Id, int>, size: nat, ids: set<Id>, rest: map<Id, int>)
    requires IsBatch(candidates, size, ids) && rest.Keys == candidates.Keys - ids
    ensures |rest.Keys| == Minus(|candidates.Keys|, size)
  {
    SubsetSize(ids, candidates.Keys);
  }

  /** A pass deletes eligible rows only, except tokens cascaded from an eligible session. */
  lemma PassDeletesEligible(cfg: Config, t: Tables, b: Batch, now: int)
    requires IsPass(cfg, t, b, now)
    ensures var t' := Delete(t, b);
            && (forall s :: s in t.db.sessions && s !in t'.db.sessions ==> t.db.sessions[s].absoluteExpiresAt <= now)
            && (forall i :: i in t.db.tokens && i !in t'.db.tokens ==>
                  t.db.tokens[i].expiresAt <= now || t.db.tokens[i].session in b.sessions)
            && (forall i :: i in t.verifications && i !in t'.verifications ==>
                  t.verifications[i].expiresAt <= now || t.verifications[i].consumed)
            && (forall i :: i in t.audit && i !in t'.audit ==> t.audit[i] <= now - cfg.auditRetention)
  {
  }

  /** Each table's batch is its oldest eligible rows: what is left of them is no older than what was taken. */
  lemma PassTakesOldest(cfg: Config, t: Tables, b: Batch, now: int)
    requires IsPass(cfg, t, b, now)
    ensures forall i, j :: i in b.tokens && j in t.db.tokens && j !in b.tokens && t.db.tokens[j].expiresAt <= now ==>
              i in t.db.tokens && t.db.tokens[i].expiresAt <= t.db.tokens[j].expiresAt
    ensures forall i, j :: i in b.sessions && j in t.db.sessions && j !in b.sessions
                           && t.db.sessions[j].absoluteExpiresAt <= now ==>
              i in t.db.sessions && t.db.sessions[i].absoluteExpiresAt <= t.db.sessions[j].absoluteExpiresAt
    ensures forall i, j :: i in b.verifications && j in t.verifications && j !in b.verifications
                           && (t.verifications[j].expiresAt <= now || t.verifications[j].consumed) ==>
              i in t.verifications && t.verifications[i].expiresAt <= t.verifications[j].expiresAt
    ensures forall i, j :: i in b.audit && j in t.audit && j !in b.audit && t.audit[j] <= now - cfg.auditRetention ==>
              i in t.audit && t.audit[i] <= t.audit[j]
  {
    hide IsBatch, TokenCandidates, SessionCandidates, VerificationCandidates, AuditCandidates;
    TokensOldest(t, b.tokens, now, cfg.batchSize);
    SessionsOldest(t, b.sessions, now, cfg.batchSize);
    VerificationsOldest(t, b.verifications, now, cfg.batchSize);
    AuditOldest(t, b.audit, now - cfg.auditRetention, cfg.batchSize);
  }

  lemma TokensOldest(t: Tables, ids: set<Id>, now: int, size: nat)
    requires IsBatch(TokenCandidates(t.db.tokens, now), size, ids)
    ensures forall i, j :: i in ids && j in t.db.tokens && j !in ids && t.db.tokens[j].expiresAt <= now ==>
              i in t.db.tokens && t.db.tokens[i].expiresAt <= t.db.tokens[j].expiresAt
  {
    OldestFirst(TokenCandidates(t.db.tokens, now), size, ids);
  }

  lemma SessionsOldest(t: Tables, ids: set<Id>, now: int, size: nat)
    requires IsBatch(SessionCandidates(t.db.sessions, now), size, ids)
    ensures forall i, j :: i in ids && j in t.db.sessions && j !in ids && t.db.sessions[j].absoluteExpiresAt <= now ==>
              i in t.db.sessions && t.db.sessions[i].absoluteExpiresAt <= t.db.sessions[j].absoluteExpiresAt
  {
    OldestFirst(SessionCandidates(t.db.sessions, now), size, ids);
  }

  lemma VerificationsOldest(t: Tables, ids: set<Id>, now: int, size: nat)
    requires IsBatch(VerificationCandidates(t.verifications, now), size, ids)
    ensures forall i, j :: i in ids && j in t.verifications && j !in ids
                           && (t.verifications[j].expiresAt <= now || t.verifications[j].consumed) ==>
              i in t.verifications && t.verifications[i].expiresAt <= t.verifications[j].expiresAt
  {
    OldestFirst(VerificationCandidates(t.verifications, now), size, ids);
  }

  lemma AuditOldest(t: Tables, ids: set<Id>, cutoff: int, size: nat)
    requires IsBatch(AuditCandidates(t.audit, cutoff), size, ids)
    ensures forall i, j :: i in ids && j in t.audit && j !in ids && t.audit[j] <= cutoff ==>
              i in t.audit && t.audit[i] <= t.audit[j]
  {
    OldestFirst(AuditCandidates(t.audit, cutoff), size, ids);
  }

  lemma OldestFirst(candidates: map<Id, int>, size: nat, ids: set<Id>)
    requires IsBatch(candidates, size, ids)
    ensures forall i, j :: i in ids && j in candidates && j !in ids ==>
              i in candidates && candidates[i] <= candidates[j]
  {
  }

  /** `k` taken off every backlog; the token backlog may lose more to the session cascade. */
  ghost predicate Shrunk(e: Backlog, e': Backlog, k: nat) {
    && e'.tokens <= Minus(e.tokens, k)
    && e'.sessions == Minus(e.sessions, k)
    && e'.verifications == Minus(e.verifications, k)
    && e'.audit == Minus(e.audit, k)
  }

  lemma TokensShrink(t: Tables, b: Batch, now: int, size: nat)
    requires IsBatch(TokenCandidates(t.db.tokens, now), size, b.tokens)
    ensures |TokenCandidates(Delete(t, b).db.tokens, now).Keys| <= Minus(|TokenCandidates(t.db.tokens, now).Keys|, size)
  {
    hide IsBatch, Minus;
    AtMostRemaining(TokenCandidates(t.db.tokens, now), size, b.tokens, TokenCandidates(Delete(t, b).db.tokens, now));
  }

  lemma SessionsShrink(t: Tables, b: Batch, now: int, size: nat)
    requires IsBatch(SessionCandidates(t.db.sessions, now), size, b.sessions)
    ensures |SessionCandidates(Delete(t, b).db.sessions, now).Keys|
         == Minus(|SessionCandidates(t.db.sessions, now).Keys|, size)
  {
    hide IsBatch, Minus;
    Remaining(SessionCandidates(t.db.sessions, now), size, b.sessions,
              SessionCandidates(Delete(t, b).db.sessions, now));
  }

  lemma VerificationsShrink(t: Tables, b: Batch, now: int, size: nat)
    requires IsBatch(VerificationCandidates(t.verifications, now), size, b.verifications)
    ensures |VerificationCandidates(Delete(t, b).verifications, now).Keys|
         == Minus(|VerificationCandidates(t.verifications, now).Keys|, size)
  {
    hide IsBatch, Minus;
    Remaining(VerificationCandidates(t.verifications, now), size, b.verifications,
              VerificationCandidates(Delete(t, b).verifications, now));
  }

  lemma AuditShrinks(t: Tables, b: Batch, cutoff: int, size: nat)
    requires IsBatch(AuditCandidates(t.audit, cutoff), size, b.audit)
    ensures |AuditCandidates(Delete(t, b).audit, cutoff).Keys| == Minus(|AuditCandidates(t.audit, cutoff).Keys|, size)
  {
    hide IsBatch, Minus;
    Remaining(AuditCandidates(t.audit, cutoff), size, b.audit, AuditCandidates(Delete(t, b).audit, cutoff));
  }

  /** Each pass takes a full batch off every backlog. */
  lemma PassShrinks(cfg: Config, t: Tables, b: Batch, now: int)
    requires IsPass(cfg, t, b, now)
    ensures Shrunk(Eligible(cfg, t, now), Eligible(cfg, Delete(t, b), now), cfg.batchSize)
  {
    hide IsBatch, TokenCandidates, SessionCandidates, VerificationCandidates, AuditCandidates, Delete, Minus;
    TokensShrink(t, b, now, cfg.batchSize);
    SessionsShrink(t, b, now, cfg.batchSize);
    VerificationsShrink(t, b, now, cfg.batchSize);
    AuditShrinks(t, b, now - cfg.auditRetention, cfg.batchSize);
  }

  /** The tables after a sequence of passes. */
  function After(t: Tables, batches: seq<Batch>): Tables {
    if batches == [] then t else Delete(After(t, batches[..|batches| - 1]), batches[|batches| - 1])
  }

  /** Passes at a fixed time, with no new rows. */
  ghost predicate AllPasses(cfg: Config, t: Tables, batches: seq<Batch>, now: int) {
    batches != [] ==>
      var front := batches[..|batches| - 1];
      AllPasses(cfg, t, front, now) && IsPass(cfg, After(t, front), batches[|batches| - 1], now)
  }

  function Taken(cfg: Config, passes: nat): nat {
    if passes == 0 then 0 else Taken(cfg, passes - 1) + cfg.batchSize
  }

  lemma {:induction false} TakenIsProduct(cfg: Config, passes: nat)
    ensures Taken(cfg, passes) == passes * cfg.batchSize
  {
    if passes > 0 {
      TakenIsProduct(cfg, passes - 1);
      assert passes * cfg.batchSize == (passes - 1) * cfg.batchSize + cfg.batchSize;
    }
  }

  /** Every backlog loses a batch a pass until it is empty. */
  lemma {:induction false} BacklogAfter(cfg: Config, t: Tables, batches: seq<Batch>, now: int)
    requires AllPasses(cfg, t, batches, now)
    ensures Shrunk(Eligible(cfg, t, now), Eligible(cfg, After(t, batches), now), Taken(cfg, |batches|))
  {
    hide Eligible, IsPass, Delete;
    if batches != [] {
      var front := batches[..|batches| - 1];
      BacklogAfter(cfg, t, front, now);
      PassShrinks(cfg, After(t, front), batches[|batches| - 1], now);
    }
  }

  function Largest(e: Backlog): nat {
    var a := if e.tokens >= e.sessions then e.tokens else e.sessions;
    var b := if e.verifications >= e.audit then e.verifications else e.audit;
    if a >= b then a else b
  }

  /** ceil(n / size). */
  function Passes(n: nat, size: nat): nat
    requires size >= 1
  {
    (n + size - 1) / size
  }

  /** No row is left that the retention rules let go of. */
  ghost predicate Clear(cfg: Config, t: Tables, now: int) {
    && (forall i :: i in t.db.tokens ==> now < t.db.tokens[i].expiresAt)
    && (forall s :: s in t.db.sessions ==> now < t.db.sessions[s].absoluteExpiresAt)
    && (forall i :: i in t.verifications ==> now < t.verifications[i].expiresAt && !t.verifications[i].consumed)
    && (forall i :: i in t.audit ==> now - cfg.auditRetention < t.audit[i])
  }

  lemma EmptyExactly(m: map<Id, int>)
    ensures |m.Keys| == 0 <==> m.Keys == {}
    ensures (forall i :: i !in m) ==> m.Keys == {}
  {
  }

  lemma TokensClear(t: Tables, now: int)
    ensures |TokenCandidates(t.db.tokens, now).Keys| == 0 <==>
            forall i :: i in t.db.tokens ==> now < t.db.tokens[i].expiresAt
  {
    var candidates := TokenCandidates(t.db.tokens, now);
    EmptyExactly(candidates);
    if candidates.Keys == {} {
      forall i | i in t.db.tokens ensures now < t.db.tokens[i].expiresAt {
        assert i !in candidates;
      }
    }
  }

  lemma SessionsClear(t: Tables, now: int)
    ensures |SessionCandidates(t.db.sessions, now).Keys| == 0 <==>
            forall s :: s in t.db.sessions ==> now < t.db.sessions[s].absoluteExpiresAt
  {
    var candidates := SessionCandidates(t.db.sessions, now);
    EmptyExactly(candidates);
    if candidates.Keys == {} {
      forall i | i in t.db.sessions ensures now < t.db.sessions[i].absoluteExpiresAt {
        assert i !in candidates;
      }
    }
  }

  lemma VerificationsClear(t: Tables, now: int)
    ensures |VerificationCandidates(t.verifications, now).Keys| == 0 <==>
            forall i :: i in t.verifications ==> now < t.verifications[i].expiresAt && !t.verifications[i].consumed
  {
    var candidates := VerificationCandidates(t.verifications, now);
    EmptyExactly(candidates);
    if candidates.Keys == {} {
      forall i | i in t.verifications ensures now < t.verifications[i].expiresAt && !t.verifications[i].consumed {
        assert i !in candidates;
      }
    }
  }

  lemma AuditClear(t: Tables, cutoff: int)
    ensures |AuditCandidates(t.audit, cutoff).Keys| == 0 <==> forall i :: i in t.audit ==> cutoff < t.audit[i]
  {
    var candidates := AuditCandidates(t.audit, cutoff);
    EmptyExactly(candidates);
    if candidates.Keys == {} {
      forall i | i in t.audit ensures cutoff < t.audit[i] {
        assert i !in candidates;
      }
    }
  }

  lemma ClearExactly(cfg: Config, t: Tables, now: int)
    ensures Clear(cfg, t, now) <==> Eligible(cfg, t, now) == Backlog(0, 0, 0, 0)
  {
    hide TokenCandidates, SessionCandidates, VerificationCandidates, AuditCandidates;
    TokensClear(t, now);
    SessionsClear(t, now);
    VerificationsClear(t, now);
    AuditClear(t, now - cfg.auditRetention);
  }

  /** ceil(n / batchSize) passes or more leave nothing eligible, n being the largest backlog. */
  lemma Drains(cfg: Config, t: Tables, batches: seq<Batch>, now: int)
    requires cfg.batchSize >= 1 && AllPasses(cfg, t, batches, now)
    requires |batches| >= Passes(Largest(Eligible(cfg, t, now)), cfg.batchSize)
    ensures Clear(cfg, After(t, batches), now)
  {
    hide Eligible, AllPasses, After, Clear;
    ClearExactly(cfg, After(t, batches), now);
    BacklogAfter(cfg, t, batches, now);
    TakenIsProduct(cfg, |batches|);
    var n, size := Largest(Eligible(cfg, t, now)), cfg.batchSize;
    CeilingCovers(n, size, |batches|);
  }

  lemma CeilingCovers(n: nat, size: nat, k: nat)
    requires size >= 1
    ensures k >= Passes(n, size) <==> k * size >= n
  {
    var q := Passes(n, size);
    assert n + size - 1 == q * size + (n + size - 1) % size;
    if k < q {
      ProductGrows(k + 1, q, size);
      assert (k + 1) * size == k * size + size;
    } else {
      ProductGrows(q, k, size);
    }
  }

  lemma ProductGrows(x: int, y: int, m: nat)
    requires x <= y
    ensures x * m <= y * m
  {
  }

  /** Eligible tokens of sessions that are not: no cascade takes these. */
  function OwnTokens(db: Db, now: int): set<Id> {
    set i | i in db.tokens && db.tokens[i].expiresAt <= now
            && !(db.tokens[i].session in db.sessions && db.sessions[db.tokens[i].session].absoluteExpiresAt <= now)
  }

  lemma PassKeepsOwn(cfg: Config, t: Tables, b: Batch, now: int)
    requires IsPass(cfg, t, b, now)
    ensures |OwnTokens(Delete(t, b).db, now)| >= Minus(|OwnTokens(t.db, now)|, cfg.batchSize)
  {
    hide IsBatch;
    Chosen(TokenCandidates(t.db.tokens, now), cfg.batchSize, b.tokens);
    Chosen(SessionCandidates(t.db.sessions, now), cfg.batchSize, b.sessions);
    OwnSurvive(t, b, now);
    hide OwnTokens, Delete, TokenCandidates, SessionCandidates;
    AtLeast(OwnTokens(t.db, now), b.tokens, OwnTokens(Delete(t, b).db, now), cfg.batchSize);
  }

  lemma OwnSurvive(t: Tables, b: Batch, now: int)
    requires b.sessions <= SessionCandidates(t.db.sessions, now).Keys
    ensures OwnTokens(t.db, now) - b.tokens <= OwnTokens(Delete(t, b).db, now)
  {
  }

  lemma AtLeast(own: set<Id>, taken: set<Id>, rest: set<Id>, size: nat)
    requires |taken| <= size && own - taken <= rest
    ensures |rest| >= Minus(|own|, size)
  {
    SubsetSize(own - taken, rest);
    SubsetSize(own * taken, own);
    SubsetSize(own * taken, taken);
    assert own - own * taken == own - taken;
  }

  lemma Chosen(candidates: map<Id, int>, size: nat, ids: set<Id>)
    requires IsBatch(candidates, size, ids)
    ensures ids <= candidates.Keys && |ids| <= size
  {
  }

  lemma {:induction false} OwnAfter(cfg: Config, t: Tables, batches: seq<Batch>, now: int)
    requires AllPasses(cfg, t, batches, now)
    ensures |OwnTokens(After(t, batches).db, now)| >= Minus(|OwnTokens(t.db, now)|, Taken(cfg, |batches|))
  {
    hide OwnTokens, IsPass, Delete;
    if batches != [] {
      var front := batches[..|batches| - 1];
      OwnAfter(cfg, t, front, now);
      PassKeepsOwn(cfg, After(t, front), batches[|batches| - 1], now);
    }
  }

  /** The backlogs without the tokens a cascade may take. */
  function Uncascaded(cfg: Config, t: Tables, now: int): Backlog {
    Eligible(cfg, t, now).(tokens := |OwnTokens(t.db, now)|)
  }

  /** Fewer than ceil(n / batchSize) passes leave something, n being the largest backlog without those. */
  lemma NoFewerPasses(cfg: Config, t: Tables, batches: seq<Batch>, now: int)
    requires cfg.batchSize >= 1 && AllPasses(cfg, t, batches, now)
    requires |batches| < Passes(Largest(Uncascaded(cfg, t, now)), cfg.batchSize)
    ensures !Clear(cfg, After(t, batches), now)
  {
    hide Eligible, AllPasses, After, OwnTokens, Clear;
    ClearExactly(cfg, After(t, batches), now);
    OwnAreTokens(cfg, After(t, batches), now);
    BacklogAfter(cfg, t, batches, now);
    OwnAfter(cfg, t, batches, now);
    TakenIsProduct(cfg, |batches|);
    CeilingCovers(Largest(Uncascaded(cfg, t, now)), cfg.batchSize, |batches|);
  }

  lemma OwnAreTokens(cfg: Config, t: Tables, now: int)
    ensures |OwnTokens(t.db, now)| <= Eligible(cfg, t, now).tokens
  {
    SubsetSize(OwnTokens(t.db, now), TokenCandidates(t.db.tokens, now).Keys);
  }

  /** Where no cascade helps, the passes drain exactly from ceil(n / batchSize) of them on. */
  lemma DrainsExactly(cfg: Config, t: Tables, batches: seq<Batch>, now: int)
    requires cfg.batchSize >= 1 && AllPasses(cfg, t, batches, now)
    requires forall i :: i in t.db.tokens && t.db.tokens[i].expiresAt <= now ==> i in OwnTokens(t.db, now)
    ensures Clear(cfg, After(t, batches), now) <==>
            |batches| >= Passes(Largest(Eligible(cfg, t, now)), cfg.batchSize)
  {
    hide Eligible, AllPasses, After, OwnTokens, Uncascaded, Largest, Passes, Clear;
    NoCascade(cfg, t, now);
    if |batches| < Passes(Largest(Eligible(cfg, t, now)), cfg.batchSize) {
      NoFewerPasses(cfg, t, batches, now);
    } else {
      Drains(cfg, t, batches, now);
    }
  }

  lemma NoCascade(cfg: Config, t: Tables, now: int)
    requires forall i :: i in t.db.tokens && t.db.tokens[i].expiresAt <= now ==> i in OwnTokens(t.db, now)
    ensures Uncascaded(cfg, t, now) == Eligible(cfg, t, now)
  {
    assert TokenCandidates(t.db.tokens, now).Keys == OwnTokens(t.db, now);
  }

  /** One session and its two tokens, all expired. */
  function SessionOfTwo(): Tables {
    var token := RefreshToken(0, 0, None, None);
    Tables(Db(3, map[9 := 9], map[0 := Session(9, 9, [], 0, 0, 0, None)], map[1 := token, 2 := token]), map[], map[])
  }

  lemma BeforeCascade()
    ensures IsPass(Config.Config(1, 0), SessionOfTwo(), Batch({1}, {0}, {}, {}), 0)
    ensures Eligible(Config.Config(1, 0), SessionOfTwo(), 0) == Backlog(2, 1, 0, 0)
  {
    var t := SessionOfTwo();
    assert TokenCandidates(t.db.tokens, 0).Keys == {1, 2} && SessionCandidates(t.db.sessions, 0).Keys == {0};
  }

  lemma AfterCascade()
    ensures Eligible(Config.Config(1, 0), Delete(SessionOfTwo(), Batch({1}, {0}, {}, {})), 0) == Backlog(0, 0, 0, 0)
  {
    var t := Delete(SessionOfTwo(), Batch({1}, {0}, {}, {}));
    assert TokenCandidates(t.db.tokens, 0).Keys == {} && SessionCandidates(t.db.sessions, 0).Keys == {};
  }

  /** A cascade can help: a single pass of one row a table clears what otherwise takes two. */
  lemma CascadeHelps()
    ensures var cfg, t, b := Config.Config(1, 0), SessionOfTwo(), Batch({1}, {0}, {}, {});
            && IsPass(cfg, t, b, 0) && Passes(Largest(Eligible(cfg, t, 0)), cfg.batchSize) == 2
            && Clear(cfg, Delete(t, b), 0)
  {
    hide IsPass, Eligible, Delete, SessionOfTwo, Clear;
    ClearExactly(Config.Config(1, 0), Delete(SessionOfTwo(), Batch({1}, {0}, {}, {})), 0);
    BeforeCascade();
    AfterCascade();
  }
}
