/**
  The lockout state machine of Services/Security/LockoutPolicy.cs as Services/Auth/LoginService.cs
  drives it: a rejected attempt is counted unless the account is already locked. Reading the user,
  counting and saving is one step.
*/
module Lockout {
  import opened Options

  datatype Config = Config(enabled: bool, maxFailedAttempts: nat, duration: int)

  /** The ranges LockoutOptions validates, as far as they matter here. */
  predicate ValidConfig(cfg: Config) {
    cfg.maxFailedAttempts >= 1 && cfg.duration >= 1
  }

  datatype User = User(failedLoginCount: nat, lockoutEndsAt: Option<int>)

  predicate IsLockedOut(cfg: Config, user: User, now: int) {
    cfg.enabled && user.lockoutEndsAt.Some? && user.lockoutEndsAt.value > now
  }

  /** The user after a failure, and whether this failure locked the account. */
  function AfterFailure(cfg: Config, user: User, now: int): (User, bool) {
    if !cfg.enabled || (user.lockoutEndsAt.Some? && user.lockoutEndsAt.value > now) then (user, false)
    else
      var count := (if user.lockoutEndsAt.Some? then 0 else user.failedLoginCount) + 1;
      if count < cfg.maxFailedAttempts then (User(count, None), false)
      else (User(count, Some(now + cfg.duration)), true)
  }

  class Account {
    const cfg: Config
    var failedLoginCount: nat
    var lockoutEndsAt: Option<int>

    constructor (cfg: Config)
      ensures this.cfg == cfg && State() == User(0, None)
    {
      this.cfg := cfg;
      failedLoginCount, lockoutEndsAt := 0, None;
    }

    function State(): User
      reads this
    {
      User(failedLoginCount, lockoutEndsAt)
    }

    method RegisterFailure(now: int) returns (locked: bool)
      modifies this
      ensures (State(), locked) == AfterFailure(cfg, old(State()), now)
      ensures ValidConfig(cfg) ==>
                (locked <==> !IsLockedOut(cfg, old(State()), now) && IsLockedOut(cfg, State(), now))
      ensures !cfg.enabled || IsLockedOut(cfg, old(State()), now) ==> State() == old(State())
    {
      if !cfg.enabled {
        return false;
      }
      if lockoutEndsAt.Some? {
        if lockoutEndsAt.value > now {
          return false;
        }
        failedLoginCount := 0;
        lockoutEndsAt := None;
      }
      failedLoginCount := failedLoginCount + 1;
      if failedLoginCount < cfg.maxFailedAttempts {
        return false;
      }
      lockoutEndsAt := Some(now + cfg.duration);
      locked := true;
    }

    method RegisterSuccess()
      modifies this
      ensures State() == User(0, None)
    {
      failedLoginCount := 0;
      lockoutEndsAt := None;
    }

    /** LoginAsync's accept-or-reject, `verified` standing for the password and e-mail checks. */
    method Attempt(verified: bool, now: int) returns (accepted: bool, locked: bool)
      modifies this
      ensures accepted == (verified && !IsLockedOut(cfg, old(State()), now))
      ensures State() == AfterAttempt(cfg, old(State()), verified, now)
      ensures locked == (!accepted && AfterFailure(cfg, old(State()), now).1)
    {
      var alreadyLocked := IsLockedOut(cfg, State(), now);
      accepted, locked := verified && !alreadyLocked, false;
      if accepted {
        RegisterSuccess();
      } else if !alreadyLocked {
        locked := RegisterFailure(now);
      }
    }
  }

  function AfterAttempt(cfg: Config, user: User, verified: bool, now: int): User {
    if IsLockedOut(cfg, user, now) then user
    else if verified then User(0, None)
    else AfterFailure(cfg, user, now).0
  }

  // ---------------------------------------------------------------------------------------------
  // Runs
  // ---------------------------------------------------------------------------------------------

  datatype Attempt = Attempt(verified: bool, now: int)

  /** A failed attempt that was counted, whether it locked the account, and the count it stored. */
  datatype Counted = Counted(now: int, locked: bool, count: nat)

  function Count(cfg: Config, user: User, now: int): Counted {
    var (after, locked) := AfterFailure(cfg, user, now);
    Counted(now, locked, after.failedLoginCount)
  }

  /** The user after `attempts`, and the failures that were counted on the way. */
  function Run(cfg: Config, attempts: seq<Attempt>): (User, seq<Counted>) {
    if attempts == [] then (User(0, None), [])
    else
      var (user, counted) := Run(cfg, attempts[..|attempts| - 1]);
      var a := attempts[|attempts| - 1];
      (AfterAttempt(cfg, user, a.verified, a.now),
       if cfg.enabled && !a.verified && !IsLockedOut(cfg, user, a.now)
       then counted + [Count(cfg, user, a.now)] else counted)
  }

  ghost predicate Ordered(attempts: seq<Attempt>) {
    forall i, j :: 0 <= i < j < |attempts| ==> attempts[i].now <= attempts[j].now
  }

  ghost predicate NoSuccess(attempts: seq<Attempt>) {
    forall i :: 0 <= i < |attempts| ==> !attempts[i].verified
  }

  /** A lock is recorded exactly with a full count, and the count never exceeds the threshold. */
  ghost predicate Consistent(cfg: Config, user: User) {
    && user.failedLoginCount <= cfg.maxFailedAttempts
    && (user.lockoutEndsAt.Some? <==> user.failedLoginCount == cfg.maxFailedAttempts)
  }

  /** Holds on every run, successes included. */
  lemma {:induction false} CountNeverExceeds(cfg: Config, attempts: seq<Attempt>)
    requires ValidConfig(cfg)
    ensures Consistent(cfg, Run(cfg, attempts).0)
  {
    if attempts != [] {
      CountNeverExceeds(cfg, attempts[..|attempts| - 1]);
    }
  }

  /**
    The counted failures come in groups of exactly Max: every Max-th one locks the account, and
    nothing is counted until that lock has run out.
  */
  ghost predicate Grouped(cfg: Config, counted: seq<Counted>) {
    && cfg.maxFailedAttempts >= 1
    && (forall i :: 0 <= i < |counted| ==> (counted[i].locked <==> (i + 1) % cfg.maxFailedAttempts == 0))
    && (forall i, j :: 0 <= i < j < |counted| ==> counted[i].now <= counted[j].now)
    && (forall i, j :: 0 <= i < j < |counted| && counted[i].locked ==>
          counted[i].now + cfg.duration <= counted[j].now)
  }

  /** The stored user tells where in its group the last counted failure stands. */
  ghost predicate AtLast(cfg: Config, user: User, counted: seq<Counted>)
    requires cfg.maxFailedAttempts >= 1
  {
    && user.failedLoginCount <= cfg.maxFailedAttempts
    && (user.lockoutEndsAt.Some? ==>
          && counted != [] && counted[|counted| - 1].locked
          && user.lockoutEndsAt.value == counted[|counted| - 1].now + cfg.duration)
    && (counted != [] && counted[|counted| - 1].locked ==> user.lockoutEndsAt.Some?)
    && (user.lockoutEndsAt.None? ==> user.failedLoginCount == |counted| % cfg.maxFailedAttempts)
  }

  lemma GroupedExtends(cfg: Config, counted: seq<Counted>, next: Counted)
    requires Grouped(cfg, counted)
    requires next.locked <==> (|counted| + 1) % cfg.maxFailedAttempts == 0
    requires counted != [] ==> counted[|counted| - 1].now <= next.now
    requires (counted != [] && counted[|counted| - 1].locked) ==>
               counted[|counted| - 1].now + cfg.duration <= next.now
    ensures Grouped(cfg, counted + [next])
  {
  }

  /** Attempt `k` was accepted. */
  ghost predicate Succeeds(cfg: Config, attempts: seq<Attempt>, k: int) {
    && 0 <= k < |attempts| && attempts[k].verified
    && !IsLockedOut(cfg, Run(cfg, attempts[..k]).0, attempts[k].now)
  }

  /** The failures counted in `attempts` after those of `before`. */
  function CountedAfter(cfg: Config, before: seq<Attempt>, attempts: seq<Attempt>): seq<Counted> {
    var first, all := Run(cfg, before).1, Run(cfg, before + attempts).1;
    if |first| <= |all| then all[|first|..] else []
  }

  /** A fresh start: nothing was attempted yet, or the last attempt was accepted. */
  ghost predicate FreshStart(cfg: Config, before: seq<Attempt>) {
    before != [] ==> Succeeds(cfg, before, |before| - 1)
  }

  /** None of `attempts`, made after `before`, is accepted. */
  ghost predicate NoneAccepted(cfg: Config, before: seq<Attempt>, attempts: seq<Attempt>) {
    forall k :: |before| <= k < |before + attempts| ==> !Succeeds(cfg, before + attempts, k)
  }

  lemma NoneAcceptedFront(cfg: Config, before: seq<Attempt>, front: seq<Attempt>, a: Attempt)
    ensures NoneAccepted(cfg, before, front + [a]) <==>
            NoneAccepted(cfg, before, front) && !(a.verified && !IsLockedOut(cfg, Run(cfg, before + front).0, a.now))
  {
    hide Run, IsLockedOut;
    var longer, shorter := before + (front + [a]), before + front;
    assert longer == shorter + [a] && longer[..|shorter|] == shorter;
    assert forall k :: 0 <= k < |shorter| ==> longer[..k] == shorter[..k] && longer[k] == shorter[k];
    assert forall k :: 0 <= k < |shorter| ==> (Succeeds(cfg, longer, k) <==> Succeeds(cfg, shorter, k));
    assert Succeeds(cfg, longer, |shorter|) <==> a.verified && !IsLockedOut(cfg, Run(cfg, shorter).0, a.now);
  }

  /** A success clears the account, whatever was counted before. */
  lemma StartsFresh(cfg: Config, before: seq<Attempt>)
    requires FreshStart(cfg, before)
    ensures Run(cfg, before).0 == User(0, None)
  {
  }

  /**
    From a fresh start and until the next success, the counted failures of every run come in groups of
    Max: a success leaves a full allowance.
  */
  lemma {:induction false} GroupsOfMax(cfg: Config, before: seq<Attempt>, attempts: seq<Attempt>)
    requires ValidConfig(cfg) && cfg.enabled && Ordered(before + attempts)
    requires FreshStart(cfg, before) && NoneAccepted(cfg, before, attempts)
    ensures Run(cfg, before).1 <= Run(cfg, before + attempts).1
    ensures var counted := CountedAfter(cfg, before, attempts);
            && Grouped(cfg, counted) && AtLast(cfg, Run(cfg, before + attempts).0, counted)
            && (counted != [] ==> attempts != [] && counted[|counted| - 1].now <= attempts[|attempts| - 1].now)
  {
    hide Run, FreshStart, NoneAccepted, Grouped, AtLast, IsLockedOut, Count, AfterAttempt, CountedAfter, Ordered;
    if attempts == [] {
      assert before + attempts == before;
      StartsFresh(cfg, before);
      NoneGrouped(cfg);
      NothingCountedBy(cfg, before);
    } else {
      var front, a := attempts[..|attempts| - 1], attempts[|attempts| - 1];
      assert attempts == front + [a] && before + attempts == before + front + [a];
      OrderedFront(before + front, a);
      LastBy(before, front, a);
      NoneAcceptedFront(cfg, before, front, a);
      GroupsOfMax(cfg, before, front);
      NextGrouped(cfg, Run(cfg, before + front).0, CountedAfter(cfg, before, front), a);
      CountedStep(cfg, before, front, a);
    }
  }

  lemma CountedStep(cfg: Config, before: seq<Attempt>, front: seq<Attempt>, a: Attempt)
    requires Run(cfg, before).1 <= Run(cfg, before + front).1
    ensures var user, counted := Run(cfg, before + front).0, CountedAfter(cfg, before, front);
            && Run(cfg, before).1 <= Run(cfg, before + (front + [a])).1
            && Run(cfg, before + (front + [a])).0 == AfterAttempt(cfg, user, a.verified, a.now)
            && Count(cfg, user, a.now).now == a.now
            && CountedAfter(cfg, before, front + [a]) ==
               if cfg.enabled && !a.verified && !IsLockedOut(cfg, user, a.now)
               then counted + [Count(cfg, user, a.now)] else counted
  {
    hide Run, IsLockedOut, AfterAttempt, AfterFailure;
    assert before + (front + [a]) == before + front + [a];
    RunStep(cfg, before + front, a);
  }

  lemma NothingCountedBy(cfg: Config, before: seq<Attempt>)
    ensures CountedAfter(cfg, before, []) == []
  {
    assert before + [] == before;
  }

  lemma NoneGrouped(cfg: Config)
    requires ValidConfig(cfg)
    ensures Grouped(cfg, []) && AtLast(cfg, User(0, None), [])
  {
  }

  lemma OrderedFront(front: seq<Attempt>, a: Attempt)
    requires Ordered(front + [a])
    ensures Ordered(front) && (front != [] ==> front[|front| - 1].now <= a.now)
  {
    var all := front + [a];
    assert forall i :: 0 <= i < |front| ==> all[i] == front[i];
    assert all[|front|] == a;
  }

  lemma LastBy(before: seq<Attempt>, front: seq<Attempt>, a: Attempt)
    requires Ordered(before + front + [a])
    ensures front != [] ==> front[|front| - 1].now <= a.now
  {
    var all := before + front + [a];
    assert front != [] ==> all[|before + front| - 1] == front[|front| - 1];
    assert all[|before + front|] == a;
  }

  lemma NextGrouped(cfg: Config, user: User, counted: seq<Counted>, a: Attempt)
    requires ValidConfig(cfg) && cfg.enabled && Grouped(cfg, counted) && AtLast(cfg, user, counted)
    requires counted != [] ==> counted[|counted| - 1].now <= a.now
    requires !(a.verified && !IsLockedOut(cfg, user, a.now))
    ensures var counted' := if !a.verified && !IsLockedOut(cfg, user, a.now)
                            then counted + [Count(cfg, user, a.now)] else counted;
            Grouped(cfg, counted') && AtLast(cfg, AfterAttempt(cfg, user, a.verified, a.now), counted')
  {
    hide Grouped, AtLast, Count;
    if !IsLockedOut(cfg, user, a.now) {
      NextCounted(cfg, user, counted, a.now);
    }
  }

  lemma NextCounted(cfg: Config, user: User, counted: seq<Counted>, now: int)
    requires ValidConfig(cfg) && cfg.enabled && Grouped(cfg, counted) && AtLast(cfg, user, counted)
    requires counted != [] ==> counted[|counted| - 1].now <= now
    ensures !IsLockedOut(cfg, user, now) ==>
              && Grouped(cfg, counted + [Count(cfg, user, now)])
              && AtLast(cfg, AfterFailure(cfg, user, now).0, counted + [Count(cfg, user, now)])
  {
    if !IsLockedOut(cfg, user, now) {
      NextInGroup(|counted|, cfg.maxFailedAttempts);
      GroupedExtends(cfg, counted, Count(cfg, user, now));
    }
  }

  lemma NextInGroup(n: nat, max: nat)
    requires max >= 1
    ensures (n + 1) % max == if n % max == max - 1 then 0 else n % max + 1
  {
    var q, r := n / max, n % max;
    assert n == q * max + r;
    if r == max - 1 {
      assert n + 1 == (q + 1) * max;
      ModOf(q + 1, 0, max);
    } else {
      ModOf(q, r + 1, max);
    }
  }

  lemma ModOf(q: nat, r: nat, max: nat)
    requires max >= 1 && r < max
    ensures (q * max + r) % max == r
  {
    assert q * max >= 0;
    var n := q * max + r;
    assert n == n / max * max + n % max;
    ProductSign(n / max - q, max);
    assert (n / max - q) * max == r - n % max;
  }

  lemma ProductSign(x: int, m: nat)
    ensures x >= 1 ==> x * m >= m
    ensures x <= -1 ==> x * m + m <= 0
  {
  }

  lemma RunStep(cfg: Config, before: seq<Attempt>, a: Attempt)
    ensures Run(cfg, before + [a]).0 == AfterAttempt(cfg, Run(cfg, before).0, a.verified, a.now)
    ensures Run(cfg, before + [a]).1 ==
            if cfg.enabled && !a.verified && !IsLockedOut(cfg, Run(cfg, before).0, a.now)
            then Run(cfg, before).1 + [Count(cfg, Run(cfg, before).0, a.now)]
            else Run(cfg, before).1
  {
    assert (before + [a])[..|before + [a]| - 1] == before;
  }

  ghost predicate SuccessWithin(cfg: Config, attempts: seq<Attempt>, a: int, b: int) {
    exists k :: Succeeds(cfg, attempts, k) && a <= attempts[k].now <= b
  }

  /** On every run: nothing is counted until a lock has run out, and a full count locks. */
  ghost predicate Spaced(cfg: Config, counted: seq<Counted>) {
    && (forall i :: 0 <= i < |counted| ==>
          1 <= counted[i].count <= cfg.maxFailedAttempts
          && (counted[i].locked <==> counted[i].count == cfg.maxFailedAttempts))
    && (forall i, j :: 0 <= i < j < |counted| ==> counted[i].now <= counted[j].now)
    && (forall i, j :: 0 <= i < j < |counted| && counted[i].locked ==>
          counted[i].now + cfg.duration <= counted[j].now)
  }

  /** The count goes up by one from failure to failure, unless it locks or a success intervenes. */
  ghost predicate Linked(cfg: Config, attempts: seq<Attempt>, counted: seq<Counted>) {
    forall i :: 0 <= i < |counted| - 1 ==>
      Follows(cfg, attempts, counted[i], counted[i + 1].now, counted[i + 1].count - 1)
  }

  ghost predicate Follows(cfg: Config, attempts: seq<Attempt>, c: Counted, now: int, count: int) {
    c.locked || count == c.count || SuccessWithin(cfg, attempts, c.now, now)
  }

  /** The stored user after an attempt at `last` continues from the last counted failure. */
  ghost predicate Continues(cfg: Config, user: User, attempts: seq<Attempt>, counted: seq<Counted>, last: int) {
    && Consistent(cfg, user)
    && (user.lockoutEndsAt.Some? ==>
          && counted != [] && counted[|counted| - 1].locked
          && user.lockoutEndsAt.value == counted[|counted| - 1].now + cfg.duration)
    && (counted != [] ==>
          var c := counted[|counted| - 1];
          && c.now <= last
          && (c.locked ==> user.lockoutEndsAt.Some? || c.now + cfg.duration <= last)
          && Follows(cfg, attempts, c, last, user.failedLoginCount))
  }

  lemma SuccessKept(cfg: Config, attempts: seq<Attempt>, a: Attempt, from: int, to: int, later: int)
    requires SuccessWithin(cfg, attempts, from, to) && to <= later
    ensures SuccessWithin(cfg, attempts + [a], from, later)
  {
    var k :| Succeeds(cfg, attempts, k) && from <= attempts[k].now <= to;
    assert (attempts + [a])[..k] == attempts[..k] && (attempts + [a])[k] == attempts[k];
    assert Succeeds(cfg, attempts + [a], k);
  }

  lemma LinkedKept(cfg: Config, attempts: seq<Attempt>, a: Attempt, counted: seq<Counted>)
    requires Linked(cfg, attempts, counted)
    ensures Linked(cfg, attempts + [a], counted)
  {
    forall i | 0 <= i < |counted| - 1
      ensures Follows(cfg, attempts + [a], counted[i], counted[i + 1].now, counted[i + 1].count - 1)
    {
      var c, next := counted[i], counted[i + 1];
      if SuccessWithin(cfg, attempts, c.now, next.now) {
        SuccessKept(cfg, attempts, a, c.now, next.now, next.now);
      }
    }
  }

  lemma {:induction false} RunsAreSpaced(cfg: Config, attempts: seq<Attempt>, last: int)
    requires ValidConfig(cfg) && cfg.enabled && Ordered(attempts)
    requires attempts != [] ==> last == attempts[|attempts| - 1].now
    ensures Spaced(cfg, Run(cfg, attempts).1) && Linked(cfg, attempts, Run(cfg, attempts).1)
    ensures Continues(cfg, Run(cfg, attempts).0, attempts, Run(cfg, attempts).1, last)
  {
    hide Run, Spaced, Linked, Continues, IsLockedOut, AfterAttempt, Count;
    if attempts == [] {
      NothingYet(cfg, last);
    } else {
      var before, a := attempts[..|attempts| - 1], attempts[|attempts| - 1];
      assert attempts == before + [a];
      var previous := if before == [] then a.now else before[|before| - 1].now;
      RunsAreSpaced(cfg, before, previous);
      var (user, counted) := Run(cfg, before);
      RunStep(cfg, before, a);
      LinkedKept(cfg, before, a, counted);
      AttemptContinues(cfg, user, before, counted, previous, a);
    }
  }

  lemma NothingYet(cfg: Config, last: int)
    requires ValidConfig(cfg)
    ensures Run(cfg, []) == (User(0, None), []) && Spaced(cfg, []) && Linked(cfg, [], [])
    ensures Continues(cfg, User(0, None), [], [], last)
  {
  }

  lemma AttemptContinues(cfg: Config, user: User, before: seq<Attempt>, counted: seq<Counted>, last: int, a: Attempt)
    requires ValidConfig(cfg) && cfg.enabled && last <= a.now && user == Run(cfg, before).0
    requires Spaced(cfg, counted) && Linked(cfg, before + [a], counted) && Continues(cfg, user, before, counted, last)
    ensures var counted' := if !a.verified && !IsLockedOut(cfg, user, a.now)
                            then counted + [Count(cfg, user, a.now)] else counted;
            && Spaced(cfg, counted') && Linked(cfg, before + [a], counted')
            && Continues(cfg, AfterAttempt(cfg, user, a.verified, a.now), before + [a], counted', a.now)
  {
    hide Run, Spaced, Linked, Follows, Succeeds, SuccessWithin, Count, AfterFailure;
    if counted != [] {
      FollowsLater(cfg, before, a, counted[|counted| - 1], last, user.failedLoginCount);
    }
    if a.verified && !IsLockedOut(cfg, user, a.now) {
      ThisSuccess(cfg, before, a);
      if counted != [] {
        ResetFollows(cfg, before + [a], counted[|counted| - 1], a.now);
      }
    } else if !IsLockedOut(cfg, user, a.now) {
      FailureContinues(cfg, user, before, counted, last, a);
    }
  }

  lemma FollowsLater(cfg: Config, before: seq<Attempt>, a: Attempt, c: Counted, last: int, count: int)
    requires Follows(cfg, before, c, last, count) && last <= a.now
    ensures Follows(cfg, before + [a], c, a.now, count)
  {
    hide SuccessWithin;
    if SuccessWithin(cfg, before, c.now, last) {
      SuccessKept(cfg, before, a, c.now, last, a.now);
    }
  }

  lemma ResetFollows(cfg: Config, attempts: seq<Attempt>, c: Counted, now: int)
    requires SuccessWithin(cfg, attempts, now, now) && c.now <= now
    ensures Follows(cfg, attempts, c, now, 0)
  {
    WiderSuccess(cfg, attempts, now, c.now, now);
  }

  lemma FailureContinues(cfg: Config, user: User, before: seq<Attempt>, counted: seq<Counted>, last: int, a: Attempt)
    requires ValidConfig(cfg) && cfg.enabled && last <= a.now && !IsLockedOut(cfg, user, a.now)
    requires Spaced(cfg, counted) && Linked(cfg, before + [a], counted) && Continues(cfg, user, before, counted, last)
    requires counted != [] ==> Follows(cfg, before + [a], counted[|counted| - 1], a.now, user.failedLoginCount)
    ensures var counted' := counted + [Count(cfg, user, a.now)];
            && Spaced(cfg, counted') && Linked(cfg, before + [a], counted')
            && Continues(cfg, AfterFailure(cfg, user, a.now).0, before + [a], counted', a.now)
  {
    hide SuccessWithin;
    var counted' := counted + [Count(cfg, user, a.now)];
    forall i | 0 <= i < |counted'| - 1
      ensures Follows(cfg, before + [a], counted'[i], counted'[i + 1].now, counted'[i + 1].count - 1)
    {
      if i < |counted| - 1 {
        assert Follows(cfg, before + [a], counted[i], counted[i + 1].now, counted[i + 1].count - 1);
      }
    }
  }

  lemma ThisSuccess(cfg: Config, before: seq<Attempt>, a: Attempt)
    requires a.verified && !IsLockedOut(cfg, Run(cfg, before).0, a.now)
    ensures SuccessWithin(cfg, before + [a], a.now, a.now)
  {
    assert (before + [a])[..|before|] == before;
    assert Succeeds(cfg, before + [a], |before|);
  }

  lemma WiderSuccess(cfg: Config, attempts: seq<Attempt>, from: int, earlier: int, to: int)
    requires SuccessWithin(cfg, attempts, from, to) && earlier <= from
    ensures SuccessWithin(cfg, attempts, earlier, to)
  {
  }

  /** An account is locked out exactly for the lockout duration after each failure that locked it. */
  lemma {:induction false} LockedExactly(cfg: Config, attempts: seq<Attempt>, now: int)
    requires ValidConfig(cfg) && Ordered(attempts)
    requires attempts != [] ==> attempts[|attempts| - 1].now <= now
    ensures var (user, counted) := Run(cfg, attempts);
            IsLockedOut(cfg, user, now) <==>
            exists i :: 0 <= i < |counted| && counted[i].locked && now < counted[i].now + cfg.duration
  {
    hide Run, Linked, Follows;
    if cfg.enabled {
      RunsAreSpaced(cfg, attempts, if attempts == [] then now else attempts[|attempts| - 1].now);
    } else {
      NothingCountedDisabled(cfg, attempts);
    }
  }

  lemma {:induction false} NothingCountedDisabled(cfg: Config, attempts: seq<Attempt>)
    requires !cfg.enabled
    ensures Run(cfg, attempts).1 == []
  {
    if attempts != [] {
      NothingCountedDisabled(cfg, attempts[..|attempts| - 1]);
    }
  }

  // ---------------------------------------------------------------------------------------------
  // Rate
  // ---------------------------------------------------------------------------------------------

  /** Failures counted in the closed interval [a, b]. */
  function CountedBetween(counted: seq<Counted>, a: int, b: int): nat {
    if counted == [] then 0
    else
      CountedBetween(counted[..|counted| - 1], a, b) + (if a <= counted[|counted| - 1].now <= b then 1 else 0)
  }

  /** Indices that span at least as many elements as fall into [a, b]. */
  lemma {:induction false} Span(counted: seq<Counted>, a: int, b: int) returns (p: nat, q: nat)
    requires CountedBetween(counted, a, b) > 0
    ensures p <= q < |counted| && CountedBetween(counted, a, b) <= q - p + 1
    ensures a <= counted[p].now && counted[q].now <= b
  {
    var last := |counted| - 1;
    if CountedBetween(counted[..last], a, b) == 0 {
      p, q := last, last;
    } else {
      p, q := Span(counted[..last], a, b);
      if a <= counted[last].now <= b {
        q := last;
      }
    }
  }

  /** Failures within a stretch of time that holds no success. */
  ghost predicate Stretch(cfg: Config, counted: seq<Counted>, p: nat, q: nat) {
    && Spaced(cfg, counted) && p <= q < |counted|
    && forall i :: p <= i < q ==> counted[i].locked || counted[i + 1].count == counted[i].count + 1
  }

  lemma NoSuccessStretch(cfg: Config, attempts: seq<Attempt>, counted: seq<Counted>, a: int, b: int, p: nat, q: nat)
    requires Spaced(cfg, counted) && Linked(cfg, attempts, counted) && !SuccessWithin(cfg, attempts, a, b)
    requires p <= q < |counted| && a <= counted[p].now && counted[q].now <= b
    ensures Stretch(cfg, counted, p, q)
  {
    hide SuccessWithin;
    forall i | p <= i < q ensures counted[i].locked || counted[i + 1].count == counted[i].count + 1 {
      assert Follows(cfg, attempts, counted[i], counted[i + 1].now, counted[i + 1].count - 1);
      if SuccessWithin(cfg, attempts, counted[i].now, counted[i + 1].now) {
        InInterval(cfg, attempts, a, b, counted[i].now, counted[i + 1].now);
      }
    }
  }

  lemma InInterval(cfg: Config, attempts: seq<Attempt>, a: int, b: int, from: int, to: int)
    requires SuccessWithin(cfg, attempts, from, to) && a <= from && to <= b
    ensures SuccessWithin(cfg, attempts, a, b)
  {
  }

  lemma {:induction false} CountsClimb(cfg: Config, counted: seq<Counted>, p: nat, q: nat, k: nat)
    requires Stretch(cfg, counted, p, q) && p + k <= q && forall i :: p <= i < p + k ==> !counted[i].locked
    ensures counted[p + k].count == counted[p].count + k
  {
    if k > 0 {
      CountsClimb(cfg, counted, p, q, k - 1);
    }
  }

  /** Any Max failures in a row hold a lock. */
  lemma LockAmong(cfg: Config, counted: seq<Counted>, p: nat, q: nat)
    requires cfg.maxFailedAttempts >= 1 && Stretch(cfg, counted, p, q) && p + cfg.maxFailedAttempts <= q
    ensures counted[p].now + cfg.duration <= counted[p + cfg.maxFailedAttempts].now
  {
    var i := p + cfg.maxFailedAttempts - 1;
    if j :| p <= j < i && counted[j].locked {
      i := j;
    } else {
      CountsClimb(cfg, counted, p, q, cfg.maxFailedAttempts - 1);
    }
    assert counted[i].locked && counted[p].now <= counted[i].now;
  }

  lemma {:induction false} Far(cfg: Config, counted: seq<Counted>, p: nat, k: nat, r: nat, q: nat)
    requires cfg.maxFailedAttempts >= 1 && Stretch(cfg, counted, p, q)
    requires r == p + k * cfg.maxFailedAttempts && r <= q
    ensures counted[p].now + k * cfg.duration <= counted[r].now
    decreases k
  {
    hide Stretch;
    if k > 0 {
      var before := r - cfg.maxFailedAttempts;
      assert k * cfg.maxFailedAttempts == (k - 1) * cfg.maxFailedAttempts + cfg.maxFailedAttempts;
      assert (k - 1) * cfg.maxFailedAttempts >= 0;
      InStretch(cfg, counted, p, q);
      Far(cfg, counted, p, k - 1, before, q);
      Shorter(cfg, counted, p, q, before);
      LockAmong(cfg, counted, before, q);
      assert k * cfg.duration == (k - 1) * cfg.duration + cfg.duration;
    }
  }

  lemma InStretch(cfg: Config, counted: seq<Counted>, p: nat, q: nat)
    requires Stretch(cfg, counted, p, q)
    ensures p <= q < |counted| && forall i :: p <= i <= q ==> counted[i].now <= counted[q].now
  {
  }

  lemma Shorter(cfg: Config, counted: seq<Counted>, p: nat, q: nat, p': nat)
    requires Stretch(cfg, counted, p, q) && p <= p' <= q
    ensures Stretch(cfg, counted, p', q)
  {
  }

  /** The bound on failures counted in an interval of length `length`. */
  function Allowance(cfg: Config, length: nat): int
    requires ValidConfig(cfg)
  {
    cfg.maxFailedAttempts * (length / cfg.duration + 1)
  }

  /**
    The rate theorem: in any closed interval without a success, at most
    Max * (floor(length / Duration) + 1) failures are counted, whatever happened outside it.
  */
  lemma FailureRateBound(cfg: Config, attempts: seq<Attempt>, a: int, length: nat)
    requires ValidConfig(cfg) && cfg.enabled && Ordered(attempts) && !SuccessWithin(cfg, attempts, a, a + length)
    ensures CountedBetween(Run(cfg, attempts).1, a, a + length) <= Allowance(cfg, length)
  {
    hide Run, Spaced, Linked, Continues, SuccessWithin, Stretch, Allowance;
    RunsAreSpaced(cfg, attempts, if attempts == [] then 0 else attempts[|attempts| - 1].now);
    var counted := Run(cfg, attempts).1;
    var n, k := CountedBetween(counted, a, a + length), 0;
    if n > 0 {
      var p, q := Span(counted, a, a + length);
      k := (n - 1) / cfg.maxFailedAttempts;
      FullGroups(n - 1, cfg.maxFailedAttempts);
      NoSuccessStretch(cfg, attempts, counted, a, a + length, p, q);
      Far(cfg, counted, p, k, p + k * cfg.maxFailedAttempts, q);
      InStretch(cfg, counted, p, q);
    }
    AllowanceCovers(cfg, length, n, k);
  }

  lemma FullGroups(m: nat, max: nat)
    requires max >= 1
    ensures 0 <= m / max * max <= m < (m / max + 1) * max
  {
    assert m == m / max * max + m % max;
  }

  lemma AllowanceCovers(cfg: Config, length: nat, n: nat, k: nat)
    requires ValidConfig(cfg) && n <= (k + 1) * cfg.maxFailedAttempts && k * cfg.duration <= length
    ensures n <= Allowance(cfg, length)
  {
    QuotientAtLeast(length, cfg.duration, k);
    ProductGrows(k + 1, length / cfg.duration + 1, cfg.maxFailedAttempts);
  }

  lemma ProductGrows(x: int, y: int, m: nat)
    requires x <= y
    ensures x * m <= y * m
  {
  }

  lemma QuotientAtLeast(n: nat, d: nat, k: nat)
    requires d >= 1 && k * d <= n
    ensures k <= n / d
  {
    assert n == n / d * d + n % d;
    ProductSign(k - n / d, d);
    assert (k - n / d) * d == k * d - n / d * d;
  }

  /** `m` failures at one instant, after `before`. */
  function Burst(before: seq<Attempt>, at: int, m: nat): seq<Attempt> {
    if m == 0 then before else Burst(before, at, m - 1) + [Attempt.Attempt(false, at)]
  }

  /** `n` full bursts, each at the instant the lock of the one before it runs out. */
  function Bursts(cfg: Config, n: nat): seq<Attempt> {
    if n == 0 then [] else Burst(Bursts(cfg, n - 1), (n - 1) * cfg.duration, cfg.maxFailedAttempts)
  }

  lemma CountStep(counted: seq<Counted>, next: Counted, a: int, b: int)
    ensures CountedBetween(counted + [next], a, b)
            == CountedBetween(counted, a, b) + if a <= next.now <= b then 1 else 0
  {
    assert (counted + [next])[..|counted + [next]| - 1] == counted;
  }

  /** No lock is running at `at`, and the count starts over. */
  ghost predicate FreshAt(user: User, at: int) {
    if user.lockoutEndsAt.Some? then user.lockoutEndsAt.value <= at else user.failedLoginCount == 0
  }

  function AfterBurst(cfg: Config, at: int, m: nat): User {
    User(m, if m == cfg.maxFailedAttempts then Some(at + cfg.duration) else None)
  }

  lemma {:induction false} BurstCounts(cfg: Config, before: seq<Attempt>, at: int, m: nat, a: int, b: int)
    requires ValidConfig(cfg) && cfg.enabled && m <= cfg.maxFailedAttempts && a <= at <= b
    requires FreshAt(Run(cfg, before).0, at)
    ensures m >= 1 ==> Run(cfg, Burst(before, at, m)).0 == AfterBurst(cfg, at, m)
    ensures CountedBetween(Run(cfg, Burst(before, at, m)).1, a, b) == CountedBetween(Run(cfg, before).1, a, b) + m
  {
    hide Run, CountedBetween;
    if m > 0 {
      BurstCounts(cfg, before, at, m - 1, a, b);
      var shorter := Burst(before, at, m - 1);
      var user, next := Run(cfg, shorter).0, Attempt.Attempt(false, at);
      RunStep(cfg, shorter, next);
      CountStep(Run(cfg, shorter).1, Count(cfg, user, at), a, b);
    }
  }

  ghost predicate EndsBy(attempts: seq<Attempt>, at: int) {
    Ordered(attempts) && NoSuccess(attempts) && (attempts != [] ==> attempts[|attempts| - 1].now <= at)
  }

  lemma {:induction false} BurstShape(before: seq<Attempt>, at: int, m: nat)
    requires EndsBy(before, at)
    ensures EndsBy(Burst(before, at, m), at)
  {
    if m > 0 {
      BurstShape(before, at, m - 1);
    }
  }

  lemma {:induction false} BurstsCount(cfg: Config, n: nat, b: int)
    requires ValidConfig(cfg) && cfg.enabled && (n - 1) * cfg.duration <= b
    ensures EndsBy(Bursts(cfg, n), (n - 1) * cfg.duration)
    ensures Run(cfg, Bursts(cfg, n)).0 == if n == 0 then User(0, None)
                                          else AfterBurst(cfg, (n - 1) * cfg.duration, cfg.maxFailedAttempts)
    ensures CountedBetween(Run(cfg, Bursts(cfg, n)).1, 0, b) == n * cfg.maxFailedAttempts
  {
    hide Burst, EndsBy, CountedBetween, Run;
    if n == 0 {
      NothingCounted(cfg, b);
    } else {
      var at := (n - 1) * cfg.duration;
      ProductSteps(n - 1, cfg.duration);
      ProductSteps(n, cfg.maxFailedAttempts);
      BurstsCount(cfg, n - 1, b);
      EndsLater(Bursts(cfg, n - 1), at - cfg.duration, at);
      BurstShape(Bursts(cfg, n - 1), at, cfg.maxFailedAttempts);
      BurstCounts(cfg, Bursts(cfg, n - 1), at, cfg.maxFailedAttempts, 0, b);
    }
  }

  lemma NothingCounted(cfg: Config, b: int)
    ensures Run(cfg, []) == (User(0, None), []) && CountedBetween([], 0, b) == 0 && EndsBy([], -cfg.duration)
  {
  }

  lemma EndsLater(attempts: seq<Attempt>, at: int, later: int)
    requires EndsBy(attempts, at) && at <= later
    ensures EndsBy(attempts, later)
  {
  }

  lemma ProductSwaps(x: int, y: int)
    ensures x * y == y * x
  {
  }

  lemma ProductSteps(x: nat, m: nat)
    ensures 0 <= x * m == (x - 1) * m + m
  {
  }

  /** The bound is attained for every length, so no smaller one holds. */
  lemma FailureRateBoundIsTight(cfg: Config, length: nat) returns (attempts: seq<Attempt>)
    requires ValidConfig(cfg) && cfg.enabled
    ensures Ordered(attempts) && NoSuccess(attempts)
    ensures CountedBetween(Run(cfg, attempts).1, 0, length) == Allowance(cfg, length)
  {
    hide Run, Bursts, CountedBetween, Ordered, NoSuccess;
    var n := length / cfg.duration + 1;
    FullGroups(length, cfg.duration);
    ProductSwaps(n, cfg.maxFailedAttempts);
    attempts := Bursts(cfg, n);
    BurstsCount(cfg, n, length);
  }
}
