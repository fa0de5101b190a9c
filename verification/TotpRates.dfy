/** How often a TOTP credential can be used within an interval, counted at the instant of success. */
module TotpRates {
  import opened Events
  import opened Options
  import opened Totp

  /** Verifications of `c` that succeeded in [t1, t2]. */
  function Uses(accepted: seq<Accepted>, c: Id, t1: int, t2: int): nat {
    if accepted == [] then 0
    else
      var a := accepted[|accepted| - 1];
      Uses(accepted[..|accepted| - 1], c, t1, t2) + (if a.credential == c && t1 <= a.at <= t2 then 1 else 0)
  }

  lemma {:induction false} UsesBounded(accepted: seq<Accepted>, c: Id, t1: int, t2: int, lo: int, hi: int)
    requires Increasing(accepted)
    requires forall i :: 0 <= i < |accepted| && accepted[i].credential == c && t1 <= accepted[i].at <= t2 ==>
               lo <= accepted[i].step <= hi
    ensures Uses(accepted, c, t1, t2) <= if lo <= hi then hi - lo + 1 else 0
  {
    if accepted != [] {
      var front, a := accepted[..|accepted| - 1], accepted[|accepted| - 1];
      if a.credential == c && t1 <= a.at <= t2 {
        UsesBounded(front, c, t1, t2, lo, a.step - 1);
      } else {
        UsesBounded(front, c, t1, t2, lo, hi);
      }
    }
  }

  /** No verification takes longer than `delay` from its read to its claim. */
  ghost predicate Prompt(accepted: seq<Accepted>, delay: nat) {
    forall i :: 0 <= i < |accepted| ==> accepted[i].at <= accepted[i].readAt + delay
  }

  /** One use per step that can be read from t1 - delay on and claimed by t2. */
  function Allowance(t1: int, t2: int, delay: nat): int {
    TimeStep(t2) - TimeStep(t1 - delay) + 3
  }

  lemma UsesWithinDelay(clock: int, events: seq<Event<Action>>, c: Id, t1: int, t2: int, delay: nat)
    requires Orderly(Start(clock), events) && Prompt(Run(Start(clock), events).accepted, delay) && t1 <= t2
    ensures Uses(Run(Start(clock), events).accepted, c, t1, t2) <= Allowance(t1, t2, delay)
  {
    RunKeepsInv(Start(clock), events);
    hide Run, Orderly, Barred;
    var w := Run(Start(clock), events);
    forall i | 0 <= i < |w.accepted| && w.accepted[i].credential == c && t1 <= w.accepted[i].at <= t2
      ensures TimeStep(t1 - delay) - 1 <= w.accepted[i].step <= TimeStep(t2) + 1
    {
      assert SoundUse(w, w.accepted[i]);
      StepMonotone(t1 - delay, w.accepted[i].readAt);
      StepMonotone(w.accepted[i].readAt, t2);
    }
    StepMonotone(t1 - delay, t2);
    UsesBounded(w.accepted, c, t1, t2, TimeStep(t1 - delay) - 1, TimeStep(t2) + 1);
  }

  // ---------------------------------------------------------------------------------------------
  // A run that attains the allowance
  // ---------------------------------------------------------------------------------------------

  /** The earliest instant from `t0` on at which the code of `step` matches. */
  function ReadTime(t0: int, step: int): int {
    if t0 <= (step - 1) * STEP_TICKS then (step - 1) * STEP_TICKS else t0
  }

  function Verification(t0: int, step: int): Pending {
    Pending(0, step, ReadTime(t0, step))
  }

  /** Enrols one credential and confirms it with a code from before `lo`. */
  function Enrolment(lo: int): seq<Event<Action>> {
    var at := (lo - 1) * STEP_TICKS;
    [Event(DoEnroll(7), at), Event(DoMatch(0, lo - 1), at), Event(DoSave(Confirmation(0, lo - 1, None)), at)]
  }

  /** Reads the codes of `n` steps from `lo` on, each as early as it matches. */
  function Reads(t0: int, lo: int, n: nat): seq<Event<Action>> {
    if n == 0 then Enrolment(lo)
    else Reads(t0, lo, n - 1) + [Event(DoRead(0, lo + n - 1), ReadTime(t0, lo + n - 1))]
  }

  /** Then claims `m` of them at `t1`. */
  function Claims(t0: int, t1: int, lo: int, n: nat, m: nat): seq<Event<Action>> {
    if m == 0 then Reads(t0, lo, n)
    else Claims(t0, t1, lo, n, m - 1) + [Event(DoClaim(Verification(t0, lo + m - 1)), t1)]
  }

  /** And then reads and claims `k` more, each as early as it matches. */
  function Spree(t0: int, t1: int, lo: int, n: nat, k: nat): seq<Event<Action>> {
    if k == 0 then Claims(t0, t1, lo, n, n)
    else
      var p := Verification(t0, lo + n + k - 1);
      Spree(t0, t1, lo, n, k - 1) + [Event(DoRead(0, p.step), p.readAt)] + [Event(DoClaim(p), p.readAt)]
  }

  /** `count` uses so far, none of them slower than `delay`. */
  ghost predicate Used(accepted: seq<Accepted>, t1: int, t2: int, delay: nat, count: nat) {
    Uses(accepted, 0, t1, t2) == count && Prompt(accepted, delay)
  }

  /** One confirmed credential whose last used step is `last`, and the codes after it read up to `next`. */
  ghost predicate Underway(w: World, t0: int, last: int, next: int, now: int) {
    && w.rows == map[0 := Credential(7, true, Some(last))] && w.clock <= now
    && forall s :: last < s < next ==> Verification(t0, s) in w.pending
  }

  lemma Enrolled(t0: int, lo: int)
    ensures var at := (lo - 1) * STEP_TICKS;
            var w := Run(Start(at), Enrolment(lo));
            Orderly(Start(at), Enrolment(lo)) && Underway(w, t0, lo - 1, lo, at) && w.accepted == []
  {
    hide Next, Rewinds, Underway;
    var at := (lo - 1) * STEP_TICKS;
    var w, p := Start(at), Confirmation(0, lo - 1, None);
    var enrol, match_, save := Event(DoEnroll(7), at), Event(DoMatch(0, lo - 1), at), Event(DoSave(p), at);
    OneMore(w, [], enrol);
    OneMore(w, [enrol], match_);
    OneMore(w, [enrol, match_], save);
    assert [] + [enrol] == [enrol] && [enrol] + [match_] == [enrol, match_];
    assert [enrol, match_] + [save] == Enrolment(lo);
    EnrolmentSteps(t0, lo);
  }

  lemma EnrolmentSteps(t0: int, lo: int)
    ensures var at := (lo - 1) * STEP_TICKS;
            var save := Event(DoSave(Confirmation(0, lo - 1, None)), at);
            var w1 := Next(Start(at), Event(DoEnroll(7), at));
            var w2 := Next(w1, Event(DoMatch(0, lo - 1), at));
            && !Rewinds(Start(at), Event(DoEnroll(7), at)) && !Rewinds(w1, Event(DoMatch(0, lo - 1), at))
            && !Rewinds(w2, save) && w1.clock == w2.clock == at
            && Underway(Next(w2, save), t0, lo - 1, lo, at) && Next(w2, save).accepted == []
  {
    var at := (lo - 1) * STEP_TICKS;
    var p := Confirmation(0, lo - 1, None);
    assert TimeStep(at) == lo - 1;
    var w2 := Next(Next(Start(at), Event(DoEnroll(7), at)), Event(DoMatch(0, lo - 1), at));
    assert w2.confirming == multiset{p} && w2.rows == map[0 := Credential(7, false, None)] && w2.accepted == [];
    assert Next(w2, Event(DoSave(p), at)).rows == map[0 := Credential(7, true, Some(lo - 1))];
  }

  lemma ReadTimes(t0: int, step: int)
    requires TimeStep(t0) - 1 <= step
    ensures Matches(step, ReadTime(t0, step))
    ensures t0 <= ReadTime(t0, step) <= ReadTime(t0, step + 1)
    ensures (step - 1) * STEP_TICKS <= ReadTime(t0, step)
  {
  }

  lemma ReadBy(t0: int, step: int, t: int)
    requires t0 <= t && step <= TimeStep(t) + 1
    ensures ReadTime(t0, step) <= t
  {
  }

  lemma OneRead(w: World, t0: int, last: int, next: int, now: int)
    requires Underway(w, t0, last, next, now) && now <= ReadTime(t0, next) && TimeStep(t0) - 1 <= next
    ensures var w' := Next(w, Event(DoRead(0, next), ReadTime(t0, next)));
            Underway(w', t0, last, next + 1, ReadTime(t0, next)) && w'.accepted == w.accepted
  {
    ReadTimes(t0, next);
    hide ReadTime, Matches, Claim, SaveConfirmation, Without;
  }

  lemma OneClaim(w: World, t0: int, last: int, next: int, at: int, t1: int, t2: int, delay: nat, count: nat)
    requires Underway(w, t0, last, next, at) && last + 1 < next && Used(w.accepted, t1, t2, delay, count)
    requires t1 <= at <= t2 && at <= ReadTime(t0, last + 1) + delay
    ensures var w' := Next(w, Event(DoClaim(Verification(t0, last + 1)), at));
            Underway(w', t0, last + 1, next, at) && Used(w'.accepted, t1, t2, delay, count + 1)
  {
    hide ReadTime, Matches, SaveConfirmation, Without;
    var p := Verification(t0, last + 1);
    var a := Accepted(0, p.step, p.readAt, at);
    var w' := Next(w, Event(DoClaim(p), at));
    assert w'.accepted == w.accepted + [a];
    assert (w.accepted + [a])[..|w.accepted|] == w.accepted;
    assert forall s :: last + 1 < s < next ==> Verification(t0, s) != p;
  }

  lemma ReadsDoNotRewind(w: World, c: Id, step: int, now: int)
    ensures !Rewinds(w, Event(DoRead(c, step), now))
    ensures forall p :: !Rewinds(w, Event(DoClaim(p), now))
  {
  }

  lemma ClockBy(w: World, t0: int, last: int, next: int, now: int)
    requires Underway(w, t0, last, next, now)
    ensures w.clock <= now
  {
  }

  lemma {:induction false} ReadsDone(t0: int, lo: int, n: nat)
    requires lo == TimeStep(t0) - 1
    ensures var at := (lo - 1) * STEP_TICKS;
            var w := Run(Start(at), Reads(t0, lo, n));
            && Orderly(Start(at), Reads(t0, lo, n)) && w.accepted == []
            && Underway(w, t0, lo - 1, lo + n, if n == 0 then at else ReadTime(t0, lo + n - 1))
    decreases n
  {
    hide Run, Orderly, Underway, Next, Enrolment, Rewinds, ReadTime;
    var at, step := (lo - 1) * STEP_TICKS, lo + n - 1;
    if n == 0 {
      Enrolled(t0, lo);
    } else {
      ReadsDone(t0, lo, n - 1);
      ReadTimes(t0, step);
      if n > 1 {
        ReadTimes(t0, step - 1);
      }
      var before := Run(Start(at), Reads(t0, lo, n - 1));
      OneRead(before, t0, lo - 1, step, if n == 1 then at else ReadTime(t0, step - 1));
      OneMore(Start(at), Reads(t0, lo, n - 1), Event(DoRead(0, step), ReadTime(t0, step)));
      ReadsDoNotRewind(before, 0, step, ReadTime(t0, step));
      ClockBy(before, t0, lo - 1, step, if n == 1 then at else ReadTime(t0, step - 1));
    }
  }

  lemma {:induction false} ClaimsDone(t0: int, t1: int, t2: int, lo: int, n: nat, m: nat, delay: nat)
    requires lo == TimeStep(t0) - 1 && t0 == t1 - delay && t1 <= t2 && m <= n && 0 < n && lo + n <= TimeStep(t1) + 2
    ensures var at := (lo - 1) * STEP_TICKS;
            var w := Run(Start(at), Claims(t0, t1, lo, n, m));
            && Orderly(Start(at), Claims(t0, t1, lo, n, m)) && Used(w.accepted, t1, t2, delay, m)
            && Underway(w, t0, lo + m - 1, lo + n, t1)
    decreases m
  {
    hide Run, Orderly, Next, Reads, Rewinds, ReadTime;
    var at := (lo - 1) * STEP_TICKS;
    if m == 0 {
      ReadsDone(t0, lo, n);
      ReadBy(t0, lo + n - 1, t1);
    } else {
      hide Underway, Used;
      ClaimsDone(t0, t1, t2, lo, n, m - 1, delay);
      var events := Claims(t0, t1, lo, n, m - 1);
      var before, p := Run(Start(at), events), Verification(t0, lo + m - 1);
      ReadTimes(t0, lo + m - 1);
      OneClaim(before, t0, lo + m - 2, lo + n, t1, t1, t2, delay, m - 1);
      OneMore(Start(at), events, Event(DoClaim(p), t1));
      ReadsDoNotRewind(before, 0, 0, t1);
      ClockBy(before, t0, lo + m - 2, lo + n, t1);
    }
  }

  lemma {:induction false} SpreeDone(t0: int, t1: int, t2: int, lo: int, n: nat, k: nat, delay: nat)
    requires lo == TimeStep(t0) - 1 && t0 == t1 - delay && t1 <= t2
    requires lo + n == TimeStep(t1) + 2 && lo + n + k <= TimeStep(t2) + 2
    ensures var at := (lo - 1) * STEP_TICKS;
            var w := Run(Start(at), Spree(t0, t1, lo, n, k));
            && Orderly(Start(at), Spree(t0, t1, lo, n, k)) && Used(w.accepted, t1, t2, delay, n + k)
            && Underway(w, t0, lo + n + k - 1, lo + n + k, if k == 0 then t1 else ReadTime(t0, lo + n + k - 1))
    decreases k
  {
    hide Run, Orderly, Next, Rewinds, ReadTime, Underway, Used, Claims;
    var at := (lo - 1) * STEP_TICKS;
    StepMonotone(t0, t1);
    if k == 0 {
      ClaimsDone(t0, t1, t2, lo, n, n, delay);
    } else {
      SpreeDone(t0, t1, t2, lo, n, k - 1, delay);
      var events, step := Spree(t0, t1, lo, n, k - 1), lo + n + k - 1;
      var before, p := Run(Start(at), events), Verification(t0, step);
      var now, read := if k == 1 then t1 else ReadTime(t0, step - 1), Event(DoRead(0, step), p.readAt);
      NextReadTime(t0, t1, step, t2);
      OneRead(before, t0, step - 1, step, now);
      OneMore(Start(at), events, read);
      ReadsDoNotRewind(before, 0, step, p.readAt);
      ClockBy(before, t0, step - 1, step, now);
      var during := Next(before, read);
      OneClaim(during, t0, step - 1, step + 1, p.readAt, t1, t2, delay, n + k - 1);
      OneMore(Start(at), events + [read], Event(DoClaim(p), p.readAt));
      ReadsDoNotRewind(during, 0, step, p.readAt);
      ClockBy(during, t0, step - 1, step + 1, p.readAt);
    }
  }

  /** The codes of the steps after t1's next one are read later than t1. */
  lemma NextReadTime(t0: int, t1: int, step: int, t2: int)
    requires t0 <= t1 <= t2 && TimeStep(t1) + 2 <= step <= TimeStep(t2) + 1
    ensures t1 <= ReadTime(t0, step) <= t2 && ReadTime(t0, step - 1) <= ReadTime(t0, step)
    ensures TimeStep(t0) - 1 <= step
  {
    StepMonotone(t0, t1);
  }

  /** The allowance is attained for every delay and interval, so no smaller bound holds. */
  lemma AllowanceAttained(t1: int, t2: int, delay: nat) returns (clock: int, events: seq<Event<Action>>)
    requires t1 <= t2
    ensures Orderly(Start(clock), events) && Prompt(Run(Start(clock), events).accepted, delay)
    ensures Uses(Run(Start(clock), events).accepted, 0, t1, t2) == Allowance(t1, t2, delay)
  {
    var t0 := t1 - delay;
    var lo := TimeStep(t0) - 1;
    StepMonotone(t0, t1);
    StepMonotone(t1, t2);
    var n, k := TimeStep(t1) + 2 - lo, TimeStep(t2) - TimeStep(t1);
    SpreeDone(t0, t1, t2, lo, n, k, delay);
    hide Run, Orderly, Spree, Prompt, Uses;
    clock, events := (lo - 1) * STEP_TICKS, Spree(t0, t1, lo, n, k);
  }

  // ---------------------------------------------------------------------------------------------
  // One use per step of the interval
  // ---------------------------------------------------------------------------------------------

  /** At most one success per time step of the interval, plus one step of tolerance on either side. */
  ghost predicate OnePerStep(delay: nat) {
    forall clock, events, c, t1, t2 ::
      Orderly(Start(clock), events) && Prompt(Run(Start(clock), events).accepted, delay) && t1 <= t2 ==>
        Uses(Run(Start(clock), events).accepted, c, t1, t2) <= TimeStep(t2) - TimeStep(t1) + 3
  }

  /** That bound holds on all orderly runs exactly when a code is claimed the instant it is read. */
  lemma UsesPerInterval(delay: nat)
    ensures OnePerStep(delay) <==> delay == 0
  {
    hide Run, Orderly, Prompt, Uses;
    if delay == 0 {
      forall clock, events, c, t1, t2 |
          Orderly(Start(clock), events) && Prompt(Run(Start(clock), events).accepted, delay) && t1 <= t2
        ensures Uses(Run(Start(clock), events).accepted, c, t1, t2) <= TimeStep(t2) - TimeStep(t1) + 3
      {
        UsesWithinDelay(clock, events, c, t1, t2, delay);
      }
    } else {
      var t := delay * STEP_TICKS;
      assert TimeStep(t) == delay && TimeStep(t - delay) < delay;
      var clock, events := AllowanceAttained(t, t, delay);
    }
  }
}
