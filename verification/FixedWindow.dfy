/**
  The fixed window of Services/RateLimiting/RedisRateLimitStore.cs: one counter per key, whose TTL
  is set by the first increment. Each script call is one atomic step.
*/
module FixedWindow {
  import opened Options

  /** `lingers`: Redis still serves a key in the very millisecond its TTL runs out. */
  datatype Config = Config(limit: nat, window: int, lingers: bool)

  predicate ValidConfig(cfg: Config) {
    cfg.window >= 1
  }

  /** How long a counter is readable, counted from its first increment. */
  function Life(cfg: Config): int {
    cfg.window + (if cfg.lingers then 1 else 0)
  }

  /** A counter in Redis; `deadline` is None for a key without a TTL. */
  datatype Counter = Counter(count: int, deadline: Option<int>)

  datatype Call = Call(permits: nat, now: int)

  datatype Decision = Decision(acquired: bool, remaining: int, retry: int)

  function Visible(cfg: Config, key: Option<Counter>, now: int): Option<Counter> {
    if key.Some? && key.value.deadline.Some? && now >= key.value.deadline.value - cfg.window + Life(cfg)
    then None else key
  }

  /** PTTL: -2 for a missing key, -1 for a key that never expires. */
  function Pttl(key: Option<Counter>, now: int): int {
    match key
    case None => -2
    case Some(Counter(_, None)) => -1
    case Some(Counter(_, Some(deadline))) => deadline - now
  }

  function Max(a: int, b: int): int {
    if a >= b then a else b
  }

  function Count(key: Option<Counter>): int {
    if key.Some? then key.value.count else 0
  }

  predicate Grants(limit: nat, permits: nat, current: int) {
    (permits == 0 && current < limit) || (permits > 0 && current + permits <= limit)
  }

  function Step(cfg: Config, key: Option<Counter>, call: Call): (Option<Counter>, Decision) {
    var visible := Visible(cfg, key, call.now);
    var current := Count(visible);
    if Grants(cfg.limit, call.permits, current) then
      var count := current + call.permits;
      var key' :=
        if call.permits == 0 then visible
        else Some(Counter(count,
                          if count == call.permits then Some(call.now + cfg.window)
                          else if visible.Some? then visible.value.deadline else None));
      (key', Decision(true, Max(0, cfg.limit - count), 0))
    else
      var ttl := Pttl(visible, call.now);
      (visible, Decision(false, Max(0, cfg.limit - current), if ttl < 1 then cfg.window else ttl))
  }

  /** The key in Redis, with the script run against it. */
  class RedisCounter {
    const cfg: Config
    var key: Option<Counter>

    constructor (cfg: Config)
      ensures this.cfg == cfg && key == None
    {
      this.cfg := cfg;
      key := None;
    }

    method IncrBy(permits: int) returns (current: int)
      modifies this
      ensures current == Count(old(key)) + permits
      ensures key == Some(Counter(current, if old(key).Some? then old(key).value.deadline else None))
    {
      current := Count(key) + permits;
      key := Some(Counter(current, if key.Some? then key.value.deadline else None));
    }

    /** AcquireFixedWindowAsync: the script's statements in order. */
    method Acquire(permits: nat, now: int) returns (decision: Decision)
      modifies this
      ensures (key, decision) == Step(cfg, old(key), Call(permits, now))
    {
      key := Visible(cfg, key, now);
      var current := Count(key);
      var acquired := false;
      if (permits == 0 && current < cfg.limit) || (permits > 0 && current + permits <= cfg.limit) {
        acquired := true;
        if permits > 0 {
          current := IncrBy(permits);
          if current == permits {
            key := Some(key.value.(deadline := Some(now + cfg.window)));
          }
        }
      }
      var ttl := Pttl(key, now);
      if ttl < 1 {
        ttl := cfg.window;
      }
      decision := Decision(acquired, Max(0, cfg.limit - current), if acquired then 0 else ttl);
    }
  }

  // ---------------------------------------------------------------------------------------------
  // Runs
  // ---------------------------------------------------------------------------------------------

  /** A grant and the instant at which its counter was started. */
  datatype Grant = Grant(time: int, permits: nat, start: int)

  function Record(cfg: Config, log: seq<Grant>, call: Call, key: Option<Counter>, decision: Decision): seq<Grant> {
    if decision.acquired && call.permits > 0 && key.Some? && key.value.deadline.Some?
    then log + [Grant(call.now, call.permits, key.value.deadline.value - cfg.window)] else log
  }

  /** The key after `calls`, and what was granted on the way. */
  function Run(cfg: Config, calls: seq<Call>): (Option<Counter>, seq<Grant>) {
    if calls == [] then (None, [])
    else
      var (key, log) := Run(cfg, calls[..|calls| - 1]);
      var call := calls[|calls| - 1];
      var (key', decision) := Step(cfg, key, call);
      (key', Record(cfg, log, call, key', decision))
  }

  ghost predicate Ordered(calls: seq<Call>) {
    forall i, j :: 0 <= i < j < |calls| ==> calls[i].now <= calls[j].now
  }

  /** Permits granted by the counter started at `start`. */
  function FromCounter(log: seq<Grant>, start: int): nat {
    if log == [] then 0
    else
      var last := log[|log| - 1];
      FromCounter(log[..|log| - 1], start) + (if last.start == start then last.permits else 0)
  }

  function GrantedBetween(log: seq<Grant>, a: int, b: int): nat {
    if log == [] then 0
    else
      var last := log[|log| - 1];
      GrantedBetween(log[..|log| - 1], a, b) + (if a <= last.time <= b then last.permits else 0)
  }

  /** A stored counter is within 1..limit and carries the TTL of its first increment. */
  ghost predicate Healthy(cfg: Config, key: Option<Counter>, log: seq<Grant>, last: int) {
    key.Some? ==>
      && 1 <= key.value.count <= cfg.limit
      && key.value.deadline.Some?
      && key.value.count == FromCounter(log, key.value.deadline.value - cfg.window)
      && key.value.deadline.value <= last + cfg.window
      && last < key.value.deadline.value - cfg.window + Life(cfg)
  }

  /** Every grant falls into its counter's life. */
  ghost predicate Alive(cfg: Config, log: seq<Grant>) {
    forall i :: 0 <= i < |log| ==> log[i].start <= log[i].time < log[i].start + Life(cfg)
  }

  /** A counter starts only after the one before it is gone. */
  ghost predicate Apart(cfg: Config, log: seq<Grant>) {
    forall i, j :: 0 <= i < j < |log| ==>
      log[i].time <= log[j].time && (log[i].start == log[j].start || log[i].start + Life(cfg) <= log[j].start)
  }

  ghost predicate Bounded(cfg: Config, log: seq<Grant>) {
    forall start :: FromCounter(log, start) <= cfg.limit
  }

  ghost predicate Chronicle(cfg: Config, log: seq<Grant>) {
    Alive(cfg, log) && Apart(cfg, log) && Bounded(cfg, log)
  }

  /** The current counter comes after all others in the log, or all counters in the log are gone. */
  ghost predicate Successive(cfg: Config, key: Option<Counter>, log: seq<Grant>, last: int) {
    forall i :: 0 <= i < |log| ==>
      && log[i].time <= last
      && (if key.Some? && key.value.deadline.Some? then
            var start := key.value.deadline.value - cfg.window;
            log[i].start == start || log[i].start + Life(cfg) <= start
          else log[i].start + Life(cfg) <= last)
  }

  lemma {:induction false} NotYetStarted(log: seq<Grant>, start: int)
    requires forall i :: 0 <= i < |log| ==> log[i].start != start
    ensures FromCounter(log, start) == 0
  {
    if log != [] {
      NotYetStarted(log[..|log| - 1], start);
    }
  }

  ghost predicate Invariant(cfg: Config, key: Option<Counter>, log: seq<Grant>, last: int) {
    Healthy(cfg, key, log, last) && Chronicle(cfg, log) && Successive(cfg, key, log, last)
  }

  /** Looking at the key later keeps the invariant: an expired counter belongs to the past. */
  lemma VisibleInvariant(cfg: Config, key: Option<Counter>, log: seq<Grant>, last: int, now: int)
    requires ValidConfig(cfg) && last <= now && Invariant(cfg, key, log, last)
    ensures Invariant(cfg, Visible(cfg, key, now), log, now)
  {
  }

  lemma GrantApart(cfg: Config, log: seq<Grant>, grant: Grant)
    requires Alive(cfg, log) && Apart(cfg, log)
    requires grant.start <= grant.time < grant.start + Life(cfg)
    requires forall i :: 0 <= i < |log| ==>
               log[i].time <= grant.time && (log[i].start == grant.start || log[i].start + Life(cfg) <= grant.start)
    ensures Alive(cfg, log + [grant]) && Apart(cfg, log + [grant])
  {
  }

  lemma GrantBounded(cfg: Config, log: seq<Grant>, grant: Grant)
    requires Bounded(cfg, log)
    requires FromCounter(log, grant.start) + grant.permits <= cfg.limit
    ensures Bounded(cfg, log + [grant])
    ensures FromCounter(log + [grant], grant.start) == FromCounter(log, grant.start) + grant.permits
  {
    assert (log + [grant])[..|log|] == log;
    forall start ensures FromCounter(log + [grant], start) <= cfg.limit {
      assert FromCounter(log, start) <= cfg.limit;
    }
  }

  lemma GrantInvariant(cfg: Config, visible: Option<Counter>, log: seq<Grant>, call: Call)
    requires ValidConfig(cfg) && Invariant(cfg, visible, log, call.now)
    requires call.permits > 0 && Count(visible) + call.permits <= cfg.limit
    ensures var start := if visible.None? then call.now else visible.value.deadline.value - cfg.window;
            Invariant(cfg, Some(Counter(Count(visible) + call.permits, Some(start + cfg.window))),
                      log + [Grant(call.now, call.permits, start)], call.now)
  {
    var start := if visible.None? then call.now else visible.value.deadline.value - cfg.window;
    if visible.None? {
      NotYetStarted(log, start);
    }
    GrantApart(cfg, log, Grant(call.now, call.permits, start));
    GrantBounded(cfg, log, Grant(call.now, call.permits, start));
  }

  lemma StepInvariant(cfg: Config, key: Option<Counter>, log: seq<Grant>, last: int, call: Call)
    requires ValidConfig(cfg) && last <= call.now && Invariant(cfg, key, log, last)
    ensures var (key', decision) := Step(cfg, key, call);
            var log' := Record(cfg, log, call, key', decision);
            && Invariant(cfg, key', log', call.now)
            && (decision.acquired && call.permits > 0 ==> |log'| == |log| + 1)
  {
    hide Chronicle, Successive, FromCounter;
    var (key', decision) := Step(cfg, key, call);
    var visible := Visible(cfg, key, call.now);
    VisibleInvariant(cfg, key, log, last, call.now);
    if decision.acquired && call.permits > 0 {
      GrantInvariant(cfg, visible, log, call);
    }
  }

  lemma {:induction false} RunInvariant(cfg: Config, calls: seq<Call>, last: int)
    requires ValidConfig(cfg) && Ordered(calls)
    requires calls != [] ==> last == calls[|calls| - 1].now
    ensures var (key, log) := Run(cfg, calls);
            Invariant(cfg, key, log, last)
  {
    if calls != [] {
      var before := calls[..|calls| - 1];
      var call := calls[|calls| - 1];
      var previous := if before == [] then call.now else before[|before| - 1].now;
      RunInvariant(cfg, before, previous);
      var (key, log) := Run(cfg, before);
      StepInvariant(cfg, key, log, previous, call);
    }
  }

  /** On every run the stored counter is within 1..limit and has a TTL: it cannot leak forever. */
  lemma {:induction false} CounterNeverLeaks(cfg: Config, calls: seq<Call>)
    requires ValidConfig(cfg) && Ordered(calls) && Run(cfg, calls).0.Some?
    ensures 1 <= Run(cfg, calls).0.value.count <= cfg.limit && Run(cfg, calls).0.value.deadline.Some?
  {
    RunInvariant(cfg, calls, if calls == [] then 0 else calls[|calls| - 1].now);
  }

  // ---------------------------------------------------------------------------------------------
  // Rate bound
  // ---------------------------------------------------------------------------------------------

  /** A counter's first permits are granted the instant it starts. */
  ghost predicate HasFirst(log: seq<Grant>, start: int) {
    exists j :: 0 <= j < |log| && log[j].start == start && log[j].time == start && log[j].permits > 0
  }

  ghost predicate Begun(log: seq<Grant>) {
    forall i :: 0 <= i < |log| ==> HasFirst(log, log[i].start)
  }

  lemma RunStep(cfg: Config, calls: seq<Call>, call: Call)
    ensures var (key, log) := Run(cfg, calls);
            var (key', decision) := Step(cfg, key, call);
            Run(cfg, calls + [call]) == (key', Record(cfg, log, call, key', decision))
  {
    assert (calls + [call])[..|calls|] == calls;
  }

  lemma BegunExtends(log: seq<Grant>, grant: Grant)
    requires Begun(log) && grant.permits > 0 && (grant.time == grant.start || HasFirst(log, grant.start))
    ensures Begun(log + [grant])
  {
    var log' := log + [grant];
    assert log'[|log|] == grant;
    forall i | 0 <= i < |log'| ensures HasFirst(log', log'[i].start) {
      if i < |log| || grant.time != grant.start {
        var j :| 0 <= j < |log| && log[j].start == log'[i].start && log[j].time == log'[i].start && log[j].permits > 0;
        assert log'[j] == log[j];
      }
    }
  }

  lemma {:induction false} SomeGrant(log: seq<Grant>, start: int)
    requires FromCounter(log, start) > 0
    ensures exists i :: 0 <= i < |log| && log[i].start == start
  {
    if log[|log| - 1].start != start {
      SomeGrant(log[..|log| - 1], start);
      var i :| 0 <= i < |log| - 1 && log[..|log| - 1][i].start == start;
      assert log[i].start == start;
    }
  }

  lemma {:induction false} RunBegun(cfg: Config, calls: seq<Call>)
    requires ValidConfig(cfg) && Ordered(calls)
    ensures Begun(Run(cfg, calls).1)
  {
    if calls != [] {
      hide Begun, Invariant, Step, Record;
      var before, call := calls[..|calls| - 1], calls[|calls| - 1];
      RunBegun(cfg, before);
      var previous := if before == [] then call.now else before[|before| - 1].now;
      RunInvariant(cfg, before, previous);
      StepBegun(cfg, Run(cfg, before).0, Run(cfg, before).1, previous, call);
    }
  }

  lemma StepBegun(cfg: Config, key: Option<Counter>, log: seq<Grant>, last: int, call: Call)
    requires ValidConfig(cfg) && last <= call.now && Invariant(cfg, key, log, last) && Begun(log)
    ensures var (key', decision) := Step(cfg, key, call);
            Begun(Record(cfg, log, call, key', decision))
  {
    hide Chronicle, Successive, FromCounter, HasFirst, Begun;
    var visible := Visible(cfg, key, call.now);
    VisibleInvariant(cfg, key, log, last, call.now);
    FirstOfCurrent(cfg, visible, log, call.now);
    var (key', decision) := Step(cfg, key, call);
    if Record(cfg, log, call, key', decision) != log {
      BegunExtends(log, Grant(call.now, call.permits, key'.value.deadline.value - cfg.window));
    }
  }

  lemma FirstOfCurrent(cfg: Config, visible: Option<Counter>, log: seq<Grant>, now: int)
    requires Begun(log) && Healthy(cfg, visible, log, now)
    ensures visible.Some? && visible.value.deadline.Some? ==>
              HasFirst(log, visible.value.deadline.value - cfg.window)
  {
    if visible.Some? {
      SomeGrant(log, visible.value.deadline.value - cfg.window);
    }
  }

  /** Permits granted from `a` on by the counters that started by `until`. */
  function Since(log: seq<Grant>, a: int, until: int): nat {
    if log == [] then 0
    else
      var last := log[|log| - 1];
      Since(log[..|log| - 1], a, until) + (if a <= last.time && last.start <= until then last.permits else 0)
  }

  lemma {:induction false} NothingSince(log: seq<Grant>, a: int, until: int)
    requires forall i :: 0 <= i < |log| ==> !(a <= log[i].time && log[i].start <= until)
    ensures Since(log, a, until) == 0
  {
    if log != [] {
      NothingSince(log[..|log| - 1], a, until);
    }
  }

  lemma {:induction false} SinceSplit(log: seq<Grant>, a: int, until: int, before: int)
    requires forall i :: 0 <= i < |log| && log[i].start <= until ==> log[i].start == until || log[i].start <= before
    ensures Since(log, a, until) <= FromCounter(log, until) + Since(log, a, before)
  {
    if log != [] {
      SinceSplit(log[..|log| - 1], a, until, before);
    }
  }

  /** A counter that started before `a` spent its first permit then. */
  lemma {:induction false} LateShare(log: seq<Grant>, a: int, until: int, s: int, first: nat)
    requires forall i :: 0 <= i < |log| && a <= log[i].time && log[i].start <= until ==> log[i].start == s
    requires first < |log| ==> log[first].start == s && log[first].time < a && log[first].permits > 0
    ensures Since(log, a, until) + (if first < |log| then 1 else 0) <= FromCounter(log, s)
  {
    if log != [] {
      LateShare(log[..|log| - 1], a, until, s, first);
    }
  }

  /**
    The most that can be granted from an instant on by counters that start up to `e` later: one that
    started before it has spent a permit, the others follow a life apart.
  */
  function Most(cfg: Config, e: int): nat
    requires ValidConfig(cfg)
    decreases if e <= -Life(cfg) then 0 else e + Life(cfg)
  {
    if e <= -Life(cfg) then 0
    else if e < 0 then Max(0, cfg.limit - 1)
    else cfg.limit + Most(cfg, e - Life(cfg))
  }

  lemma {:induction false} MostMonotone(cfg: Config, e: int)
    requires ValidConfig(cfg)
    ensures Most(cfg, e - 1) <= Most(cfg, e)
    decreases if e <= -Life(cfg) then 0 else e + Life(cfg)
  {
    if e > 0 {
      MostMonotone(cfg, e - Life(cfg));
    } else if e == 0 {
      assert Most(cfg, -Life(cfg)) == 0;
    }
  }

  lemma {:induction false} CountersUpTo(cfg: Config, log: seq<Grant>, a: int, until: int)
    requires ValidConfig(cfg) && Chronicle(cfg, log) && Begun(log)
    ensures Since(log, a, until) <= Most(cfg, until - a)
    decreases if until - a <= -Life(cfg) then 0 else until - a + Life(cfg)
  {
    if until - a <= -Life(cfg) {
      NothingSince(log, a, until);
    } else if until < a {
      LateCounter(cfg, log, a, until);
    } else if q :| 0 <= q < |log| && log[q].start == until {
      StartsApart(cfg, log, q);
      SinceSplit(log, a, until, until - Life(cfg));
      CountersUpTo(cfg, log, a, until - Life(cfg));
    } else {
      SinceSplit(log, a, until, until - 1);
      NotYetStarted(log, until);
      CountersUpTo(cfg, log, a, until - 1);
      MostMonotone(cfg, until - a);
    }
  }

  lemma StartsApart(cfg: Config, log: seq<Grant>, q: nat)
    requires Apart(cfg, log) && q < |log|
    ensures forall i :: 0 <= i < |log| && log[i].start <= log[q].start ==>
              log[i].start == log[q].start || log[i].start <= log[q].start - Life(cfg)
  {
  }

  lemma LateCounter(cfg: Config, log: seq<Grant>, a: int, until: int)
    requires ValidConfig(cfg) && Chronicle(cfg, log) && Begun(log) && until < a
    ensures Since(log, a, until) <= Max(0, cfg.limit - 1)
  {
    if q :| 0 <= q < |log| && a <= log[q].time && log[q].start <= until {
      var s := log[q].start;
      assert HasFirst(log, s);
      var first :| 0 <= first < |log| && log[first].start == s && log[first].time == s && log[first].permits > 0;
      OneLateCounter(cfg, log, a, until, q);
      LateShare(log, a, until, s, first);
    } else {
      NothingSince(log, a, until);
    }
  }

  lemma OneLateCounter(cfg: Config, log: seq<Grant>, a: int, until: int, q: nat)
    requires Alive(cfg, log) && Apart(cfg, log) && until < a && q < |log|
    requires a <= log[q].time && log[q].start <= until
    ensures forall i :: 0 <= i < |log| && a <= log[i].time && log[i].start <= until ==> log[i].start == log[q].start
  {
  }

  lemma {:induction false} IntervalSince(cfg: Config, log: seq<Grant>, a: int, b: int)
    requires Alive(cfg, log)
    ensures GrantedBetween(log, a, b) <= Since(log, a, b)
  {
    if log != [] {
      IntervalSince(cfg, log[..|log| - 1], a, b);
    }
  }

  /** Every closed interval of length `d` grants at most `bound` permits, on every run. */
  ghost predicate RateBound(cfg: Config, d: nat, bound: nat) {
    forall calls, a :: Ordered(calls) ==> GrantedWithin(cfg, calls, a, d) <= bound
  }

  function GrantedWithin(cfg: Config, calls: seq<Call>, a: int, d: nat): nat {
    GrantedBetween(Run(cfg, calls).1, a, a + d)
  }

  lemma AtMost(cfg: Config, calls: seq<Call>, a: int, d: nat)
    requires ValidConfig(cfg) && Ordered(calls)
    ensures GrantedWithin(cfg, calls, a, d) <= Most(cfg, d)
  {
    RunInvariant(cfg, calls, if calls == [] then 0 else calls[|calls| - 1].now);
    RunBegun(cfg, calls);
    var log := Run(cfg, calls).1;
    IntervalSince(cfg, log, a, a + d);
    CountersUpTo(cfg, log, a, a + d);
  }

  /** A run that grants as much from 0 on, its last counter starting at `e`. */
  function Busiest(cfg: Config, e: int): seq<Call>
    requires ValidConfig(cfg) && cfg.limit >= 1
    decreases if e <= -Life(cfg) then 0 else e + Life(cfg)
  {
    if e <= -Life(cfg) then []
    else if e < 0 then [Call(1, e), Call(cfg.limit - 1, 0)]
    else Busiest(cfg, e - Life(cfg)) + [Call(cfg.limit, e)]
  }

  lemma GrantedStep(log: seq<Grant>, grant: Grant, a: int, b: int)
    ensures GrantedBetween(log + [grant], a, b)
         == GrantedBetween(log, a, b) + if a <= grant.time <= b then grant.permits else 0
  {
    assert (log + [grant])[..|log|] == log;
  }

  lemma NoRun(cfg: Config)
    ensures Run(cfg, []) == (None, [])
  {
  }

  lemma LateStart(cfg: Config, e: int, d: nat)
    requires ValidConfig(cfg) && cfg.limit >= 1 && -Life(cfg) < e < 0
    ensures var (key, log) := Run(cfg, Busiest(cfg, e));
            && key == Some(Counter(cfg.limit, Some(e + cfg.window)))
            && GrantedBetween(log, 0, d) == cfg.limit - 1
  {
    var first, second := Call(1, e), Call(cfg.limit - 1, 0);
    NoRun(cfg);
    RunStep(cfg, [], first);
    RunStep(cfg, [first], second);
    assert [] + [first] == [first] && [first] + [second] == Busiest(cfg, e);
    GrantedStep([], Grant(e, 1, e), 0, d);
    GrantedStep([Grant(e, 1, e)], Grant(0, cfg.limit - 1, e), 0, d);
    NoneGranted(d);
    hide Run, GrantedBetween, Busiest;
    assert Run(cfg, [first]) == (Some(Counter(1, Some(e + cfg.window))), [] + [Grant(e, 1, e)]);
    assert [] + [Grant(e, 1, e)] == [Grant(e, 1, e)];
  }

  lemma FullStart(cfg: Config, key: Option<Counter>, e: int)
    requires ValidConfig(cfg) && cfg.limit >= 1
    requires key.Some? ==> key == Some(Counter(cfg.limit, Some(e - Life(cfg) + cfg.window)))
    ensures Step(cfg, key, Call(cfg.limit, e)).0 == Some(Counter(cfg.limit, Some(e + cfg.window)))
    ensures Step(cfg, key, Call(cfg.limit, e)).1.acquired
  {
  }

  lemma {:induction false} BusiestGrants(cfg: Config, e: int, d: nat)
    requires ValidConfig(cfg) && cfg.limit >= 1 && e <= d
    ensures Ordered(Busiest(cfg, e)) && (forall i :: 0 <= i < |Busiest(cfg, e)| ==> Busiest(cfg, e)[i].now <= Max(0, e))
    ensures var (key, log) := Run(cfg, Busiest(cfg, e));
            && (if e <= -Life(cfg) then key.None? else key == Some(Counter(cfg.limit, Some(e + cfg.window))))
            && GrantedBetween(log, 0, d) == Most(cfg, e)
    decreases if e <= -Life(cfg) then 0 else e + Life(cfg)
  {
    hide Run, GrantedBetween, Step, Life;
    if e <= -Life(cfg) {
      NoRun(cfg);
      NoneGranted(d);
    } else if e < 0 {
      LateStart(cfg, e, d);
    } else {
      LifePositive(cfg);
      var before, call := Busiest(cfg, e - Life(cfg)), Call(cfg.limit, e);
      BusiestGrants(cfg, e - Life(cfg), d);
      RunStep(cfg, before, call);
      FullStart(cfg, Run(cfg, before).0, e);
      GrantedStep(Run(cfg, before).1, Grant(e, cfg.limit, e), 0, d);
    }
  }

  lemma NoneGranted(d: int)
    ensures GrantedBetween([], 0, d) == 0
  {
  }

  lemma LifePositive(cfg: Config)
    requires ValidConfig(cfg)
    ensures Life(cfg) >= 1
  {
  }

  /** Exactly what intervals of each length can be granted. */
  lemma RateBoundExact(cfg: Config, d: nat, bound: nat)
    requires ValidConfig(cfg)
    ensures RateBound(cfg, d, bound) <==> Most(cfg, d) <= bound
  {
    forall calls, a | Ordered(calls) ensures GrantedWithin(cfg, calls, a, d) <= Most(cfg, d) {
      AtMost(cfg, calls, a, d);
    }
    if cfg.limit == 0 {
      NoneAtAll(cfg, d);
    } else {
      BusiestGrants(cfg, d, d);
      assert GrantedWithin(cfg, Busiest(cfg, d), 0, d) == Most(cfg, d);
    }
  }

  lemma {:induction false} NoneAtAll(cfg: Config, e: int)
    requires ValidConfig(cfg) && cfg.limit == 0
    ensures Most(cfg, e) == 0
    decreases if e <= -Life(cfg) then 0 else e + Life(cfg)
  {
    if e >= 0 {
      NoneAtAll(cfg, e - Life(cfg));
    }
  }

  /** In closed form: a full limit a life, and all but one permit of another for what is left over. */
  lemma {:induction false} MostInLives(cfg: Config, lives: nat, rest: nat)
    requires ValidConfig(cfg) && cfg.limit >= 1 && rest < Life(cfg)
    ensures Most(cfg, lives * Life(cfg) + rest) ==
            if rest == 0 then (lives + 1) * cfg.limit else (lives + 2) * cfg.limit - 1
    decreases lives
  {
    var e := lives * Life(cfg) + rest;
    assert e >= 0;
    if lives > 0 {
      assert e - Life(cfg) == (lives - 1) * Life(cfg) + rest;
      MostInLives(cfg, lives - 1, rest);
      assert (lives + 1) * cfg.limit == lives * cfg.limit + cfg.limit;
    }
  }

  /** Every closed interval of a window's length grants at most twice the limit, on every run. */
  lemma WindowRateBound(cfg: Config, calls: seq<Call>, a: int)
    requires ValidConfig(cfg) && Ordered(calls)
    ensures GrantedBetween(Run(cfg, calls).1, a, a + cfg.window) <= 2 * cfg.limit
  {
    AtMost(cfg, calls, a, cfg.window);
    hide Run, GrantedBetween;
    assert Most(cfg, cfg.window - Life(cfg)) <= cfg.limit by {
      assert Most(cfg, 0 - Life(cfg)) == 0;
    }
  }

  // ---------------------------------------------------------------------------------------------
  // Decisions
  // ---------------------------------------------------------------------------------------------

  function Answer(cfg: Config, calls: seq<Call>, call: Call): Decision {
    Step(cfg, Run(cfg, calls).0, call).1
  }

  predicate AliveAt(cfg: Config, grant: Grant, now: int) {
    grant.start <= now < grant.start + Life(cfg)
  }

  /** Permits granted by the counter that is alive at `now`. */
  function Used(cfg: Config, log: seq<Grant>, now: int): nat {
    if log == [] then 0
    else
      var last := log[|log| - 1];
      Used(cfg, log[..|log| - 1], now) + (if AliveAt(cfg, last, now) then last.permits else 0)
  }

  function Left(cfg: Config, used: nat): nat {
    if used >= cfg.limit then 0 else cfg.limit - used
  }

  lemma {:induction false} UsedFromCounter(cfg: Config, log: seq<Grant>, now: int, start: int)
    requires forall i :: 0 <= i < |log| ==> (AliveAt(cfg, log[i], now) <==> log[i].start == start)
    ensures Used(cfg, log, now) == FromCounter(log, start)
  {
    if log != [] {
      UsedFromCounter(cfg, log[..|log| - 1], now, start);
    }
  }

  lemma {:induction false} UsedNothing(cfg: Config, log: seq<Grant>, now: int)
    requires forall i :: 0 <= i < |log| ==> !AliveAt(cfg, log[i], now)
    ensures Used(cfg, log, now) == 0
  {
    if log != [] {
      UsedNothing(cfg, log[..|log| - 1], now);
    }
  }

  /** The counter a call finds holds what the log says is used, and ends with the grants it made. */
  lemma FoundIsUsed(cfg: Config, calls: seq<Call>, call: Call)
    requires ValidConfig(cfg) && Ordered(calls + [call])
    ensures var (key, log) := Run(cfg, calls);
            var visible := Visible(cfg, key, call.now);
            && Count(visible) == Used(cfg, log, call.now)
            && (visible.Some? ==> visible.value.count >= 1 && visible.value.deadline.Some?)
            && (forall i :: 0 <= i < |log| && AliveAt(cfg, log[i], call.now) ==>
                  visible.Some? && visible.value.deadline == Some(log[i].start + cfg.window))
  {
    hide Run, Used, Invariant, Visible, Count;
    var (key, log) := Run(cfg, calls);
    var last := if calls == [] then call.now else calls[|calls| - 1].now;
    OrderedFront(calls, call);
    RunInvariant(cfg, calls, last);
    VisibleInvariant(cfg, key, log, last, call.now);
    CountIsUsed(cfg, Visible(cfg, key, call.now), log, call.now);
  }

  lemma OrderedFront(calls: seq<Call>, next: Call)
    requires Ordered(calls + [next])
    ensures Ordered(calls) && (calls != [] ==> calls[|calls| - 1].now <= next.now)
  {
    var all := calls + [next];
    assert forall i :: 0 <= i < |calls| ==> all[i] == calls[i];
    assert all[|calls|] == next;
  }

  lemma CountIsUsed(cfg: Config, visible: Option<Counter>, log: seq<Grant>, now: int)
    requires ValidConfig(cfg) && Invariant(cfg, visible, log, now)
    ensures Count(visible) == Used(cfg, log, now)
    ensures visible.Some? ==> visible.value.count >= 1 && visible.value.deadline.Some?
    ensures forall i :: 0 <= i < |log| && AliveAt(cfg, log[i], now) ==>
              visible.Some? && visible.value.deadline == Some(log[i].start + cfg.window)
  {
    hide FromCounter, Used, Chronicle;
    if visible.Some? {
      var start := visible.value.deadline.value - cfg.window;
      UsedFromCounter(cfg, log, now, start);
    } else {
      UsedNothing(cfg, log, now);
    }
  }

  /**
    What every call is answered, by the log alone: a request is granted exactly if it fits beside what
    the counter alive at the time has granted, and one for no permits if anything is left.
  */
  lemma DecidesExactly(cfg: Config, calls: seq<Call>, call: Call)
    requires ValidConfig(cfg) && Ordered(calls + [call])
    ensures var log := Run(cfg, calls).1;
            var used, answer := Used(cfg, log, call.now), Answer(cfg, calls, call);
            && (answer.acquired <==> if call.permits == 0 then used < cfg.limit else used + call.permits <= cfg.limit)
            && answer.remaining == Left(cfg, used + if answer.acquired then call.permits else 0)
            && (answer.acquired ==> answer.retry == 0)
            && (!answer.acquired && used == 0 ==> answer.retry == cfg.window)
            && (!answer.acquired ==> forall i :: 0 <= i < |log| && AliveAt(cfg, log[i], call.now) ==>
                  var left := log[i].start + cfg.window - call.now;
                  answer.retry == if left >= 1 then left else cfg.window)
  {
    hide Run, Used;
    FoundIsUsed(cfg, calls, call);
  }

  /** And which counter a grant belongs to: one that is still alive, or else a new one. */
  lemma StartsExactly(cfg: Config, calls: seq<Call>, i: nat, j: nat)
    requires ValidConfig(cfg) && Ordered(calls) && i < j < |Run(cfg, calls).1|
    ensures var log := Run(cfg, calls).1;
            && (log[j].time < log[i].start + Life(cfg) ==> log[j].start == log[i].start)
            && (log[j].start == log[j].time || exists k :: 0 <= k < j && log[k].start == log[j].start == log[k].time)
  {
    RunInvariant(cfg, calls, if calls == [] then 0 else calls[|calls| - 1].now);
    RunBegun(cfg, calls);
    hide Run, Bounded, Successive, Healthy;
    var log := Run(cfg, calls).1;
    assert HasFirst(log, log[j].start);
    var k :| 0 <= k < |log| && log[k].start == log[j].start && log[k].time == log[j].start && log[k].permits > 0;
  }

  // ---------------------------------------------------------------------------------------------
  // Retry hint
  // ---------------------------------------------------------------------------------------------

  /** When the counter a denied call ran into disappears. */
  function Renewal(cfg: Config, calls: seq<Call>): int {
    var key := Run(cfg, calls).0;
    if key.Some? && key.value.deadline.Some? then key.value.deadline.value - cfg.window + Life(cfg) else 0
  }

  lemma {:induction false} CounterStays(cfg: Config, calls: seq<Call>, k: nat)
    requires ValidConfig(cfg) && Ordered(calls) && k <= |calls|
    requires Run(cfg, calls[..k]).0.Some? && Run(cfg, calls[..k]).0.value.deadline.Some?
    requires Run(cfg, calls[..k]).0.value.count >= 1
    requires forall i :: k <= i < |calls| ==> calls[i].now < Renewal(cfg, calls[..k])
    ensures var key := Run(cfg, calls).0;
            && key.Some? && key.value.deadline == Run(cfg, calls[..k]).0.value.deadline
            && key.value.count >= Run(cfg, calls[..k]).0.value.count
  {
    if k == |calls| {
      assert calls[..k] == calls;
    } else {
      var front := calls[..|calls| - 1];
      assert front[..k] == calls[..k];
      CounterStays(cfg, front, k);
    }
  }

  /** Whatever others do, nobody is granted as much before the counter is gone. */
  lemma NotBeforeRenewal(cfg: Config, calls: seq<Call>, denied: Call, more: seq<Call>, again: Call)
    requires ValidConfig(cfg) && Ordered(calls + [denied] + more + [again])
    requires denied.permits <= cfg.limit && cfg.limit >= 1 && !Answer(cfg, calls, denied).acquired
    requires again.permits >= denied.permits && again.now < Renewal(cfg, calls)
    ensures !Answer(cfg, calls + [denied] + more, again).acquired
  {
    var all := calls + [denied] + more;
    OrderedParts(calls, denied, more, again);
    RunInvariant(cfg, calls, if calls == [] then denied.now else calls[|calls| - 1].now);
    assert all[..|calls|] == calls;
    CounterStays(cfg, all, |calls|);
  }

  lemma OrderedParts(calls: seq<Call>, denied: Call, more: seq<Call>, again: Call)
    requires Ordered(calls + [denied] + more + [again])
    ensures Ordered(calls) && Ordered(calls + [denied] + more)
    ensures calls != [] ==> calls[|calls| - 1].now <= denied.now
    ensures forall i :: 0 <= i < |calls + [denied] + more| ==> (calls + [denied] + more)[i].now <= again.now
  {
    var all := calls + [denied] + more;
    var whole := all + [again];
    assert forall i :: 0 <= i < |all| ==> whole[i] == all[i];
    assert forall i :: 0 <= i < |calls| ==> whole[i] == calls[i];
    assert whole[|all|] == again && whole[|calls|] == denied;
  }

  /**
    The hint names the renewal exactly when keys do not linger in their last millisecond; when
    they do it is a millisecond early, except in that last millisecond, where PTTL reads 0 and a
    whole window is returned instead.
  */
  lemma RetryHint(cfg: Config, calls: seq<Call>, denied: Call)
    requires ValidConfig(cfg) && Ordered(calls + [denied])
    requires denied.permits <= cfg.limit && cfg.limit >= 1 && !Answer(cfg, calls, denied).acquired
    ensures var hint := denied.now + Answer(cfg, calls, denied).retry;
            && denied.now < Renewal(cfg, calls)
            && hint == (if !cfg.lingers then Renewal(cfg, calls)
                        else if denied.now < Renewal(cfg, calls) - 1 then Renewal(cfg, calls) - 1
                        else denied.now + cfg.window)
  {
    OrderedFront(calls, denied);
    RunInvariant(cfg, calls, if calls == [] then denied.now else calls[|calls| - 1].now);
  }

  /**
    Once it is gone, the first request within the limit is granted, whatever others did before,
    grants included: nothing moves a counter's end.
  */
  lemma ServedAtRenewal(cfg: Config, calls: seq<Call>, denied: Call, more: seq<Call>, again: Call)
    requires ValidConfig(cfg) && Ordered(calls + [denied] + more + [again])
    requires denied.permits <= cfg.limit && cfg.limit >= 1 && !Answer(cfg, calls, denied).acquired
    requires forall i :: 0 <= i < |more| ==> more[i].now < Renewal(cfg, calls)
    requires again.permits <= cfg.limit && again.now >= Renewal(cfg, calls)
    ensures Answer(cfg, calls + [denied] + more, again).acquired
  {
    var all := calls + [denied] + more;
    OrderedParts(calls, denied, more, again);
    RunInvariant(cfg, calls, if calls == [] then denied.now else calls[|calls| - 1].now);
    RetryHint(cfg, calls, denied);
    assert all[..|calls|] == calls;
    CounterStays(cfg, all, |calls|);
  }
}
