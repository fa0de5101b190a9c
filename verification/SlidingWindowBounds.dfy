/**
  What the sliding window promises its callers: the rate bound and the retry hint, stated for the
  Redis hash. The rate bound and the service at the hint hold for every configuration; that nobody
  is served before the hint is where the key's expiry matters.
*/
module SlidingWindowBounds {
  import opened Sets
  import opened SlidingWindow

  // ---------------------------------------------------------------------------------------------
  // The hash on a run
  // ---------------------------------------------------------------------------------------------

  /** How long after the last call the key is readable. */
  function Life(cfg: Config): int
    requires ValidConfig(cfg)
  {
    cfg.window + SegmentLength(cfg) + Linger(cfg)
  }

  /** After a call at `last`, the hash holds at most the limit, in the segments that count then. */
  ghost predicate HashOk(cfg: Config, h: Hash, last: int)
    requires ValidConfig(cfg)
  {
    && (forall k :: k in h.fields ==> h.fields[k] > 0 && MinimumSegment(cfg, last) <= k <= Segment(cfg, last))
    && Sum(h.fields) <= cfg.limit
    && (h.fields != map[] ==> h.deadline == last + cfg.window + SegmentLength(cfg))
  }

  ghost predicate PartOf(m: map<int, nat>, whole: map<int, nat>) {
    forall k :: k in m ==> k in whole && m[k] == whole[k]
  }

  lemma {:induction false} SumShrinks(m: map<int, nat>, keep: map<int, nat>)
    requires PartOf(keep, m)
    ensures Sum(keep) <= Sum(m)
    decreases |m|
  {
    EmptyOrNot(keep.Keys);
    if k :| k in keep {
      SumRemove(m, k);
      SumRemove(keep, k);
      SumShrinks(m - {k}, keep - {k});
    }
  }

  lemma LiveOk(cfg: Config, h: Hash, last: int, now: int)
    requires ValidConfig(cfg) && HashOk(cfg, h, last) && last <= now
    ensures var live := From(Visible(cfg, h, now), MinimumSegment(cfg, now));
            && (forall k :: k in live ==> live[k] > 0 && MinimumSegment(cfg, now) <= k <= Segment(cfg, now))
            && Sum(live) <= cfg.limit
  {
    SegmentMonotone(cfg, last, now);
    SumShrinks(h.fields, From(Visible(cfg, h, now), MinimumSegment(cfg, now)));
  }

  lemma SumIncrement(m: map<int, nat>, k: int, v: nat)
    ensures Sum(m[k := Count(m, k) + v]) == Sum(m) + v
  {
    var m' := m[k := Count(m, k) + v];
    SumRemove(m', k);
    if k in m {
      SumRemove(m, k);
      assert m' - {k} == m - {k};
    } else {
      assert m' - {k} == m;
    }
  }

  lemma StepOk(cfg: Config, h: Hash, last: int, call: Call)
    requires ValidConfig(cfg) && HashOk(cfg, h, last) && last <= call.now
    ensures HashOk(cfg, HashStep(cfg, h, call), call.now)
  {
    LiveOk(cfg, h, last, call.now);
    hide Visible, From, Segment, Oldest, Sum;
    SumIncrement(From(Visible(cfg, h, call.now), MinimumSegment(cfg, call.now)), Segment(cfg, call.now), call.permits);
  }

  lemma {:induction false} RunOk(cfg: Config, calls: seq<Call>, last: int)
    requires ValidConfig(cfg) && Ordered(calls)
    requires calls != [] ==> last == calls[|calls| - 1].now
    ensures HashOk(cfg, HashRun(cfg, calls).0, last)
  {
    if calls != [] {
      hide HashOk, HashStep, HashDecision;
      var before, call := calls[..|calls| - 1], calls[|calls| - 1];
      var previous := if before == [] then call.now else before[|before| - 1].now;
      RunOk(cfg, before, previous);
      StepOk(cfg, HashRun(cfg, before).0, previous, call);
    }
  }

  /** Everything the hash granted over a run, by any number of replicas. */
  ghost function Granted(cfg: Config, calls: seq<Call>): seq<Grant>
    requires ValidConfig(cfg)
  {
    HashRun(cfg, calls).1
  }

  /** The hash's answer to `call` after `calls`. */
  ghost function Answer(cfg: Config, calls: seq<Call>, call: Call): Decision
    requires ValidConfig(cfg)
  {
    HashDecision(cfg, HashRun(cfg, calls).0, call)
  }

  lemma RunStep(cfg: Config, calls: seq<Call>, call: Call)
    requires ValidConfig(cfg)
    ensures HashRun(cfg, calls + [call]).0 == HashStep(cfg, HashRun(cfg, calls).0, call)
    ensures Granted(cfg, calls + [call]) == Record(Granted(cfg, calls), call, Answer(cfg, calls, call))
  {
    assert (calls + [call])[..|calls|] == calls;
  }

  // ---------------------------------------------------------------------------------------------
  // Rate bound
  // ---------------------------------------------------------------------------------------------

  /** Permits granted at instants in [a, b] that lie in the segments lo..hi. */
  function Band(cfg: Config, log: seq<Grant>, a: int, b: int, lo: int, hi: int): nat
    requires ValidConfig(cfg)
  {
    if log == [] then 0
    else
      var last := log[|log| - 1];
      Band(cfg, log[..|log| - 1], a, b, lo, hi)
      + (if a <= last.time <= b && lo <= Segment(cfg, last.time) <= hi then last.permits else 0)
  }

  lemma BandStep(cfg: Config, log: seq<Grant>, grant: Grant, a: int, b: int, lo: int, hi: int)
    requires ValidConfig(cfg)
    ensures Band(cfg, log + [grant], a, b, lo, hi)
         == Band(cfg, log, a, b, lo, hi)
            + (if a <= grant.time <= b && lo <= Segment(cfg, grant.time) <= hi then grant.permits else 0)
  {
    assert (log + [grant])[..|log|] == log;
  }

  lemma {:induction false} BandWidens(cfg: Config, log: seq<Grant>, a: int, b: int, lo: int, hi: int, b': int, hi': int)
    requires ValidConfig(cfg) && b <= b' && hi <= hi'
    ensures Band(cfg, log, a, b, lo, hi) <= Band(cfg, log, a, b', lo, hi')
  {
    if log != [] {
      BandWidens(cfg, log[..|log| - 1], a, b, lo, hi, b', hi');
    }
  }

  /**
    Less than a key's life after `a`, the hash still holds every permit granted since `a` in the
    segments that count.
  */
  lemma {:induction false} HoldsSince(cfg: Config, calls: seq<Call>, last: int, a: int, b: int, from: int, hi: int)
    requires ValidConfig(cfg) && Ordered(calls)
    requires calls != [] ==> last == calls[|calls| - 1].now
    requires last - a < Life(cfg) && MinimumSegment(cfg, last) <= from
    ensures Band(cfg, Granted(cfg, calls), a, b, from, hi) <= Total(HashRun(cfg, calls).0.fields, from)
  {
    if calls == [] {
      assert Granted(cfg, calls) == [];
    } else {
      hide HashRun, HashStep, HashDecision, HashOk, Band, Total, Segment, SegmentLength, Record;
      var before, call := calls[..|calls| - 1], calls[|calls| - 1];
      var previous := if before == [] then call.now else before[|before| - 1].now;
      assert calls == before + [call];
      RunStep(cfg, before, call);
      SegmentMonotone(cfg, previous, last);
      HoldsSince(cfg, before, previous, a, b, from, hi);
      RunOk(cfg, before, previous);
      if previous < a {
        NothingBefore(cfg, before, previous, a, b, from, hi);
      }
      StepHolds(cfg, HashRun(cfg, before).0, Granted(cfg, before), previous, call, a, b, from, hi);
    }
  }

  lemma {:induction false} NothingBefore(cfg: Config, calls: seq<Call>, last: int, a: int, b: int, lo: int, hi: int)
    requires ValidConfig(cfg) && last < a && forall i :: 0 <= i < |calls| ==> calls[i].now <= last
    ensures Band(cfg, Granted(cfg, calls), a, b, lo, hi) == 0
  {
    if calls != [] {
      var before, call := calls[..|calls| - 1], calls[|calls| - 1];
      assert calls == before + [call];
      RunStep(cfg, before, call);
      NothingBefore(cfg, before, last, a, b, lo, hi);
      BandStep(cfg, Granted(cfg, before), Grant(call.now, call.permits), a, b, lo, hi);
    }
  }

  lemma StepHolds(cfg: Config, h: Hash, log: seq<Grant>, last: int, call: Call, a: int, b: int, from: int, hi: int)
    requires ValidConfig(cfg) && HashOk(cfg, h, last) && last <= call.now && call.now - a < Life(cfg)
    requires MinimumSegment(cfg, call.now) <= from
    requires if last < a then Band(cfg, log, a, b, from, hi) == 0
             else Band(cfg, log, a, b, from, hi) <= Total(h.fields, from)
    ensures Band(cfg, Record(log, call, HashDecision(cfg, h, call)), a, b, from, hi)
         <= Total(HashStep(cfg, h, call).fields, from)
  {
    var visible, lo := Visible(cfg, h, call.now), MinimumSegment(cfg, call.now);
    TotalPurged(visible, lo, from);
    TotalIncrement(From(visible, lo), Segment(cfg, call.now), call.permits, from);
    BandStep(cfg, log, Grant(call.now, call.permits), a, b, from, hi);
    hide Band, Total, Segment, From, Sum, Oldest;
  }

  /** Within a key's life, any `segments` consecutive segments are granted at most the limit. */
  lemma {:induction false} BandBounded(cfg: Config, calls: seq<Call>, a: int, b: int, lo: int, hi: int)
    requires ValidConfig(cfg) && Ordered(calls) && b - a < Life(cfg) && hi <= lo + cfg.segments - 1
    ensures Band(cfg, Granted(cfg, calls), a, b, lo, hi) <= cfg.limit
  {
    if calls != [] {
      var before, call := calls[..|calls| - 1], calls[|calls| - 1];
      assert calls == before + [call];
      RunStep(cfg, before, call);
      BandBounded(cfg, before, a, b, lo, hi);
      BandStep(cfg, Granted(cfg, before), Grant(call.now, call.permits), a, b, lo, hi);
      var d := Answer(cfg, before, call);
      if d.acquired && call.permits > 0 && a <= call.now <= b && lo <= Segment(cfg, call.now) <= hi {
        HoldsSince(cfg, calls, call.now, a, b, lo, hi);
        RunOk(cfg, calls, call.now);
        SumShrinks(HashRun(cfg, calls).0.fields, From(HashRun(cfg, calls).0.fields, lo));
      }
    }
  }

  /** Permits granted at instants in the closed interval [a, b]. */
  function GrantedBetween(log: seq<Grant>, a: int, b: int): nat {
    if log == [] then 0
    else
      var last := log[|log| - 1];
      GrantedBetween(log[..|log| - 1], a, b) + (if a <= last.time <= b then last.permits else 0)
  }

  /** An interval's grants lie in the segments from its start's to its end's, on either side of `mid`. */
  lemma {:induction false} IntervalInBands(cfg: Config, log: seq<Grant>, a: int, b: int, mid: int, hi: int)
    requires ValidConfig(cfg) && Segment(cfg, b) <= hi && Segment(cfg, a) - 1 <= mid <= hi
    ensures GrantedBetween(log, a, b)
         == Band(cfg, log, a, b, Segment(cfg, a), mid) + Band(cfg, log, a, b, mid + 1, hi)
  {
    if log != [] {
      var t := log[|log| - 1].time;
      if a <= t <= b {
        SegmentMonotone(cfg, a, t);
        SegmentMonotone(cfg, t, b);
      }
      IntervalInBands(cfg, log[..|log| - 1], a, b, mid, hi);
    }
  }

  /** Permits granted in the closed interval of length `d` that starts at `a`. */
  function Within(log: seq<Grant>, a: int, d: int): nat {
    GrantedBetween(log, a, a + d)
  }

  /** Every closed interval of length `d` grants at most `bound` permits, on every run. */
  ghost predicate RateBound(cfg: Config, d: int, bound: nat)
    requires ValidConfig(cfg)
  {
    forall calls, a :: Ordered(calls) ==> Within(Granted(cfg, calls), a, d) <= bound
  }

  /** Shorter than a key's life, and not long enough for a segment to come back free. */
  predicate KeepsLimit(cfg: Config, d: int)
    requires ValidConfig(cfg)
  {
    d <= (cfg.segments - 1) * SegmentLength(cfg) && d < Life(cfg)
  }

  lemma ShortIntervalsRespectLimit(cfg: Config, calls: seq<Call>, a: int, d: int)
    requires ValidConfig(cfg) && Ordered(calls) && KeepsLimit(cfg, d)
    ensures Within(Granted(cfg, calls), a, d) <= cfg.limit
  {
    var s := Segment(cfg, a);
    SegmentsApart(cfg, a, a + d, cfg.segments - 1);
    IntervalInBands(cfg, Granted(cfg, calls), a, a + d, s + cfg.segments - 1, s + cfg.segments - 1);
    Vacant(cfg, Granted(cfg, calls), a, a + d, s + cfg.segments, s + cfg.segments - 1);
    BandBounded(cfg, calls, a, a + d, s, s + cfg.segments - 1);
  }

  lemma {:induction false} Vacant(cfg: Config, log: seq<Grant>, a: int, b: int, lo: int, hi: int)
    requires ValidConfig(cfg) && hi < lo
    ensures Band(cfg, log, a, b, lo, hi) == 0
  {
    if log != [] {
      Vacant(cfg, log[..|log| - 1], a, b, lo, hi);
    }
  }

  /** Over a whole window, wherever it starts, at most twice the limit. */
  lemma WindowBounded(cfg: Config, calls: seq<Call>, a: int)
    requires ValidConfig(cfg) && Ordered(calls)
    ensures Within(Granted(cfg, calls), a, cfg.window) <= 2 * cfg.limit
  {
    var s, n := Segment(cfg, a), cfg.segments;
    SegmentsApart(cfg, a, a + cfg.window, n);
    IntervalInBands(cfg, Granted(cfg, calls), a, a + cfg.window, s + n - 1, s + n);
    BandBounded(cfg, calls, a, a + cfg.window, s, s + n - 1);
    BandBounded(cfg, calls, a, a + cfg.window, s + n, s + n);
  }

  /** Two full grants, `t'` being late enough for the first to be expired or purged. */
  lemma TwoFullGrants(cfg: Config, t: int, t': int)
    requires ValidConfig(cfg) && cfg.limit >= 1 && t <= t'
    requires t' >= t + Life(cfg) || Segment(cfg, t) + cfg.segments <= Segment(cfg, t')
    ensures Granted(cfg, [Call(cfg.limit, t), Call(cfg.limit, t')]) == [Grant(t, cfg.limit), Grant(t', cfg.limit)]
  {
    var first, second := Call(cfg.limit, t), Call(cfg.limit, t');
    RunStep(cfg, [], first);
    RunStep(cfg, [first], second);
    assert [] + [first] == [first] && [first] + [second] == [first, second];
    var h := HashRun(cfg, [first]).0;
    assert From(map[], MinimumSegment(cfg, t)) == map[];
    assert h.fields == map[Segment(cfg, t) := cfg.limit];
    assert From(Visible(cfg, h, t'), MinimumSegment(cfg, t')) == map[];
  }

  lemma TwoGrantsSum(t: int, t': int, permits: nat, d: int)
    requires t <= t' <= t + d
    ensures Within([Grant(t, permits), Grant(t', permits)], t, d) == 2 * permits
  {
    var log := [Grant(t, permits), Grant(t', permits)];
    assert log[..1] == [Grant(t, permits)] && log[..1][..0] == [];
    assert GrantedBetween(log[..1], t, t + d) == permits;
  }

  /** Any longer interval can be granted twice the limit. */
  lemma LongIntervals(cfg: Config, d: int) returns (calls: seq<Call>, a: int)
    requires ValidConfig(cfg) && cfg.limit >= 1 && !KeepsLimit(cfg, d)
    ensures Ordered(calls) && Within(Granted(cfg, calls), a, d) == 2 * cfg.limit
  {
    var t, t' := 0, Life(cfg);
    if d < Life(cfg) {
      t, t' := SegmentLength(cfg) - 1, cfg.segments * SegmentLength(cfg);
      EndAndReturn(cfg);
    }
    TwoFullGrants(cfg, t, t');
    TwoGrantsSum(t, t', cfg.limit, d);
    calls, a := [Call(cfg.limit, t), Call(cfg.limit, t')], t;
  }

  /** From the last instant of segment 0 to the first of segment `segments`. */
  lemma EndAndReturn(cfg: Config)
    requires ValidConfig(cfg)
    ensures var n, len := cfg.segments, SegmentLength(cfg);
            Segment(cfg, len - 1) + n <= Segment(cfg, n * len) && len - 1 <= n * len == (n - 1) * len + 1 + (len - 1)
  {
    var n, len := cfg.segments, SegmentLength(cfg);
    assert (n - 1) * len == n * len - len;
    MulMonotone(1, n, len);
    SegmentBounds(cfg, len - 1);
    if Segment(cfg, len - 1) >= 1 {
      MulMonotone(1, Segment(cfg, len - 1), len);
    }
    SegmentsApart(cfg, 0, n * len, n);
  }

  /**
    For every configuration: intervals of length `d` stay within the limit on all runs exactly up to
    (segments - 1) whole segments and short of a key's life.
  */
  lemma RateBoundExact(cfg: Config, d: int)
    requires ValidConfig(cfg) && cfg.limit >= 1
    ensures RateBound(cfg, d, cfg.limit) <==> KeepsLimit(cfg, d)
  {
    if KeepsLimit(cfg, d) {
      forall calls, a | Ordered(calls) ensures Within(Granted(cfg, calls), a, d) <= cfg.limit {
        ShortIntervalsRespectLimit(cfg, calls, a, d);
      }
    } else {
      var calls, a := LongIntervals(cfg, d);
    }
  }

  /** A window's length is granted at most twice the limit, and as much as that unless it keeps the limit. */
  lemma WindowRateBound(cfg: Config, bound: nat)
    requires ValidConfig(cfg) && cfg.limit >= 1
    ensures RateBound(cfg, cfg.window, bound) <==>
            bound >= if KeepsLimit(cfg, cfg.window) then cfg.limit else 2 * cfg.limit
  {
    hide KeepsLimit;
    if KeepsLimit(cfg, cfg.window) {
      RateBoundExact(cfg, cfg.window);
      OneFullGrant(cfg, cfg.window);
    } else {
      forall calls, a | Ordered(calls) ensures Within(Granted(cfg, calls), a, cfg.window) <= 2 * cfg.limit {
        WindowBounded(cfg, calls, a);
      }
      var calls, a := LongIntervals(cfg, cfg.window);
    }
  }

  lemma GrantedStep(log: seq<Grant>, grant: Grant, a: int, b: int)
    ensures GrantedBetween(log + [grant], a, b)
         == GrantedBetween(log, a, b) + if a <= grant.time <= b then grant.permits else 0
  {
    assert (log + [grant])[..|log|] == log;
  }

  lemma EmptyServes(cfg: Config, call: Call)
    requires ValidConfig(cfg) && call.permits <= cfg.limit && cfg.limit >= 1
    ensures Answer(cfg, [], call).acquired && Granted(cfg, []) == []
  {
    assert From(map[], MinimumSegment(cfg, call.now)) == map[];
  }

  lemma OneFullGrant(cfg: Config, d: nat)
    requires ValidConfig(cfg) && cfg.limit >= 1
    ensures Ordered([Call(cfg.limit, 0)]) && Within(Granted(cfg, [Call(cfg.limit, 0)]), 0, d) == cfg.limit
  {
    var first := Call(cfg.limit, 0);
    RunStep(cfg, [], first);
    EmptyServes(cfg, first);
    GrantedStep([], Grant(0, cfg.limit), 0, d);
    assert GrantedBetween([], 0, d) == 0;
    hide HashRun, Answer, Granted, GrantedBetween;
    assert [] + [first] == [first];
  }

  // ---------------------------------------------------------------------------------------------
  // Retry hint
  // ---------------------------------------------------------------------------------------------

  /** What a call finds after `calls`: the segments that count, unless the key has expired. */
  ghost function Live(cfg: Config, calls: seq<Call>, now: int): map<int, nat>
    requires ValidConfig(cfg)
  {
    From(Visible(cfg, HashRun(cfg, calls).0, now), MinimumSegment(cfg, now))
  }

  /** `o` is the oldest segment that counts against a denied call. */
  ghost predicate OldestLive(cfg: Config, calls: seq<Call>, now: int, o: int)
    requires ValidConfig(cfg)
  {
    && o in Live(cfg, calls, now) && Live(cfg, calls, now)[o] > 0
    && (forall k :: k in Live(cfg, calls, now) ==> o <= k)
    && MinimumSegment(cfg, now) <= o <= Segment(cfg, now)
  }

  ghost predicate Denied(cfg: Config, calls: seq<Call>, call: Call)
    requires ValidConfig(cfg)
  {
    Ordered(calls + [call]) && call.permits <= cfg.limit && !Answer(cfg, calls, call).acquired
  }

  lemma OrderedFront(calls: seq<Call>, next: Call)
    requires Ordered(calls + [next])
    ensures Ordered(calls) && forall i :: 0 <= i < |calls| ==> calls[i].now <= next.now
  {
    assert (calls + [next])[|calls|] == next;
    assert forall i :: 0 <= i < |calls| ==> (calls + [next])[i] == calls[i];
  }

  lemma FoundOk(cfg: Config, calls: seq<Call>, call: Call)
    requires ValidConfig(cfg) && Ordered(calls + [call])
    ensures var live := Live(cfg, calls, call.now);
            && (forall k :: k in live ==> live[k] > 0 && MinimumSegment(cfg, call.now) <= k <= Segment(cfg, call.now))
            && Sum(live) <= cfg.limit
  {
    OrderedFront(calls, call);
    var last := if calls == [] then call.now else calls[|calls| - 1].now;
    RunOk(cfg, calls, last);
    LiveOk(cfg, HashRun(cfg, calls).0, last, call.now);
  }

  /** A denial's hint is the instant at which the oldest segment that counts leaves the window. */
  lemma RetryInRange(cfg: Config, calls: seq<Call>, denied: Call) returns (o: int)
    requires ValidConfig(cfg) && cfg.limit >= 1 && Denied(cfg, calls, denied)
    ensures OldestLive(cfg, calls, denied.now, o)
    ensures denied.now + Answer(cfg, calls, denied).retry == (o + cfg.segments) * SegmentLength(cfg)
    ensures 1 <= Answer(cfg, calls, denied).retry <= cfg.segments * SegmentLength(cfg)
  {
    var live, lo, current := Live(cfg, calls, denied.now), MinimumSegment(cfg, denied.now), Segment(cfg, denied.now);
    FoundOk(cfg, calls, denied);
    assert live != map[];
    o := Oldest(live, lo, current);
    RetryArithmetic(cfg, denied.now, o);
    hide Sum, Visible, From, Segment;
    SomeKey(live);
    var k :| k in live;
    assert o <= k <= current;
  }

  lemma SomeKey(m: map<int, nat>)
    ensures m == map[] || exists k :: k in m
  {
    if !(exists k :: k in m) {
      assert m == map[];
    }
  }

  lemma RetryArithmetic(cfg: Config, now: int, o: int)
    requires ValidConfig(cfg) && MinimumSegment(cfg, now) <= o <= Segment(cfg, now)
    ensures 1 <= (o + cfg.segments) * SegmentLength(cfg) - now <= cfg.segments * SegmentLength(cfg)
  {
    var len, s := SegmentLength(cfg), Segment(cfg, now);
    SegmentBounds(cfg, now);
    MulMonotone(s + 1, o + cfg.segments, len);
    MulMonotone(o + cfg.segments, s + cfg.segments, len);
    assert (s + cfg.segments) * len == s * len + cfg.segments * len;
  }

  lemma Decided(cfg: Config, calls: seq<Call>, call: Call)
    requires ValidConfig(cfg)
    ensures Answer(cfg, calls, call).acquired <==> Grants(cfg.limit, call.permits, Sum(Live(cfg, calls, call.now)))
  {
    hide Sum, HashRun;
  }

  lemma DenialKeeps(cfg: Config, calls: seq<Call>, denied: Call)
    requires ValidConfig(cfg) && !Answer(cfg, calls, denied).acquired
    ensures HashRun(cfg, calls + [denied]).0.fields == Live(cfg, calls, denied.now)
  {
    hide HashRun, Sum, Oldest, Segment;
    RunStep(cfg, calls, denied);
  }

  /** None of the calls in `more`, made after `calls`, is granted a permit. */
  ghost predicate NoGrant(cfg: Config, calls: seq<Call>, more: seq<Call>)
    requires ValidConfig(cfg)
  {
    forall i :: 0 <= i < |more| ==> more[i].permits == 0 || !Answer(cfg, calls + more[..i], more[i]).acquired
  }

  lemma StepWithoutGrant(cfg: Config, h: Hash, call: Call)
    requires ValidConfig(cfg) && (call.permits == 0 || !HashDecision(cfg, h, call).acquired)
    ensures PartOf(HashStep(cfg, h, call).fields, h.fields)
  {
    hide Segment, Sum, Oldest;
  }

  /** Calls that are granted nothing only ever purge. */
  lemma {:induction false} RunWithoutGrant(cfg: Config, calls: seq<Call>, more: seq<Call>)
    requires ValidConfig(cfg) && NoGrant(cfg, calls, more)
    ensures PartOf(HashRun(cfg, calls + more).0.fields, HashRun(cfg, calls).0.fields)
  {
    hide HashRun, HashStep, HashDecision;
    if more == [] {
      assert calls + more == calls;
    } else {
      var front, call := more[..|more| - 1], more[|more| - 1];
      assert forall i :: 0 <= i < |front| ==> more[..i] == front[..i] && more[i] == front[i];
      RunWithoutGrant(cfg, calls, front);
      assert calls + more == calls + front + [call];
      RunStep(cfg, calls + front, call);
      StepWithoutGrant(cfg, HashRun(cfg, calls + front).0, call);
    }
  }

  /**
    A caller denied a single permit is served from its hint on, under every configuration, if nobody
    is granted anything in between, however many are denied.
  */
  lemma ServedAtRetry(cfg: Config, calls: seq<Call>, denied: Call, more: seq<Call>, again: Call)
    requires ValidConfig(cfg) && cfg.limit >= 1 && Denied(cfg, calls, denied) && denied.permits == 1
    requires NoGrant(cfg, calls + [denied], more)
    requires again.permits == 1 && again.now >= denied.now + Answer(cfg, calls, denied).retry
    ensures Answer(cfg, calls + [denied] + more, again).acquired
  {
    hide HashRun, Answer, Sum, Segment, SegmentLength, From, Visible, NoGrant;
    var o := RetryInRange(cfg, calls, denied);
    SegmentsApart(cfg, 0, again.now, o + cfg.segments);
    AtOrigin(cfg);
    FoundOk(cfg, calls, denied);
    DenialKeeps(cfg, calls, denied);
    RunWithoutGrant(cfg, calls + [denied], more);
    var live, later := Live(cfg, calls, denied.now), Live(cfg, calls + [denied] + more, again.now);
    SumRemove(live, o);
    LeavesWindow(cfg, HashRun(cfg, calls + [denied] + more).0, live, again.now, o);
    SumShrinks(live - {o}, later);
    Decided(cfg, calls + [denied] + more, again);
  }

  lemma AtOrigin(cfg: Config)
    requires ValidConfig(cfg)
    ensures Segment(cfg, 0) == 0
  {
  }

  lemma LeavesWindow(cfg: Config, h: Hash, live: map<int, nat>, now: int, o: int)
    requires ValidConfig(cfg) && PartOf(h.fields, live) && MinimumSegment(cfg, now) > o
    ensures PartOf(From(Visible(cfg, h, now), MinimumSegment(cfg, now)), live - {o})
  {
  }

  // ---------------------------------------------------------------------------------------------
  // Nobody before the hint
  // ---------------------------------------------------------------------------------------------

  /** Short of the hint and of its key's life, the hash keeps what it held in segment `o` and later. */
  lemma StepKeeps(cfg: Config, h: Hash, last: int, call: Call, o: int)
    requires ValidConfig(cfg) && HashOk(cfg, h, last) && last <= call.now < last + Life(cfg)
    requires MinimumSegment(cfg, call.now) <= o
    ensures Total(HashStep(cfg, h, call).fields, o) >= Total(h.fields, o)
    ensures Sum(From(Visible(cfg, h, call.now), MinimumSegment(cfg, call.now))) >= Total(h.fields, o)
  {
    var lo := MinimumSegment(cfg, call.now);
    var live := From(Visible(cfg, h, call.now), lo);
    TotalPurged(Visible(cfg, h, call.now), lo, o);
    TotalIncrement(live, Segment(cfg, call.now), call.permits, o);
    SumShrinks(live, From(live, o));
    hide Sum, Segment, Oldest;
  }

  lemma {:induction false} RunKeeps(cfg: Config, calls: seq<Call>, more: seq<Call>, last: int, now: int, o: int)
    requires ValidConfig(cfg) && calls != [] && last == calls[|calls| - 1].now
    requires Ordered(calls + more) && (calls + more)[|calls + more| - 1].now <= now
    requires MinimumSegment(cfg, now) <= o && now < last + Life(cfg)
    ensures Total(HashRun(cfg, calls + more).0.fields, o) >= Total(HashRun(cfg, calls).0.fields, o)
    ensures last <= (calls + more)[|calls + more| - 1].now
  {
    hide HashRun, HashStep, HashOk, Total, SegmentLength, Segment;
    if more == [] {
      assert calls + more == calls;
    } else {
      var front, call := more[..|more| - 1], more[|more| - 1];
      var before := calls + front;
      assert calls + more == before + [call];
      OrderedFront(before, call);
      RunStep(cfg, before, call);
      SegmentMonotone(cfg, call.now, now);
      RunKeeps(cfg, calls, front, last, now, o);
      RunOk(cfg, before, before[|before| - 1].now);
      StepKeeps(cfg, HashRun(cfg, before).0, before[|before| - 1].now, call, o);
    }
  }

  lemma DeniedBeforeRetry(cfg: Config, calls: seq<Call>, denied: Call, more: seq<Call>, again: Call)
    requires ValidConfig(cfg) && TtlCoversWindow(cfg) && cfg.limit >= 1 && Denied(cfg, calls, denied)
    requires Ordered(calls + [denied] + more + [again]) && again.permits >= denied.permits
    requires again.now < denied.now + Answer(cfg, calls, denied).retry
    ensures !Answer(cfg, calls + [denied] + more, again).acquired
  {
    var o := RetryInRange(cfg, calls, denied);
    SegmentBounds(cfg, again.now);
    if o + cfg.segments <= Segment(cfg, again.now) {
      MulMonotone(o + cfg.segments, Segment(cfg, again.now), SegmentLength(cfg));
    }
    StillHeld(cfg, calls, denied, more, again, o);
    HeldAtDenial(cfg, calls, denied, o);
    hide Live, OldestLive, Sum, Total, HashRun, Ordered, Segment, SegmentLength;
    Decided(cfg, calls, denied);
    Decided(cfg, calls + [denied] + more, again);
  }

  lemma HeldAtDenial(cfg: Config, calls: seq<Call>, denied: Call, o: int)
    requires ValidConfig(cfg) && !Answer(cfg, calls, denied).acquired && OldestLive(cfg, calls, denied.now, o)
    ensures Total(HashRun(cfg, calls + [denied]).0.fields, o) == Sum(Live(cfg, calls, denied.now))
  {
    hide Sum, Segment, HashRun, Answer;
    DenialKeeps(cfg, calls, denied);
    assert From(Live(cfg, calls, denied.now), o) == Live(cfg, calls, denied.now);
  }

  lemma StillHeld(cfg: Config, calls: seq<Call>, denied: Call, more: seq<Call>, again: Call, o: int)
    requires ValidConfig(cfg) && TtlCoversWindow(cfg)
    requires MinimumSegment(cfg, denied.now) <= o <= Segment(cfg, denied.now)
    requires Ordered(calls + [denied] + more + [again]) && MinimumSegment(cfg, again.now) <= o
    requires again.now < (o + cfg.segments) * SegmentLength(cfg)
    ensures Sum(Live(cfg, calls + [denied] + more, again.now)) >= Total(HashRun(cfg, calls + [denied]).0.fields, o)
  {
    var all := calls + [denied] + more;
    var last := all[|all| - 1].now;
    RetryArithmetic(cfg, denied.now, o);
    OrderedFront(all, again);
    hide HashRun, Sum, From, Total, Segment, SegmentLength, HashStep, HashOk, Visible;
    RunKeeps(cfg, calls + [denied], more, denied.now, again.now, o);
    RunOk(cfg, all, last);
    StepKeeps(cfg, HashRun(cfg, all).0, last, again, o);
  }

  /** No denied caller is served before its hint, whatever others do, also when it asks for more. */
  ghost predicate HintIsKept(cfg: Config)
    requires ValidConfig(cfg)
  {
    forall calls, denied, more, again ::
      (&& Denied(cfg, calls, denied) && Ordered(calls + [denied] + more + [again]) && again.permits >= denied.permits
       && again.now < denied.now + Answer(cfg, calls, denied).retry) ==>
        !Answer(cfg, calls + [denied] + more, again).acquired
  }

  /** A hash filled at time 0, which denies from then on until it expires. */
  lemma FullHash(cfg: Config)
    requires ValidConfig(cfg) && cfg.limit >= 1
    ensures var first := Call(cfg.limit, 0);
            var full := Hash(map[0 := cfg.limit], cfg.window + SegmentLength(cfg));
            && HashRun(cfg, [first]).0 == full && HashRun(cfg, [first] + [first]).0 == full
            && Denied(cfg, [first], first)
            && Answer(cfg, [first], first).retry == cfg.segments * SegmentLength(cfg)
  {
    var first := Call(cfg.limit, 0);
    RunStep(cfg, [], first);
    RunStep(cfg, [first], first);
    assert [] + [first] == [first];
    assert From(map[], MinimumSegment(cfg, 0)) == map[];
    assert From(map[0 := cfg.limit], MinimumSegment(cfg, 0)) == map[0 := cfg.limit];
    assert HashRun(cfg, [first]).0 == Hash(map[0 := cfg.limit], cfg.window + SegmentLength(cfg));
    SumIncrement(map[], 0, cfg.limit);
    assert Oldest(map[0 := cfg.limit], MinimumSegment(cfg, 0), 0) == 0;
  }

  lemma ExpiredServes(cfg: Config, calls: seq<Call>, call: Call)
    requires ValidConfig(cfg) && call.permits <= cfg.limit && cfg.limit >= 1
    requires call.now >= HashRun(cfg, calls).0.deadline + Linger(cfg)
    ensures Answer(cfg, calls, call).acquired
  {
    assert From(map[], MinimumSegment(cfg, call.now)) == map[];
  }

  lemma ExpiredBeforeRetry(cfg: Config)
    requires ValidConfig(cfg) && cfg.limit >= 1 && !TtlCoversWindow(cfg)
    ensures !HintIsKept(cfg)
  {
    var first, again := Call(cfg.limit, 0), Call(cfg.limit, Life(cfg));
    FullHash(cfg);
    hide HashRun, Answer, Denied;
    assert [first] + [first] + [] == [first] + [first];
    ExpiredServes(cfg, [first] + [first] + [], again);
    assert Ordered([first] + [first] + [] + [again]);
  }

  /** Hints are kept on all runs exactly when the key's life covers the window. */
  lemma NotBeforeRetry(cfg: Config)
    requires ValidConfig(cfg) && cfg.limit >= 1
    ensures HintIsKept(cfg) <==> TtlCoversWindow(cfg)
  {
    if TtlCoversWindow(cfg) {
      forall calls, denied, more, again |
          && Denied(cfg, calls, denied) && Ordered(calls + [denied] + more + [again])
          && again.permits >= denied.permits && again.now < denied.now + Answer(cfg, calls, denied).retry
        ensures !Answer(cfg, calls + [denied] + more, again).acquired
      {
        DeniedBeforeRetry(cfg, calls, denied, more, again);
      }
    } else {
      ExpiredBeforeRetry(cfg);
    }
  }
}
