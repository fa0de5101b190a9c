/**
  The segmented sliding window of Services/RateLimiting/RedisRateLimitStore.cs.

  A Redis hash maps a segment number to the permits granted in that segment. Each script call is
  one atomic step, so any interleaving of replicas is a sequence of calls. The module proves that
  the purged, expiring hash decides exactly as a log that forgets nothing, and derives the rate
  bound and the meaning of the retry hint from the log.
*/
module SlidingWindow {
  import opened Sets

  /**
    `lingers` says whether Redis still serves a key in the very millisecond its TTL runs out.
    Both readings are covered; they differ by one millisecond in the exact condition below.
  */
  datatype Config = Config(limit: nat, window: int, segments: int, lingers: bool)

  predicate ValidConfig(cfg: Config) {
    cfg.window >= 1 && cfg.segments >= 1
  }

  /** Milliseconds after the TTL during which the key is still readable. */
  function Linger(cfg: Config): nat {
    if cfg.lingers then 1 else 0
  }

  /** ceil(window / segments). */
  function SegmentLength(cfg: Config): (len: int)
    requires ValidConfig(cfg)
    ensures len >= 1
    ensures cfg.segments * (len - 1) < cfg.window <= cfg.segments * len
  {
    var len := (cfg.window + cfg.segments - 1) / cfg.segments;
    CeilingDivision(cfg.window, cfg.segments, len);
    len
  }

  lemma CeilingDivision(a: int, b: int, q: int)
    requires a >= 1 && b >= 1 && q == (a + b - 1) / b
    ensures q >= 1 && b * (q - 1) < a <= b * q
  {
    assert b * (q - 1) == b * q - b;
    assert q <= 0 ==> b * q <= 0;
  }

  function Segment(cfg: Config, now: int): int
    requires ValidConfig(cfg)
  {
    now / SegmentLength(cfg)
  }

  function MinimumSegment(cfg: Config, now: int): int
    requires ValidConfig(cfg)
  {
    Segment(cfg, now) - cfg.segments + 1
  }

  lemma SegmentBounds(cfg: Config, now: int)
    requires ValidConfig(cfg)
    ensures Segment(cfg, now) * SegmentLength(cfg) <= now < (Segment(cfg, now) + 1) * SegmentLength(cfg)
  {
    var len := SegmentLength(cfg);
    assert now == len * (now / len) + now % len;
  }

  lemma MulMonotone(a: int, b: int, len: int)
    requires a <= b && len >= 0
    ensures a * len <= b * len
  {
  }

  /** Two instants at least `k` segment lengths apart are at least `k` segments apart, and back. */
  lemma SegmentsApart(cfg: Config, a: int, b: int, k: int)
    requires ValidConfig(cfg)
    ensures a + k * SegmentLength(cfg) <= b ==> Segment(cfg, a) + k <= Segment(cfg, b)
    ensures b <= a + k * SegmentLength(cfg) ==> Segment(cfg, b) <= Segment(cfg, a) + k
  {
    SegmentBounds(cfg, a);
    SegmentBounds(cfg, b);
    QuotientsApart(Segment(cfg, a), Segment(cfg, b), SegmentLength(cfg), a, b, k);
  }

  lemma QuotientsApart(p: int, q: int, len: int, a: int, b: int, k: int)
    requires len >= 1 && p * len <= a < (p + 1) * len && q * len <= b < (q + 1) * len
    ensures a + k * len <= b ==> p + k <= q
    ensures b <= a + k * len ==> q <= p + k
  {
    if q < p + k {
      MulMonotone(q + 1, p + k, len);
    }
    if p + k < q {
      MulMonotone(p + k + 1, q, len);
    }
  }

  // ---------------------------------------------------------------------------------------------
  // Sums over a hash
  // ---------------------------------------------------------------------------------------------

  ghost function Sum(m: map<int, nat>): nat {
    if m.Keys == {} then 0
    else
      EmptyOrNot(m.Keys);
      var k: int :| k in m.Keys;
      m[k] + Sum(m - {k})
  }

  lemma {:induction false} SumRemove(m: map<int, nat>, k: int)
    requires k in m
    ensures Sum(m) == m[k] + Sum(m - {k})
    decreases |m|
  {
    var j: int :| j in m.Keys && Sum(m) == m[j] + Sum(m - {j});
    if j != k {
      SumRemove(m - {j}, k);
      SumRemove(m - {k}, j);
      assert m - {j} - {k} == m - {k} - {j};
    }
  }

  lemma SumInsert(m: map<int, nat>, k: int, v: nat)
    requires k !in m
    ensures Sum(m[k := v]) == Sum(m) + v
  {
    SumRemove(m[k := v], k);
    assert m[k := v] - {k} == m;
  }

  ghost function From(m: map<int, nat>, from: int): map<int, nat> {
    map k | k in m && from <= k :: m[k]
  }

  /** Permits recorded in segment `from` and later. */
  ghost function Total(m: map<int, nat>, from: int): nat {
    Sum(From(m, from))
  }

  function Count(m: map<int, nat>, k: int): nat {
    if k in m then m[k] else 0
  }

  lemma TotalStep(m: map<int, nat>, from: int)
    ensures Total(m, from) == Total(m, from + 1) + Count(m, from)
  {
    if from in m {
      SumRemove(From(m, from), from);
      assert From(m, from) - {from} == From(m, from + 1);
    } else {
      assert From(m, from) == From(m, from + 1);
    }
  }

  lemma TotalIncrement(m: map<int, nat>, k: int, v: nat, from: int)
    ensures Total(m[k := Count(m, k) + v], from) == Total(m, from) + (if from <= k then v else 0)
  {
    var m' := m[k := Count(m, k) + v];
    if from <= k {
      SumRemove(From(m', from), k);
      assert From(m', from) - {k} == From(m, from) - {k};
      if k in m {
        SumRemove(From(m, from), k);
      } else {
        assert From(m, from) - {k} == From(m, from);
      }
    } else {
      assert From(m', from) == From(m, from);
    }
  }

  lemma TotalPurged(m: map<int, nat>, purge: int, from: int)
    requires purge <= from
    ensures Total(From(m, purge), from) == Total(m, from)
  {
    assert From(From(m, purge), from) == From(m, from);
  }

  // ---------------------------------------------------------------------------------------------
  // The script: specification and implementation
  // ---------------------------------------------------------------------------------------------

  datatype Hash = Hash(fields: map<int, nat>, deadline: int)

  datatype Decision = Decision(acquired: bool, remaining: int, retry: int)

  datatype Call = Call(permits: nat, now: int)

  /** What HGETALL returns at `now`: an expired key reads as empty. */
  function Visible(cfg: Config, h: Hash, now: int): map<int, nat> {
    if now < h.deadline + Linger(cfg) then h.fields else map[]
  }

  predicate Grants(limit: nat, permits: nat, total: nat) {
    (permits == 0 && total < limit) || (permits > 0 && total + permits <= limit)
  }

  /** The smallest segment in [lo, current) that `m` records, or `current`. */
  function Oldest(m: map<int, nat>, lo: int, current: int): (o: int)
    ensures lo <= current ==> lo <= o <= current
    ensures forall k :: lo <= k < o ==> k !in m
    ensures o < current ==> o in m
    decreases current - lo
  {
    if lo >= current then current
    else if lo in m then lo
    else Oldest(m, lo + 1, current)
  }

  function Max(a: int, b: int): int {
    if a >= b then a else b
  }

  /** The decision for a call that finds `total` live permits, the oldest in segment `oldest`. */
  function Decide(cfg: Config, total: nat, oldest: int, call: Call): Decision
    requires ValidConfig(cfg)
  {
    if Grants(cfg.limit, call.permits, total) then
      Decision(true, Max(0, cfg.limit - (total + call.permits)), 0)
    else
      Decision(false, Max(0, cfg.limit - total),
               Max(1, (oldest + cfg.segments) * SegmentLength(cfg) - call.now))
  }

  ghost function HashDecision(cfg: Config, h: Hash, call: Call): Decision
    requires ValidConfig(cfg)
  {
    var live := From(Visible(cfg, h, call.now), MinimumSegment(cfg, call.now));
    Decide(cfg, Sum(live), Oldest(live, MinimumSegment(cfg, call.now), Segment(cfg, call.now)), call)
  }

  ghost function HashStep(cfg: Config, h: Hash, call: Call): Hash
    requires ValidConfig(cfg)
  {
    var live := From(Visible(cfg, h, call.now), MinimumSegment(cfg, call.now));
    var current := Segment(cfg, call.now);
    var fields := if HashDecision(cfg, h, call).acquired && call.permits > 0
                  then live[current := Count(live, current) + call.permits] else live;
    Hash(fields, if fields == map[] then h.deadline else call.now + cfg.window + SegmentLength(cfg))
  }

  /** `stored` once the outdated segments among `done` are deleted. */
  ghost function Unpurged(stored: map<int, nat>, done: set<int>, purge: int): map<int, nat> {
    map k | k in stored && !(k in done && k < purge) :: stored[k]
  }

  /** The current segments among `done`. */
  ghost function Summed(stored: map<int, nat>, done: set<int>, purge: int): map<int, nat> {
    map k | k in stored && k in done && purge <= k :: stored[k]
  }

  /** The loop's state after the fields in `done`: what is left, what is summed, what is oldest. */
  ghost predicate Scanned(stored: map<int, nat>, done: set<int>, purge: int, current: int,
                          fields: map<int, nat>, total: nat, oldest: int) {
    && fields == Unpurged(stored, done, purge)
    && total == Sum(Summed(stored, done, purge))
    && oldest <= current
    && (oldest < current ==> oldest in Summed(stored, done, purge))
    && (forall k :: k in Summed(stored, done, purge) ==> oldest <= k || current <= k)
  }

  lemma ScanOutdated(stored: map<int, nat>, done: set<int>, purge: int, current: int,
                     fields: map<int, nat>, total: nat, oldest: int, k: int)
    requires Scanned(stored, done, purge, current, fields, total, oldest)
    requires k in stored && k !in done && k < purge
    ensures Scanned(stored, done + {k}, purge, current, fields - {k}, total, oldest)
  {
    assert Unpurged(stored, done + {k}, purge) == Unpurged(stored, done, purge) - {k};
    assert Summed(stored, done + {k}, purge) == Summed(stored, done, purge);
  }

  lemma ScanCurrent(stored: map<int, nat>, done: set<int>, purge: int, current: int,
                    fields: map<int, nat>, total: nat, oldest: int, k: int)
    requires Scanned(stored, done, purge, current, fields, total, oldest)
    requires k in stored && k !in done && purge <= k
    ensures Scanned(stored, done + {k}, purge, current, fields, total + stored[k], if k < oldest then k else oldest)
  {
    assert Unpurged(stored, done + {k}, purge) == Unpurged(stored, done, purge);
    assert Summed(stored, done + {k}, purge) == Summed(stored, done, purge)[k := stored[k]];
    SumInsert(Summed(stored, done, purge), k, stored[k]);
  }

  lemma ScanDone(stored: map<int, nat>, done: set<int>, purge: int, current: int,
                 fields: map<int, nat>, total: nat, oldest: int)
    requires Scanned(stored, done, purge, current, fields, total, oldest)
    requires forall k :: k in stored ==> k in done
    requires purge <= current
    ensures fields == From(stored, purge) && total == Sum(fields) && oldest == Oldest(fields, purge, current)
  {
    assert fields == From(stored, purge) == Summed(stored, done, purge);
  }

  /** The key in Redis, with the script run against it. */
  class RedisHash {
    const cfg: Config
    var fields: map<int, nat>
    var deadline: int

    function State(): Hash
      reads this
    {
      Hash(fields, deadline)
    }

    constructor (cfg: Config)
      ensures this.cfg == cfg && fields == map[]
    {
      this.cfg := cfg;
      fields := map[];
      deadline := 0;
    }

    /** HGETALL: every field once, in no particular order. */
    method HGetAll() returns (values: seq<(int, nat)>)
      ensures forall i :: 0 <= i < |values| ==> values[i].0 in fields && values[i].1 == fields[values[i].0]
      ensures forall i, j :: 0 <= i < j < |values| ==> values[i].0 != values[j].0
      ensures forall k :: k in fields ==> exists i :: 0 <= i < |values| && values[i].0 == k
    {
      values := [];
      var rest := fields.Keys;
      while rest != {}
        invariant rest <= fields.Keys
        invariant forall i :: 0 <= i < |values| ==>
                    values[i].0 in fields && values[i].0 !in rest && values[i].1 == fields[values[i].0]
        invariant forall i, j :: 0 <= i < j < |values| ==> values[i].0 != values[j].0
        invariant forall k :: k in fields && k !in rest ==> exists i :: 0 <= i < |values| && values[i].0 == k
        decreases |rest|
      {
        EmptyOrNot(rest);
        var k: int :| k in rest;
        ghost var before := values;
        values := values + [(k, fields[k])];
        rest := rest - {k};
        forall j | j in fields && j !in rest ensures exists i :: 0 <= i < |values| && values[i].0 == j {
          if j == k {
            assert values[|values| - 1].0 == k;
          } else {
            var i :| 0 <= i < |before| && before[i].0 == j;
            assert values[i].0 == j;
          }
        }
      }
    }

    /** The HGETALL loop: deletes segments that have left the window and sums the others. */
    method PurgeAndSum(minimumSegment: int, currentSegment: int) returns (total: nat, oldestSegment: int)
      requires minimumSegment <= currentSegment
      modifies this`fields
      ensures fields == From(old(fields), minimumSegment)
      ensures total == Sum(fields)
      ensures oldestSegment == Oldest(fields, minimumSegment, currentSegment)
    {
      ghost var stored := fields;
      var values := HGetAll();
      total := 0;
      oldestSegment := currentSegment;
      ghost var done: set<int> := {};
      for index := 0 to |values|
        invariant forall i :: 0 <= i < index ==> values[i].0 in done
        invariant forall i :: index <= i < |values| ==> values[i].0 !in done
        invariant Scanned(stored, done, minimumSegment, currentSegment, fields, total, oldestSegment)
      {
        var (segment, count) := values[index];
        if segment < minimumSegment {
          ScanOutdated(stored, done, minimumSegment, currentSegment, fields, total, oldestSegment, segment);
          fields := fields - {segment};
        } else {
          ScanCurrent(stored, done, minimumSegment, currentSegment, fields, total, oldestSegment, segment);
          total := total + count;
          if segment < oldestSegment {
            oldestSegment := segment;
          }
        }
        done := done + {segment};
      }
      ScanDone(stored, done, minimumSegment, currentSegment, fields, total, oldestSegment);
    }

    /** AcquireSlidingWindowAsync: the script's statements in order. */
    method Acquire(permits: nat, now: int) returns (decision: Decision)
      requires ValidConfig(cfg)
      modifies this
      ensures State() == HashStep(cfg, old(State()), Call(permits, now))
      ensures decision == HashDecision(cfg, old(State()), Call(permits, now))
    {
      var segmentLength := SegmentLength(cfg);
      var currentSegment := now / segmentLength;
      var minimumSegment := currentSegment - cfg.segments + 1;
      if now >= deadline + Linger(cfg) {
        fields := map[];
      }
      var total, oldestSegment := PurgeAndSum(minimumSegment, currentSegment);
      ghost var call := Call(permits, now);
      assert fields == From(Visible(cfg, old(State()), now), minimumSegment);
      assert HashDecision(cfg, old(State()), call) == Decide(cfg, total, oldestSegment, call);

      var acquired := false;
      if (permits == 0 && total < cfg.limit) || (permits > 0 && total + permits <= cfg.limit) {
        acquired := true;
        if permits > 0 {
          fields := fields[currentSegment := Count(fields, currentSegment) + permits];
        }
        total := total + permits;
      }

      if fields != map[] {
        deadline := now + cfg.window + segmentLength;
      }
      var retry := 0;
      if !acquired {
        retry := Max(1, (oldestSegment + cfg.segments) * segmentLength - now);
      }
      decision := Decision(acquired, Max(0, cfg.limit - total), retry);
    }
  }

  // ---------------------------------------------------------------------------------------------
  // The reference: a log of all grants
  // ---------------------------------------------------------------------------------------------

  datatype Grant = Grant(time: int, permits: nat)

  /** Permits granted in segment `from` and later, over everything ever granted. */
  function LogTotal(cfg: Config, log: seq<Grant>, from: int): nat
    requires ValidConfig(cfg)
  {
    if log == [] then 0
    else
      var last := log[|log| - 1];
      LogTotal(cfg, log[..|log| - 1], from) + (if from <= Segment(cfg, last.time) then last.permits else 0)
  }

  /** The smallest segment in [lo, current) in which the log granted something, or `current`. */
  function LogOldest(cfg: Config, log: seq<Grant>, lo: int, current: int): int
    requires ValidConfig(cfg)
    decreases current - lo
  {
    if lo >= current then current
    else if LogTotal(cfg, log, lo) > LogTotal(cfg, log, lo + 1) then lo
    else LogOldest(cfg, log, lo + 1, current)
  }

  function LogDecision(cfg: Config, log: seq<Grant>, call: Call): Decision
    requires ValidConfig(cfg)
  {
    var lo := MinimumSegment(cfg, call.now);
    Decide(cfg, LogTotal(cfg, log, lo), LogOldest(cfg, log, lo, Segment(cfg, call.now)), call)
  }

  /** Appends what a decision granted. */
  function Record(log: seq<Grant>, call: Call, decision: Decision): seq<Grant> {
    if decision.acquired && call.permits > 0 then log + [Grant(call.now, call.permits)] else log
  }

  function LogRun(cfg: Config, calls: seq<Call>): seq<Grant>
    requires ValidConfig(cfg)
  {
    if calls == [] then []
    else
      var log := LogRun(cfg, calls[..|calls| - 1]);
      Record(log, calls[|calls| - 1], LogDecision(cfg, log, calls[|calls| - 1]))
  }

  /** The hash after `calls`, and what it granted on the way. */
  ghost function HashRun(cfg: Config, calls: seq<Call>): (Hash, seq<Grant>)
    requires ValidConfig(cfg)
  {
    if calls == [] then (Hash(map[], 0), [])
    else
      var (h, granted) := HashRun(cfg, calls[..|calls| - 1]);
      var call := calls[|calls| - 1];
      (HashStep(cfg, h, call), Record(granted, call, HashDecision(cfg, h, call)))
  }

  /** Redis server time never goes back. */
  ghost predicate Ordered(calls: seq<Call>) {
    forall i, j :: 0 <= i < j < |calls| ==> calls[i].now <= calls[j].now
  }

  // ---------------------------------------------------------------------------------------------
  // Refinement
  // ---------------------------------------------------------------------------------------------

  /** An entry can outlive the window by at most the slack the TTL leaves. */
  predicate TtlCoversWindow(cfg: Config)
    requires ValidConfig(cfg)
  {
    cfg.segments * SegmentLength(cfg) <= cfg.window + SegmentLength(cfg) + Linger(cfg)
  }

  ghost predicate LoggedBy(log: seq<Grant>, last: int) {
    forall i :: 0 <= i < |log| ==> log[i].time <= last && log[i].permits > 0
  }

  /** What ties the hash to the log after the call at time `last`. */
  ghost predicate Tied(cfg: Config, h: Hash, log: seq<Grant>, last: int)
    requires ValidConfig(cfg)
  {
    && LoggedBy(log, last)
    && (forall k :: k in h.fields ==> h.fields[k] > 0)
    && (h.fields != map[] ==> h.deadline == last + cfg.window + SegmentLength(cfg))
    && (forall from :: MinimumSegment(cfg, last) <= from ==> Total(h.fields, from) == LogTotal(cfg, log, from))
  }

  lemma SegmentMonotone(cfg: Config, a: int, b: int)
    requires ValidConfig(cfg) && a <= b
    ensures Segment(cfg, a) <= Segment(cfg, b)
  {
    SegmentsApart(cfg, a, b, 0);
  }

  lemma {:induction false} NothingLoggedSince(cfg: Config, log: seq<Grant>, last: int, from: int)
    requires ValidConfig(cfg) && LoggedBy(log, last) && Segment(cfg, last) < from
    ensures LogTotal(cfg, log, from) == 0
  {
    if log != [] {
      SegmentMonotone(cfg, log[|log| - 1].time, last);
      NothingLoggedSince(cfg, log[..|log| - 1], last, from);
    }
  }

  lemma VisibleTotal(cfg: Config, h: Hash, log: seq<Grant>, last: int, now: int, from: int)
    requires ValidConfig(cfg) && TtlCoversWindow(cfg)
    requires Tied(cfg, h, log, last) && last <= now && MinimumSegment(cfg, now) <= from
    ensures Total(Visible(cfg, h, now), from) == LogTotal(cfg, log, from)
  {
    SegmentMonotone(cfg, last, now);
    if now >= h.deadline + Linger(cfg) && h.fields != map[] {
      SegmentsApart(cfg, last, now, cfg.segments);
      NothingLoggedSince(cfg, log, last, from);
      assert From(map[], from) == map[];
    }
  }

  lemma {:induction false} SameOldest(cfg: Config, m: map<int, nat>, log: seq<Grant>, lo: int, current: int)
    requires ValidConfig(cfg)
    requires forall k :: k in m ==> m[k] > 0
    requires forall from :: lo <= from ==> Total(m, from) == LogTotal(cfg, log, from)
    ensures Oldest(m, lo, current) == LogOldest(cfg, log, lo, current)
    decreases current - lo
  {
    if lo < current {
      TotalStep(m, lo);
      assert Total(m, lo + 1) == LogTotal(cfg, log, lo + 1);
      SameOldest(cfg, m, log, lo + 1, current);
    }
  }

  lemma SameDecision(cfg: Config, h: Hash, log: seq<Grant>, last: int, call: Call)
    requires ValidConfig(cfg) && TtlCoversWindow(cfg) && Tied(cfg, h, log, last) && last <= call.now
    ensures HashDecision(cfg, h, call) == LogDecision(cfg, log, call)
  {
    var lo := MinimumSegment(cfg, call.now);
    var live := From(Visible(cfg, h, call.now), lo);
    forall from | lo <= from ensures Total(live, from) == LogTotal(cfg, log, from) {
      VisibleTotal(cfg, h, log, last, call.now, from);
      TotalPurged(Visible(cfg, h, call.now), lo, from);
    }
    assert Total(live, lo) == Sum(live) by { assert From(live, lo) == live; }
    SameOldest(cfg, live, log, lo, Segment(cfg, call.now));
  }

  /** What a call adds to the segments from `from` on, in the hash and in the log. */
  function Added(cfg: Config, call: Call, decision: Decision, from: int): nat
    requires ValidConfig(cfg)
  {
    if decision.acquired && call.permits > 0 && from <= Segment(cfg, call.now) then call.permits else 0
  }

  lemma HashAdds(cfg: Config, h: Hash, call: Call, from: int)
    requires ValidConfig(cfg) && MinimumSegment(cfg, call.now) <= from
    ensures Total(HashStep(cfg, h, call).fields, from)
         == Total(Visible(cfg, h, call.now), from) + Added(cfg, call, HashDecision(cfg, h, call), from)
  {
    var visible, lo := Visible(cfg, h, call.now), MinimumSegment(cfg, call.now);
    TotalPurged(visible, lo, from);
    TotalIncrement(From(visible, lo), Segment(cfg, call.now), call.permits, from);
    hide Total, Sum, Segment, Oldest, Visible, From, HashDecision;
  }

  lemma LogAdds(cfg: Config, log: seq<Grant>, call: Call, decision: Decision, from: int)
    requires ValidConfig(cfg)
    ensures LogTotal(cfg, Record(log, call, decision), from)
         == LogTotal(cfg, log, from) + Added(cfg, call, decision, from)
  {
    hide Segment;
    var log' := Record(log, call, decision);
    assert log' != log ==> log'[..|log'| - 1] == log;
  }

  lemma TotalStaysTied(cfg: Config, h: Hash, log: seq<Grant>, last: int, call: Call, from: int)
    requires ValidConfig(cfg) && TtlCoversWindow(cfg) && Tied(cfg, h, log, last) && last <= call.now
    requires MinimumSegment(cfg, call.now) <= from
    ensures Total(HashStep(cfg, h, call).fields, from)
         == LogTotal(cfg, Record(log, call, LogDecision(cfg, log, call)), from)
  {
    hide Tied, Total, LogTotal, HashStep, HashDecision, LogDecision, Segment, Added, Record;
    SameDecision(cfg, h, log, last, call);
    VisibleTotal(cfg, h, log, last, call.now, from);
    HashAdds(cfg, h, call, from);
    LogAdds(cfg, log, call, LogDecision(cfg, log, call), from);
  }

  lemma StaysTied(cfg: Config, h: Hash, log: seq<Grant>, last: int, call: Call)
    requires ValidConfig(cfg) && TtlCoversWindow(cfg) && Tied(cfg, h, log, last) && last <= call.now
    ensures Tied(cfg, HashStep(cfg, h, call), Record(log, call, LogDecision(cfg, log, call)), call.now)
  {
    hide Total, Sum, Segment, Oldest, LogTotal, LogOldest, LogDecision;
    SameDecision(cfg, h, log, last, call);
    forall from | MinimumSegment(cfg, call.now) <= from
      ensures Total(HashStep(cfg, h, call).fields, from)
           == LogTotal(cfg, Record(log, call, LogDecision(cfg, log, call)), from)
    {
      TotalStaysTied(cfg, h, log, last, call, from);
    }
  }

  /** Over every run the hash grants exactly what the log grants, and stays tied to it. */
  lemma {:induction false} RunsAgree(cfg: Config, calls: seq<Call>, last: int)
    requires ValidConfig(cfg) && TtlCoversWindow(cfg) && Ordered(calls)
    requires calls != [] ==> last == calls[|calls| - 1].now
    ensures HashRun(cfg, calls).1 == LogRun(cfg, calls)
    ensures Tied(cfg, HashRun(cfg, calls).0, LogRun(cfg, calls), last)
  {
    if calls == [] {
      forall from ensures Total(map[], from) == 0 {
        assert From(map[], from) == map[];
      }
    } else {
      var before := calls[..|calls| - 1];
      var previous := if before == [] then last else before[|before| - 1].now;
      RunsAgree(cfg, before, previous);
      var (h, granted) := HashRun(cfg, before);
      SameDecision(cfg, h, granted, previous, calls[|calls| - 1]);
      StaysTied(cfg, h, granted, previous, calls[|calls| - 1]);
    }
  }

  /** The answer to the next call is the log's answer: permits, remaining count and retry hint. */
  ghost predicate AgreesOn(cfg: Config, calls: seq<Call>, next: Call)
    requires ValidConfig(cfg)
  {
    HashDecision(cfg, HashRun(cfg, calls).0, next) == LogDecision(cfg, LogRun(cfg, calls), next)
  }

  /** With the TTL long enough, no run tells the hash from the log. */
  lemma RefinesLog(cfg: Config, calls: seq<Call>, next: Call)
    requires ValidConfig(cfg) && TtlCoversWindow(cfg) && Ordered(calls + [next])
    ensures AgreesOn(cfg, calls, next)
  {
    assert Ordered(calls) by {
      forall i, j | 0 <= i < j < |calls| ensures calls[i].now <= calls[j].now {
        assert (calls + [next])[i].now <= (calls + [next])[j].now;
      }
    }
    var last := if calls == [] then next.now else calls[|calls| - 1].now;
    assert last <= next.now by {
      assert (calls + [next])[|calls|] == next;
      if calls != [] {
        assert (calls + [next])[|calls| - 1] == calls[|calls| - 1];
      }
    }
    RunsAgree(cfg, calls, last);
    SameDecision(cfg, HashRun(cfg, calls).0, LogRun(cfg, calls), last, next);
  }

  /** A full grant at time 0 is forgotten when the key expires. */
  lemma HashForgets(cfg: Config, now: int)
    requires ValidConfig(cfg) && cfg.limit >= 1 && now == cfg.window + SegmentLength(cfg) + Linger(cfg)
    ensures HashDecision(cfg, HashRun(cfg, [Call(cfg.limit, 0)]).0, Call(cfg.limit, now)).acquired
  {
    var first := Call(cfg.limit, 0);
    assert [first][..0] == [];
    assert From(map[], MinimumSegment(cfg, 0)) == map[];
    assert From(map[], MinimumSegment(cfg, now)) == map[];
    assert HashRun(cfg, [first]).0 == HashStep(cfg, Hash(map[], 0), first);
  }

  /** The log still counts it as long as `now` lies in the first `segments` segments. */
  lemma LogRemembers(cfg: Config, now: int)
    requires ValidConfig(cfg) && cfg.limit >= 1 && 0 <= now < cfg.segments * SegmentLength(cfg)
    ensures !LogDecision(cfg, LogRun(cfg, [Call(cfg.limit, 0)]), Call(cfg.limit, now)).acquired
  {
    var first := Call(cfg.limit, 0);
    assert [first][..0] == [];
    assert LogRun(cfg, [first]) == [Grant(0, cfg.limit)];
    SegmentBounds(cfg, now);
    if cfg.segments <= Segment(cfg, now) {
      MulMonotone(cfg.segments, Segment(cfg, now), SegmentLength(cfg));
    }
    assert [Grant(0, cfg.limit)][..0] == [];
    assert LogTotal(cfg, [Grant(0, cfg.limit)], MinimumSegment(cfg, now)) == cfg.limit;
  }

  /** Without it, there is a run on which the two differ. */
  lemma ShortTtlForgets(cfg: Config)
    requires ValidConfig(cfg) && cfg.limit >= 1 && !TtlCoversWindow(cfg)
    ensures exists calls, next :: Ordered(calls + [next]) && !AgreesOn(cfg, calls, next)
  {
    var calls := [Call(cfg.limit, 0)];
    var next := Call(cfg.limit, cfg.window + SegmentLength(cfg) + Linger(cfg));
    HashForgets(cfg, next.now);
    LogRemembers(cfg, next.now);
    assert Ordered(calls + [next]) && !AgreesOn(cfg, calls, next);
  }

  /** Exactly when the expiring hash is the log: a condition on the configuration alone. */
  lemma RefinementExact(cfg: Config)
    requires ValidConfig(cfg) && cfg.limit >= 1
    ensures (forall calls, next :: Ordered(calls + [next]) ==> AgreesOn(cfg, calls, next)) <==> TtlCoversWindow(cfg)
  {
    if TtlCoversWindow(cfg) {
      forall calls, next | Ordered(calls + [next]) ensures AgreesOn(cfg, calls, next) {
        RefinesLog(cfg, calls, next);
      }
    } else {
      ShortTtlForgets(cfg);
    }
  }

  /** A window of at least (segments - 1)^2 milliseconds is long enough. */
  lemma LongWindowsAreCovered(cfg: Config)
    requires ValidConfig(cfg) && cfg.window >= (cfg.segments - 1) * (cfg.segments - 1)
    ensures TtlCoversWindow(cfg)
  {
    hide SegmentLength;
    LongEnough(cfg.segments, SegmentLength(cfg), cfg.window);
  }

  lemma LongEnough(n: int, len: int, window: int)
    requires n >= 1 && n * (len - 1) < window <= n * len && (n - 1) * (n - 1) <= window
    ensures n * len <= window + len
  {
    assert n * (len - 1) == n * len - n;
    if len < n - 1 {
      assert (n - 1) * (n - 1) == (n - 2) * n + 1;
      MulMonotone(len, n - 2, n);
    }
  }

  /** The configured default is covered; an allowed window of 1021 ms in 60 segments is not. */
  lemma DefaultIsCoveredShortWindowIsNot(lingers: bool)
    ensures TtlCoversWindow(Config(100, 60_000, 6, lingers))
    ensures !TtlCoversWindow(Config(100, 1_021, 60, lingers))
  {
    LongWindowsAreCovered(Config(100, 60_000, 6, lingers));
    assert SegmentLength(Config(100, 1_021, 60, lingers)) == 18;
  }
}
