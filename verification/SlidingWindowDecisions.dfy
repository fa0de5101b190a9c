/**
  What every call to the sliding window is answered, told from the calls alone and for every
  configuration: which grants count against it, and when the oldest of them stops to.
*/
module SlidingWindowDecisions {
  import opened SlidingWindow
  import opened SlidingWindowBounds

  /** The first of the calls that lead up to `now` without a pause of a key's life; `now` if there is none. */
  function Unbroken(cfg: Config, calls: seq<Call>, now: int): int
    requires ValidConfig(cfg)
  {
    if calls == [] then now
    else
      var last := calls[|calls| - 1].now;
      if now >= last + cfg.window + SegmentLength(cfg) + (if cfg.lingers then 1 else 0) then now
      else Unbroken(cfg, calls[..|calls| - 1], last)
  }

  /** Where the segments that count at `now` begin: `segments` of them, with the current one. */
  function WindowStart(cfg: Config, now: int): int
    requires ValidConfig(cfg)
  {
    (now / SegmentLength(cfg) - cfg.segments + 1) * SegmentLength(cfg)
  }

  /** Permits granted from both instants on. */
  function Since(log: seq<Grant>, a: int, b: int): nat {
    if log == [] then 0
    else
      var last := log[|log| - 1];
      Since(log[..|log| - 1], a, b) + (if a <= last.time && b <= last.time then last.permits else 0)
  }

  lemma SinceStep(log: seq<Grant>, grant: Grant, a: int, b: int)
    ensures Since(log + [grant], a, b)
         == Since(log, a, b) + if a <= grant.time && b <= grant.time then grant.permits else 0
  {
    assert (log + [grant])[..|log|] == log;
  }

  lemma {:induction false} NothingSince(cfg: Config, calls: seq<Call>, a: int, b: int)
    requires ValidConfig(cfg) && forall i :: 0 <= i < |calls| ==> calls[i].now < a
    ensures Since(Granted(cfg, calls), a, b) == 0
  {
    if calls != [] {
      var before, call := calls[..|calls| - 1], calls[|calls| - 1];
      assert calls == before + [call];
      RunStep(cfg, before, call);
      NothingSince(cfg, before, a, b);
      SinceStep(Granted(cfg, before), Grant(call.now, call.permits), a, b);
    }
  }

  lemma SegmentStart(cfg: Config, t: int, k: int)
    requires ValidConfig(cfg)
    ensures k <= Segment(cfg, t) <==> k * SegmentLength(cfg) <= t
  {
    SegmentBounds(cfg, t);
    if k <= Segment(cfg, t) {
      MulMonotone(k, Segment(cfg, t), SegmentLength(cfg));
    } else {
      MulMonotone(Segment(cfg, t) + 1, k, SegmentLength(cfg));
    }
  }

  /** What a call at `now` finds in the segments from `from` on. */
  lemma FoundSince(cfg: Config, calls: seq<Call>, last: int, now: int, from: int)
    requires ValidConfig(cfg) && Ordered(calls) && last <= now && MinimumSegment(cfg, now) <= from
    requires calls != [] ==> last == calls[|calls| - 1].now
    requires Total(HashRun(cfg, calls).0.fields, from)
          == Since(Granted(cfg, calls), Unbroken(cfg, calls, last), from * SegmentLength(cfg))
    ensures Total(Visible(cfg, HashRun(cfg, calls).0, now), from)
         == Since(Granted(cfg, calls), Unbroken(cfg, calls, now), from * SegmentLength(cfg))
  {
    hide HashRun, Total, Since, SegmentLength, Segment;
    RunOk(cfg, calls, last);
    NothingHeld(from);
    if calls == [] {
      NoCalls(cfg);
    } else if now >= last + Life(cfg) {
      NothingSince(cfg, calls, now, from * SegmentLength(cfg));
    }
  }

  lemma NoCalls(cfg: Config)
    requires ValidConfig(cfg)
    ensures HashRun(cfg, []).0.fields == map[]
    ensures forall a, b :: Since(Granted(cfg, []), a, b) == 0
  {
  }

  lemma NothingHeld(from: int)
    ensures Total(map[], from) == 0
  {
    assert From(map[], from) == map[];
  }

  /** On every run the hash holds exactly the permits granted since its calls last paused that long. */
  lemma {:induction false} HoldsExactly(cfg: Config, calls: seq<Call>, last: int, from: int)
    requires ValidConfig(cfg) && Ordered(calls) && MinimumSegment(cfg, last) <= from
    requires calls != [] ==> last == calls[|calls| - 1].now
    ensures Total(HashRun(cfg, calls).0.fields, from)
         == Since(Granted(cfg, calls), Unbroken(cfg, calls, last), from * SegmentLength(cfg))
  {
    hide HashRun, HashStep, HashDecision, Total, Since, SegmentLength, Segment, Record;
    if calls == [] {
      NoCalls(cfg);
      NothingHeld(from);
    } else {
      var before, call := calls[..|calls| - 1], calls[|calls| - 1];
      var previous := if before == [] then call.now else before[|before| - 1].now;
      assert calls == before + [call];
      RunStep(cfg, before, call);
      SegmentMonotone(cfg, previous, last);
      HoldsExactly(cfg, before, previous, from);
      FoundSince(cfg, before, previous, call.now, from);
      UnbrokenBy(cfg, before, call.now);
      StillUnbroken(cfg, before, call);
      StepAdds(cfg, HashRun(cfg, before).0, Granted(cfg, before), call, Unbroken(cfg, before, call.now), from);
    }
  }

  lemma {:induction false} UnbrokenBy(cfg: Config, calls: seq<Call>, now: int)
    requires ValidConfig(cfg) && Ordered(calls) && (calls != [] ==> calls[|calls| - 1].now <= now)
    ensures Unbroken(cfg, calls, now) <= now
  {
    if calls != [] {
      UnbrokenBy(cfg, calls[..|calls| - 1], calls[|calls| - 1].now);
    }
  }

  lemma StillUnbroken(cfg: Config, before: seq<Call>, call: Call)
    requires ValidConfig(cfg)
    ensures Unbroken(cfg, before + [call], call.now) == Unbroken(cfg, before, call.now)
  {
    assert (before + [call])[..|before|] == before;
  }

  lemma StepAdds(cfg: Config, h: Hash, log: seq<Grant>, call: Call, since: int, from: int)
    requires ValidConfig(cfg) && since <= call.now && MinimumSegment(cfg, call.now) <= from
    requires Total(Visible(cfg, h, call.now), from) == Since(log, since, from * SegmentLength(cfg))
    ensures Total(HashStep(cfg, h, call).fields, from)
         == Since(Record(log, call, HashDecision(cfg, h, call)), since, from * SegmentLength(cfg))
  {
    hide HashStep, HashDecision, Total, Since, SegmentLength, Segment, Visible;
    HashAdds(cfg, h, call, from);
    SegmentStart(cfg, call.now, from);
    SinceStep(log, Grant(call.now, call.permits), since, from * SegmentLength(cfg));
  }

  // ---------------------------------------------------------------------------------------------
  // Decisions
  // ---------------------------------------------------------------------------------------------

  /** Permits that count against a call at `now`: granted in its window, and since the last such pause. */
  ghost function Used(cfg: Config, calls: seq<Call>, now: int): nat
    requires ValidConfig(cfg)
  {
    Since(Granted(cfg, calls), Unbroken(cfg, calls, now), WindowStart(cfg, now))
  }

  /** Of those, the ones granted from `from` on. */
  ghost function UsedFrom(cfg: Config, calls: seq<Call>, now: int, from: int): nat
    requires ValidConfig(cfg)
  {
    Since(Granted(cfg, calls), Unbroken(cfg, calls, now), from)
  }

  lemma FoundExactly(cfg: Config, calls: seq<Call>, call: Call, from: int)
    requires ValidConfig(cfg) && Ordered(calls + [call]) && MinimumSegment(cfg, call.now) <= from
    ensures Total(Live(cfg, calls, call.now), from) == UsedFrom(cfg, calls, call.now, from * SegmentLength(cfg))
  {
    hide HashRun, Total, Since, SegmentLength, Segment, Visible, Unbroken, Granted;
    OrderedFront(calls, call);
    var last := if calls == [] then call.now else calls[|calls| - 1].now;
    SegmentMonotone(cfg, last, call.now);
    HoldsExactly(cfg, calls, last, from);
    FoundSince(cfg, calls, last, call.now, from);
    TotalPurged(Visible(cfg, HashRun(cfg, calls).0, call.now), MinimumSegment(cfg, call.now), from);
  }

  lemma LiveTotal(cfg: Config, calls: seq<Call>, now: int)
    requires ValidConfig(cfg)
    ensures Total(Live(cfg, calls, now), MinimumSegment(cfg, now)) == Sum(Live(cfg, calls, now))
    ensures WindowStart(cfg, now) == MinimumSegment(cfg, now) * SegmentLength(cfg)
  {
    hide HashRun, Sum, SegmentLength, Visible;
    var live := Live(cfg, calls, now);
    assert From(live, MinimumSegment(cfg, now)) == live;
  }

  function Left(cfg: Config, used: nat): nat {
    if used >= cfg.limit then 0 else cfg.limit - used
  }

  lemma OldestHolds(cfg: Config, calls: seq<Call>, call: Call, o: int)
    requires ValidConfig(cfg) && Ordered(calls + [call])
    requires o == Oldest(Live(cfg, calls, call.now), MinimumSegment(cfg, call.now), Segment(cfg, call.now))
    ensures var live := Live(cfg, calls, call.now);
            && MinimumSegment(cfg, call.now) <= o <= Segment(cfg, call.now)
            && Total(live, o) == Sum(live) && (o < Segment(cfg, call.now) ==> Total(live, o + 1) < Sum(live))
  {
    hide HashRun, Sum, Segment, Visible, Live, SegmentLength;
    FoundOk(cfg, calls, call);
    var live := Live(cfg, calls, call.now);
    assert From(live, o) == live;
    TotalStep(live, o);
  }

  lemma Arithmetic(cfg: Config, now: int, o: int)
    requires ValidConfig(cfg) && MinimumSegment(cfg, now) <= o <= Segment(cfg, now)
    ensures var len := SegmentLength(cfg);
            && o * len % len == 0 && MinimumSegment(cfg, now) * len <= o * len <= now && (o + 1) * len == o * len + len
            && now < (o + cfg.segments) * len == o * len + cfg.segments * len
            && (o == Segment(cfg, now) ==> now < o * len + len)
  {
    hide Segment, SegmentLength;
    SegmentBounds(cfg, now);
    RetryArithmetic(cfg, now, o);
    MulMonotone(MinimumSegment(cfg, now), o, SegmentLength(cfg));
    MulMonotone(o, Segment(cfg, now), SegmentLength(cfg));
    Multiple(o, SegmentLength(cfg));
  }

  lemma Multiple(k: int, len: int)
    requires len >= 1
    ensures k * len % len == 0
  {
    var q := k * len / len;
    assert (k - q) * len == k * len % len;
    if k - q >= 1 {
      MulMonotone(1, k - q, len);
    }
    if k - q <= -1 {
      MulMonotone(k - q, -1, len);
    }
  }

  lemma AnswerOf(cfg: Config, calls: seq<Call>, call: Call)
    requires ValidConfig(cfg)
    ensures var live := Live(cfg, calls, call.now);
            var total, answer := Sum(live), Answer(cfg, calls, call);
            var hint := (Oldest(live, MinimumSegment(cfg, call.now), Segment(cfg, call.now)) + cfg.segments)
                        * SegmentLength(cfg) - call.now;
            && (answer.acquired <==> if call.permits == 0 then total < cfg.limit else total + call.permits <= cfg.limit)
            && answer.remaining == Left(cfg, total + if answer.acquired then call.permits else 0)
            && answer.retry == if answer.acquired then 0 else if hint < 1 then 1 else hint
  {
    hide HashRun, Sum, SegmentLength, Segment, Visible, From, Oldest;
  }

  /**
    A request is granted exactly if it fits beside what counts against it, and one for no permits if
    anything is left. A denial's hint is the instant at which the segment of the oldest permit that
    counts, or the current one if none does, leaves the window.
  */
  lemma DecidesExactly(cfg: Config, calls: seq<Call>, call: Call) returns (oldest: int)
    requires ValidConfig(cfg) && Ordered(calls + [call])
    ensures var used, answer := Used(cfg, calls, call.now), Answer(cfg, calls, call);
            && (answer.acquired <==> if call.permits == 0 then used < cfg.limit else used + call.permits <= cfg.limit)
            && answer.remaining == Left(cfg, used + if answer.acquired then call.permits else 0)
            && (answer.acquired ==> answer.retry == 0)
    ensures var now, len := call.now, SegmentLength(cfg);
            var used, answer := Used(cfg, calls, now), Answer(cfg, calls, call);
            && oldest % len == 0 && WindowStart(cfg, now) <= oldest <= now
            && (!answer.acquired ==> now + answer.retry == oldest + cfg.segments * len)
            && UsedFrom(cfg, calls, now, oldest) == used
            && (now < oldest + len || UsedFrom(cfg, calls, now, oldest + len) < used)
  {
    hide HashRun, Sum, SegmentLength, Segment, Visible, Live, Since, Unbroken, Granted;
    var live, lo, current := Live(cfg, calls, call.now), MinimumSegment(cfg, call.now), Segment(cfg, call.now);
    var o := Oldest(live, lo, current);
    oldest := o * SegmentLength(cfg);
    FoundExactly(cfg, calls, call, lo);
    FoundExactly(cfg, calls, call, o);
    FoundExactly(cfg, calls, call, o + 1);
    LiveTotal(cfg, calls, call.now);
    OldestHolds(cfg, calls, call, o);
    Arithmetic(cfg, call.now, o);
    AnswerOf(cfg, calls, call);
  }
}
