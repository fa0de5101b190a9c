/**
  The batch each cleanup delete works on: the ids of the oldest eligible rows, at most BatchSize of
  them (BackgroundServices/ExpiredAuthArtifactCleanupService.cs).
*/
module Batches {
  import opened Sets

  /** `ids` are the `size` oldest candidates, or all of them when there are fewer. */
  ghost predicate IsBatch(candidates: map<nat, int>, size: nat, ids: set<nat>) {
    && ids <= candidates.Keys
    && |ids| == (if |candidates.Keys| <= size then |candidates.Keys| else size)
    && (forall i, j :: i in ids && j in candidates && j !in ids ==> candidates[i] <= candidates[j])
  }

  method Oldest(candidates: map<nat, int>, among: set<nat>) returns (oldest: nat)
    requires among != {} && among <= candidates.Keys
    ensures oldest in among
    ensures forall j :: j in among ==> candidates[oldest] <= candidates[j]
  {
    EmptyOrNot(among);
    oldest :| oldest in among;
    var rest := among - {oldest};
    while rest != {}
      invariant rest < among && oldest in among
      invariant forall j :: j in among && j !in rest ==> candidates[oldest] <= candidates[j]
      decreases |rest|
    {
      EmptyOrNot(rest);
      var next :| next in rest;
      if candidates[next] < candidates[oldest] {
        oldest := next;
      }
      rest := rest - {next};
    }
  }

  /** OrderBy(...).Take(size). */
  method Take(candidates: map<nat, int>, size: nat) returns (ids: set<nat>)
    ensures IsBatch(candidates, size, ids)
  {
    ids := {};
    var rest := candidates.Keys;
    while rest != {} && |ids| < size
      invariant ids !! rest && ids + rest == candidates.Keys
      invariant |ids| <= size
      invariant forall i, j :: i in ids && j in rest ==> candidates[i] <= candidates[j]
      decreases |rest|
    {
      var id := Oldest(candidates, rest);
      ids := ids + {id};
      rest := rest - {id};
    }
    assert rest == {} ==> ids == candidates.Keys;
    assert |candidates.Keys| == |ids| + |rest| by {
      assert candidates.Keys == ids + rest;
    }
  }
}
