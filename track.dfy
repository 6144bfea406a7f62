/** The track of one target (class `Track` of `gmphd_fusion/data.py`): a timeline of
    estimates, one slot per time step from the start time on, where a step without an
    estimate holds a missing marker, and a flag that `finish` sets once. */
module TrackData {
  import opened Wrappers

  /** The ValueError of a duplicate or out-of-order add_estimate and of a second finish. */
  datatype TrackError = InvalidMutation

  /** An estimate together with the time step it was added for. */
  datatype TimedEstimate<E> = TimedEstimate(estimate: E, time: int)

  /** `n` missing-estimate slots. */
  function Missing<E>(n: nat): (r: seq<Option<E>>)
    ensures |r| == n && forall k | 0 <= k < n :: r[k] == None
  {
    seq(n, _ => None)
  }

  /** The estimates after add_estimate(estimate, time) on a track started at `startTime`:
      accepted exactly when `time` comes after the last recorded slot, and then the old
      slots are kept, every skipped step is missing, and the slot of `time` holds the
      estimate. */
  function AddEstimateSpec<E>(estimates: seq<Option<E>>, startTime: int, estimate: E, time: int)
    : (r: Result<seq<Option<E>>, TrackError>)
    ensures r.Ok? <==> startTime + |estimates| <= time
    ensures r.Err? ==> r.error == InvalidMutation
    ensures r.Ok? ==> |r.value| == time - startTime + 1 && r.value[..|estimates|] == estimates
    ensures r.Ok? ==> r.value[time - startTime] == Some(estimate)
    ensures r.Ok? ==> forall k | |estimates| <= k < time - startTime :: r.value[k] == None
  {
    var expectedLen := time - startTime + 1;
    if expectedLen <= |estimates| then Err(InvalidMutation)
    else Ok(estimates + Missing(expectedLen - 1 - |estimates|) + [Some(estimate)])
  }

  /** The estimates after finish(time): refused on a finished track; otherwise padded with
      missing slots up to `time - startTime` slots, keeping the old ones. */
  function FinishSpec<E>(estimates: seq<Option<E>>, startTime: int, time: int, finished: bool)
    : (r: Result<seq<Option<E>>, TrackError>)
    ensures r.Ok? <==> !finished
    ensures r.Err? ==> r.error == InvalidMutation
    ensures r.Ok? ==> |r.value| == (if time - startTime <= |estimates| then |estimates| else time - startTime)
    ensures r.Ok? ==> r.value[..|estimates|] == estimates && forall k | |estimates| <= k < |r.value| :: r.value[k] == None
  {
    if finished then Err(InvalidMutation)
    else if time - startTime <= |estimates| then Ok(estimates)
    else Ok(estimates + Missing(time - startTime - |estimates|))
  }

  /** The estimates of a fresh track after each add_estimate of `adds` in turn, or the
      error of the first one refused. */
  function Replay<E>(startTime: int, adds: seq<TimedEstimate<E>>): Result<seq<Option<E>>, TrackError> {
    if |adds| == 0 then Ok([])
    else
      var last := adds[|adds| - 1];
      match Replay(startTime, adds[..|adds| - 1])
      case Err(e) => Err(e)
      case Ok(estimates) => AddEstimateSpec(estimates, startTime, last.estimate, last.time)
  }

  /** Every time is at least `startTime` and the times strictly increase. */
  predicate IncreasingFrom<E>(startTime: int, adds: seq<TimedEstimate<E>>) {
    (forall i | 0 <= i < |adds| :: startTime <= adds[i].time) &&
    (forall i, j | 0 <= i < j < |adds| :: adds[i].time < adds[j].time)
  }

  /** The reference timeline: what `adds` records for time step `t`, if anything. */
  function RecordedAt<E>(adds: seq<TimedEstimate<E>>, t: int): Option<E> {
    if |adds| == 0 then None
    else if adds[|adds| - 1].time == t then Some(adds[|adds| - 1].estimate)
    else RecordedAt(adds[..|adds| - 1], t)
  }

  lemma {:induction false} RecordedAtLater<E>(adds: seq<TimedEstimate<E>>, t: int)
    requires forall i | 0 <= i < |adds| :: adds[i].time < t
    ensures RecordedAt(adds, t) == None
  {
    if |adds| > 0 {
      RecordedAtLater(adds[..|adds| - 1], t);
    }
  }

  /** The timeline invariant: a sequence of add_estimate calls on a fresh track all succeed
      exactly when their times strictly increase from the start time, and then there is one
      slot per step up to the last time, each holding what was added at that step or the
      missing marker. */
  lemma {:induction false} ReplayTimeline<E>(startTime: int, adds: seq<TimedEstimate<E>>)
    ensures Replay(startTime, adds).Ok? <==> IncreasingFrom(startTime, adds)
    ensures Replay(startTime, adds).Ok? ==>
              var estimates := Replay(startTime, adds).value;
              |estimates| == (if |adds| == 0 then 0 else adds[|adds| - 1].time - startTime + 1) &&
              forall k | 0 <= k < |estimates| :: estimates[k] == RecordedAt(adds, startTime + k)
  {
    if |adds| > 0 {
      var n := |adds| - 1;
      var front, last := adds[..n], adds[n];
      ReplayTimeline(startTime, front);
      assert forall i | 0 <= i < n :: front[i] == adds[i];
      match Replay(startTime, front)
      case Err(_) =>
      case Ok(old_) =>
        if Replay(startTime, adds).Ok? {
          var estimates := Replay(startTime, adds).value;
          forall k | 0 <= k < |estimates|
            ensures estimates[k] == RecordedAt(adds, startTime + k)
          {
            if k >= |old_| && k < last.time - startTime {
              RecordedAtLater(front, startTime + k);
            }
          }
        }
    }
  }

  class Track<E> {
    /** The source's `label` (a reserved word in Dafny). */
    const trackLabel: int
    const startTime: int
    var estimates: seq<Option<E>>
    var finished: bool
    /** The estimates accepted so far, with their times. */
    ghost var accepted: seq<TimedEstimate<E>>

    /** While the track is active, its slots are exactly those the accepted estimates
        produce, so the last slot is the last accepted estimate. */
    ghost predicate Valid()
      reads this
    {
      !finished ==> Replay(startTime, accepted) == Ok(estimates)
    }

    constructor (trackLabel: int, startTime: int)
      ensures Valid()
      ensures this.trackLabel == trackLabel && this.startTime == startTime
      ensures estimates == [] && !finished && accepted == []
    {
      this.trackLabel := trackLabel;
      this.startTime := startTime;
      estimates := [];
      finished := false;
      accepted := [];
    }

    /** is_finished: whether finish has been called successfully. */
    predicate IsFinished()
      reads this
      ensures IsFinished() <==> finished
    {
      finished
    }

    /** add_estimate: refused with the estimates unchanged when `time` is not after the
        last recorded slot; otherwise pads the skipped steps with missing markers and
        appends the estimate. */
    method AddEstimate(estimate: E, time: int) returns (r: Outcome<TrackError>)
      requires Valid() && !finished
      modifies this
      ensures Valid() && !finished
      ensures match AddEstimateSpec(old(estimates), startTime, estimate, time)
              case Ok(s) => r == Pass && estimates == s && accepted == old(accepted) + [TimedEstimate(estimate, time)]
              case Err(e) => r == Fail(e) && estimates == old(estimates) && accepted == old(accepted)
    {
      var expectedLen := time - startTime + 1;
      if expectedLen <= |estimates| {
        return Fail(InvalidMutation);
      }
      ghost var before := estimates;
      while |estimates| < expectedLen - 1
        invariant !finished && accepted == old(accepted)
        invariant |before| <= |estimates| <= expectedLen - 1
        invariant estimates == before + Missing(|estimates| - |before|)
      {
        estimates := estimates + [None];
      }
      estimates := estimates + [Some(estimate)];
      accepted := accepted + [TimedEstimate(estimate, time)];
      assert accepted[..|accepted| - 1] == old(accepted);
      r := Pass;
    }

    /** finish: refused on a finished track; otherwise pads with missing markers up to
        `time - startTime` slots, appends no estimate and marks the track finished. */
    method Finish(time: int) returns (r: Outcome<TrackError>)
      requires Valid()
      modifies this
      ensures Valid() && accepted == old(accepted)
      ensures match FinishSpec(old(estimates), startTime, time, old(finished))
              case Ok(s) => r == Pass && estimates == s && finished
              case Err(e) => r == Fail(e) && estimates == old(estimates) && finished == old(finished)
    {
      if finished {
        return Fail(InvalidMutation);
      }
      var expectedLen := time - startTime;
      ghost var before := estimates;
      while |estimates| < expectedLen
        invariant !finished && accepted == old(accepted)
        invariant |before| <= |estimates|
        invariant |estimates| <= expectedLen || estimates == before
        invariant estimates == before + Missing(|estimates| - |before|)
      {
        estimates := estimates + [None];
      }
      finished := true;
      r := Pass;
    }
  }

  /** The add_estimate test: a track started at 10; estimates at 10, again at 10 (refused),
      at 11 and at 14 leave the slots [e, e, missing, missing, e]. */
  method AddEstimateScenario<E>(e: E)
    returns (first: Outcome<TrackError>, duplicate: Outcome<TrackError>, third: Outcome<TrackError>,
             fourth: Outcome<TrackError>, estimates: seq<Option<E>>)
    ensures first == Pass && third == Pass && fourth == Pass
    ensures duplicate == Fail(InvalidMutation)
    ensures estimates == [Some(e), Some(e), None, None, Some(e)]
  {
    var track := new Track<E>(1, 10);
    first := track.AddEstimate(e, 10);
    duplicate := track.AddEstimate(e, 10);
    third := track.AddEstimate(e, 11);
    fourth := track.AddEstimate(e, 14);
    estimates := track.estimates;
  }

  /** The finish test: a fresh track started at 10 is not finished; finish(13) leaves three
      missing slots and a finished track; a second finish(13) is refused. */
  method FinishScenario<E>()
    returns (before: bool, first: Outcome<TrackError>, after: bool, estimates: seq<Option<E>>, second: Outcome<TrackError>)
    ensures !before && first == Pass && after
    ensures estimates == [None, None, None]
    ensures second == Fail(InvalidMutation)
  {
    var track := new Track<E>(1, 10);
    before := track.IsFinished();
    first := track.Finish(13);
    after := track.IsFinished();
    estimates := track.estimates;
    second := track.Finish(13);
  }
}
