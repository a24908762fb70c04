/**
 * The stop-run decomposition inside `emit_segments`: the stop list is cut into inclusive runs
 * `[first, last]` of at most `GradientFpStops` stops, ending early at a hard stop (two
 * adjacent stops at one offset). A run that ends at a hard stop is followed by the run that
 * starts just after it; any other run shares its last stop with the next run.
 */
module GradientRuns {
  import opened GradientStops

  /** The most stops a cached gradient segment can interpolate (GRADIENT_FP_STOPS). */
  const GradientFpStops: nat := 4

  datatype Run = Run(first: nat, last: nat, hardStop: bool)

  /**
   * The inner scan: extend `last` while there is a next stop and the run holds fewer than
   * `GradientFpStops` stops, stopping with `hardStop` when the next stop has the same offset.
   */
  function ScanRun(stops: seq<GradientStopKey>, first: nat, last: nat): Run
    requires first <= last < |stops|
    decreases |stops| - last
  {
    if last < |stops| - 1 && last - first + 1 < GradientFpStops then
      if stops[last + 1].offset == stops[last].offset then Run(first, last, true)
      else ScanRun(stops, first, last + 1)
    else Run(first, last, false)
  }

  function RunFrom(stops: seq<GradientStopKey>, first: nat): Run
    requires first < |stops|
  {
    ScanRun(stops, first, first)
  }

  /** Where the next run starts: past a hard stop, otherwise on the run's own last stop. */
  function NextFirst(r: Run): nat {
    if r.hardStop then r.last + 1 else r.last
  }

  /** The shape every run has, whatever the stop list. */
  predicate WellFormedRun(stops: seq<GradientStopKey>, r: Run) {
    && r.first <= r.last < |stops|
    && r.last - r.first + 1 <= GradientFpStops
    // no hard stop strictly inside a run
    && (forall k :: r.first <= k < r.last ==> stops[k].offset != stops[k + 1].offset)
    // a run ends at a hard stop exactly when it holds fewer than GRADIENT_FP_STOPS stops and
    // the following stop shares its offset
    && (r.hardStop <==> (r.last < |stops| - 1 && stops[r.last + 1].offset == stops[r.last].offset
                         && r.last - r.first + 1 < GradientFpStops))
    // a run not ended by a hard stop is as long as it can be
    && (!r.hardStop ==> r.last == |stops| - 1 || r.last - r.first + 1 == GradientFpStops)
  }

  lemma {:induction false} ScanRunShape(stops: seq<GradientStopKey>, first: nat, last: nat)
    requires first <= last < |stops|
    requires last - first + 1 <= GradientFpStops
    requires forall k :: first <= k < last ==> stops[k].offset != stops[k + 1].offset
    ensures ScanRun(stops, first, last).first == first
    ensures last <= ScanRun(stops, first, last).last
    ensures WellFormedRun(stops, ScanRun(stops, first, last))
    decreases |stops| - last
  {
    if last < |stops| - 1 && last - first + 1 < GradientFpStops {
      if stops[last + 1].offset != stops[last].offset {
        ScanRunShape(stops, first, last + 1);
      }
    }
  }

  /**
   * Every run that the outer loop scans holds between one and `GradientFpStops` stops, has no
   * hard stop inside it, and moves the next run's start strictly forwards without passing the
   * final stop; the next run starts at a stop with the same offset as this run's last stop.
   * So the `num_stops == 0` branch of the source never runs and the outer loop terminates.
   */
  lemma {:induction false} RunShape(stops: seq<GradientStopKey>, first: nat)
    requires first < |stops| - 1
    ensures var r := RunFrom(stops, first);
      && r.first == first
      && WellFormedRun(stops, r)
      && 1 <= r.last - r.first + 1 <= GradientFpStops
      && first < NextFirst(r) <= |stops| - 1
      && stops[NextFirst(r)].offset == stops[r.last].offset
  {
    ScanRunShape(stops, first, first);
  }

  /** Two equal offsets right after the first stop give a two-stop run ended by a hard stop. */
  lemma {:induction false} HardStopRunExample(c0: Color, c1: Color, c2: Color, c3: Color)
    ensures var stops := [GradientStopKey(0.0, c0), GradientStopKey(0.5, c1), GradientStopKey(0.5, c2), GradientStopKey(1.0, c3)];
      && RunFrom(stops, 0) == Run(0, 1, true)
      && RunFrom(stops, 2) == Run(2, 3, false)
  {
    var stops := [GradientStopKey(0.0, c0), GradientStopKey(0.5, c1), GradientStopKey(0.5, c2), GradientStopKey(1.0, c3)];
    assert ScanRun(stops, 0, 0) == ScanRun(stops, 0, 1);
    assert ScanRun(stops, 2, 2) == ScanRun(stops, 2, 3);
  }

  /** Six distinct stops make a run of four and a run of three sharing the fourth stop. */
  lemma {:induction false} LongRunExample(c: Color)
    ensures var stops := seq(6, i => GradientStopKey(i as real / 5.0, c));
      && RunFrom(stops, 0) == Run(0, 3, false)
      && RunFrom(stops, 3) == Run(3, 5, false)
  {
    var stops := seq(6, i => GradientStopKey(i as real / 5.0, c));
    assert stops[0].offset != stops[1].offset && stops[1].offset != stops[2].offset;
    assert stops[2].offset != stops[3].offset && stops[3].offset != stops[4].offset;
    assert stops[4].offset != stops[5].offset;
    assert ScanRun(stops, 0, 0) == ScanRun(stops, 0, 1) == ScanRun(stops, 0, 2) == ScanRun(stops, 0, 3);
    assert ScanRun(stops, 3, 3) == ScanRun(stops, 3, 4) == ScanRun(stops, 3, 5);
  }

  /**
   * The runs the outer loop of `emit_segments` visits from `first`: it stops once `first` is on
   * the final stop or the stop at `first` lies past `endOffset`.
   */
  function VisitedRuns(stops: seq<GradientStopKey>, first: nat, endOffset: real): (rs: seq<Run>)
    decreases |stops| - first
  {
    if first + 1 >= |stops| || stops[first].offset > endOffset then []
    else
      var r := RunFrom(stops, first);
      RunShape(stops, first);
      [r] + VisitedRuns(stops, NextFirst(r), endOffset)
  }

  /**
   * The visited runs form a chain: each is well formed, starts where the previous one said
   * the next should start, starts at a stop no later than `endOffset`, and there are fewer
   * of them than stops.
   */
  lemma {:induction false} VisitedRunsChain(stops: seq<GradientStopKey>, first: nat, endOffset: real)
    requires first < |stops|
    ensures var rs := VisitedRuns(stops, first, endOffset);
      && |rs| <= |stops| - first
      && (forall i :: 0 <= i < |rs| ==> WellFormedRun(stops, rs[i]) && stops[rs[i].first].offset <= endOffset)
      && (|rs| > 0 ==> rs[0].first == first)
      && (forall i :: 0 <= i < |rs| - 1 ==> rs[i + 1].first == NextFirst(rs[i]) && rs[i].first < rs[i + 1].first)
  {
    VisitedRunsWellFormed(stops, first, endOffset);
    VisitedRunsLinked(stops, first, endOffset);
  }

  /** Every visited run is well formed and starts at or before `endOffset`. */
  lemma {:induction false} VisitedRunsWellFormed(stops: seq<GradientStopKey>, first: nat, endOffset: real)
    requires first < |stops|
    ensures var rs := VisitedRuns(stops, first, endOffset);
      && |rs| <= |stops| - first
      && (forall i :: 0 <= i < |rs| ==> WellFormedRun(stops, rs[i]) && stops[rs[i].first].offset <= endOffset)
      && (|rs| > 0 ==> rs[0].first == first)
    decreases |stops| - first
  {
    if first + 1 >= |stops| || stops[first].offset > endOffset {
    } else {
      var r := RunFrom(stops, first);
      RunShape(stops, first);
      VisitedRunsWellFormed(stops, NextFirst(r), endOffset);
      var rest := VisitedRuns(stops, NextFirst(r), endOffset);
      var rs := VisitedRuns(stops, first, endOffset);
      assert rs == [r] + rest;
      forall i | 0 <= i < |rs|
        ensures WellFormedRun(stops, rs[i]) && stops[rs[i].first].offset <= endOffset
      {
        if i > 0 {
          assert rs[i] == rest[i - 1];
        }
      }
    }
  }

  /** Each visited run after the first starts where its predecessor hands over. */
  lemma {:induction false} VisitedRunsLinked(stops: seq<GradientStopKey>, first: nat, endOffset: real)
    requires first < |stops|
    ensures var rs := VisitedRuns(stops, first, endOffset);
      && (|rs| > 0 ==> rs[0].first == first)
      && (forall i :: 0 <= i < |rs| - 1 ==> rs[i + 1].first == NextFirst(rs[i]) && rs[i].first < rs[i + 1].first)
    decreases |stops| - first
  {
    if first + 1 >= |stops| || stops[first].offset > endOffset {
    } else {
      var r := RunFrom(stops, first);
      RunShape(stops, first);
      VisitedRunsLinked(stops, NextFirst(r), endOffset);
      var rest := VisitedRuns(stops, NextFirst(r), endOffset);
      var rs := VisitedRuns(stops, first, endOffset);
      assert rs == [r] + rest;
      forall i | 0 <= i < |rs| - 1
        ensures rs[i + 1].first == NextFirst(rs[i]) && rs[i].first < rs[i + 1].first
      {
        if i == 0 {
          assert rs[1] == rest[0];
        } else {
          assert rs[i] == rest[i - 1] && rs[i + 1] == rest[i];
        }
      }
    }
  }

  /** Every stop before the final one and at or before `endOffset` is inside some visited run. */
  lemma {:induction false} VisitedRunsCover(stops: seq<GradientStopKey>, first: nat, endOffset: real, k: nat)
    requires first <= k < |stops| - 1
    requires forall j :: first <= j <= k ==> stops[j].offset <= endOffset
    ensures exists i :: (0 <= i < |VisitedRuns(stops, first, endOffset)|
      && VisitedRuns(stops, first, endOffset)[i].first <= k <= VisitedRuns(stops, first, endOffset)[i].last + 1)
    decreases |stops| - first
  {
    var r := RunFrom(stops, first);
    RunShape(stops, first);
    var rs := VisitedRuns(stops, first, endOffset);
    assert rs[0] == r;
    if k <= r.last + 1 {
      assert rs[0].first <= k <= rs[0].last + 1;
    } else {
      VisitedRunsCover(stops, NextFirst(r), endOffset, k);
      var rest := VisitedRuns(stops, NextFirst(r), endOffset);
      assert rs == [r] + rest;
      var i :| 0 <= i < |rest| && rest[i].first <= k <= rest[i].last + 1;
      assert rs[i + 1] == rest[i];
    }
  }
}
