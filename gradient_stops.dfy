/**
 * Stop preparation for cached linear gradients: the per-primitive stop keys, built in the
 * template's order or mirrored when the template asks for reversed stops, and the synthetic
 * boundary stops that the clamp path adds outside the 0..1 range.
 */
module GradientStops {

  datatype Color = Color(r: real, g: real, b: real, a: real)

  /** A stop of the gradient template. */
  datatype GradientStop = GradientStop(offset: real, color: Color)

  /** A stop as it appears in a render-task cache key. */
  datatype GradientStopKey = GradientStopKey(offset: real, color: Color)

  /** `GradientStopKey::empty()`: the filler for unused key slots. */
  const EmptyKey: GradientStopKey := GradientStopKey(0.0, Color(0.0, 0.0, 0.0, 0.0))

  function ToKey(s: GradientStop): GradientStopKey {
    GradientStopKey(s.offset, s.color)
  }

  /** The stop seen from the other end of the gradient line. */
  function Mirror(s: GradientStop): GradientStop {
    GradientStop(1.0 - s.offset, s.color)
  }

  /** The template's stops read backwards from the other end: the slow path's reversal. */
  function Reversed(stops: seq<GradientStop>): (rs: seq<GradientStop>)
    ensures |rs| == |stops|
  {
    seq(|stops|, i requires 0 <= i < |stops| => Mirror(stops[|stops| - 1 - i]))
  }

  /** The keys the cache uses: the stops in order, or `Reversed` when `reverse` is set. */
  function StopKeys(stops: seq<GradientStop>, reverse: bool): (keys: seq<GradientStopKey>)
    ensures |keys| == |stops|
  {
    var src := if reverse then Reversed(stops) else stops;
    seq(|src|, i requires 0 <= i < |src| => ToKey(src[i]))
  }

  predicate Ascending(stops: seq<GradientStop>) {
    forall i, j :: 0 <= i < j < |stops| ==> stops[i].offset <= stops[j].offset
  }

  predicate AscendingKeys(keys: seq<GradientStopKey>) {
    forall i, j :: 0 <= i < j < |keys| ==> keys[i].offset <= keys[j].offset
  }

  predicate InUnitRange(stops: seq<GradientStop>) {
    forall i :: 0 <= i < |stops| ==> 0.0 <= stops[i].offset <= 1.0
  }

  /**
   * Fills a vector of `|stops|` empty keys, front to back, from the stops taken forwards or,
   * with `reverse`, backwards and mirrored.
   */
  method BuildStopKeys(stops: seq<GradientStop>, reverse: bool) returns (keys: seq<GradientStopKey>)
    ensures keys == StopKeys(stops, reverse)
    ensures reverse ==> forall i :: 0 <= i < |keys| ==>
      keys[i].offset == 1.0 - stops[|stops| - 1 - i].offset && keys[i].color == stops[|stops| - 1 - i].color
    ensures !reverse ==> forall i :: 0 <= i < |keys| ==>
      keys[i].offset == stops[i].offset && keys[i].color == stops[i].color
  {
    var n := |stops|;
    keys := seq(n, _ => EmptyKey);
    if reverse {
      for i := 0 to n
        invariant |keys| == n
        invariant forall j :: 0 <= j < i ==> keys[j] == ToKey(Mirror(stops[n - 1 - j]))
      {
        keys := keys[i := ToKey(Mirror(stops[n - 1 - i]))];
      }
    } else {
      for i := 0 to n
        invariant |keys| == n
        invariant forall j :: 0 <= j < i ==> keys[j] == ToKey(stops[j])
      {
        keys := keys[i := ToKey(stops[i])];
      }
    }
  }

  /** Reading the stops backwards twice gives the template back. */
  lemma {:induction false} ReversedInvolution(stops: seq<GradientStop>)
    ensures Reversed(Reversed(stops)) == stops
  {
    var rr := Reversed(Reversed(stops));
    forall i | 0 <= i < |stops|
      ensures rr[i] == stops[i]
    {
      var n := |stops|;
      var r := Reversed(stops);
      assert r[n - 1 - i] == Mirror(stops[n - 1 - (n - 1 - i)]) == Mirror(stops[i]);
      assert rr[i] == Mirror(r[n - 1 - i]);
    }
  }

  /** Reversal keeps a sorted stop list with offsets in 0..1 sorted and in 0..1. */
  lemma {:induction false} ReversedAscending(stops: seq<GradientStop>)
    requires Ascending(stops) && InUnitRange(stops)
    ensures Ascending(Reversed(stops)) && InUnitRange(Reversed(stops))
  {
    var n := |stops|;
    var rs := Reversed(stops);
    forall i | 0 <= i < n
      ensures 0.0 <= rs[i].offset <= 1.0
    {
      assert rs[i] == Mirror(stops[n - 1 - i]);
    }
    forall i, j | 0 <= i < j < n
      ensures rs[i].offset <= rs[j].offset
    {
      assert rs[i] == Mirror(stops[n - 1 - i]) && rs[j] == Mirror(stops[n - 1 - j]);
      assert stops[n - 1 - j].offset <= stops[n - 1 - i].offset;
    }
  }

  /** The keys of reversed stops are sorted whenever the template's stops are. */
  lemma {:induction false} StopKeysAscending(stops: seq<GradientStop>, reverse: bool)
    requires Ascending(stops) && InUnitRange(stops)
    ensures AscendingKeys(StopKeys(stops, reverse))
  {
    var src := if reverse then Reversed(stops) else stops;
    if reverse {
      ReversedAscending(stops);
    }
    var keys := StopKeys(stops, reverse);
    forall i, j | 0 <= i < j < |keys|
      ensures keys[i].offset <= keys[j].offset
    {
      assert keys[i] == ToKey(src[i]) && keys[j] == ToKey(src[j]);
    }
  }

  /**
   * The clamp path's boundary stops: a copy of the first colour at `primStartOffset` in front
   * when the primitive starts before offset 0, and a copy of the last colour at `primEndOffset`
   * behind when it ends after offset 1. The source indexes the first and last key for these,
   * so a list that needs one must not be empty.
   */
  function WithClampBoundaryStops(keys: seq<GradientStopKey>, primStartOffset: real, primEndOffset: real): (out: seq<GradientStopKey>)
    requires (primStartOffset < 0.0 || primEndOffset > 1.0) ==> |keys| > 0
    ensures var lo := if primStartOffset < 0.0 then 1 else 0;
      var hi := if primEndOffset > 1.0 then 1 else 0;
      && |out| == lo + |keys| + hi
      && out[lo..lo + |keys|] == keys
      && (primStartOffset < 0.0 ==> out[0] == GradientStopKey(primStartOffset, keys[0].color))
      && (primEndOffset > 1.0 ==> out[|out| - 1] == GradientStopKey(primEndOffset, keys[|keys| - 1].color))
  {
    var front := if primStartOffset < 0.0 then [GradientStopKey(primStartOffset, keys[0].color)] + keys else keys;
    if primEndOffset > 1.0 then front + [GradientStopKey(primEndOffset, front[|front| - 1].color)] else front
  }

  /**
   * Boundary stops keep a sorted key list in 0..1 sorted: the new stops lie below 0 and above 1.
   */
  lemma {:induction false} ClampBoundaryStopsAscending(keys: seq<GradientStopKey>, primStartOffset: real, primEndOffset: real)
    requires (primStartOffset < 0.0 || primEndOffset > 1.0) ==> |keys| > 0
    requires AscendingKeys(keys)
    requires forall i :: 0 <= i < |keys| ==> 0.0 <= keys[i].offset <= 1.0
    ensures AscendingKeys(WithClampBoundaryStops(keys, primStartOffset, primEndOffset))
  {
    var out := WithClampBoundaryStops(keys, primStartOffset, primEndOffset);
    var lo := if primStartOffset < 0.0 then 1 else 0;
    forall i, j | 0 <= i < j < |out|
      ensures out[i].offset <= out[j].offset
    {
      assert out[lo..lo + |keys|] == keys;
      if i < lo {
        if j < lo + |keys| {
          assert out[j] == keys[j - lo];
        }
      } else if j < lo + |keys| {
        assert out[i] == keys[i - lo] && out[j] == keys[j - lo];
      } else {
        assert out[i] == keys[i - lo];
      }
    }
  }
}
