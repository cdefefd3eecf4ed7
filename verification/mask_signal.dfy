/** The mask-based `_generate_signal` of the integration example: five
    boolean masks assigned in order onto an initially empty label series,
    later assignments overwriting earlier ones. */
module MaskSignal {
  import opened Wrappers
  import opened CustomMetrics

  /** One mask: values strictly above `above` (if any) and at or below
      `atMost` (if any) receive `signal`. */
  datatype Mask = Mask(above: Option<real>, atMost: Option<real>, signal: Signal)

  /** Whether a mask selects a value; every comparison with a missing value
      (NaN) is false, so no mask selects it. */
  predicate Selects(m: Mask, value: Option<real>) {
    && value.Some?
    && (m.above.None? || value.value > m.above.value)
    && (m.atMost.None? || value.value <= m.atMost.value)
  }

  /** The five masks in the order the source assigns them. */
  function Masks(t: Thresholds): (ms: seq<Mask>)
    ensures |ms| == 5
  {
    [ Mask(None, Some(t.t1), StrongBearish),
      Mask(Some(t.t1), Some(t.t2), Bearish),
      Mask(Some(t.t2), Some(t.t3), Bullish),
      Mask(Some(t.t3), Some(t.t4), StrongBullish),
      Mask(Some(t.t4), None, StrongBullish) ]
  }

  /** Sequential masked assignment: each selecting mask overwrites the
      current label. */
  function Assign(masks: seq<Mask>, value: Option<real>, current: Option<Signal>): Option<Signal>
    decreases |masks|
  {
    if |masks| == 0 then current
    else Assign(masks[1..], value, if Selects(masks[0], value) then Some(masks[0].signal) else current)
  }

  /** Reference reading of overwriting: the label of the last mask that
      selects the value, if any does. */
  function LastSelecting(masks: seq<Mask>, value: Option<real>): Option<Signal>
    decreases |masks|
  {
    if |masks| == 0 then None
    else if Selects(masks[|masks| - 1], value) then Some(masks[|masks| - 1].signal)
    else LastSelecting(masks[..|masks| - 1], value)
  }

  lemma {:induction false} LastSelectingCons(m: Mask, rest: seq<Mask>, value: Option<real>)
    ensures LastSelecting([m] + rest, value)
         == if LastSelecting(rest, value).Some? then LastSelecting(rest, value)
            else if Selects(m, value) then Some(m.signal) else None
    decreases |rest|
  {
    if |rest| > 0 {
      var ms := [m] + rest;
      assert ms[|ms| - 1] == rest[|rest| - 1];
      assert ms[..|ms| - 1] == [m] + rest[..|rest| - 1];
      LastSelectingCons(m, rest[..|rest| - 1], value);
    }
  }

  /** Assigning masks in order leaves the label of the last selecting mask,
      or the initial label when none selects. */
  lemma {:induction false} AssignIsLastSelecting(masks: seq<Mask>, value: Option<real>, current: Option<Signal>)
    ensures Assign(masks, value, current)
         == if LastSelecting(masks, value).Some? then LastSelecting(masks, value) else current
    decreases |masks|
  {
    if |masks| > 0 {
      var next := if Selects(masks[0], value) then Some(masks[0].signal) else current;
      AssignIsLastSelecting(masks[1..], value, next);
      assert masks == [masks[0]] + masks[1..];
      LastSelectingCons(masks[0], masks[1..], value);
    }
  }

  /** The label of one value under the mask rule; `None` is the label left
      unassigned (NaN). */
  function MaskSignal(value: Option<real>, t: Thresholds): (r: Option<Signal>)
    ensures r != Some(InsufficientData)
    ensures value.None? ==> r.None?
    ensures value.Some? && value.value > t.t3 ==> r == Some(StrongBullish)
    ensures Ordered(t) && value.Some? ==>
      && (value.value <= t.t1 ==> r == Some(StrongBearish))
      && (t.t1 < value.value <= t.t2 ==> r == Some(Bearish))
      && (t.t2 < value.value <= t.t3 ==> r == Some(Bullish))
  {
    match value
    case None => None
    case Some(v) =>
      var s1 := if v <= t.t1 then Some(StrongBearish) else None;
      var s2 := if t.t1 < v <= t.t2 then Some(Bearish) else s1;
      var s3 := if t.t2 < v <= t.t3 then Some(Bullish) else s2;
      var s4 := if t.t3 < v <= t.t4 then Some(StrongBullish) else s3;
      if v > t.t4 then Some(StrongBullish) else s4
  }

  /** The five assignments are the masks of `Masks` applied in order. */
  lemma MaskSignalIsAssign(value: Option<real>, t: Thresholds)
    ensures MaskSignal(value, t) == Assign(Masks(t), value, None)
  {
    var ms := Masks(t);
    var c1 := if Selects(ms[0], value) then Some(ms[0].signal) else None;
    var c2 := if Selects(ms[1], value) then Some(ms[1].signal) else c1;
    var c3 := if Selects(ms[2], value) then Some(ms[2].signal) else c2;
    var c4 := if Selects(ms[3], value) then Some(ms[3].signal) else c3;
    var c5 := if Selects(ms[4], value) then Some(ms[4].signal) else c4;
    assert Assign(ms, value, None) == Assign(ms[1..], value, c1);
    assert Assign(ms[1..], value, c1) == Assign(ms[2..], value, c2) by { assert ms[1..][1..] == ms[2..]; }
    assert Assign(ms[2..], value, c2) == Assign(ms[3..], value, c3) by { assert ms[2..][1..] == ms[3..]; }
    assert Assign(ms[3..], value, c3) == Assign(ms[4..], value, c4) by { assert ms[3..][1..] == ms[4..]; }
    assert Assign(ms[4..], value, c4) == Assign(ms[5..], value, c5) by { assert ms[4..][1..] == ms[5..]; }
    assert ms[5..] == [];
  }

  /** Whatever the thresholds, the final label is that of the last mask in
      source order that selects the value. */
  lemma LastMaskWins(value: Option<real>, t: Thresholds)
    ensures MaskSignal(value, t) == LastSelecting(Masks(t), value)
  {
    MaskSignalIsAssign(value, t);
    AssignIsLastSelecting(Masks(t), value, None);
  }

  /** With ordered thresholds the masks are disjoint and cover every present
      value: exactly one selects it. */
  lemma MasksPartition(value: real, t: Thresholds)
    requires Ordered(t)
    ensures exists k :: 0 <= k < 5 && Selects(Masks(t)[k], Some(value))
    ensures forall k, k' ::
              (0 <= k < 5 && 0 <= k' < 5 && Selects(Masks(t)[k], Some(value)) && Selects(Masks(t)[k'], Some(value)))
              ==> k == k'
  {
    var ms := Masks(t);
    if value <= t.t1 { assert Selects(ms[0], Some(value)); }
    else if value <= t.t2 { assert Selects(ms[1], Some(value)); }
    else if value <= t.t3 { assert Selects(ms[2], Some(value)); }
    else if value <= t.t4 { assert Selects(ms[3], Some(value)); }
    else { assert Selects(ms[4], Some(value)); }
  }

  /** Values above t4 collapse into the (t3, t4] bucket: as long as t4 does
      not fall below t3, its value does not matter. */
  lemma MaskIgnoresFourth(value: Option<real>, t: Thresholds, other: real)
    requires t.t3 <= t.t4 && t.t3 <= other
    ensures MaskSignal(value, t) == MaskSignal(value, t.(t4 := other))
  {
  }

  /** Both rules agree away from their cut points: the cascade with
      (a, _, c, d) and the masks with (a, c, d, e) label every value other
      than c and d alike. */
  lemma AgreesWithCascade(v: real, a: real, b: real, c: real, d: real, e: real)
    requires a <= c <= d <= e
    requires v != c && v != d
    ensures MaskSignal(Some(v), Thresholds(a, c, d, e)) == Some(CascadeSignal(Some(v), Thresholds(a, b, c, d)))
  {
  }

  /** ... and disagree on the cut points themselves, which the cascade
      includes in the upper bucket and the masks in the lower one. */
  lemma DisagreesOnCutPoints(a: real, b: real, c: real, d: real, e: real)
    requires a < c < d <= e
    ensures CascadeSignal(Some(c), Thresholds(a, b, c, d)) == Bullish
    ensures MaskSignal(Some(c), Thresholds(a, c, d, e)) == Some(Bearish)
    ensures CascadeSignal(Some(d), Thresholds(a, b, c, d)) == StrongBullish
    ensures MaskSignal(Some(d), Thresholds(a, c, d, e)) == Some(Bullish)
  {
  }

  /** The normalised VIX thresholds (30, 50, 70, 85) and the raw VIX
      thresholds (12, 15, 20, 30). */
  lemma VixThresholdExamples(v: real)
    ensures var t := Thresholds(30.0, 50.0, 70.0, 85.0);
            && MaskSignal(Some(30.0), t) == Some(StrongBearish)
            && MaskSignal(Some(50.0), t) == Some(Bearish)
            && MaskSignal(Some(70.0), t) == Some(Bullish)
            && (v > 70.0 ==> MaskSignal(Some(v), t) == Some(StrongBullish))
    ensures var t := Thresholds(12.0, 15.0, 20.0, 30.0);
            && MaskSignal(Some(12.0), t) == Some(StrongBearish)
            && MaskSignal(Some(15.0), t) == Some(Bearish)
            && MaskSignal(Some(20.0), t) == Some(Bullish)
            && (v > 20.0 ==> MaskSignal(Some(v), t) == Some(StrongBullish))
  {
  }

  /** The label series: same length as the input, missing exactly where the
      input is missing when the thresholds are ordered. */
  function MaskSignals(values: seq<Option<real>>, t: Thresholds): (r: seq<Option<Signal>>)
    ensures |r| == |values|
    ensures forall i :: 0 <= i < |values| && values[i].None? ==> r[i].None?
    ensures Ordered(t) ==> forall i :: 0 <= i < |values| ==> (r[i].Some? <==> values[i].Some?)
    ensures forall i :: 0 <= i < |values| ==> r[i] == MaskSignal(values[i], t)
  {
    seq(|values|, i requires 0 <= i < |values| => MaskSignal(values[i], t))
  }
}
