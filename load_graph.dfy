/**
 * The load-profile graph editor: the mapping between control points and canvas
 * pixels, the hit test, snapping of the pointer position to the time grid, the
 * drag rules, phase classification and the pointer state machine that turns
 * mouse events into add/update/delete events for the page.
 */
module LoadGraph {
  import opened Wrappers
  import opened JsMath
  import opened Text
  import opened LoadModels

  /** Distance, in pixels, within which a pointer position hits a control point. */
  const HitRadius: real := 20.0

  /** The plot rectangle inside the canvas: its left and top padding and its size. */
  datatype Geometry = Geometry(left: real, top: real, chartWidth: real, chartHeight: real)

  predicate ValidGeometry(g: Geometry) {
    g.chartWidth > 0.0 && g.chartHeight > 0.0
  }

  /** The plot inside a canvas: 60 pixels of padding on the left, 40 on top and right, 60 at the bottom. */
  function PlotGeometry(canvasWidth: real, canvasHeight: real): (g: Geometry)
    ensures g.left == 60.0 && g.left + g.chartWidth == canvasWidth - 40.0
    ensures g.top == 40.0 && g.top + g.chartHeight == canvasHeight - 60.0
    ensures ValidGeometry(g) <==> canvasWidth > 100.0 && canvasHeight > 100.0
  {
    Geometry(60.0, 40.0, canvasWidth - 60.0 - 40.0, canvasHeight - 40.0 - 60.0)
  }

  datatype Position = Position(x: real, y: real)

  /** What a pixel computation reads: the plot geometry and the `maxVUs` and `totalDuration` inputs. */
  datatype View = View(geometry: Geometry, maxVUs: real, duration: real)

  /**
   * Both scale divisors are non-zero. Otherwise the source divides by zero, every
   * pixel coordinate is NaN or infinite and no distance is below the hit radius.
   */
  predicate Finite(v: View) {
    v.duration != 0.0 && v.maxVUs != 0.0
  }

  /** Domain to pixels: time runs left to right across the plot, VUs bottom to top. */
  function ToPixel(v: View, p: ControlPoint): Position
    requires Finite(v)
  {
    var g := v.geometry;
    Position(g.left + p.time / v.duration * g.chartWidth,
             g.top + g.chartHeight - p.vus / v.maxVUs * g.chartHeight)
  }

  /** Pixels to domain, before clamping: the time under horizontal position `x`. */
  function RawTime(v: View, x: real): real
    requires ValidGeometry(v.geometry)
  {
    (x - v.geometry.left) / v.geometry.chartWidth * v.duration
  }

  /** Pixels to domain, before clamping: the VUs under vertical position `y`. */
  function RawVus(v: View, y: real): real
    requires ValidGeometry(v.geometry)
  {
    (v.geometry.top + v.geometry.chartHeight - y) / v.geometry.chartHeight * v.maxVUs
  }

  lemma ScaleBack(a: real, d: real, w: real)
    requires d != 0.0 && w > 0.0
    ensures (a / d * w) / w * d == a
  {
    var u := a / d;
    assert u * d == a;
    assert (u * w) / w == u;
  }

  /** Mapping a point to pixels and back gives the point again. */
  lemma PixelRoundTrip(v: View, p: ControlPoint)
    requires Finite(v) && ValidGeometry(v.geometry)
    ensures RawTime(v, ToPixel(v, p).x) == p.time
    ensures RawVus(v, ToPixel(v, p).y) == p.vus
  {
    var g := v.geometry;
    var q := ToPixel(v, p);
    assert q.x - g.left == p.time / v.duration * g.chartWidth;
    ScaleBack(p.time, v.duration, g.chartWidth);
    assert g.top + g.chartHeight - q.y == p.vus / v.maxVUs * g.chartHeight;
    ScaleBack(p.vus, v.maxVUs, g.chartHeight);
  }

  /** Squared pixel distance from (x, y) to the point (the source compares square roots). */
  function Dist2(v: View, p: ControlPoint, x: real, y: real): (r: real)
    requires Finite(v)
    ensures r >= 0.0
  {
    var q := ToPixel(v, p);
    (x - q.x) * (x - q.x) + (y - q.y) * (y - q.y)
  }

  /** (x, y) lies strictly within the hit radius of the point. */
  predicate Hits(v: View, p: ControlPoint, x: real, y: real) {
    Finite(v) && Dist2(v, p, x, y) < HitRadius * HitRadius
  }

  /**
   * `r` is the answer of the hit test: the index of the closest point strictly
   * within the hit radius, the earliest one on a tie, or none when no point is that close.
   */
  predicate IsHitResult(points: seq<ControlPoint>, v: View, x: real, y: real, r: Option<nat>) {
    match r
    case None => forall j :: 0 <= j < |points| ==> !Hits(v, points[j], x, y)
    case Some(i) =>
      i < |points| && Hits(v, points[i], x, y)
      && (forall j :: 0 <= j < |points| ==> Dist2(v, points[i], x, y) <= Dist2(v, points[j], x, y))
      && (forall j :: 0 <= j < i ==> Dist2(v, points[i], x, y) < Dist2(v, points[j], x, y))
  }

  /** The hit test has exactly one answer. */
  lemma HitResultUnique(points: seq<ControlPoint>, v: View, x: real, y: real, r1: Option<nat>, r2: Option<nat>)
    requires IsHitResult(points, v, x, y, r1) && IsHitResult(points, v, x, y, r2)
    ensures r1 == r2
  {
    if r1.Some? && r2.Some? {
      var i, j := r1.value, r2.value;
      assert Dist2(v, points[i], x, y) == Dist2(v, points[j], x, y);
    }
  }

  /** `findPointAtPosition`: one pass keeping the closest hit seen so far. */
  method FindPointAtPosition(points: seq<ControlPoint>, v: View, x: real, y: real) returns (idx: Option<nat>)
    ensures IsHitResult(points, v, x, y, idx)
  {
    idx := None;
    var closest := HitRadius * HitRadius;
    var i := 0;
    while i < |points|
      invariant 0 <= i <= |points|
      invariant idx.None? ==> closest == HitRadius * HitRadius
      invariant idx.None? ==> forall j :: 0 <= j < i ==> !Hits(v, points[j], x, y)
      invariant idx.Some? ==> idx.value < i && Hits(v, points[idx.value], x, y)
      invariant idx.Some? ==> closest == Dist2(v, points[idx.value], x, y)
      invariant idx.Some? ==> forall j :: 0 <= j < i ==> closest <= Dist2(v, points[j], x, y)
      invariant idx.Some? ==> forall j :: 0 <= j < idx.value ==> closest < Dist2(v, points[j], x, y)
    {
      if Finite(v) {
        var distance := Dist2(v, points[i], x, y);
        if distance < closest {
          closest := distance;
          idx := Some(i);
        }
      }
      i := i + 1;
    }
  }

  /** The snapping grid: 5 minutes beyond an hour, 1 minute beyond ten minutes, else 0.2 minutes. */
  function TimeStep(duration: real): (r: real)
    ensures r > 0.0
    ensures duration > 60.0 ==> r == 5.0
    ensures 10.0 < duration <= 60.0 ==> r == 1.0
    ensures duration <= 10.0 ==> r == 0.2
  {
    if duration > 60.0 then 5.0 else if duration > 10.0 then 1.0 else 0.2
  }

  /** `x` is a whole multiple of `step`. */
  predicate IsMultiple(x: real, step: real)
    requires step > 0.0
  {
    (x / step).Floor as real == x / step
  }

  lemma CancelMul(k: real, s: real)
    requires s > 0.0
    ensures (k * s) / s == k
  {
    var z := (k * s) / s;
    assert z * s == k * s;
    if z < k {
      MulLeftStrict(s, z, k);
    } else if z > k {
      MulLeftStrict(s, k, z);
    }
  }

  lemma SnapBounds(t: real, step: real, n: int)
    requires step > 0.0
    requires n as real <= t / step + 0.5 < n as real + 1.0
    ensures t - step / 2.0 < n as real * step <= t + step / 2.0
    ensures t >= 0.0 ==> n as real * step >= 0.0
  {
    var k := n as real;
    var q := t / step;
    assert step * q == t;
    MulLeftStrict(step, q - 0.5, k);
    MulLeft(step, k, q + 0.5);
    calc {
      t - step / 2.0;
      == step * (q - 0.5);
      < step * k;
      == k * step;
    }
    calc {
      k * step;
      == step * k;
      <= step * (q + 0.5);
      == t + step / 2.0;
    }
    if t >= 0.0 {
      MulLeft(step, 0.0, q);
    }
  }

  /** `Math.round(t / step) * step`: the nearest grid line, halves rounded up. */
  function SnapToStep(t: real, step: real): (r: real)
    requires step > 0.0
    ensures IsMultiple(r, step)
    ensures t - step / 2.0 < r <= t + step / 2.0
    ensures t >= 0.0 ==> r >= 0.0
  {
    var k := Round(t / step) as real;
    CancelMul(k, step);
    SnapBounds(t, step, Round(t / step));
    k * step
  }

  /** Time under the pointer, clamped to [0, duration]. */
  function ClampedTime(v: View, x: real): (r: real)
    requires ValidGeometry(v.geometry)
    ensures r >= 0.0
    ensures v.duration >= 0.0 ==> r <= v.duration
    ensures 0.0 <= RawTime(v, x) <= v.duration ==> r == RawTime(v, x)
  {
    Max(0.0, Min(v.duration, RawTime(v, x)))
  }

  /** VUs under the pointer, clamped to [0, maxVUs]. */
  function ClampedVus(v: View, y: real): (r: real)
    requires ValidGeometry(v.geometry)
    ensures r >= 0.0
    ensures v.maxVUs >= 0.0 ==> r <= v.maxVUs
    ensures 0.0 <= RawVus(v, y) <= v.maxVUs ==> r == RawVus(v, y)
  {
    Max(0.0, Min(v.maxVUs, RawVus(v, y)))
  }

  /**
   * The point under the pointer as the editor proposes it: the clamped time snapped
   * to the time step, the clamped VUs rounded to a whole number.
   */
  function CursorPoint(v: View, x: real, y: real): (r: ControlPoint)
    requires ValidGeometry(v.geometry)
    ensures r.time >= 0.0 && IsMultiple(r.time, TimeStep(v.duration))
    ensures ClampedTime(v, x) - TimeStep(v.duration) / 2.0 < r.time <= ClampedTime(v, x) + TimeStep(v.duration) / 2.0
    ensures r.vus >= 0.0 && r.vus.Floor as real == r.vus
    ensures ClampedVus(v, y) - 0.5 < r.vus <= ClampedVus(v, y) + 0.5
  {
    ControlPoint(SnapToStep(ClampedTime(v, x), TimeStep(v.duration)), Round(ClampedVus(v, y)) as real)
  }

  predicate InsidePlot(g: Geometry, x: real, y: real) {
    !(x < g.left || x > g.left + g.chartWidth || y < g.top || y > g.top + g.chartHeight)
  }

  /** The preview dot: shown only in edit mode with the pointer inside the plot rectangle. */
  function PreviewPoint(isEditMode: bool, v: View, x: real, y: real): (r: Option<ControlPoint>)
    requires ValidGeometry(v.geometry)
    ensures r.Some? <==> isEditMode && InsidePlot(v.geometry, x, y)
    ensures r.Some? ==> r.value == CursorPoint(v, x, y)
  {
    if !isEditMode then None
    else if !InsidePlot(v.geometry, x, y) then None
    else Some(CursorPoint(v, x, y))
  }

  /** The point a click adds: in edit mode, wherever the pointer is (no plot-rectangle check). */
  function AddPointAtPosition(isEditMode: bool, v: View, x: real, y: real): (r: Option<ControlPoint>)
    requires ValidGeometry(v.geometry)
    ensures r.Some? <==> isEditMode
    ensures r.Some? ==> r.value == CursorPoint(v, x, y)
  {
    if !isEditMode then None else Some(CursorPoint(v, x, y))
  }

  /**
   * Where a dragged point goes: the cursor point, with the first point pinned to
   * time 0, the last pinned to the duration, and an interior point pushed one time
   * step off a neighbour it would reach or pass.
   */
  function UpdatePointPosition(points: seq<ControlPoint>, v: View, index: nat, x: real, y: real): (r: ControlPoint)
    requires ValidGeometry(v.geometry)
    ensures r.vus == CursorPoint(v, x, y).vus
    ensures index == 0 && |points| != 1 ==> r.time == 0.0
    ensures index == |points| - 1 ==> r.time == v.duration
    ensures 0 < index && index >= |points| ==> r == CursorPoint(v, x, y)
    ensures 0 < index < |points| - 1 ==>
      var c, step := CursorPoint(v, x, y).time, TimeStep(v.duration);
      var prev, next := points[index - 1].time, points[index + 1].time;
      (c <= prev && prev + step < next ==> r.time == prev + step)
      && (prev < c < next ==> r.time == c)
      && (c >= next || (c <= prev && prev + step >= next) ==> r.time == next - step)
  {
    var cursor := CursorPoint(v, x, y);
    var step := TimeStep(v.duration);
    var pinnedFirst := if index == 0 then 0.0 else cursor.time;
    var pinned := if index == |points| - 1 then v.duration else pinnedFirst;
    var time :=
      if 0 < index < |points| - 1 then
        var prev, next := points[index - 1].time, points[index + 1].time;
        var afterPrev := if pinned <= prev then prev + step else pinned;
        if afterPrev >= next then next - step else afterPrev
      else pinned;
    ControlPoint(time, cursor.vus)
  }

  /** With room for two steps between its neighbours, a dragged interior point stays strictly between them. */
  lemma UpdateStaysBetween(points: seq<ControlPoint>, v: View, index: nat, x: real, y: real)
    requires ValidGeometry(v.geometry)
    requires 0 < index < |points| - 1
    requires points[index + 1].time - points[index - 1].time >= 2.0 * TimeStep(v.duration)
    ensures points[index - 1].time < UpdatePointPosition(points, v, index, x, y).time < points[index + 1].time
  {
  }

  /** A cursor already strictly between the neighbours is not pushed. */
  lemma UpdateKeepsFreeCursor(points: seq<ControlPoint>, v: View, index: nat, x: real, y: real)
    requires ValidGeometry(v.geometry)
    requires 0 < index < |points| - 1
    requires points[index - 1].time < CursorPoint(v, x, y).time < points[index + 1].time
    ensures UpdatePointPosition(points, v, index, x, y) == CursorPoint(v, x, y)
  {
  }

  /** With neighbours one step apart, dragging the point between them lands it on its left neighbour. */
  lemma UpdateNarrowGap()
    ensures var points := [ControlPoint(0.0, 0.0), ControlPoint(0.1, 5.0), ControlPoint(0.2, 0.0)];
      var v := View(Geometry(60.0, 40.0, 700.0, 300.0), 10.0, 10.0);
      UpdatePointPosition(points, v, 1, 60.0, 340.0).time == points[0].time
  {
    var v := View(Geometry(60.0, 40.0, 700.0, 300.0), 10.0, 10.0);
    assert ClampedTime(v, 60.0) == 0.0;
    assert Round(0.0 / 0.2) == 0;
  }

  datatype PhaseKind = Steady | RampUp | RampDown

  /** One background band of the k6 phase overlay. */
  datatype Phase = Phase(start: real, end: real, kind: PhaseKind)

  /** A segment is steady when its VUs change by less than one, else a ramp in the direction of change. */
  function PhaseKindOf(curr: ControlPoint, next: ControlPoint): (k: PhaseKind)
    ensures k == Steady <==> -1.0 < next.vus - curr.vus < 1.0
    ensures k == RampUp <==> next.vus - curr.vus >= 1.0
    ensures k == RampDown <==> next.vus - curr.vus <= -1.0
  {
    var change := next.vus - curr.vus;
    if (if change < 0.0 then -change else change) < 1.0 then Steady
    else if change > 0.0 then RampUp
    else RampDown
  }

  /** The phase loop of `drawK6Phases`: one phase per segment, in order. */
  method ClassifyPhases(points: seq<ControlPoint>) returns (phases: seq<Phase>)
    ensures |points| < 2 ==> phases == []
    ensures |points| >= 2 ==> |phases| == |points| - 1
    ensures forall i :: 0 <= i < |phases| ==>
      phases[i] == Phase(points[i].time, points[i + 1].time, PhaseKindOf(points[i], points[i + 1]))
  {
    phases := [];
    if |points| < 2 {
      return;
    }
    var i := 0;
    while i < |points| - 1
      invariant 0 <= i <= |points| - 1
      invariant |phases| == i
      invariant forall k :: 0 <= k < i ==>
        phases[k] == Phase(points[k].time, points[k + 1].time, PhaseKindOf(points[k], points[k + 1]))
    {
      var curr, next := points[i], points[i + 1];
      phases := phases + [Phase(curr.time, next.time, PhaseKindOf(curr, next))];
      i := i + 1;
    }
  }

  /** The hour label: `Hh` on a whole hour, else `Hh Mm`. */
  function HoursLabel(hours: int, minutes: int): string {
    if minutes == 0 then IntToString(hours) + "h"
    else IntToString(hours) + "h " + IntToString(minutes) + "m"
  }

  /** Axis and tooltip label of a time in minutes, in the display unit. */
  function FormatTimeLabel(unit: DurationUnit, timeInMinutes: real): (r: string)
    ensures unit == Minutes ==> r == IntToString(Round(timeInMinutes)) + "m"
    ensures unit == Hours && timeInMinutes >= 0.0 ==>
      var h, m := (timeInMinutes / 60.0).Floor, Round(JsRemReal(timeInMinutes, 60.0));
      r == HoursLabel(h, m) && 0 <= h && h as real * 60.0 <= timeInMinutes < h as real * 60.0 + 60.0
      && 0 <= m <= 60 && m as real - 0.5 <= timeInMinutes - h as real * 60.0 < m as real + 0.5
  {
    match unit
    case Hours => HoursLabel((timeInMinutes / 60.0).Floor, Round(JsRemReal(timeInMinutes, 60.0)))
    case Minutes => IntToString(Round(timeInMinutes)) + "m"
  }

  /** A minutes label reads back as the rounded time. */
  lemma MinutesLabelReadsBack(t: real)
    requires t >= 0.0
    ensures var r := SplitDigits(FormatTimeLabel(Minutes, t));
      ParseNat(r.0) == Round(t) && r.1 == "m"
  {
    ReadBackNat(Round(t), "m");
  }

  /** As written, a time just short of a whole hour is labelled with 60 minutes. */
  lemma FormatTimeLabelSixtyMinutes()
    ensures FormatTimeLabel(Hours, 119.5) == HoursLabel(1, 60)
  {
    assert (119.5 / 60.0).Floor == 1;
    assert Trunc(119.5 / 60.0) == 1;
    assert JsRemReal(119.5, 60.0) == 59.5;
  }

  /** The hour label as evidently intended: round to whole minutes first, then split into hours and minutes. */
  function FormatTimeLabelCorrected(unit: DurationUnit, timeInMinutes: real): string {
    match unit
    case Hours =>
      var total := Round(timeInMinutes);
      HoursLabel(total / 60, total % 60)
    case Minutes => IntToString(Round(timeInMinutes)) + "m"
  }

  /** What follows the hours in an hour label. */
  function HoursSuffix(minutes: nat): (r: string)
    ensures r != [] && r[0] == 'h'
  {
    if minutes == 0 then "h" else "h " + NatToString(minutes) + "m"
  }

  lemma HoursLabelSplits(hours: nat, minutes: nat)
    ensures HoursLabel(hours, minutes) == NatToString(hours) + HoursSuffix(minutes)
  {
    if minutes != 0 {
      assert IntToString(hours) + "h " + IntToString(minutes) + "m"
        == NatToString(hours) + ("h " + NatToString(minutes) + "m");
    }
  }

  lemma HoursSuffixInjective(m1: nat, m2: nat)
    requires HoursSuffix(m1) == HoursSuffix(m2)
    ensures m1 == m2
  {
    if m1 != 0 && m2 != 0 {
      var r1, r2 := HoursSuffix(m1), HoursSuffix(m2);
      assert r1[2..] == NatToString(m1) + "m";
      assert r2[2..] == NatToString(m2) + "m";
      NatPrefixInjective(m1, "m", m2, "m");
    }
  }

  /** Hour labels of non-negative hours and minutes are equal only for equal hours and minutes. */
  lemma HoursLabelInjective(h1: nat, m1: nat, h2: nat, m2: nat)
    requires HoursLabel(h1, m1) == HoursLabel(h2, m2)
    ensures h1 == h2 && m1 == m2
  {
    HoursLabelSplits(h1, m1);
    HoursLabelSplits(h2, m2);
    NatPrefixInjective(h1, HoursSuffix(m1), h2, HoursSuffix(m2));
    HoursSuffixInjective(m1, m2);
  }

  /** Corrected, the minutes part is below 60 and two different whole minutes never share a label. */
  lemma FormatTimeLabelCorrectedDistinct(t1: real, t2: real)
    requires t1 >= 0.0 && t2 >= 0.0
    ensures 0 <= Round(t1) % 60 < 60 && (Round(t1) / 60) * 60 + Round(t1) % 60 == Round(t1)
    ensures FormatTimeLabelCorrected(Hours, t1) == FormatTimeLabelCorrected(Hours, t2) ==> Round(t1) == Round(t2)
  {
    var a, b := Round(t1), Round(t2);
    if FormatTimeLabelCorrected(Hours, t1) == FormatTimeLabelCorrected(Hours, t2) {
      HoursLabelInjective(a / 60, a % 60, b / 60, b % 60);
    }
  }

  /** The events the editor emits to the page. */
  datatype GraphEvent = PointAdded(point: ControlPoint) | PointUpdated(index: nat, point: ControlPoint) | PointDeleted(index: nat)

  /**
   * The editor component: its inputs (set by the page) and the pointer state the
   * mouse handlers update. `pendingResets` counts the `setTimeout` callbacks that
   * mouse-up scheduled and that have not run yet.
   */
  class LoadGraphComponent {
    var controlPoints: seq<ControlPoint>
    var maxVUs: real
    var totalDuration: real
    var isEditMode: bool
    var geometry: Geometry

    var draggedPointIndex: Option<nat>
    var hoveredPointIndex: Option<nat>
    var hoverPosition: Option<Position>
    var previewPoint: Option<ControlPoint>
    var wasDragging: bool
    var pendingResets: nat

    ghost predicate Valid()
      reads this
    {
      ValidGeometry(geometry)
    }

    function CurrentView(): View
      reads this
    {
      View(geometry, maxVUs, totalDuration)
    }

    constructor (points: seq<ControlPoint>, maxVUs: real, totalDuration: real, isEditMode: bool,
                 canvasWidth: real, canvasHeight: real)
      requires canvasWidth > 100.0 && canvasHeight > 100.0
      ensures Valid()
      ensures this.controlPoints == points && this.maxVUs == maxVUs && this.totalDuration == totalDuration
      ensures this.isEditMode == isEditMode && this.geometry == PlotGeometry(canvasWidth, canvasHeight)
      ensures draggedPointIndex.None? && hoveredPointIndex.None? && hoverPosition.None? && previewPoint.None?
      ensures !wasDragging && pendingResets == 0
    {
      this.controlPoints, this.maxVUs, this.totalDuration := points, maxVUs, totalDuration;
      this.isEditMode, this.geometry := isEditMode, PlotGeometry(canvasWidth, canvasHeight);
      draggedPointIndex, hoveredPointIndex, hoverPosition, previewPoint := None, None, None, None;
      wasDragging, pendingResets := false, 0;
    }

    /** The page binds new input values; the pointer state is not touched. */
    method SetInputs(points: seq<ControlPoint>, maxVUs: real, totalDuration: real, isEditMode: bool)
      modifies this`controlPoints, this`maxVUs, this`totalDuration, this`isEditMode
      ensures this.controlPoints == points && this.maxVUs == maxVUs
      ensures this.totalDuration == totalDuration && this.isEditMode == isEditMode
    {
      this.controlPoints, this.maxVUs, this.totalDuration, this.isEditMode := points, maxVUs, totalDuration, isEditMode;
    }

    /**
     * Mouse move: while a point is dragged in edit mode, latch `wasDragging` and emit
     * its new position; otherwise run the hit test, record the hovered point and show
     * a preview when nothing is hovered in edit mode.
     */
    method HandleMouseMove(x: real, y: real) returns (ev: Option<GraphEvent>)
      requires Valid()
      modifies this`hoverPosition, this`wasDragging, this`hoveredPointIndex, this`previewPoint
      ensures hoverPosition == Some(Position(x, y))
      ensures old(draggedPointIndex).Some? && isEditMode ==>
        wasDragging && hoveredPointIndex == old(hoveredPointIndex) && previewPoint == old(previewPoint)
        && ev == Some(PointUpdated(draggedPointIndex.value,
                                   UpdatePointPosition(controlPoints, CurrentView(), draggedPointIndex.value, x, y)))
      ensures !(old(draggedPointIndex).Some? && isEditMode) ==>
        ev.None? && wasDragging == old(wasDragging)
        && IsHitResult(controlPoints, CurrentView(), x, y, hoveredPointIndex)
        && previewPoint == (if hoveredPointIndex.None? then PreviewPoint(isEditMode, CurrentView(), x, y) else None)
    {
      hoverPosition := Some(Position(x, y));
      if draggedPointIndex.Some? && isEditMode {
        wasDragging := true;
        var index := draggedPointIndex.value;
        ev := Some(PointUpdated(index, UpdatePointPosition(controlPoints, CurrentView(), index, x, y)));
        return;
      }
      ev := None;
      var hovered := FindPointAtPosition(controlPoints, CurrentView(), x, y);
      hoveredPointIndex := hovered;
      if hovered.Some? && isEditMode {
        previewPoint := None;
      } else if isEditMode {
        previewPoint := PreviewPoint(isEditMode, CurrentView(), x, y);
      } else {
        previewPoint := None;
      }
    }

    /** Mouse down in edit mode on a point starts a drag: the latch and the preview are cleared. */
    method HandleMouseDown(x: real, y: real)
      modifies this`draggedPointIndex, this`wasDragging, this`previewPoint
      ensures !isEditMode ==>
        draggedPointIndex == old(draggedPointIndex) && wasDragging == old(wasDragging) && previewPoint == old(previewPoint)
      ensures isEditMode ==> exists hit ::
        IsHitResult(controlPoints, CurrentView(), x, y, hit)
        && (hit.Some? ==> draggedPointIndex == hit && !wasDragging && previewPoint.None?)
        && (hit.None? ==>
              draggedPointIndex == old(draggedPointIndex) && wasDragging == old(wasDragging)
              && previewPoint == old(previewPoint))
    {
      if !isEditMode {
        return;
      }
      var pointIdx := FindPointAtPosition(controlPoints, CurrentView(), x, y);
      if pointIdx.Some? {
        draggedPointIndex := pointIdx;
        wasDragging := false;
        previewPoint := None;
      }
    }

    /** Mouse up ends the drag at once; the latch is cleared by a callback that runs on a later tick. */
    method HandleMouseUp()
      modifies this`draggedPointIndex, this`pendingResets
      ensures draggedPointIndex.None? && pendingResets == old(pendingResets) + 1
    {
      draggedPointIndex := None;
      pendingResets := pendingResets + 1;
    }

    /** One pending mouse-up callback runs: it clears the drag latch. */
    method Tick()
      requires pendingResets > 0
      modifies this`wasDragging, this`pendingResets
      ensures !wasDragging && pendingResets == old(pendingResets) - 1
    {
      wasDragging := false;
      pendingResets := pendingResets - 1;
    }

    /** Leaving the canvas forgets the hovered and dragged point, the preview and the pointer position. */
    method HandleMouseLeave()
      modifies this`hoveredPointIndex, this`draggedPointIndex, this`previewPoint, this`hoverPosition
      ensures hoveredPointIndex.None? && draggedPointIndex.None? && previewPoint.None? && hoverPosition.None?
    {
      hoveredPointIndex, draggedPointIndex, previewPoint, hoverPosition := None, None, None, None;
    }

    /** A click adds a point only in edit mode, with the drag latch clear, and away from every point. */
    method HandleClick(x: real, y: real) returns (ev: Option<GraphEvent>)
      requires Valid()
      ensures ev.Some? <==>
        isEditMode && !wasDragging
        && forall j :: 0 <= j < |controlPoints| ==> !Hits(CurrentView(), controlPoints[j], x, y)
      ensures ev.Some? ==> ev.value == PointAdded(CursorPoint(CurrentView(), x, y))
    {
      if !isEditMode || wasDragging {
        return None;
      }
      var pointIdx := FindPointAtPosition(controlPoints, CurrentView(), x, y);
      if pointIdx.Some? {
        return None;
      }
      var added := AddPointAtPosition(isEditMode, CurrentView(), x, y);
      ev := Some(PointAdded(added.value));
    }

    /** A right click deletes the point it hits, in edit mode only. */
    method HandleRightClick(x: real, y: real) returns (ev: Option<GraphEvent>)
      ensures ev.Some? ==>
        isEditMode && ev.value.PointDeleted?
        && IsHitResult(controlPoints, CurrentView(), x, y, Some(ev.value.index))
      ensures ev.None? ==> !isEditMode || IsHitResult(controlPoints, CurrentView(), x, y, None)
    {
      if !isEditMode {
        return None;
      }
      var pointIdx := FindPointAtPosition(controlPoints, CurrentView(), x, y);
      if pointIdx.Some? {
        ev := Some(PointDeleted(pointIdx.value));
      } else {
        ev := None;
      }
    }
  }

  /**
   * Releasing a drag does not let the click the browser synthesises from the same
   * release add a point; once the pending callback has run, an off-point click adds one.
   */
  method ClickAfterDrag(g: LoadGraphComponent, x: real, y: real)
    requires g.Valid() && g.isEditMode && g.pendingResets == 0
    requires forall j :: 0 <= j < |g.controlPoints| ==> !Hits(g.CurrentView(), g.controlPoints[j], x, y)
    requires g.draggedPointIndex.Some?
    modifies g
  {
    var moved := g.HandleMouseMove(x, y);
    assert g.wasDragging;
    g.HandleMouseUp();
    var click := g.HandleClick(x, y);
    assert click.None?;
    g.Tick();
    var later := g.HandleClick(x, y);
    assert later == Some(PointAdded(CursorPoint(g.CurrentView(), x, y)));
  }
}
