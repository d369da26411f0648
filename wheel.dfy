/** The zoom-step loop of `handleWheel`: an accumulator of fractional zoom steps
    is turned into at most four whole `adjustZoom` steps per wheel event. */
module Wheel {
  import opened MapMath

  const MAX_STEPS_PER_FRAME: nat := 4

  /** How the accumulator changes after an accepted step. */
  datatype AccumulatorRule =
    | AsWritten   // `wheelAccumulator -= step`: moves the accumulator away from zero
    | Consuming   // the accumulator gives up the unit that became a zoom step

  /** A positive accumulator zooms out, anything else zooms in. */
  function StepFor(acc: real): (step: int)
    ensures step == -1 || step == 1
    ensures step == -1 <==> acc > 0.0
  {
    if acc > 0.0 then -1 else 1
  }

  function Settle(rule: AccumulatorRule, acc: real, step: int): real
  {
    match rule
    case AsWritten => acc - step as real
    case Consuming => acc + step as real
  }

  /** The state after the loop: accumulator, zoom, the number of accepted steps,
      and whether the loop ended on a rejected step. */
  datatype Drained = Drained(acc: real, zoom: int, steps: nat, rejected: bool)

  /** The loop of `handleWheel` from `steps` accepted steps on. */
  function Drain(rule: AccumulatorRule, acc: real, zoom: int, steps: nat): (d: Drained)
    requires steps <= MAX_STEPS_PER_FRAME
    ensures steps <= d.steps <= MAX_STEPS_PER_FRAME
    ensures d.rejected ==> d.acc == 0.0
    decreases MAX_STEPS_PER_FRAME - steps
  {
    if Abs(acc) >= 1.0 && steps < MAX_STEPS_PER_FRAME then
      var step := StepFor(acc);
      // `adjustZoom` refuses a step that clamping cancels (on an integer zoom
      // `clampZoom` is `ZoomInRange`, see `ClampZoomOfInteger`).
      var target := ZoomInRange(zoom + step);
      if target == zoom then Drained(0.0, zoom, steps, true)
      else Drain(rule, Settle(rule, acc, step), target, steps + 1)
    else Drained(acc, zoom, steps, false)
  }

  /** The view (map center) after the same loop: every accepted step from zoom
      `from` to zoom `to` replaces it by `anchor(view, from, to)`. */
  function DrainView<C>(rule: AccumulatorRule, acc: real, zoom: int, view: C, steps: nat,
                        anchor: (C, int, int) -> C): (v: C)
    requires steps <= MAX_STEPS_PER_FRAME
    ensures Drain(rule, acc, zoom, steps).steps == steps ==> v == view
    decreases MAX_STEPS_PER_FRAME - steps
  {
    if Abs(acc) >= 1.0 && steps < MAX_STEPS_PER_FRAME then
      var step := StepFor(acc);
      var target := ZoomInRange(zoom + step);
      if target == zoom then view
      else DrainView(rule, Settle(rule, acc, step), target, anchor(view, zoom, target), steps + 1, anchor)
    else view
  }

  /** One turn of the loop when adjustZoom accepts the step: the zoom moves and
      the accumulator settles. */
  lemma DrainAccepts(rule: AccumulatorRule, acc: real, zoom: int, steps: nat)
    requires steps < MAX_STEPS_PER_FRAME && Abs(acc) >= 1.0 && ZoomInRange(zoom + StepFor(acc)) != zoom
    ensures Drain(rule, acc, zoom, steps)
         == Drain(rule, Settle(rule, acc, StepFor(acc)), ZoomInRange(zoom + StepFor(acc)), steps + 1)
  {
  }

  /** One turn of the loop when clamping cancels the step: the loop ends with the
      accumulator cleared. */
  lemma DrainRejects(rule: AccumulatorRule, acc: real, zoom: int, steps: nat)
    requires steps < MAX_STEPS_PER_FRAME && Abs(acc) >= 1.0 && ZoomInRange(zoom + StepFor(acc)) == zoom
    ensures Drain(rule, acc, zoom, steps) == Drained(0.0, zoom, steps, true)
  {
  }

  /** The loop ends, with nothing changed, when less than a unit is accumulated or
      the frame's steps are used up. */
  lemma DrainDone(rule: AccumulatorRule, acc: real, zoom: int, steps: nat)
    requires steps <= MAX_STEPS_PER_FRAME && !(Abs(acc) >= 1.0 && steps < MAX_STEPS_PER_FRAME)
    ensures Drain(rule, acc, zoom, steps) == Drained(acc, zoom, steps, false)
  {
  }

  /** The same turn moves the view by one anchored step. */
  lemma DrainViewAccepts<C>(rule: AccumulatorRule, acc: real, zoom: int, view: C, steps: nat,
                            anchor: (C, int, int) -> C)
    requires steps < MAX_STEPS_PER_FRAME && Abs(acc) >= 1.0 && ZoomInRange(zoom + StepFor(acc)) != zoom
    ensures DrainView(rule, acc, zoom, view, steps, anchor)
         == DrainView(rule, Settle(rule, acc, StepFor(acc)), ZoomInRange(zoom + StepFor(acc)),
                      anchor(view, zoom, ZoomInRange(zoom + StepFor(acc))), steps + 1, anchor)
  {
  }

  /** One turn of the loop, stated on its outcome: `adjusted` says whether
      `adjustZoom` took the step, and (`acc1`, `zoom1`, `view1`) is the state
      the turn leaves. */
  lemma DrainTurn<C>(rule: AccumulatorRule, acc: real, zoom: int, view: C, steps: nat,
                     anchor: (C, int, int) -> C, adjusted: bool, acc1: real, zoom1: int, view1: C)
    requires steps < MAX_STEPS_PER_FRAME && Abs(acc) >= 1.0
    requires adjusted == (ZoomInRange(zoom + StepFor(acc)) != zoom)
    requires adjusted ==> acc1 == Settle(rule, acc, StepFor(acc)) && zoom1 == ZoomInRange(zoom + StepFor(acc))
                          && view1 == anchor(view, zoom, zoom1)
    requires !adjusted ==> acc1 == 0.0 && zoom1 == zoom && view1 == view
    ensures Drain(rule, acc, zoom, steps)
         == if adjusted then Drain(rule, acc1, zoom1, steps + 1) else Drained(acc1, zoom1, steps, true)
    ensures DrainView(rule, acc, zoom, view, steps, anchor)
         == if adjusted then DrainView(rule, acc1, zoom1, view1, steps + 1, anchor) else view1
  {
    if adjusted {
      DrainAccepts(rule, acc, zoom, steps);
      DrainViewAccepts(rule, acc, zoom, view, steps, anchor);
    } else {
      DrainRejects(rule, acc, zoom, steps);
      DrainViewStays(rule, acc, zoom, view, steps, anchor);
    }
  }

  /** The loop ends without moving the view when the step is rejected, when
      less than a unit is accumulated, or when the frame's steps are used up. */
  lemma DrainViewStays<C>(rule: AccumulatorRule, acc: real, zoom: int, view: C, steps: nat,
                          anchor: (C, int, int) -> C)
    requires steps <= MAX_STEPS_PER_FRAME
    requires !(Abs(acc) >= 1.0 && steps < MAX_STEPS_PER_FRAME) || ZoomInRange(zoom + StepFor(acc)) == zoom
    ensures DrainView(rule, acc, zoom, view, steps, anchor) == view
  {
  }

  /** What every wheel event guarantees, under either rule: at most four
      `adjustZoom` calls (the accepted steps plus a rejected one), a rejected step
      clears the accumulator, and otherwise the loop stops with less than one
      unit left or after four steps. */
  lemma {:induction false} DrainStops(rule: AccumulatorRule, acc: real, zoom: int, steps: nat)
    requires steps <= MAX_STEPS_PER_FRAME
    ensures var d := Drain(rule, acc, zoom, steps);
      && steps <= d.steps <= MAX_STEPS_PER_FRAME
      && d.steps + (if d.rejected then 1 else 0) <= MAX_STEPS_PER_FRAME
      && (d.rejected ==> d.acc == 0.0)
      && (!d.rejected ==> Abs(d.acc) < 1.0 || d.steps == MAX_STEPS_PER_FRAME)
    decreases MAX_STEPS_PER_FRAME - steps
  {
    if Abs(acc) >= 1.0 && steps < MAX_STEPS_PER_FRAME && ZoomInRange(zoom + StepFor(acc)) != zoom {
      DrainAccepts(rule, acc, zoom, steps);
      DrainStops(rule, Settle(rule, acc, StepFor(acc)), ZoomInRange(zoom + StepFor(acc)), steps + 1);
    }
  }

  /** Under either rule the zoom stays in range. */
  lemma {:induction false} DrainZoomInRange(rule: AccumulatorRule, acc: real, zoom: int, steps: nat)
    requires MIN_ZOOM <= zoom <= MAX_ZOOM && steps <= MAX_STEPS_PER_FRAME
    ensures MIN_ZOOM <= Drain(rule, acc, zoom, steps).zoom <= MAX_ZOOM
    decreases MAX_STEPS_PER_FRAME - steps
  {
    if Abs(acc) >= 1.0 && steps < MAX_STEPS_PER_FRAME && ZoomInRange(zoom + StepFor(acc)) != zoom {
      DrainAccepts(rule, acc, zoom, steps);
      DrainZoomInRange(rule, Settle(rule, acc, StepFor(acc)), ZoomInRange(zoom + StepFor(acc)), steps + 1);
    }
  }

  /** Under either rule a positive accumulator zooms out one level per accepted step. */
  lemma {:induction false} DrainZoomsOut(rule: AccumulatorRule, acc: real, zoom: int, steps: nat)
    requires MIN_ZOOM <= zoom <= MAX_ZOOM && acc >= 0.0 && steps <= MAX_STEPS_PER_FRAME
    ensures var d := Drain(rule, acc, zoom, steps);
      d.zoom == zoom - (d.steps - steps)
    decreases MAX_STEPS_PER_FRAME - steps
  {
    if Abs(acc) >= 1.0 && steps < MAX_STEPS_PER_FRAME && ZoomInRange(zoom + StepFor(acc)) != zoom {
      DrainAccepts(rule, acc, zoom, steps);
      assert StepFor(acc) == -1 && ZoomInRange(zoom + StepFor(acc)) == zoom - 1;
      DrainZoomsOut(rule, Settle(rule, acc, StepFor(acc)), ZoomInRange(zoom + StepFor(acc)), steps + 1);
    }
  }

  /** Under either rule a negative accumulator zooms in one level per accepted step. */
  lemma {:induction false} DrainZoomsIn(rule: AccumulatorRule, acc: real, zoom: int, steps: nat)
    requires MIN_ZOOM <= zoom <= MAX_ZOOM && acc <= 0.0 && steps <= MAX_STEPS_PER_FRAME
    ensures var d := Drain(rule, acc, zoom, steps);
      d.zoom == zoom + (d.steps - steps)
    decreases MAX_STEPS_PER_FRAME - steps
  {
    if Abs(acc) >= 1.0 && steps < MAX_STEPS_PER_FRAME && ZoomInRange(zoom + StepFor(acc)) != zoom {
      DrainAccepts(rule, acc, zoom, steps);
      assert StepFor(acc) == 1 && ZoomInRange(zoom + StepFor(acc)) == zoom + 1;
      DrainZoomsIn(rule, Settle(rule, acc, StepFor(acc)), ZoomInRange(zoom + StepFor(acc)), steps + 1);
    }
  }

  /** With the consuming rule every accepted step takes one unit off the
      accumulator's magnitude, and its sign never flips. */
  lemma {:induction false} DrainConsumes(acc: real, zoom: int, steps: nat)
    requires steps <= MAX_STEPS_PER_FRAME
    ensures var d := Drain(Consuming, acc, zoom, steps);
      && (!d.rejected ==> Abs(d.acc) == Abs(acc) - (d.steps - steps) as real)
      && (acc >= 0.0 ==> d.acc >= 0.0) && (acc <= 0.0 ==> d.acc <= 0.0)
    decreases MAX_STEPS_PER_FRAME - steps
  {
    if Abs(acc) >= 1.0 && steps < MAX_STEPS_PER_FRAME && ZoomInRange(zoom + StepFor(acc)) != zoom {
      DrainAccepts(Consuming, acc, zoom, steps);
      ghost var acc' := Settle(Consuming, acc, StepFor(acc));
      if acc > 0.0 {
        assert acc' == acc - 1.0 && acc' >= 0.0 && Abs(acc') == Abs(acc) - 1.0;
      } else {
        assert acc' == acc + 1.0 && acc' <= 0.0 && Abs(acc') == Abs(acc) - 1.0;
      }
      DrainConsumes(Settle(Consuming, acc, StepFor(acc)), ZoomInRange(zoom + StepFor(acc)), steps + 1);
    }
  }

  /** With the consuming rule an event whose accumulator holds fewer than five
      units ends with less than one unit left, unless a step was rejected. */
  lemma DrainSettles(acc: real, zoom: int)
    requires Abs(acc) < 5.0
    ensures var d := Drain(Consuming, acc, zoom, 0);
      d.rejected || Abs(d.acc) < 1.0
  {
    DrainStops(Consuming, acc, zoom, 0);
    DrainConsumes(acc, zoom, 0);
  }

  /** One 240-pixel notch above the minimum zoom makes exactly one zoom-out step,
      leaves nothing in the accumulator and anchors the view once. */
  lemma OneNotchOneStep<C>(zoom: int, view: C, anchor: (C, int, int) -> C)
    requires MIN_ZOOM < zoom <= MAX_ZOOM
    ensures Drain(Consuming, 1.0, zoom, 0) == Drained(0.0, zoom - 1, 1, false)
    ensures DrainView(Consuming, 1.0, zoom, view, 0, anchor) == anchor(view, zoom, zoom - 1)
  {
  }

  /** With the rule as written every accepted step adds one unit to the
      accumulator's magnitude. */
  lemma {:induction false} AsWrittenGrows(acc: real, zoom: int, steps: nat)
    requires steps <= MAX_STEPS_PER_FRAME
    ensures var d := Drain(AsWritten, acc, zoom, steps);
      !d.rejected ==> Abs(d.acc) == Abs(acc) + (d.steps - steps) as real
    decreases MAX_STEPS_PER_FRAME - steps
  {
    if Abs(acc) >= 1.0 && steps < MAX_STEPS_PER_FRAME && ZoomInRange(zoom + StepFor(acc)) != zoom {
      DrainAccepts(AsWritten, acc, zoom, steps);
      ghost var acc' := Settle(AsWritten, acc, StepFor(acc));
      if acc > 0.0 {
        assert acc' == acc + 1.0 && Abs(acc') == Abs(acc) + 1.0;
      } else {
        assert acc' == acc - 1.0 && Abs(acc') == Abs(acc) + 1.0;
      }
      AsWrittenGrows(Settle(AsWritten, acc, StepFor(acc)), ZoomInRange(zoom + StepFor(acc)), steps + 1);
    }
  }

  /** With the rule as written, one 240-pixel notch at zoom 10 zooms out four
      levels and leaves five units in the accumulator. */
  lemma AsWrittenOneNotch()
    ensures Drain(AsWritten, 1.0, 10, 0) == Drained(5.0, 6, 4, false)
  {
    assert Drain(AsWritten, 4.0, 7, 3) == Drained(5.0, 6, 4, false);
    assert Drain(AsWritten, 2.0, 9, 1) == Drained(5.0, 6, 4, false);
  }
}
