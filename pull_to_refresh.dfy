/** The pull-to-refresh wrapper of src/PullToRefresh.jsx: three state fields updated by the
    touch handlers. Touch positions and the scroll offset are handler parameters; the
    `onRefresh` callback is code outside the model, so what it does is a parameter (it
    resolves, or it rejects with a message) and a ghost counter records its invocations. */
module Gesture {
  import opened Wrappers

  /** A pull deeper than this starts a refresh (`PULL_THRESHOLD`). */
  const PullThreshold: real := 80.0
  /** The indicator never grows past this (`MAX_PULL_DISTANCE`). */
  const MaxPullDistance: real := 120.0
  /** Resistance applied to the finger's travel. */
  const Damping: real := 0.4

  /** Indicator height for a downward drag of `diff`: `Math.min(diff * 0.4, 120)`. It is
      positive and capped, the cap is reached exactly from a drag of 300, and it passes the
      threshold exactly for drags longer than 200. */
  function Damped(diff: real): (y: real)
    requires diff > 0.0
    ensures 0.0 < y <= MaxPullDistance
    ensures y <= diff * 2.0 / 5.0
    ensures y == MaxPullDistance <==> diff >= 300.0
    ensures y > PullThreshold <==> diff > 200.0
  {
    var pulled := diff * Damping;
    if pulled < MaxPullDistance then pulled else MaxPullDistance
  }

  class PullToRefresh {
    var startY: real
    var currentY: real
    var refreshing: bool
    /** How many times `onRefresh` has been invoked. */
    ghost var refreshCalls: nat

    /** The indicator height stays between zero and the cap. */
    ghost predicate Valid()
      reads this
    {
      0.0 <= currentY <= MaxPullDistance
    }

    constructor ()
      ensures Valid()
      ensures startY == 0.0 && currentY == 0.0 && !refreshing && refreshCalls == 0
    {
      startY, currentY, refreshing := 0.0, 0.0, false;
      refreshCalls := 0;
    }

    /** `handleTouchStart`: the finger's position is remembered only when the page is
        scrolled to the top; otherwise the old start stays. */
    method HandleTouchStart(scrollY: real, clientY: real)
      modifies this`startY
      ensures startY == if scrollY == 0.0 then clientY else old(startY)
    {
      if scrollY == 0.0 {
        startY := clientY;
      }
    }

    /** `handleTouchMove`: a downward drag at the top sets the indicator to the damped,
        capped distance; any other move leaves it where it was. */
    method HandleTouchMove(scrollY: real, touchY: real)
      requires Valid()
      modifies this`currentY
      ensures Valid()
      ensures scrollY == 0.0 && touchY - startY > 0.0 ==> currentY == Damped(touchY - startY)
      ensures !(scrollY == 0.0 && touchY - startY > 0.0) ==> currentY == old(currentY)
    {
      var diff := touchY - startY;
      if scrollY == 0.0 && diff > 0.0 {
        currentY := Damped(diff);
      }
    }

    /** `handleTouchEnd` up to its `await`: a pull past the threshold (strictly) raises
        `refreshing`, pins the indicator at the threshold and invokes `onRefresh` once;
        a shorter pull drops the indicator and resets the start without invoking it. */
    method ReleasePull() returns (triggered: bool)
      requires Valid()
      modifies this`refreshing, this`currentY, this`startY, this`refreshCalls
      ensures Valid()
      ensures triggered == (old(currentY) > PullThreshold)
      ensures triggered ==>
        refreshing && currentY == PullThreshold && startY == old(startY)
        && refreshCalls == old(refreshCalls) + 1
      ensures !triggered ==>
        refreshing == old(refreshing) && currentY == 0.0 && startY == 0.0
        && refreshCalls == old(refreshCalls)
    {
      triggered := currentY > PullThreshold;
      if triggered {
        refreshing := true;
        currentY := PullThreshold;
        refreshCalls := refreshCalls + 1;
      } else {
        currentY := 0.0;
        startY := 0.0;
      }
    }

    /** `handleTouchEnd` after `onRefresh` settles: the `finally` clears `refreshing` and the
        indicator whatever the outcome. When `onRefresh` rejects, the rejection leaves the
        handler from the `finally`, so the start position is not reset; it is returned. */
    method SettleRefresh(outcome: Result<()>) returns (rejection: Option<string>)
      requires Valid()
      modifies this`refreshing, this`currentY, this`startY
      ensures Valid()
      ensures !refreshing && currentY == 0.0
      ensures outcome.Ok? ==> startY == 0.0 && rejection == None
      ensures outcome.Err? ==> startY == old(startY) && rejection == Some(outcome.error)
    {
      refreshing := false;
      currentY := 0.0;
      match outcome {
        case Ok(_) =>
          startY := 0.0;
          rejection := None;
        case Err(message) =>
          rejection := Some(message);
      }
    }

    /** `handleTouchEnd` as one step: `onRefresh` runs exactly when the indicator was past
        the threshold, and the handler always ends with the indicator down and no refresh
        showing. */
    method HandleTouchEnd(outcome: Result<()>) returns (triggered: bool, rejection: Option<string>)
      requires Valid()
      modifies this`refreshing, this`currentY, this`startY, this`refreshCalls
      ensures Valid()
      ensures triggered == (old(currentY) > PullThreshold)
      ensures refreshCalls == old(refreshCalls) + (if triggered then 1 else 0)
      ensures currentY == 0.0
      ensures triggered ==> !refreshing
      ensures !triggered ==> refreshing == old(refreshing)
      ensures startY == (if triggered && outcome.Err? then old(startY) else 0.0)
      ensures rejection == (if triggered && outcome.Err? then Some(outcome.error) else None)
    {
      triggered := ReleasePull();
      rejection := None;
      if triggered {
        rejection := SettleRefresh(outcome);
      }
    }
  }

  /** A whole gesture on a fresh component at the top of the page: touch down at `fromY`,
      drag to `toY`, lift. The refresh runs exactly when the finger travelled more than 200,
      and the gesture ends with the indicator down. */
  method Pull(fromY: real, toY: real, outcome: Result<()>) returns (triggered: bool, finalHeight: real)
    ensures triggered <==> toY - fromY > 200.0
    ensures finalHeight == 0.0
  {
    var g := new PullToRefresh();
    g.HandleTouchStart(0.0, fromY);
    g.HandleTouchMove(0.0, toY);
    var rejection;
    triggered, rejection := g.HandleTouchEnd(outcome);
    finalHeight := g.currentY;
  }
}
