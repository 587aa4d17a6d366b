/** The older state machine of components/Captcha.tsx, the component the app mounts.
    Its layout generator and hit test are textual copies of the ones in Utils, and
    its touch-move is the one in Gesture; it differs from CaptchaSession in that a
    touch-start keeps the previous path and order, verification compares the order
    without de-duplication, and no missed list or banner flags exist. */
module LegacyCaptcha {
  import opened Wrappers
  import opened Types
  import opened Shapes
  import opened Utils
  import opened Gesture
  import CaptchaSession

  /** The verdict: `JSON.stringify(connectedOrder) === JSON.stringify(expectedOrder)`,
      that is, the order is exactly [1..n]. */
  function LegacyCorrect(order: seq<nat>, n: nat): (r: bool)
    ensures r ==> |order| == n && forall i :: 0 <= i < n ==> order[i] == i + 1
    ensures (|order| == n && forall i :: 0 <= i < n ==> order[i] == i + 1) ==> r
  {
    order == Ids(n)
  }

  /** Exact comparison is stricter than the newer de-duplicated one; on the orders the
      gestures produce the two verdicts agree. */
  lemma LegacyVerdictVersusDedup(order: seq<nat>, n: nat)
    ensures LegacyCorrect(order, n) ==> CaptchaSession.IsCorrect(order, n)
    ensures IsOrderPrefix(order, n) ==>
              (LegacyCorrect(order, n) <==> CaptchaSession.IsCorrect(order, n)) &&
              (LegacyCorrect(order, n) <==> |order| == n)
  {
    CaptchaSession.IdsNoDuplicates(n);
    if IsOrderPrefix(order, n) {
      CaptchaSession.OutcomeOnPrefix(order, n);
    }
  }

  /** An order with a repeated id that the newer verdict accepts and this one rejects. */
  lemma RepeatedIdSplitsVerdicts()
    ensures CaptchaSession.IsCorrect([1, 2, 1], 2) && !LegacyCorrect([1, 2, 1], 2)
  {
    CaptchaSession.DedupVerdictExamples();
    assert [1, 2, 1] != Ids(2);
  }

  /** The order after touch-start: [1] when the order is empty and the hit node is id 1,
      otherwise the previous order, untouched. */
  function LegacyStartOrder(prev: seq<nat>, hit: Option<Node>): (r: seq<nat>)
    ensures r == prev || (prev == [] && r == [1])
  {
    if hit.Some? && hit.value.id !in prev && prev == [] && hit.value.id == 1 then [1] else prev
  }

  /** Touch-start keeps the order a prefix and, unlike the newer component, lets a
      later stroke continue the order of an earlier one. */
  lemma LegacyStartOrderKeepsPrefix(prev: seq<nat>, n: nat, hit: Option<Node>)
    requires n >= 1 && IsOrderPrefix(prev, n)
    ensures IsOrderPrefix(LegacyStartOrder(prev, hit), n)
    ensures LegacyStartOrder(prev, hit) == [1] <==>
              prev == [1] || (prev == [] && hit.Some? && hit.value.id == 1)
    ensures prev != [] ==> LegacyStartOrder(prev, hit) == prev
  {
    assert Ids(1) == [1];
  }

  /** A `setTimeout` callback this component schedules, with the values it captured. */
  datatype Pending =
    | VerifyDelay(correct: bool)   // 500 ms after verify
    | RevertColor                  // 50 ms after VerifyDelay(false)

  class Captcha {
    /** CANVAS_WIDTH (and CANVAS_HEIGHT), fixed when the module loads. */
    const width: real

    var numbers: seq<Node>
    var path: seq<PathCmd>
    var livePath: seq<PathCmd>
    var connectedOrder: seq<nat>
    var pathColor: PathColor
    var isDrawing: bool
    var isVerifying: bool

    /** The canvas side is at most MaxCanvasSize, the layout has ids 1..N (N >= 1) and the
        connected order is some [1..k], k <= N. */
    ghost predicate Valid()
      reads this
    {
      width <= MaxCanvasSize && |numbers| >= 1 && IdsInOrder(numbers) && IsOrderPrefix(connectedOrder, |numbers|)
    }

    constructor (windowWidth: real, pick: real, draws: seq<Draw>)
      requires IsRandom(pick) && |draws| >= PickedShape(pick).count
      requires forall d :: d in draws ==> IsRandomDraw(d)
      ensures Valid()
      ensures width == CanvasWidth(windowWidth) && numbers == Layout(PickedShape(pick), draws, width)
      ensures Margin * 2.0 <= windowWidth * 0.9 ==> forall n :: n in numbers ==> InCanvas(n, width)
      ensures path == [] && livePath == [] && connectedOrder == [] && pathColor == Neutral
      ensures !isDrawing && !isVerifying
    {
      var side := CanvasWidth(windowWidth);
      var ns := GenerateNumbers(side, pick, draws);
      width := side;
      numbers := ns;
      path, livePath, connectedOrder := [], [], [];
      pathColor := Neutral;
      isDrawing, isVerifying := false, false;
    }

    /** `handleReset`: a new layout and every other field back to its initial value. */
    method Reset(pick: real, draws: seq<Draw>)
      requires Valid()
      requires IsRandom(pick) && |draws| >= PickedShape(pick).count
      requires forall d :: d in draws ==> IsRandomDraw(d)
      modifies this
      ensures Valid()
      ensures numbers == Layout(PickedShape(pick), draws, width)
      ensures Margin * 2.0 <= width ==> forall n :: n in numbers ==> InCanvas(n, width)
      ensures path == [] && livePath == [] && connectedOrder == [] && pathColor == Neutral
      ensures !isDrawing && !isVerifying
    {
      numbers := GenerateNumbers(width, pick, draws);
      path := [];
      livePath := [];
      connectedOrder := [];
      pathColor := Neutral;
      isDrawing := false;
      isVerifying := false;
    }

    /** `handleTouchStart`: ignored while verifying; otherwise starts drawing with a
        fresh live path, keeping the committed path and the order. */
    method TouchStart(x: real, y: real)
      requires Valid()
      modifies this
      ensures Valid()
      ensures old(isVerifying) ==> unchanged(this)
      ensures !old(isVerifying) ==>
        && isDrawing && livePath == [MoveTo(x, y)]
        && connectedOrder == LegacyStartOrder(old(connectedOrder), FirstHit(numbers, x, y))
        && path == old(path) && numbers == old(numbers) && pathColor == old(pathColor)
        && isVerifying == old(isVerifying)
    {
      if isVerifying {
        return;
      }
      var hitNumber := CheckCollision(x, y, numbers);
      isDrawing := true;
      if hitNumber.Some? && hitNumber.value.id !in connectedOrder {
        if connectedOrder == [] && hitNumber.value.id == 1 {
          connectedOrder := [1];
        }
      }
      livePath := [MoveTo(x, y)];
      assert Ids(1) == [1];
    }

    /** `handleTouchMove`: ignored unless drawing and not verifying; otherwise extends
        the live path by one line and the order by the ExtendOrder rule. */
    method TouchMove(x: real, y: real)
      requires Valid()
      modifies this
      ensures Valid()
      ensures !old(isDrawing) || old(isVerifying) ==> unchanged(this)
      ensures old(isDrawing) && !old(isVerifying) ==>
        && livePath == old(livePath) + [LineTo(x, y)]
        && connectedOrder == ExtendOrder(old(connectedOrder), FirstHit(numbers, x, y))
        && numbers == old(numbers) && path == old(path) && pathColor == old(pathColor)
        && isDrawing == old(isDrawing) && isVerifying == old(isVerifying)
    {
      if !isDrawing || isVerifying {
        return;
      }
      livePath := livePath + [LineTo(x, y)];
      var hitNumber := CheckCollision(x, y, numbers);
      ExtendOrderKeepsPrefix(connectedOrder, numbers, x, y);
      if hitNumber.Some? && hitNumber.value.id !in connectedOrder {
        if connectedOrder != [] && hitNumber.value.id == connectedOrder[|connectedOrder| - 1] + 1 {
          connectedOrder := connectedOrder + [hitNumber.value.id];
        }
      }
    }

    /** `handleTouchEnd`: ignored while verifying; otherwise commits the live path. */
    method TouchEnd()
      requires Valid()
      modifies this
      ensures Valid()
      ensures old(isVerifying) ==> unchanged(this)
      ensures !old(isVerifying) ==>
        && !isDrawing && path == old(path) + old(livePath) && livePath == []
        && numbers == old(numbers) && connectedOrder == old(connectedOrder)
        && pathColor == old(pathColor) && isVerifying == old(isVerifying)
    {
      if isVerifying {
        return;
      }
      isDrawing := false;
      path := path + livePath;
      livePath := [];
    }

    /** `handleVerify`: ignored while verifying; otherwise compares the order with
        [1..N] exactly, tints the path and schedules the verify-delay callback. */
    method Verify() returns (scheduled: Option<Pending>)
      requires Valid()
      modifies this
      ensures Valid()
      ensures old(isVerifying) ==> unchanged(this) && scheduled == None
      ensures !old(isVerifying) ==>
        var correct := LegacyCorrect(connectedOrder, |numbers|);
        && isVerifying
        && scheduled == Some(VerifyDelay(correct))
        && pathColor == (if correct then Success else Failure)
        && (correct <==> |connectedOrder| == |numbers|)
        && numbers == old(numbers) && path == old(path) && livePath == old(livePath)
        && connectedOrder == old(connectedOrder) && isDrawing == old(isDrawing)
    {
      if isVerifying {
        return None;
      }
      isVerifying := true;
      var expectedOrder := Ids(|numbers|);
      var isCorrect := connectedOrder == expectedOrder;
      pathColor := if isCorrect then Success else Failure;
      LegacyVerdictVersusDedup(connectedOrder, |numbers|);
      return Some(VerifyDelay(isCorrect));
    }

    /** The callback 500 ms after verify: ends the verifying phase; only a failed verdict
        schedules the colour revert, and nothing resets the layout after success. */
    method VerifyDelayElapsed(correct: bool) returns (next: Option<Pending>)
      requires Valid()
      modifies this
      ensures Valid()
      ensures !isVerifying && next == (if correct then None else Some(RevertColor))
      ensures numbers == old(numbers) && path == old(path) && livePath == old(livePath)
      ensures connectedOrder == old(connectedOrder) && pathColor == old(pathColor)
      ensures isDrawing == old(isDrawing)
    {
      isVerifying := false;
      next := None;
      if !correct {
        next := Some(RevertColor);
      }
    }

    /** The callback 50 ms after a failed verdict: restores the neutral tint only. */
    method RevertColorElapsed()
      requires Valid()
      modifies this
      ensures Valid()
      ensures pathColor == Neutral
      ensures numbers == old(numbers) && path == old(path) && livePath == old(livePath)
      ensures connectedOrder == old(connectedOrder) && isDrawing == old(isDrawing)
      ensures isVerifying == old(isVerifying)
    {
      pathColor := Neutral;
    }
  }
}
