/** The gesture and verification state machine of components/captcha/index.tsx.
    React state becomes the fields of class Captcha; each handler becomes a method
    that runs against the state committed by the previous event, and each
    `setTimeout` callback becomes a method of its own. */
module CaptchaSession {
  import opened Wrappers
  import opened Types
  import opened Shapes
  import opened Utils
  import opened Gesture
  import Feedback

  // ---------------------------------------------------------------------------
  // Verification outcome

  /** The verdict: the de-duplicated connected order equals the de-duplicated [1..n]. */
  function IsCorrect(order: seq<nat>, n: nat): bool {
    Dedup(order) == Dedup(Ids(n))
  }

  /** `expectedOrder.filter(num => !connectedOrder.includes(num))`: the ids 1..n,
      ascending, that the order never visited. */
  function Missed(order: seq<nat>, n: nat): seq<nat>
    decreases n
  {
    if n == 0 then [] else Missed(order, n - 1) + (if n in order then [] else [n])
  }

  /** The [1..n] reference is already duplicate-free. */
  lemma IdsNoDuplicates(n: nat)
    ensures NoDuplicates(Ids(n))
    ensures Dedup(Ids(n)) == Ids(n)
  {
    DedupIdentity(Ids(n));
  }

  /** The missed list is the set difference {1..n} minus the order, strictly ascending. */
  lemma {:induction false} MissedIsDifference(order: seq<nat>, n: nat)
    ensures forall x :: x in Missed(order, n) <==> 1 <= x <= n && x !in order
    ensures forall i, j :: 0 <= i < j < |Missed(order, n)| ==> Missed(order, n)[i] < Missed(order, n)[j]
    decreases n
  {
    if n > 0 {
      MissedIsDifference(order, n - 1);
      var prev := Missed(order, n - 1);
      assert forall i :: 0 <= i < |prev| ==> prev[i] in prev;
    }
  }

  /** A correct order visited every id, so nothing is missed. */
  lemma CorrectMissesNothing(order: seq<nat>, n: nat)
    requires IsCorrect(order, n)
    ensures Missed(order, n) == []
  {
    IdsNoDuplicates(n);
    DedupSameElements(order);
    forall x | 1 <= x <= n ensures x in order {
      assert Ids(n)[x - 1] == x;
      assert x in Dedup(order);
    }
    MissedNoneWhenAllVisited(order, n, n);
  }

  lemma {:induction false} MissedNoneWhenAllVisited(order: seq<nat>, n: nat, m: nat)
    requires m <= n
    requires forall x :: 1 <= x <= n ==> x in order
    ensures Missed(order, m) == []
    decreases m
  {
    if m > 0 {
      MissedNoneWhenAllVisited(order, n, m - 1);
    }
  }

  /** On every order the gestures can produce, [1..k], the verdict is "all n visited"
      and the missed list is exactly [k+1..n]. */
  lemma {:induction false} OutcomeOnPrefix(order: seq<nat>, n: nat)
    requires IsOrderPrefix(order, n)
    ensures IsCorrect(order, n) <==> |order| == n
    ensures Missed(order, n) == Ids(n)[|order|..]
    ensures IsCorrect(order, n) <==> Missed(order, n) == []
    decreases n
  {
    var k := |order|;
    IdsNoDuplicates(n);
    IdsNoDuplicates(k);
    if k != n {
      assert |Ids(k)| != |Ids(n)|;
    }
    MissedOnPrefix(k, n);
  }

  lemma {:induction false} MissedOnPrefix(k: nat, n: nat)
    requires k <= n
    ensures Missed(Ids(k), n) == Ids(n)[k..]
    decreases n
  {
    if n == k {
      assert forall m :: 0 <= m <= k ==> Missed(Ids(k), m) == [] by {
        forall m | 0 <= m <= k ensures Missed(Ids(k), m) == [] {
          MissedBelow(k, m);
        }
      }
    } else {
      MissedOnPrefix(k, n - 1);
      assert n !in Ids(k);
      IdsStep(n - 1);
      assert Ids(n)[k..] == Ids(n - 1)[k..] + [n];
    }
  }

  lemma {:induction false} MissedBelow(k: nat, m: nat)
    requires m <= k
    ensures Missed(Ids(k), m) == []
    decreases m
  {
    if m > 0 {
      MissedBelow(k, m - 1);
      assert Ids(k)[m - 1] == m;
    }
  }

  /** Where the defensive de-duplication matters: orders the gestures never produce.
      [1, 2, 1] passes although node 1 was visited twice, and [2, 1] fails with nothing
      missed, so it would raise the missed banner with an empty list (which hides it). */
  lemma DedupVerdictExamples()
    ensures IsCorrect([1, 2, 1], 2)
    ensures !IsCorrect([2, 1], 2) && Missed([2, 1], 2) == []
  {
    assert [1, 2, 1][..2] == [1, 2];
    assert [1, 2][..1] == [1];
    assert [2, 1][..1] == [2];
    assert Ids(2) == [1, 2];
    IdsNoDuplicates(2);
  }

  // ---------------------------------------------------------------------------
  // Touch-start

  /** The order after touch-start. The state is first cleared to [], then set to [1]
      when the hit node is id 1 and absent from the order read before the call. */
  function StartOrder(prev: seq<nat>, hit: Option<Node>): (r: seq<nat>)
    ensures r == [] || r == [1]
  {
    if hit.Some? && hit.value.id !in prev && hit.value.id == 1 then [1] else []
  }

  /** Because the check reads the order from before the call, a stroke starts at [1]
      only after a stroke that connected nothing: restarting on node 1 right after a
      stroke that visited 1 yields []. */
  lemma StartOrderOnPrefix(prev: seq<nat>, n: nat, hit: Option<Node>)
    requires IsOrderPrefix(prev, n)
    ensures StartOrder(prev, hit) == [1] <==> prev == [] && hit.Some? && hit.value.id == 1
    ensures prev != [] ==> StartOrder(prev, hit) == []
  {
    if prev != [] {
      assert prev[0] == 1;
    }
  }

  // ---------------------------------------------------------------------------
  // The component

  /** A `setTimeout` callback the component has scheduled, with the values it captured. */
  datatype Pending =
    | VerifyDelay(correct: bool)   // 1000 ms after verify
    | FailureClear                 // 2000 ms after VerifyDelay(false)
    | SuccessReset                 // 1500 ms after VerifyDelay(true)

  class Captcha {
    /** CANVAS_WIDTH (and CANVAS_HEIGHT), fixed when the module loads. */
    const width: real

    var numbers: seq<Node>
    var path: seq<PathCmd>
    var livePath: seq<PathCmd>
    var connectedOrder: seq<nat>
    var pathColor: PathColor
    var isDrawing: bool
    var isVerifying: bool
    var missedNumbers: seq<nat>
    var showMissed: bool
    var showSuccessModal: bool

    /** The canvas side is at most MaxCanvasSize, the layout has ids 1..N (N >= 1) and the
        connected order is some [1..k], k <= N. */
    ghost predicate Valid()
      reads this
    {
      width <= MaxCanvasSize && |numbers| >= 1 && IdsInOrder(numbers) && IsOrderPrefix(connectedOrder, |numbers|)
    }

    /** `useState(generateNumbers())` and the other initial states. */
    constructor (windowWidth: real, pick: real, draws: seq<Draw>)
      requires IsRandom(pick) && |draws| >= PickedShape(pick).count
      requires forall d :: d in draws ==> IsRandomDraw(d)
      ensures Valid()
      ensures width == CanvasWidth(windowWidth) && numbers == Layout(PickedShape(pick), draws, width)
      ensures Margin * 2.0 <= windowWidth * 0.9 ==> forall n :: n in numbers ==> InCanvas(n, width)
      ensures path == [] && livePath == [] && connectedOrder == [] && pathColor == Neutral
      ensures !isDrawing && !isVerifying
      ensures missedNumbers == [] && !showMissed && !showSuccessModal
    {
      var side := CanvasWidth(windowWidth);
      var ns := GenerateNumbers(side, pick, draws);
      width := side;
      numbers := ns;
      path, livePath, connectedOrder := [], [], [];
      pathColor := Neutral;
      isDrawing, isVerifying := false, false;
      missedNumbers, showMissed, showSuccessModal := [], false, false;
    }

    /** `handleReset`: a new layout and every other field back to its initial value.
        The hold button's reset and the animation value are not part of this model. */
    method Reset(pick: real, draws: seq<Draw>)
      requires Valid()
      requires IsRandom(pick) && |draws| >= PickedShape(pick).count
      requires forall d :: d in draws ==> IsRandomDraw(d)
      modifies this
      ensures Valid()
      ensures numbers == Layout(PickedShape(pick), draws, width)
      ensures Margin * 2.0 <= width ==> forall n :: n in numbers ==> InCanvas(n, width)
      ensures path == [] && livePath == [] && connectedOrder == [] && pathColor == Neutral
      ensures !isDrawing && !isVerifying
      ensures missedNumbers == [] && !showMissed && !showSuccessModal
    {
      numbers := GenerateNumbers(width, pick, draws);
      path := [];
      livePath := [];
      connectedOrder := [];
      pathColor := Neutral;
      isDrawing := false;
      isVerifying := false;
      missedNumbers := [];
      showMissed := false;
      showSuccessModal := false;
    }

    /** `handleTouchStart`: ignored while verifying; otherwise starts a new stroke,
        discarding the committed path and the connected order. */
    method TouchStart(x: real, y: real)
      requires Valid()
      modifies this
      ensures Valid()
      ensures old(isVerifying) ==> unchanged(this)
      ensures !old(isVerifying) ==>
        && isDrawing && path == [] && livePath == [MoveTo(x, y)]
        && connectedOrder == StartOrder(old(connectedOrder), FirstHit(numbers, x, y))
        && (connectedOrder == [1] <==>
              old(connectedOrder) == [] && FirstHit(numbers, x, y).Some? && FirstHit(numbers, x, y).value.id == 1)
        && numbers == old(numbers) && pathColor == old(pathColor) && isVerifying == old(isVerifying)
        && missedNumbers == old(missedNumbers) && showMissed == old(showMissed)
        && showSuccessModal == old(showSuccessModal)
    {
      if isVerifying {
        return;
      }
      var hitNumber := CheckCollision(x, y, numbers);
      var prev := connectedOrder;
      isDrawing := true;
      path := [];
      connectedOrder := [];
      if hitNumber.Some? && hitNumber.value.id !in prev {
        if hitNumber.value.id == 1 {
          connectedOrder := [1];
        }
      }
      livePath := [MoveTo(x, y)];
      StartOrderOnPrefix(prev, |numbers|, hitNumber);
    }

    /** `handleTouchMove`: ignored unless drawing and not verifying; otherwise extends
        the live path by one line and the order by the ExtendOrder rule. */
    method TouchMove(x: real, y: real)
      requires Valid()
      modifies this
      ensures Valid()
      ensures !old(isDrawing) || old(isVerifying) ==> unchanged(this)
      ensures old(isDrawing) && !old(isVerifying) ==>
        && livePath == old(livePath) + [LineTo(x, y)]
        && connectedOrder == ExtendOrder(old(connectedOrder), FirstHit(numbers, x, y))
        && numbers == old(numbers) && path == old(path) && pathColor == old(pathColor)
        && isDrawing == old(isDrawing) && isVerifying == old(isVerifying)
        && missedNumbers == old(missedNumbers) && showMissed == old(showMissed)
        && showSuccessModal == old(showSuccessModal)
    {
      if !isDrawing || isVerifying {
        return;
      }
      livePath := livePath + [LineTo(x, y)];
      var hitNumber := CheckCollision(x, y, numbers);
      ExtendOrderKeepsPrefix(connectedOrder, numbers, x, y);
      if hitNumber.Some? && hitNumber.value.id !in connectedOrder {
        if connectedOrder != [] && hitNumber.value.id == connectedOrder[|connectedOrder| - 1] + 1 {
          connectedOrder := connectedOrder + [hitNumber.value.id];
        }
      }
    }

    /** `handleTouchEnd`: ignored while verifying; otherwise commits the live path. */
    method TouchEnd()
      requires Valid()
      modifies this
      ensures Valid()
      ensures old(isVerifying) ==> unchanged(this)
      ensures !old(isVerifying) ==>
        && !isDrawing && path == old(path) + old(livePath) && livePath == []
        && numbers == old(numbers) && connectedOrder == old(connectedOrder)
        && pathColor == old(pathColor) && isVerifying == old(isVerifying)
        && missedNumbers == old(missedNumbers) && showMissed == old(showMissed)
        && showSuccessModal == old(showSuccessModal)
    {
      if isVerifying {
        return;
      }
      isDrawing := false;
      path := path + livePath;
      livePath := [];
    }

    /** `handleVerify`: ignored while verifying; otherwise judges the connected order,
        sets the tint and the feedback, and schedules the verify-delay callback. */
    method Verify() returns (scheduled: Option<Pending>)
      requires Valid()
      modifies this
      ensures Valid()
      ensures old(isVerifying) ==> unchanged(this) && scheduled == None
      ensures !old(isVerifying) ==>
        var correct := IsCorrect(connectedOrder, |numbers|);
        && isVerifying
        && scheduled == Some(VerifyDelay(correct))
        && pathColor == (if correct then Success else Failure)
        && missedNumbers == (if correct then [] else Missed(connectedOrder, |numbers|))
        && showMissed == !correct && showSuccessModal == correct
        && numbers == old(numbers) && path == old(path) && livePath == old(livePath)
        && connectedOrder == old(connectedOrder) && isDrawing == old(isDrawing)
      // what the outcome means on the orders the gestures produce
      ensures !old(isVerifying) ==>
        && (showSuccessModal <==> |connectedOrder| == |numbers|)
        && missedNumbers == Ids(|numbers|)[|connectedOrder|..]
        && (Feedback.MissedBannerShown(showMissed, missedNumbers) <==> !showSuccessModal)
    {
      if isVerifying {
        return None;
      }
      isVerifying := true;
      var expectedOrder := Ids(|numbers|);
      var cleanedConnectedOrder := RemoveDuplicates(connectedOrder);
      var cleanedExpectedOrder := RemoveDuplicates(expectedOrder);
      var isCorrect := cleanedConnectedOrder == cleanedExpectedOrder;
      pathColor := if isCorrect then Success else Failure;
      if !isCorrect {
        missedNumbers := Missed(connectedOrder, |numbers|);
        showMissed := true;
        showSuccessModal := false;
      } else {
        missedNumbers := [];
        showMissed := false;
        showSuccessModal := true;
      }
      OutcomeOnPrefix(connectedOrder, |numbers|);
      return Some(VerifyDelay(isCorrect));
    }

    /** The callback 1000 ms after verify: ends the verifying phase and schedules the
        failure clear or the success reset. */
    method VerifyDelayElapsed(correct: bool) returns (next: Pending)
      requires Valid()
      modifies this
      ensures Valid()
      ensures !isVerifying && next == (if correct then SuccessReset else FailureClear)
      ensures numbers == old(numbers) && path == old(path) && livePath == old(livePath)
      ensures connectedOrder == old(connectedOrder) && pathColor == old(pathColor)
      ensures isDrawing == old(isDrawing) && missedNumbers == old(missedNumbers)
      ensures showMissed == old(showMissed) && showSuccessModal == old(showSuccessModal)
    {
      isVerifying := false;
      if !correct {
        next := FailureClear;
      } else {
        next := SuccessReset;
      }
    }

    /** The callback 2000 ms after a failed verdict: hides the missed banner and
        restores the neutral tint; the layout, the path and the order stay. */
    method FailureClearElapsed()
      requires Valid()
      modifies this
      ensures Valid()
      ensures !showMissed && pathColor == Neutral
      ensures numbers == old(numbers) && path == old(path) && livePath == old(livePath)
      ensures connectedOrder == old(connectedOrder) && isDrawing == old(isDrawing)
      ensures isVerifying == old(isVerifying) && missedNumbers == old(missedNumbers)
      ensures showSuccessModal == old(showSuccessModal)
    {
      showMissed := false;
      pathColor := Neutral;
    }

    /** The callback 1500 ms after a correct verdict: a full reset with a new layout. */
    method SuccessResetElapsed(pick: real, draws: seq<Draw>)
      requires Valid()
      requires IsRandom(pick) && |draws| >= PickedShape(pick).count
      requires forall d :: d in draws ==> IsRandomDraw(d)
      modifies this
      ensures Valid()
      ensures numbers == Layout(PickedShape(pick), draws, width)
      ensures Margin * 2.0 <= width ==> forall n :: n in numbers ==> InCanvas(n, width)
      ensures path == [] && livePath == [] && connectedOrder == [] && pathColor == Neutral
      ensures !isDrawing && !isVerifying
      ensures missedNumbers == [] && !showMissed && !showSuccessModal
    {
      Reset(pick, draws);
    }
  }
}
