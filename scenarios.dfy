/** Client scenarios: a concrete round on the arrow shape (pick 0.5, no jitter, a
    500-unit window, hence a 400-unit canvas), driven only through the components' contracts. */
module Scenarios {
  import opened Wrappers
  import opened Types
  import opened Shapes
  import opened Utils
  import opened Gesture
  import CaptchaSession
  import LegacyCaptcha
  import Feedback

  /** The arrow layout on a 400-unit canvas when every jitter draw is 0.5. */
  function ArrowNodes(): seq<Node> {
    [Node(1, 296.0, 200.0), Node(2, 232.0, 136.0), Node(3, 232.0, 168.0), Node(4, 104.0, 168.0),
     Node(5, 104.0, 232.0), Node(6, 232.0, 232.0), Node(7, 232.0, 264.0)]
  }

  /** A touch on node 1's centre hits node 1, and one on node 2's centre hits node 2. */
  lemma ArrowHits()
    ensures FirstHit(ArrowNodes(), 296.0, 200.0) == Some(ArrowNodes()[0])
    ensures FirstHit(ArrowNodes(), 232.0, 136.0) == Some(ArrowNodes()[1])
  {
    var ns := ArrowNodes();
    assert Touches(ns[0], 296.0, 200.0);
    assert !Touches(ns[0], 232.0, 136.0) && Touches(ns[1], 232.0, 136.0);
  }

  /** Arrow nodes with zero jitter: node i sits at (p.x * 320 + 40, p.y * 320 + 40). */
  lemma ArrowLayout(draws: seq<Draw>)
    requires |draws| == 7 && forall d :: d in draws ==> d == Draw(0.5, 0.5)
    ensures ShapeIndex(0.5) == 2 && PickedShape(0.5) == Arrow()
    ensures Layout(Arrow(), draws, 400.0) == ArrowNodes()
  {
    assert (0.5 * 5.0).Floor == 2;
    forall i | 0 <= i < 7 ensures draws[i] == Draw(0.5, 0.5) {
      assert draws[i] in draws;
    }
  }

  /** Stroke 1 -> 2 on the 7-node arrow and release: the order is [1, 2]. */
  method NewerPartialStroke()
  {
    var draws := seq(7, _ => Draw(0.5, 0.5));
    ArrowLayout(draws);
    var c := new CaptchaSession.Captcha(500.0, 0.5, draws);
    ArrowHits();
    c.TouchStart(296.0, 200.0);
    assert c.connectedOrder == [1];
    c.TouchMove(232.0, 136.0);
    assert c.connectedOrder == [1, 2];
    c.TouchEnd();
    assert c.connectedOrder == [1, 2] && !c.isVerifying && |c.numbers| == 7;
  }

  /** Verifying the order [1, 2] on a 7-node layout fails and misses 3..7; the failure
      callbacks then clear the banner and the tint but keep the layout. */
  method NewerPartialFailure(c: CaptchaSession.Captcha)
    requires c.Valid() && |c.numbers| == 7 && c.connectedOrder == [1, 2] && !c.isVerifying
    modifies c
  {
    var ns := c.numbers;
    var scheduled := c.Verify();
    assert scheduled == Some(CaptchaSession.VerifyDelay(false));
    assert c.missedNumbers == [3, 4, 5, 6, 7];
    assert c.pathColor == Failure && c.showMissed && !c.showSuccessModal;
    var next := c.VerifyDelayElapsed(false);
    assert next == CaptchaSession.FailureClear;
    c.FailureClearElapsed();
    assert c.pathColor == Neutral && !c.showMissed && c.numbers == ns;
  }

  /** Restarting on node 1 right after a stroke that visited node 1 connects nothing. */
  method NewerRestartOnOne()
  {
    var draws := seq(7, _ => Draw(0.5, 0.5));
    ArrowLayout(draws);
    var c := new CaptchaSession.Captcha(500.0, 0.5, draws);
    ArrowHits();
    c.TouchStart(296.0, 200.0);
    assert c.connectedOrder == [1];
    c.TouchEnd();
    c.TouchStart(296.0, 200.0);
    assert c.connectedOrder == [];
  }

  /** In the legacy component a stroke keeps the previous stroke's order: 1, release, then 2. */
  method LegacyStrokesAccumulate()
  {
    var draws := seq(7, _ => Draw(0.5, 0.5));
    ArrowLayout(draws);
    var c := new LegacyCaptcha.Captcha(500.0, 0.5, draws);
    ArrowHits();
    c.TouchStart(296.0, 200.0);
    assert c.connectedOrder == [1];
    c.TouchEnd();
    // A second stroke, started on node 2, keeps the first stroke's order and extends it.
    c.TouchStart(232.0, 136.0);
    assert c.connectedOrder == [1];
    c.TouchMove(232.0, 136.0);
    assert c.connectedOrder == [1, 2];
  }
}
