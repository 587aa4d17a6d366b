/** Gesture logic that components/captcha/index.tsx and components/Captcha.tsx
    share line for line: path commands, the stroke tint, the expected order and
    the rule by which a touch-move extends the connected order. */
module Gesture {
  import opened Wrappers
  import opened Types
  import opened Utils

  /** One SVG path command: `M x,y` opens a stroke, `L x,y` continues it. */
  datatype PathCmd = MoveTo(x: real, y: real) | LineTo(x: real, y: real)

  /** The path tint: the theme's text colour, the success green or the failure red. */
  datatype PathColor = Neutral | Success | Failure

  /** [1, 2, ..., k]. */
  function Ids(k: nat): seq<nat> {
    seq(k, i requires 0 <= i < k => (i + 1) as nat)
  }

  /** The states the connected order can be in: a prefix [1..k] of the n ids. */
  ghost predicate IsOrderPrefix(order: seq<nat>, n: nat) {
    |order| <= n && order == Ids(|order|)
  }

  lemma IdsStep(k: nat)
    ensures Ids(k + 1) == Ids(k) + [k + 1]
  {
  }

  /** The touch-move rule: append the hit node's id when it is absent from the order
      and equals the last id plus one. An empty order has no last id (the source adds
      1 to `undefined`, which never equals an id), so it is never extended. */
  function ExtendOrder(order: seq<nat>, hit: Option<Node>): (r: seq<nat>)
    ensures r == order || (hit.Some? && r == order + [hit.value.id])
    ensures order == [] ==> r == []
    ensures r != order ==> hit.value.id !in order && hit.value.id == order[|order| - 1] + 1
  {
    if hit.Some? && hit.value.id !in order && order != [] && hit.value.id == order[|order| - 1] + 1
    then order + [hit.value.id]
    else order
  }

  /** A move keeps the order a prefix [1..k] of the layout's ids, and grows it exactly
      when the order is non-empty and the move hits node k + 1. */
  lemma ExtendOrderKeepsPrefix(order: seq<nat>, numbers: seq<Node>, x: real, y: real)
    requires IdsInOrder(numbers) && IsOrderPrefix(order, |numbers|)
    ensures IsOrderPrefix(ExtendOrder(order, FirstHit(numbers, x, y)), |numbers|)
    ensures var hit := FirstHit(numbers, x, y);
            ExtendOrder(order, hit) ==
              if |order| >= 1 && hit.Some? && hit.value.id == |order| + 1 then Ids(|order| + 1) else order
  {
    var hit := FirstHit(numbers, x, y);
    FirstHitInLayout(numbers, x, y);
    var k := |order|;
    IdsStep(k);
    if k >= 1 && hit.Some? && hit.value.id == k + 1 {
      assert order[k - 1] == k;
      assert hit.value.id !in order;
    }
  }
}
