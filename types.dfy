/** Shared types and canvas constants of the captcha (components/captcha/types.ts). */
module Types {

  /** A numbered target on the canvas. Ids are positive and their order is the answer. */
  datatype Node = Node(id: nat, x: real, y: real)

  /** Largest side of the square canvas. */
  const MaxCanvasSize: real := 400.0

  /** Radius of a node's hit circle, shared by the layout margin and the hit test. */
  const NumberRadius: real := 20.0

  /** Side of the square canvas: 90% of the window width, capped at MaxCanvasSize.
      The window width is supplied by the platform. */
  function CanvasWidth(windowWidth: real): (w: real)
    ensures w <= MaxCanvasSize && w <= windowWidth * 0.9
    ensures w == MaxCanvasSize || w == windowWidth * 0.9
  {
    if windowWidth * 0.9 < MaxCanvasSize then windowWidth * 0.9 else MaxCanvasSize
  }
}
