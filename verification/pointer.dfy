/** Pointer input shared by the image widgets: positions, buttons, and the
    one request a mouse event can make of the renderer. */
module Pointer {

  /** `event.position()`: a widget position in floating-point pixels. */
  datatype Pos = Pos(x: real, y: real)

  /** `event.button()`: the button that was pressed. */
  datatype Button = LeftButton | RightButton | MiddleButton

  /** `event.buttons()` during a move: which buttons are held. */
  datatype Held = Held(left: bool, right: bool)

  /** What a mouse event asks of the renderer, if anything. */
  datatype Effect =
    | NoEffect
    | ClickAt(x: nat, y: nat)      // handle_click(x, y)
    | RotateBy(dx: real, dy: real) // rotate_view(dx, dy)
    | PanBy(dx: real, dy: real)    // pan_view(dx, dy)
    | ZoomBy(delta: int)           // zoom_view(angleDelta().y())

  /** The navigation drag: the offset from the last position rotates when
      the left button is held, otherwise pans when the right button is
      held, and does nothing with neither. */
  function Drag(from: Pos, to: Pos, held: Held): (e: Effect)
    ensures e.RotateBy? <==> held.left
    ensures e.PanBy? <==> !held.left && held.right
    ensures e.RotateBy? || e.PanBy? ==> e.dx == to.x - from.x && e.dy == to.y - from.y
    ensures e.RotateBy? || e.PanBy? || e == NoEffect
  {
    if held.left then RotateBy(to.x - from.x, to.y - from.y)
    else if held.right then PanBy(to.x - from.x, to.y - from.y)
    else NoEffect
  }
}
