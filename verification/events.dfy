/** The input events the kiosk's states receive from pygame. */
module Events {
  import opened Geometry

  /**
    Mouse motion, button press and button release carry a position; `Quit`
    is the window-close request, `Escape` the escape key, and `Other` any
    further event (other keys), which every handler ignores.
  */
  datatype Event =
    | Motion(pos: Point)
    | Press(pos: Point)
    | Release(pos: Point)
    | Quit
    | Escape
    | Other

  predicate IsMouse(e: Event)
  {
    e.Motion? || e.Press? || e.Release?
  }

  /** The events that end the application loop (thatcherizer.py:106-110). */
  predicate IsKill(e: Event)
  {
    e.Quit? || e.Escape?
  }
}
