/**
  The drag-rectangle editor for one facial feature (thatcherizerTools.py:155-212).
  It keeps two anchor points in screen coordinates; a press inside the viewer
  starts a new rectangle, motion while pressed moves the second anchor, and a
  release ends the drag. `get_rect` normalises the anchors into (x, y, w, h).
*/
module Features {
  import opened Geometry
  import opened Events

  datatype Label = LeftEye | RightEye | Mouth

  /**
    `currentRect` is the last rectangle `get_rect` produced (or the starting
    rectangle); it is what the feature hands to the compositor.
  */
  datatype Feature = Feature(
    kind: Label, buttonDown: bool, pt1: Point, pt2: Point,
    isRect: bool, currentRect: Rect)

  function New(kind: Label, r: Rect): (f: Feature)
    ensures f.kind == kind && !f.buttonDown && f.isRect && f.currentRect == r
    ensures f.pt1 == Point(r.x, r.y) && f.pt2 == Point(r.x + r.w, r.y + r.h)
  {
    Feature(kind, false, Point(r.x, r.y), Point(r.x + r.w, r.y + r.h), true, r)
  }

  /** The open box 200 < x < 600, 40 < y < 440 of the screen that accepts edits. */
  predicate InViewer(p: Point)
  {
    200 < p.x < 600 && 40 < p.y < 440
  }

  /** `FacialFeature.handleEvent`. */
  function HandleEvent(f: Feature, e: Event): (f': Feature)
    // outside the viewer, and for non-mouse events, nothing changes
    ensures !IsMouse(e) || !InViewer(e.pos) ==> f' == f
    ensures f'.kind == f.kind && f'.currentRect == f.currentRect
    ensures IsMouse(e) && InViewer(e.pos) ==>
      // a press starts a new rectangle unless a drag is already under way
      && (e.Press? && !f.buttonDown ==> f'.buttonDown && f'.pt1 == e.pos && !f'.isRect && f'.pt2 == f.pt2)
      && (e.Press? && f.buttonDown ==> f' == f)
      // motion while pressed moves the second anchor and makes it a rectangle
      && (e.Motion? && f.buttonDown ==> f' == f.(pt2 := e.pos, isRect := true))
      && (e.Motion? && !f.buttonDown ==> f' == f)
      // a release ends the drag and keeps the anchors
      && (e.Release? ==> f' == f.(buttonDown := false))
  {
    if !IsMouse(e) || !InViewer(e.pos) then f
    else
      var f1 := if e.Press? && !f.buttonDown then f.(buttonDown := true, pt1 := e.pos, isRect := false) else f;
      var f2 := if e.Motion? && f1.buttonDown then f1.(pt2 := e.pos, isRect := true) else f1;
      if e.Release? && f2.buttonDown then f2.(buttonDown := false) else f2
  }

  function Abs(n: int): nat
  {
    if n < 0 then -n else n
  }

  /** The rectangle spanned by two anchor points. */
  function Normalize(p1: Point, p2: Point): (r: Rect)
    ensures r.w >= 0 && r.h >= 0
    // the rectangle's two corners are exactly the anchors' coordinates
    ensures {r.x, r.x + r.w} == {p1.x, p2.x}
    ensures {r.y, r.y + r.h} == {p1.y, p2.y}
  {
    var x1 := if p1.x < p2.x then p1.x else p2.x;
    var y1 := if p1.y < p2.y then p1.y else p2.y;
    Rect(x1, y1, Abs(p1.x - p2.x), Abs(p1.y - p2.y))
  }

  /** Normalising does not depend on which anchor came first. */
  lemma NormalizeSymmetric(p1: Point, p2: Point)
    ensures Normalize(p1, p2) == Normalize(p2, p1)
  {
  }

  /** The rectangle returned by `get_rect`, and the feature with `currentRect` updated. */
  datatype RectAndFeature = RectAndFeature(rect: Rect, feature: Feature)

  /** `FacialFeature.get_rect`: the zero rectangle until the drag has moved. */
  function GetRect(f: Feature): (res: RectAndFeature)
    ensures res.rect.w >= 0 && res.rect.h >= 0
    ensures f.isRect ==> res.rect == Normalize(f.pt1, f.pt2) && res.feature == f.(currentRect := res.rect)
    ensures !f.isRect ==> res.rect == Rect(0, 0, 0, 0) && res.feature == f
  {
    if f.isRect then
      var r := Normalize(f.pt1, f.pt2);
      RectAndFeature(r, f.(currentRect := r))
    else RectAndFeature(Rect(0, 0, 0, 0), f)
  }

  /** A feature started on a rectangle with non-negative size reports that same rectangle. */
  lemma NewThenGetRect(kind: Label, r: Rect)
    requires r.w >= 0 && r.h >= 0
    ensures GetRect(New(kind, r)).rect == r
    ensures GetRect(New(kind, r)).feature == New(kind, r)
  {
  }

  /** Swapping the anchors does not change what `get_rect` reports. */
  lemma GetRectSwapInvariant(f: Feature)
    ensures GetRect(f.(pt1 := f.pt2, pt2 := f.pt1)).rect == GetRect(f).rect
  {
    NormalizeSymmetric(f.pt1, f.pt2);
  }

  /** After a press inside the viewer, and before any motion, `get_rect` is the zero rectangle. */
  lemma PressGivesZeroRect(f: Feature, p: Point, evs: seq<Event>)
    requires !f.buttonDown && InViewer(p)
    requires forall i :: 0 <= i < |evs| ==> !evs[i].Motion?
    ensures GetRect(HandleAll(HandleEvent(f, Press(p)), evs)).rect == Rect(0, 0, 0, 0)
  {
    NoMotionKeepsZero(HandleEvent(f, Press(p)), evs);
  }

  lemma {:induction false} NoMotionKeepsZero(f: Feature, evs: seq<Event>)
    requires !f.isRect
    requires forall i :: 0 <= i < |evs| ==> !evs[i].Motion?
    ensures !HandleAll(f, evs).isRect
    decreases |evs|
  {
    if |evs| > 0 {
      NoMotionKeepsZero(HandleEvent(f, evs[0]), evs[1..]);
    }
  }

  /** Feeds an event list to one feature. */
  function HandleAll(f: Feature, evs: seq<Event>): Feature
    decreases |evs|
  {
    if |evs| == 0 then f else HandleAll(HandleEvent(f, evs[0]), evs[1..])
  }

  /** Every rectangle drawn by a completed drag lies strictly inside the viewer box. */
  lemma DraggedRectInViewer(f: Feature)
    requires f.isRect && InViewer(f.pt1) && InViewer(f.pt2)
    ensures var r := GetRect(f).rect;
      200 < r.x && r.x + r.w < 600 && 40 < r.y && r.y + r.h < 440
  {
  }

  /** Anchors that start inside the viewer stay there, whatever events arrive. */
  lemma {:induction false} AnchorsStayInViewer(f: Feature, evs: seq<Event>)
    requires InViewer(f.pt1) && InViewer(f.pt2)
    ensures InViewer(HandleAll(f, evs).pt1) && InViewer(HandleAll(f, evs).pt2)
    decreases |evs|
  {
    if |evs| > 0 {
      AnchorsStayInViewer(HandleEvent(f, evs[0]), evs[1..]);
    }
  }
}
