/**
  The circular on-screen button (thatcherizer.py:569-666). It turns the mouse
  events it is shown into the semantic tags 'enter', 'move', 'down', 'up',
  'click' and 'exit'. The distance test `hypot(dx, dy) < r` is done on squared
  integers, which agrees with it for every integer position and radius
  (`InsideMeansCloser`).
*/
module Buttons {
  import opened Wrappers
  import opened Geometry
  import opened Events

  datatype Tag = Enter | Move | Down | Up | Click | Exit

  /**
    `lastDownOver` is the attribute `lastMouseButtonDownOverButton`, which the
    constructor does not create: `None` stands for "not yet set", and reading
    it in that state fails as the attribute lookup does.
  */
  datatype Button = Button(
    cx: int, cy: int, r: nat,
    buttonDown: bool, mouseOver: bool, hovering: bool,
    lastDownOver: Option<bool>)

  /** What one event does to a button: its new state and the tags it reports. */
  datatype Reaction = Reaction(button: Button, tags: seq<Tag>)

  function New(cx: int, cy: int, r: nat): (b: Button)
    ensures !b.buttonDown && !b.mouseOver && !b.hovering && b.lastDownOver.None?
    ensures b.cx == cx && b.cy == cy && b.r == r
  {
    Button(cx, cy, r, false, false, false, None)
  }

  function Dist2(b: Button, p: Point): nat
  {
    (p.x - b.cx) * (p.x - b.cx) + (p.y - b.cy) * (p.y - b.cy)
  }

  /** The mouse position is strictly inside the circle. */
  predicate Inside(b: Button, p: Point)
  {
    Dist2(b, p) < b.r * b.r
  }

  /** The mouse position is strictly outside the circle. */
  predicate Outside(b: Button, p: Point)
  {
    Dist2(b, p) > b.r * b.r
  }

  /** `Button.handleEvent`. */
  function HandleEvent(b: Button, e: Event): (res: Result<Reaction>)
    // non-mouse events change nothing and report nothing
    ensures !IsMouse(e) ==> res == Ok(Reaction(b, []))
    // the only failure: a release inside before the attribute was ever set
    ensures res.Err? <==> (e.Release? && Inside(b, e.pos) && b.lastDownOver.None?)
    ensures res.Ok? ==> var b' := res.value.button;
      && b'.cx == b.cx && b'.cy == b.cy && b'.r == b.r
      && (e.Release? ==> !b'.buttonDown && b'.lastDownOver == Some(false))
      && (e.Press? ==> b'.lastDownOver == Some(Inside(b, e.pos)))
      && (e.Motion? ==> b'.lastDownOver == b.lastDownOver)
      && (IsMouse(e) ==> b'.mouseOver == (if Inside(b, e.pos) then true else if Outside(b, e.pos) then false else b.mouseOver))
  {
    if !IsMouse(e) then Ok(Reaction(b, []))
    else
      var p := e.pos;
      var inside := Inside(b, p);
      // entering or leaving the circle; on the circle itself neither fires
      var entered := inside && !b.mouseOver;
      var exited := !entered && Outside(b, p) && b.mouseOver;
      var over := if entered then true else if exited then false else b.mouseOver;
      var tags1 := if entered then [Enter] else [];
      // what happens over the button
      var hovering2 := if inside && e.Motion? then true else b.hovering;
      var down2 := if inside && e.Press? then true else b.buttonDown;
      var last2 :=
        if inside && e.Press? then Some(true)
        else if !inside && (e.Press? || e.Release?) then Some(false)
        else b.lastDownOver;
      var tags2 :=
        if inside && e.Motion? then tags1 + [Move]
        else if inside && e.Press? then tags1 + [Down]
        else tags1;
      if e.Release? && last2.None? then
        Err("lastMouseButtonDownOverButton read before it was set")
      else
        // a release is handled wherever it happens
        var clicked := e.Release? && last2 == Some(true);
        var last3 := if e.Release? then Some(false) else last2;
        var tags3 := tags2 + (if e.Release? && down2 then [Up] else []) + (if clicked then [Click] else []);
        var down3 := if e.Release? then false else down2;
        var hovering3 := if exited then false else hovering2;
        var tags4 := tags3 + (if exited then [Exit] else []);
        Ok(Reaction(Button(b.cx, b.cy, b.r, down3, over, hovering3, last3), tags4))
  }

  /** A click is a release inside after a press that was inside; 'up' is any release of a held button. */
  lemma PressTags(b: Button, e: Event)
    requires HandleEvent(b, e).Ok?
    ensures var tags := HandleEvent(b, e).value.tags;
      && (Click in tags <==> e.Release? && Inside(b, e.pos) && b.lastDownOver == Some(true))
      && (Down in tags <==> e.Press? && Inside(b, e.pos))
      && (Up in tags <==> e.Release? && b.buttonDown)
  {
    match e
    case Motion(_) =>
    case Press(_) =>
    case Release(_) =>
    case _ =>
  }

  /** 'enter' and 'exit' fire on crossing the circle, 'move' on motion inside it. */
  lemma HoverTags(b: Button, e: Event)
    requires HandleEvent(b, e).Ok?
    ensures var tags := HandleEvent(b, e).value.tags;
      && (Enter in tags <==> IsMouse(e) && Inside(b, e.pos) && !b.mouseOver)
      && (Exit in tags <==> IsMouse(e) && Outside(b, e.pos) && b.mouseOver)
      && (Move in tags <==> e.Motion? && Inside(b, e.pos))
  {
    match e
    case Motion(_) =>
    case Press(_) =>
    case Release(_) =>
    case _ =>
  }

  /**
    The squared-distance test agrees with comparing the Euclidean distance
    `d`, a real number as `math.hypot` returns it, to the radius.
  */
  lemma InsideMeansCloser(b: Button, p: Point, d: real)
    requires d >= 0.0 && d * d == Dist2(b, p) as real
    ensures Inside(b, p) <==> d < b.r as real
    ensures Outside(b, p) <==> d > b.r as real
  {
    var r := b.r as real;
    assert (b.r * b.r) as real == r * r;
    if d < r {
      MulStrict(d, r);
    } else if d > r {
      MulStrict(r, d);
    }
  }

  lemma MulStrict(a: real, c: real)
    requires 0.0 <= a < c
    ensures a * a < c * c
  {
    var e := c - a;
    assert c * c == a * a + 2.0 * a * e + e * e;
  }

  /** Feeds a whole event list to one button, collecting the reactions. */
  function HandleAll(b: Button, evs: seq<Event>): Result<Button>
    decreases |evs|
  {
    if |evs| == 0 then Ok(b)
    else match HandleEvent(b, evs[0])
      case Err(m) => Err(m)
      case Ok(rc) => HandleAll(rc.button, evs[1..])
  }

  /**
    The value `lastDownOver` should have after `evs`: the last press or
    release decides it, and only a press inside the circle makes it true.
  */
  function LastPressInside(b: Button, evs: seq<Event>, start: Option<bool>): Option<bool>
    decreases |evs|
  {
    if |evs| == 0 then start
    else
      var e := evs[|evs| - 1];
      if e.Press? then Some(Inside(b, e.pos))
      else if e.Release? then Some(false)
      else LastPressInside(b, evs[..|evs| - 1], start)
  }

  /**
    After any event list that does not fail, `lastDownOver` records whether the
    last press or release was a press inside the button; so the next release
    inside the button is a click exactly when that last event was such a press.
  */
  lemma {:induction false} LastDownTracksHistory(b: Button, evs: seq<Event>)
    requires HandleAll(b, evs).Ok?
    ensures var b' := HandleAll(b, evs).value;
      b'.lastDownOver == LastPressInside(b, evs, b.lastDownOver)
      && b'.cx == b.cx && b'.cy == b.cy && b'.r == b.r
    decreases |evs|
  {
    if |evs| > 0 {
      var rc := HandleEvent(b, evs[0]).value;
      LastDownTracksHistory(rc.button, evs[1..]);
      LastPressShift(b, rc.button, evs, b.lastDownOver, rc.button.lastDownOver);
    }
  }

  /** Splitting off the first event of the history. */
  lemma {:induction false} LastPressShift(b: Button, b1: Button, evs: seq<Event>, start: Option<bool>, start1: Option<bool>)
    requires |evs| > 0 && b1.cx == b.cx && b1.cy == b.cy && b1.r == b.r
    requires start1 == LastPressInside(b, [evs[0]], start)
    ensures LastPressInside(b1, evs[1..], start1) == LastPressInside(b, evs, start)
    decreases |evs|
  {
    if |evs| > 1 {
      var n := |evs|;
      assert evs[1..][..n - 2] == evs[..n - 1][1..];
      LastPressShift(b, b1, evs[..n - 1], start, start1);
      assert evs[1..][n - 2] == evs[n - 1];
    }
  }

  /** A press and release inside a fresh button click it; the release reports 'up' then 'click'. */
  lemma PressReleaseClicks(cx: int, cy: int, r: nat, p: Point)
    requires Inside(New(cx, cy, r), p)
    ensures var b0 := New(cx, cy, r);
      var r1 := HandleEvent(b0, Press(p));
      r1.Ok? && r1.value.tags == [Enter, Down]
      && var r2 := HandleEvent(r1.value.button, Release(p));
      r2.Ok? && r2.value.tags == [Up, Click] && !r2.value.button.buttonDown
  {
  }
}
