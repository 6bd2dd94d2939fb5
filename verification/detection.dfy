/**
  Post-processing of the cascade classifier's detections
  (thatcherizerTools.py:70-151). The classifier itself is outside the model:
  its list of (x, y, w, h) detections is an input, and so is the eye-height
  rule `int(w / 1.7)`, which works in floating point.
*/
module Detection {
  import opened Geometry

  // Guide-based default rectangles, image coordinates (thatcherizerTools.py:82-84).
  const DefaultLeftEye: Rect := Rect(240, 155, 50, 30)
  const DefaultRightEye: Rect := Rect(345, 155, 50, 30)
  const DefaultMouth: Rect := Rect(275, 255, 90, 60)

  datatype Eyes = Eyes(left: Rect, right: Rect)

  /** Horizontal centre of a detection, with Python 2 floor division. */
  function CenterX(d: Rect): int
  {
    d.x + d.w / 2
  }

  /** A detection whose centre is at or left of the image centre is a left eye. */
  predicate IsLeft(d: Rect, imgCenterX: int)
  {
    CenterX(d) <= imgCenterX
  }

  /** The eye rectangle made from a detection: same x and width, new height, shifted top. */
  function AdjustEye(d: Rect, eyeHeight: int -> int): (r: Rect)
    ensures r.x == d.x && r.w == d.w
    ensures r.h == eyeHeight(d.w)
    ensures r.y == d.y + (d.w - r.h) / 2
  {
    var h := eyeHeight(d.w);
    Rect(d.x, d.y + (d.w - h) / 2, d.w, h)
  }

  /** `detectEyes`: every detection, in order, overwrites the eye of its side. */
  function DetectEyes(dets: seq<Rect>, imgCenterX: int, eyeHeight: int -> int): (e: Eyes)
    ensures |dets| == 0 ==> e == Eyes(DefaultLeftEye, DefaultRightEye)
    decreases |dets|
  {
    if |dets| == 0 then Eyes(DefaultLeftEye, DefaultRightEye)
    else
      var prev := DetectEyes(dets[..|dets| - 1], imgCenterX, eyeHeight);
      var d := dets[|dets| - 1];
      if IsLeft(d, imgCenterX) then prev.(left := AdjustEye(d, eyeHeight))
      else prev.(right := AdjustEye(d, eyeHeight))
  }

  /** `i` is the last index of `dets` whose detection lies on the chosen side. */
  predicate LastOnSide(dets: seq<Rect>, imgCenterX: int, left: bool, i: int)
  {
    && 0 <= i < |dets|
    && IsLeft(dets[i], imgCenterX) == left
    && forall j :: i < j < |dets| ==> IsLeft(dets[j], imgCenterX) != left
  }

  predicate NoneOnSide(dets: seq<Rect>, imgCenterX: int, left: bool)
  {
    forall j :: 0 <= j < |dets| ==> IsLeft(dets[j], imgCenterX) != left
  }

  function Side(e: Eyes, left: bool): Rect
  {
    if left then e.left else e.right
  }

  function DefaultEye(left: bool): Rect
  {
    if left then DefaultLeftEye else DefaultRightEye
  }

  /**
    Last write wins: the eye on each side is the adjusted last detection on
    that side, or the default when no detection falls on that side.
  */
  lemma {:induction false} DetectEyesLastWins(dets: seq<Rect>, imgCenterX: int, eyeHeight: int -> int, left: bool)
    ensures NoneOnSide(dets, imgCenterX, left) ==>
      Side(DetectEyes(dets, imgCenterX, eyeHeight), left) == DefaultEye(left)
    ensures forall i :: LastOnSide(dets, imgCenterX, left, i) ==>
      Side(DetectEyes(dets, imgCenterX, eyeHeight), left) == AdjustEye(dets[i], eyeHeight)
    decreases |dets|
  {
    if |dets| > 0 {
      var n := |dets|;
      var pre := dets[..n - 1];
      var e := DetectEyes(dets, imgCenterX, eyeHeight);
      var ep := DetectEyes(pre, imgCenterX, eyeHeight);
      DetectEyesLastWins(pre, imgCenterX, eyeHeight, left);
      if IsLeft(dets[n - 1], imgCenterX) != left {
        assert Side(e, left) == Side(ep, left);
        forall i | LastOnSide(dets, imgCenterX, left, i)
          ensures Side(e, left) == AdjustEye(dets[i], eyeHeight)
        {
          LastOnSidePrefix(dets, imgCenterX, left, i);
        }
        if NoneOnSide(dets, imgCenterX, left) {
          NoneOnSidePrefix(dets, imgCenterX, left);
        }
      } else {
        assert Side(e, left) == AdjustEye(dets[n - 1], eyeHeight);
      }
    }
  }

  lemma LastOnSidePrefix(dets: seq<Rect>, imgCenterX: int, left: bool, i: int)
    requires LastOnSide(dets, imgCenterX, left, i) && i < |dets| - 1
    ensures LastOnSide(dets[..|dets| - 1], imgCenterX, left, i)
  {
  }

  lemma NoneOnSidePrefix(dets: seq<Rect>, imgCenterX: int, left: bool)
    requires |dets| > 0 && NoneOnSide(dets, imgCenterX, left)
    ensures NoneOnSide(dets[..|dets| - 1], imgCenterX, left)
  {
  }

  /** Each side has either a last detection or none at all, so the result is always determined. */
  lemma SideHasLastOrNone(dets: seq<Rect>, imgCenterX: int, left: bool)
    ensures NoneOnSide(dets, imgCenterX, left) || exists i :: LastOnSide(dets, imgCenterX, left, i)
    decreases |dets|
  {
    if |dets| > 0 && !NoneOnSide(dets, imgCenterX, left) {
      var n := |dets|;
      if IsLeft(dets[n - 1], imgCenterX) == left {
        assert LastOnSide(dets, imgCenterX, left, n - 1);
      } else {
        var pre := dets[..n - 1];
        SideHasLastOrNone(pre, imgCenterX, left);
        if NoneOnSide(pre, imgCenterX, left) {
          forall j | 0 <= j < n ensures IsLeft(dets[j], imgCenterX) != left {
            if j < n - 1 { assert pre[j] == dets[j]; }
          }
        } else {
          var i :| LastOnSide(pre, imgCenterX, left, i);
          assert pre[i] == dets[i];
          forall j | i < j < n ensures IsLeft(dets[j], imgCenterX) != left {
            if j < n - 1 { assert pre[j] == dets[j]; }
          }
          assert LastOnSide(dets, imgCenterX, left, i);
        }
      }
    }
  }

  /** `detectMouth`: the first detection below the image centre, else the default. */
  function DetectMouth(dets: seq<Rect>, imgCenterY: int): (m: Rect)
    ensures (forall i :: 0 <= i < |dets| ==> dets[i].y <= imgCenterY) ==> m == DefaultMouth
    ensures (exists i :: 0 <= i < |dets| && dets[i].y > imgCenterY) ==>
      exists i :: 0 <= i < |dets| && dets[i].y > imgCenterY && m == dets[i]
        && forall j :: 0 <= j < i ==> dets[j].y <= imgCenterY
    decreases |dets|
  {
    if |dets| == 0 then DefaultMouth
    else if dets[0].y > imgCenterY then dets[0]
    else
      var m := DetectMouth(dets[1..], imgCenterY);
      assert forall i :: 1 <= i < |dets| ==> dets[i] == dets[1..][i - 1];
      m
  }
}
