/**
  The kiosk's screens and the main loop (thatcherizer.py:74-566). Each screen
  is a variant of `AppState` carrying the data of that screen; a tick feeds
  the screen the events of one frame (`ProcessInput`), then advances it
  (`Update`), then hands over to the screen it switched to, if any. What the
  program leaves behind on disk is the `World`: the stems of the files that
  were already in the output directory, the images saved since, and the
  names handed to the print step.
*/
module App {
  import opened Wrappers
  import opened Geometry
  import opened Events
  import opened Detection
  import opened Images
  import Buttons
  import Features
  import Compositor
  import Numbering
  import PrintLayout

  datatype Saved = Saved(stem: string, image: Image)

  datatype World = World(existing: seq<string>, saved: seq<Saved>, printed: seq<string>)

  /** The stems the output directory lists: the earlier files, then those saved since. */
  function Stems(w: World): seq<string>
  {
    w.existing + seq(|w.saved|, k requires 0 <= k < |w.saved| => w.saved[k].stem)
  }

  /**
    What one tick reads from outside: the camera's latest frame (absent before
    the first one arrives), the classifier's eye and mouth detections on the
    photo, the eye-height rule, the resized alpha mask and the paste blend,
    the print scaling and the print template.
  */
  datatype Env = Env(
    frame: Option<Image>,
    eyeDetections: seq<Rect>,
    mouthDetections: seq<Rect>,
    eyeHeight: int -> int,
    mask: Compositor.MaskFn,
    blend: Compositor.BlendFn,
    scale: Image -> Image,
    template: Image)

  /** A captured frame with the viewer window cut from it. */
  datatype Shot = Shot(frame: Image, crop: Rect)

  function ShotOf(frame: Image): (sh: Shot)
    ensures sh.frame == frame && sh.crop.w == ViewerWidth && sh.crop.h == ViewerHeight
  {
    Shot(frame, CropWindow(Width(frame), Height(frame), ViewerWidth, ViewerHeight))
  }

  /** The two returned images of a run and the run's number. */
  datatype Results = Results(orig: Image, thatch: Image, run: string)

  datatype AppState =
    | Intro(begin: Buttons.Button)
    | LiveStream(reset: Buttons.Button, takePhoto: Buttons.Button)
    | TakePhoto(countdown: int, frameCount: int, shot: Option<Shot>)
    | ConfirmPhoto(photo: Shot, alpha: int, doOver: Buttons.Button, accept: Buttons.Button)
    | ConfirmFeatures(
        picture: Shot, features: seq<Features.Feature>, index: nat, current: nat,
        nextButton: Buttons.Button)
    | ShowResults(
        results: Results, rotateNow: bool, angle: int, turned: bool,
        flip: Buttons.Button, printButton: Buttons.Button, startOver: Buttons.Button)
    | PrintResults(printing: Results, timer: int, restart: Buttons.Button)

  // Fresh screens, with the buttons each constructor places.

  function IntroState(): AppState
  {
    Intro(Buttons.New(281, 323, 70))
  }

  function LiveStreamState(): AppState
  {
    LiveStream(Buttons.New(700, ScreenHeight - 90, 35), Buttons.New(700, 241, 62))
  }

  const CountdownStart: int := 3
  /** The countdown drops once `frameCount` exceeds this (thatcherizer.py:282). */
  const FramesPerCount: int := 5

  function TakePhotoState(): AppState
  {
    TakePhoto(CountdownStart, 0, None)
  }

  const AlphaStart: int := 255
  const FadeStep: int := 20

  function ConfirmPhotoState(shot: Shot): AppState
  {
    ConfirmPhoto(shot, AlphaStart, Buttons.New(700, ScreenHeight - 90, 45), Buttons.New(700, 241, 62))
  }

  function ConfirmFeaturesState(shot: Shot, features: seq<Features.Feature>): AppState
  {
    ConfirmFeatures(shot, features, 0, 0, Buttons.New(700, 241, 62))
  }

  const AngleStep: int := 30

  function ShowResultsState(res: Results): AppState
  {
    ShowResults(res, false, 0, false,
      Buttons.New(ScreenWidth / 2, ScreenHeight / 2, 35),
      Buttons.New(ScreenWidth / 2, ScreenHeight / 5, 35),
      Buttons.New(ScreenWidth - 23, ScreenHeight - 23, 20))
  }

  function PrintResultsState(res: Results): AppState
  {
    PrintResults(res, 0, Buttons.New(345, 310, 70))
  }

  // ---------------------------------------------------------------------
  // Steps

  /**
    A screen part-way through a tick: the world so far, the screen's own
    state, and the screen it has switched to (the last switch wins).
  */
  datatype Step = Step(world: World, state: AppState, switch: Option<AppState>)

  /** A tick either goes on or ends the program on an exception, keeping what was already saved. */
  datatype Outcome = Going(step: Step) | Crashed(world: World, reason: string)

  /** The three feature editors made from the detections on the accepted photo. */
  function MakeFeatures(frame: Image, env: Env): (fs: seq<Features.Feature>)
    ensures |fs| == 3
    ensures fs[0].kind == Features.LeftEye && fs[1].kind == Features.RightEye && fs[2].kind == Features.Mouth
  {
    var eyes := DetectEyes(env.eyeDetections, Width(frame) / 2, env.eyeHeight);
    var mouth := DetectMouth(env.mouthDetections, Height(frame) / 2);
    [ Features.New(Features.LeftEye, ImageToScreen(eyes.left)),
      Features.New(Features.RightEye, ImageToScreen(eyes.right)),
      Features.New(Features.Mouth, ImageToScreen(mouth)) ]
  }

  /** The rectangles the features hand to the compositor, in list order. */
  function CurrentRects(fs: seq<Features.Feature>): (rs: seq<Rect>)
    ensures |rs| == |fs| && forall k :: 0 <= k < |fs| ==> rs[k] == fs[k].currentRect
  {
    seq(|fs|, k requires 0 <= k < |fs| => fs[k].currentRect)
  }

  /** `thatcherizePhoto` with its file numbering and the two saves. */
  function RunThatcherize(world: World, frame: Image, rects: seq<Rect>, env: Env): Result<(World, Results)>
  {
    match Numbering.NextFileNumber(Stems(world))
    case Err(m) => Err(m)
    case Ok(num) =>
      var out := Compositor.Thatcherize(frame, rects, env.mask, env.blend);
      var saves := [Saved(Numbering.RunStem(num, "_orig"), out.savedOrig), Saved(Numbering.RunStem(num, "_thatch"), out.savedThatch)];
      Ok((world.(saved := world.saved + saves), Results(out.orig, out.thatch, num)))
  }

  /** One event for one button of a screen: the button's new state and whether it clicked. */
  datatype Pushed = Pushed(button: Buttons.Button, clicked: bool)

  function Push(b: Buttons.Button, e: Event): Result<Pushed>
  {
    match Buttons.HandleEvent(b, e)
    case Err(m) => Err(m)
    case Ok(rc) => Ok(Pushed(rc.button, Buttons.Click in rc.tags))
  }

  function IntroEvent(s: Step, b: Buttons.Button, e: Event): Outcome
  {
    match Push(b, e)
    case Err(m) => Crashed(s.world, m)
    case Ok(p) => Going(Step(s.world, Intro(p.button), if p.clicked then Some(LiveStreamState()) else s.switch))
  }

  function LiveStreamEvent(s: Step, r: Buttons.Button, t: Buttons.Button, e: Event): Outcome
  {
    match Push(r, e)
    case Err(m) => Crashed(s.world, m)
    case Ok(p1) =>
      var sw1 := if p1.clicked then Some(IntroState()) else s.switch;
      match Push(t, e)
      case Err(m) => Crashed(s.world, m)
      case Ok(p2) =>
        Going(Step(s.world, LiveStream(p1.button, p2.button), if p2.clicked then Some(TakePhotoState()) else sw1))
  }

  function ConfirmPhotoEvent(s: Step, shot: Shot, alpha: int, d: Buttons.Button, a: Buttons.Button, e: Event, env: Env): Outcome
  {
    match Push(d, e)
    case Err(m) => Crashed(s.world, m)
    case Ok(p1) =>
      var sw1 := if p1.clicked then Some(LiveStreamState()) else s.switch;
      match Push(a, e)
      case Err(m) => Crashed(s.world, m)
      case Ok(p2) =>
        var sw2 := if p2.clicked then Some(ConfirmFeaturesState(shot, MakeFeatures(shot.frame, env))) else sw1;
        Going(Step(s.world, ConfirmPhoto(shot, alpha, p1.button, p2.button), sw2))
  }

  /**
    The next button moves on to the following feature; the click that moves
    past the last one runs the compositor and switches to the results.
  */
  function AdvanceFeature(s: Step, shot: Shot, fs: seq<Features.Feature>, idx: nat, clicked: bool, env: Env): Result<(World, Option<AppState>)>
  {
    if clicked && idx + 1 == |fs| then
      match RunThatcherize(s.world, shot.frame, CurrentRects(fs), env)
      case Err(m) => Err(m)
      case Ok(wr) => Ok((wr.0, Some(ShowResultsState(wr.1))))
    else Ok((s.world, s.switch))
  }

  function ConfirmFeaturesEvent(
    s: Step, shot: Shot, fs: seq<Features.Feature>, idx: nat, cur: nat, nb: Buttons.Button, e: Event, env: Env): Outcome
  {
    match Push(nb, e)
    case Err(m) => Crashed(s.world, m)
    case Ok(p) =>
      match AdvanceFeature(s, shot, fs, idx, p.clicked, env)
      case Err(m) => Crashed(s.world, m)
      case Ok(ws) =>
        // the event then goes to the feature being edited
        var fs' := if cur < |fs| then fs[cur := Features.HandleEvent(fs[cur], e)] else fs;
        Going(Step(ws.0, ConfirmFeatures(shot, fs', if p.clicked then idx + 1 else idx, cur, p.button), ws.1))
  }

  function ShowResultsEvent(
    s: Step, res: Results, rot: bool, angle: int, turned: bool,
    fl: Buttons.Button, pr: Buttons.Button, rs: Buttons.Button, e: Event): Outcome
  {
    match Push(fl, e)
    case Err(m) => Crashed(s.world, m)
    case Ok(p1) =>
      match Push(pr, e)
      case Err(m) => Crashed(s.world, m)
      case Ok(p2) =>
        var sw2 := if p2.clicked then Some(PrintResultsState(res)) else s.switch;
        match Push(rs, e)
        case Err(m) => Crashed(s.world, m)
        case Ok(p3) =>
          var sw3 := if p3.clicked then Some(IntroState()) else sw2;
          Going(Step(s.world, ShowResults(res, rot || p1.clicked, angle, turned, p1.button, p2.button, p3.button), sw3))
  }

  function PrintResultsEvent(s: Step, res: Results, timer: int, r: Buttons.Button, e: Event): Outcome
  {
    match Push(r, e)
    case Err(m) => Crashed(s.world, m)
    case Ok(p) => Going(Step(s.world, PrintResults(res, timer, p.button), if p.clicked then Some(IntroState()) else s.switch))
  }

  /** `ProcessInput` of the active screen for one event. */
  function EventStep(s: Step, e: Event, env: Env): Outcome
  {
    match s.state
    case Intro(b) => IntroEvent(s, b, e)
    case LiveStream(r, t) => LiveStreamEvent(s, r, t, e)
    case TakePhoto(_, _, _) => Going(s)
    case ConfirmPhoto(shot, alpha, d, a) => ConfirmPhotoEvent(s, shot, alpha, d, a, e, env)
    case ConfirmFeatures(shot, fs, idx, cur, nb) => ConfirmFeaturesEvent(s, shot, fs, idx, cur, nb, e, env)
    case ShowResults(res, rot, angle, turned, fl, pr, rs) => ShowResultsEvent(s, res, rot, angle, turned, fl, pr, rs, e)
    case PrintResults(res, timer, r) => PrintResultsEvent(s, res, timer, r, e)
  }

  /** `ProcessInput`: the events of one tick, in order. */
  function ProcessInput(s: Step, evs: seq<Event>, env: Env): Outcome
    decreases |evs|
  {
    if |evs| == 0 then Going(s)
    else match EventStep(s, evs[0], env)
      case Crashed(w, m) => Crashed(w, m)
      case Going(s') => ProcessInput(s', evs[1..], env)
  }

  // ---------------------------------------------------------------------
  // Updates

  /** The countdown counters after one `Update`, and whether the photo is taken on it. */
  datatype Countdown = Countdown(countdown: int, frameCount: int, fire: bool)

  function CountdownStep(c: int, fc: int): (r: Countdown)
  {
    var fire := c <= 0;
    var c1 := if fire then CountdownStart else c;
    var fc1 := fc + 1;
    if fc1 > FramesPerCount then Countdown(c1 - 1, 0, fire) else Countdown(c1, fc1, fire)
  }

  /** The white flash's alpha after one `Update`. */
  function Fade(alpha: int): int
  {
    if alpha > 0 then alpha - FadeStep else if alpha < 0 then 0 else alpha
  }

  /** The flip animation after one `Update`: the angle, whether it still runs, and the turned reference. */
  datatype Flip = Flip(rotateNow: bool, angle: int, turned: bool)

  function FlipStep(f: Flip): Flip
  {
    if !f.rotateNow then f
    else
      var a := f.angle + AngleStep;
      if a <= 180 then Flip(true, a, f.turned) else Flip(false, 0, !f.turned)
  }

  /** The composite's stem; it carries the run's own number. */
  function CompositeStem(run: string): string
  {
    Numbering.RunStem(run, "_composite")
  }

  /** Reads a frame while the countdown runs; once it has run out, switches to the last frame read. */
  function TakePhotoUpdate(s: Step, c: int, fc: int, shot: Option<Shot>, env: Env): Outcome
  {
    var cd := CountdownStep(c, fc);
    if !cd.fire then
      match env.frame
      case None => Crashed(s.world, "no camera frame")
      case Some(frame) =>
        Going(Step(s.world, TakePhoto(cd.countdown, cd.frameCount, Some(ShotOf(frame))), s.switch))
    else
      match shot
      case None => Crashed(s.world, "no frame captured")
      case Some(sh) => Going(Step(s.world, TakePhoto(cd.countdown, cd.frameCount, shot), Some(ConfirmPhotoState(sh))))
  }

  /** `Update` of the active screen. */
  function Update(s: Step, env: Env): Outcome
  {
    match s.state
    case Intro(_) => Going(s)
    case LiveStream(_, _) =>
      if env.frame.None? then Crashed(s.world, "no camera frame") else Going(s)
    case TakePhoto(c, fc, shot) => TakePhotoUpdate(s, c, fc, shot, env)
    case ConfirmPhoto(shot, alpha, d, a) =>
      Going(s.(state := ConfirmPhoto(shot, Fade(alpha), d, a)))
    case ConfirmFeatures(shot, fs, idx, cur, nb) =>
      var cur' := if idx < |fs| then idx else cur;
      var fs' := if cur' < |fs| then fs[cur' := Features.GetRect(fs[cur']).feature] else fs;
      Going(s.(state := ConfirmFeatures(shot, fs', idx, cur', nb)))
    case ShowResults(res, rot, angle, turned, fl, pr, rs) =>
      var f := FlipStep(Flip(rot, angle, turned));
      Going(s.(state := ShowResults(res, f.rotateNow, f.angle, f.turned, fl, pr, rs)))
    case PrintResults(res, timer, r) =>
      var t := timer + 1;
      var w := s.world;
      var w' :=
        if t == 2 then
          var composite := PrintLayout.AssembleComposite(res.orig, res.thatch, env.scale, env.template);
          var name := CompositeStem(res.run);
          w.(saved := w.saved + [Saved(name, composite)], printed := w.printed + [name])
        else w;
      Going(Step(w', PrintResults(res, t, r), s.switch))
  }

  // ---------------------------------------------------------------------
  // The main loop

  /** `activeState` of the main loop, or None once it has ended. */
  datatype Session = Session(world: World, active: Option<AppState>)

  function Start(existing: seq<string>): Session
  {
    Session(World(existing, [], []), Some(IntroState()))
  }

  /** Index of the first quit or escape event, or the length when there is none. */
  function FirstKill(evs: seq<Event>): (k: nat)
    ensures k <= |evs|
    ensures forall i :: 0 <= i < k ==> !IsKill(evs[i])
    ensures k < |evs| ==> IsKill(evs[k])
    decreases |evs|
  {
    if |evs| == 0 then 0
    else if IsKill(evs[0]) then 0
    else
      var k := 1 + FirstKill(evs[1..]);
      assert forall i :: 1 <= i < |evs| ==> evs[i] == evs[1..][i - 1];
      k
  }

  /**
    One pass of the main loop. Events after the first quit or escape are
    dropped; those before it still reach the screen. A quit ends the loop
    after this tick, and so does any exception. A quit has already shut the
    display and font system down, so a screen built during the same tick
    (every switch builds one) fails at once, before `Update`.
  */
  function Tick(sess: Session, evs: seq<Event>, env: Env): (next: Session)
    ensures sess.active.None? ==> next == sess
    ensures (exists i :: 0 <= i < |evs| && IsKill(evs[i])) ==> next.active.None?
  {
    match sess.active
    case None => sess
    case Some(st) =>
      var k := FirstKill(evs);
      var quit := k < |evs|;
      match ProcessInput(Step(sess.world, st, None), evs[..k], env)
      case Crashed(w, _) => Session(w, None)
      case Going(s1) =>
        if quit && s1.switch.Some? then Session(s1.world, None)
        else match Update(s1, env)
        case Crashed(w, _) => Session(w, None)
        case Going(s2) =>
          var next := if quit then None else if s2.switch.Some? then s2.switch else Some(s2.state);
          Session(s2.world, next)
  }

  /** One tick's input. */
  datatype TickInput = TickInput(events: seq<Event>, env: Env)

  /** Several ticks in a row. */
  function Run(sess: Session, inputs: seq<TickInput>): Session
    decreases |inputs|
  {
    if |inputs| == 0 then sess else Run(Tick(sess, inputs[0].events, inputs[0].env), inputs[1..])
  }
}
