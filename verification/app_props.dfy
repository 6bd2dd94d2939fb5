/**
  What the screens and the main loop promise: the countdown, fade and flip
  schedules, the invariant every reachable screen keeps, that the output
  directory only ever grows, and when the files of a run are written.
*/
module AppProps {
  import opened Wrappers
  import opened Geometry
  import opened Events
  import opened Images
  import opened App
  import Buttons
  import Features
  import Detection
  import Numbering
  import Compositor
  import PrintLayout

  // ---------------------------------------------------------------------
  // Schedules

  /** The countdown counters after `n` updates of a fresh countdown screen. */
  function CountersAfter(n: nat): Countdown
  {
    if n == 0 then Countdown(CountdownStart, 0, false)
    else
      var p := CountersAfter(n - 1);
      CountdownStep(p.countdown, p.frameCount)
  }

  /**
    The number shown drops every six updates (3, 2, 1, then 0 after the
    18th), and the photo is taken on the 19th update and on no earlier one.
  */
  lemma {:induction false} CountdownSchedule(n: nat)
    requires n <= 19
    ensures n <= 18 ==> CountersAfter(n).countdown == 3 - n / 6 && CountersAfter(n).frameCount == n % 6
    ensures CountersAfter(n).fire <==> n == 19
  {
    if n > 0 {
      CountdownSchedule(n - 1);
    }
  }

  /** The flash's alpha after `n` updates of a fresh confirmation screen. */
  function AlphaAfter(n: nat): int
  {
    if n == 0 then AlphaStart else Fade(AlphaAfter(n - 1))
  }

  /** The flash fades by 20 an update down to -5, then is clamped to 0 for good. */
  lemma {:induction false} FadeSchedule(n: nat)
    ensures n <= 13 ==> AlphaAfter(n) == 255 - 20 * n
    ensures n >= 14 ==> AlphaAfter(n) == 0
  {
    if n > 0 {
      FadeSchedule(n - 1);
    }
  }

  function FlipAfter(f: Flip, n: nat): Flip
  {
    if n == 0 then f else FlipStep(FlipAfter(f, n - 1))
  }

  /**
    A flip turns the pictures 30 degrees an update up to 180; on the 7th
    update the turned pictures become the new reference and the animation
    stops, so each flip turns the pictures over exactly once.
  */
  lemma {:induction false} FlipSchedule(turned: bool, n: nat)
    ensures n <= 6 ==> FlipAfter(Flip(true, 0, turned), n) == Flip(true, AngleStep * n, turned)
    ensures n >= 7 ==> FlipAfter(Flip(true, 0, turned), n) == Flip(false, 0, !turned)
  {
    if n > 0 {
      FlipSchedule(turned, n - 1);
    }
  }

  // ---------------------------------------------------------------------
  // The invariant of reachable screens

  predicate CountdownOk(c: int, fc: int, shot: Option<Shot>)
  {
    0 <= c <= CountdownStart && 0 <= fc <= FramesPerCount && (shot.None? ==> c == CountdownStart && fc == 0)
  }

  predicate FlipOk(rot: bool, angle: int)
  {
    0 <= angle <= 180 && angle % AngleStep == 0 && (!rot ==> angle == 0)
  }

  /** What holds of the active screen between ticks. */
  predicate Wf(st: AppState)
  {
    match st
    case TakePhoto(c, fc, shot) => CountdownOk(c, fc, shot)
    case ConfirmPhoto(_, alpha, _, _) => -FadeStep < alpha <= AlphaStart
    case ConfirmFeatures(_, fs, idx, cur, _) => |fs| == 3 && cur == idx < |fs|
    case ShowResults(_, rot, angle, _, _, _, _) => FlipOk(rot, angle)
    case PrintResults(_, timer, _) => timer >= 0
    case _ => true
  }

  /** What holds of the screen while its events are handed to it: the next click may not yet have been shown. */
  predicate Mid(st: AppState)
  {
    match st
    case ConfirmFeatures(_, fs, idx, cur, _) => |fs| == 3 && cur <= idx < |fs|
    case _ => Wf(st)
  }

  /** A step whose pending screen, or else whose own screen, is sound. */
  predicate StepOk(s: Step, mid: bool)
  {
    match s.switch
    case Some(next) => Wf(next)
    case None => if mid then Mid(s.state) else Wf(s.state)
  }

  lemma FreshScreensWf(shot: Shot, fs: seq<Features.Feature>, res: Results)
    requires |fs| == 3
    ensures Wf(IntroState()) && Wf(LiveStreamState()) && Wf(TakePhotoState())
    ensures Wf(ConfirmPhotoState(shot)) && Wf(ConfirmFeaturesState(shot, fs))
    ensures Wf(ShowResultsState(res)) && Wf(PrintResultsState(res))
  {
  }

  lemma IntroEventOk(s: Step, b: Buttons.Button, e: Event)
    requires StepOk(s, true) && s.state == Intro(b)
    ensures var o := IntroEvent(s, b, e); o.Going? ==> StepOk(o.step, true)
  {
  }

  lemma LiveStreamEventOk(s: Step, r: Buttons.Button, t: Buttons.Button, e: Event)
    requires StepOk(s, true) && s.state == LiveStream(r, t)
    ensures var o := LiveStreamEvent(s, r, t, e); o.Going? ==> StepOk(o.step, true)
  {
  }

  lemma ConfirmPhotoEventOk(s: Step, shot: Shot, alpha: int, d: Buttons.Button, a: Buttons.Button, e: Event, env: Env)
    requires StepOk(s, true) && s.state == ConfirmPhoto(shot, alpha, d, a)
    ensures var o := ConfirmPhotoEvent(s, shot, alpha, d, a, e, env); o.Going? ==> StepOk(o.step, true)
  {
    FreshScreensWf(shot, MakeFeatures(shot.frame, env), Results([], [], ""));
  }

  lemma ShowResultsFreshWf(res: Results)
    ensures Wf(ShowResultsState(res))
  {
  }

  /** The next button either leaves the screen as it is or switches to a fresh results screen. */
  lemma AdvanceFeatureOk(s: Step, shot: Shot, fs: seq<Features.Feature>, idx: nat, clicked: bool, env: Env)
    ensures var r := AdvanceFeature(s, shot, fs, idx, clicked, env);
      r.Ok? ==>
        if clicked && idx + 1 == |fs| then r.value.1.Some? && Wf(r.value.1.value)
        else r.value == (s.world, s.switch)
  {
    if clicked && idx + 1 == |fs| {
      var t := RunThatcherize(s.world, shot.frame, CurrentRects(fs), env);
      if t.Ok? {
        ShowResultsFreshWf(t.value.1);
      }
    }
  }

  lemma ConfirmFeaturesEventOk(
    s: Step, shot: Shot, fs: seq<Features.Feature>, idx: nat, cur: nat, nb: Buttons.Button, e: Event, env: Env)
    requires StepOk(s, true) && s.state == ConfirmFeatures(shot, fs, idx, cur, nb)
    ensures var o := ConfirmFeaturesEvent(s, shot, fs, idx, cur, nb, e, env); o.Going? ==> StepOk(o.step, true)
  {
    match Push(nb, e)
    case Err(_) =>
    case Ok(p) =>
      AdvanceFeatureOk(s, shot, fs, idx, p.clicked, env);
  }

  lemma ShowResultsEventOk(
    s: Step, res: Results, rot: bool, angle: int, turned: bool,
    fl: Buttons.Button, pr: Buttons.Button, rs: Buttons.Button, e: Event)
    requires StepOk(s, true) && s.state == ShowResults(res, rot, angle, turned, fl, pr, rs)
    ensures var o := ShowResultsEvent(s, res, rot, angle, turned, fl, pr, rs, e); o.Going? ==> StepOk(o.step, true)
  {
  }

  lemma PrintResultsEventOk(s: Step, res: Results, timer: int, r: Buttons.Button, e: Event)
    requires StepOk(s, true) && s.state == PrintResults(res, timer, r)
    ensures var o := PrintResultsEvent(s, res, timer, r, e); o.Going? ==> StepOk(o.step, true)
  {
  }

  lemma EventStepOk(s: Step, e: Event, env: Env)
    requires StepOk(s, true)
    ensures EventStep(s, e, env).Going? ==> StepOk(EventStep(s, e, env).step, true)
  {
    match s.state
    case Intro(b) => IntroEventOk(s, b, e);
    case LiveStream(r, t) => LiveStreamEventOk(s, r, t, e);
    case TakePhoto(_, _, _) =>
    case ConfirmPhoto(shot, alpha, d, a) => ConfirmPhotoEventOk(s, shot, alpha, d, a, e, env);
    case ConfirmFeatures(shot, fs, idx, cur, nb) => ConfirmFeaturesEventOk(s, shot, fs, idx, cur, nb, e, env);
    case ShowResults(res, rot, angle, turned, fl, pr, rs) => ShowResultsEventOk(s, res, rot, angle, turned, fl, pr, rs, e);
    case PrintResults(res, timer, r) => PrintResultsEventOk(s, res, timer, r, e);
  }

  lemma {:induction false} ProcessInputOk(s: Step, evs: seq<Event>, env: Env)
    requires StepOk(s, true)
    ensures ProcessInput(s, evs, env).Going? ==> StepOk(ProcessInput(s, evs, env).step, true)
    decreases |evs|
  {
    if |evs| > 0 {
      EventStepOk(s, evs[0], env);
      match EventStep(s, evs[0], env)
      case Crashed(_, _) =>
      case Going(s') => ProcessInputOk(s', evs[1..], env);
    }
  }

  lemma UpdateOk(s: Step, env: Env)
    requires StepOk(s, true)
    ensures Update(s, env).Going? ==> StepOk(Update(s, env).step, false)
  {
  }

  /** A tick keeps the invariant of the active screen. */
  lemma TickPreservesWf(sess: Session, evs: seq<Event>, env: Env)
    requires sess.active.Some? ==> Wf(sess.active.value)
    ensures var next := Tick(sess, evs, env); next.active.Some? ==> Wf(next.active.value)
  {
    match sess.active
    case None =>
    case Some(st) =>
      var k := FirstKill(evs);
      var s0 := Step(sess.world, st, None);
      ProcessInputOk(s0, evs[..k], env);
      match ProcessInput(s0, evs[..k], env)
      case Crashed(_, _) =>
      case Going(s1) =>
        UpdateOk(s1, env);
  }

  /** Every screen reachable from the start keeps the invariant. */
  lemma {:induction false} RunPreservesWf(sess: Session, inputs: seq<TickInput>)
    requires sess.active.Some? ==> Wf(sess.active.value)
    ensures var r := Run(sess, inputs); r.active.Some? ==> Wf(r.active.value)
    decreases |inputs|
  {
    if |inputs| > 0 {
      TickPreservesWf(sess, inputs[0].events, inputs[0].env);
      RunPreservesWf(Tick(sess, inputs[0].events, inputs[0].env), inputs[1..]);
    }
  }

  lemma ReachableScreensWf(existing: seq<string>, inputs: seq<TickInput>)
    ensures var r := Run(Start(existing), inputs); r.active.Some? ==> Wf(r.active.value)
  {
    RunPreservesWf(Start(existing), inputs);
  }

  /**
    On a sound screen, `Update` raises only when the camera has no frame,
    also when the same pass's input has already asked for another screen:
    in particular the countdown never reaches the photo without one.
  */
  lemma UpdateFailsOnlyWithoutFrame(s: Step, env: Env)
    requires Mid(s.state) && env.frame.Some?
    ensures Update(s, env).Going?
  {
  }

  /** Once the loop has ended, nothing more happens. */
  lemma {:induction false} StoppedStaysStopped(w: World, inputs: seq<TickInput>)
    ensures Run(Session(w, None), inputs) == Session(w, None)
    decreases |inputs|
  {
    if |inputs| > 0 {
      StoppedStaysStopped(w, inputs[1..]);
    }
  }

  // ---------------------------------------------------------------------
  // The output directory only grows

  /** `w'` holds everything `w` held: no file is removed and no print taken back. */
  predicate Grows(w: World, w': World)
  {
    w'.existing == w.existing && w.saved <= w'.saved && w.printed <= w'.printed
  }

  function OutWorld(o: Outcome): World
  {
    match o
    case Going(s) => s.world
    case Crashed(w, _) => w
  }

  lemma AdvanceFeatureGrows(s: Step, shot: Shot, fs: seq<Features.Feature>, idx: nat, clicked: bool, env: Env)
    ensures var r := AdvanceFeature(s, shot, fs, idx, clicked, env); r.Ok? ==> Grows(s.world, r.value.0)
  {
    if clicked && idx + 1 == |fs| {
      var t := RunThatcherize(s.world, shot.frame, CurrentRects(fs), env);
      if t.Ok? {
        var saved := t.value.0.saved;
        assert saved[..|s.world.saved|] == s.world.saved;
      }
    }
  }

  lemma ConfirmFeaturesGrows(
    s: Step, shot: Shot, fs: seq<Features.Feature>, idx: nat, cur: nat, nb: Buttons.Button, e: Event, env: Env)
    ensures Grows(s.world, OutWorld(ConfirmFeaturesEvent(s, shot, fs, idx, cur, nb, e, env)))
  {
    var p := Push(nb, e);
    if p.Ok? {
      AdvanceFeatureGrows(s, shot, fs, idx, p.value.clicked, env);
    }
  }

  lemma IntroKeepsWorld(s: Step, b: Buttons.Button, e: Event)
    ensures OutWorld(IntroEvent(s, b, e)) == s.world
  {
  }

  lemma LiveStreamKeepsWorld(s: Step, r: Buttons.Button, t: Buttons.Button, e: Event)
    ensures OutWorld(LiveStreamEvent(s, r, t, e)) == s.world
  {
  }

  lemma ConfirmPhotoKeepsWorld(s: Step, shot: Shot, alpha: int, d: Buttons.Button, a: Buttons.Button, e: Event, env: Env)
    ensures OutWorld(ConfirmPhotoEvent(s, shot, alpha, d, a, e, env)) == s.world
  {
  }

  lemma ShowResultsKeepsWorld(
    s: Step, res: Results, rot: bool, angle: int, turned: bool,
    fl: Buttons.Button, pr: Buttons.Button, rs: Buttons.Button, e: Event)
    ensures OutWorld(ShowResultsEvent(s, res, rot, angle, turned, fl, pr, rs, e)) == s.world
  {
  }

  lemma PrintResultsKeepsWorld(s: Step, res: Results, timer: int, r: Buttons.Button, e: Event)
    ensures OutWorld(PrintResultsEvent(s, res, timer, r, e)) == s.world
  {
  }

  /** Only the feature screen writes files while handling events. */
  lemma OtherScreensKeepWorld(s: Step, e: Event, env: Env)
    requires !s.state.ConfirmFeatures?
    ensures OutWorld(EventStep(s, e, env)) == s.world
  {
    match s.state
    case Intro(b) => IntroKeepsWorld(s, b, e);
    case LiveStream(r, t) => LiveStreamKeepsWorld(s, r, t, e);
    case TakePhoto(_, _, _) =>
    case ConfirmPhoto(shot, alpha, d, a) => ConfirmPhotoKeepsWorld(s, shot, alpha, d, a, e, env);
    case ShowResults(res, rot, angle, turned, fl, pr, rs) => ShowResultsKeepsWorld(s, res, rot, angle, turned, fl, pr, rs, e);
    case PrintResults(res, timer, r) => PrintResultsKeepsWorld(s, res, timer, r, e);
  }

  lemma EventStepGrows(s: Step, e: Event, env: Env)
    ensures Grows(s.world, OutWorld(EventStep(s, e, env)))
  {
    if s.state.ConfirmFeatures? {
      var ConfirmFeatures(shot, fs, idx, cur, nb) := s.state;
      ConfirmFeaturesGrows(s, shot, fs, idx, cur, nb, e, env);
    } else {
      OtherScreensKeepWorld(s, e, env);
    }
  }

  lemma {:induction false} ProcessInputGrows(s: Step, evs: seq<Event>, env: Env)
    ensures Grows(s.world, OutWorld(ProcessInput(s, evs, env)))
    decreases |evs|
  {
    if |evs| > 0 {
      EventStepGrows(s, evs[0], env);
      match EventStep(s, evs[0], env)
      case Crashed(_, _) =>
      case Going(s') => ProcessInputGrows(s', evs[1..], env);
    }
  }

  lemma UpdateGrows(s: Step, env: Env)
    ensures Grows(s.world, OutWorld(Update(s, env)))
  {
    var w := OutWorld(Update(s, env));
    if s.state.PrintResults? && s.state.timer + 1 == 2 {
      assert w.saved[..|s.world.saved|] == s.world.saved;
      assert w.printed[..|s.world.printed|] == s.world.printed;
    }
  }

  lemma TickGrows(sess: Session, evs: seq<Event>, env: Env)
    ensures Grows(sess.world, Tick(sess, evs, env).world)
  {
    match sess.active
    case None =>
    case Some(st) =>
      var s0 := Step(sess.world, st, None);
      var k := FirstKill(evs);
      ProcessInputGrows(s0, evs[..k], env);
      match ProcessInput(s0, evs[..k], env)
      case Crashed(_, _) =>
      case Going(s1) => UpdateGrows(s1, env);
  }

  /** Over any run the files already there stay, and saves and prints are only ever appended. */
  lemma {:induction false} RunGrows(sess: Session, inputs: seq<TickInput>)
    ensures Grows(sess.world, Run(sess, inputs).world)
    decreases |inputs|
  {
    if |inputs| > 0 {
      var next := Tick(sess, inputs[0].events, inputs[0].env);
      TickGrows(sess, inputs[0].events, inputs[0].env);
      RunGrows(next, inputs[1..]);
    }
  }

  // ---------------------------------------------------------------------
  // The countdown screen over whole ticks

  /** Every tick of `inputs` has a camera frame and no quit or escape. */
  predicate Steady(inputs: seq<TickInput>)
  {
    forall i :: 0 <= i < |inputs| ==> inputs[i].env.frame.Some? && FirstKill(inputs[i].events) == |inputs[i].events|
  }

  lemma {:induction false} RunSnoc(sess: Session, inputs: seq<TickInput>, x: TickInput)
    ensures Run(sess, inputs + [x]) == Tick(Run(sess, inputs), x.events, x.env)
    decreases |inputs|
  {
    if |inputs| == 0 {
      assert inputs + [x] == [x];
    } else {
      assert (inputs + [x])[1..] == inputs[1..] + [x];
      RunSnoc(Tick(sess, inputs[0].events, inputs[0].env), inputs[1..], x);
    }
  }

  lemma {:induction false} TakePhotoIgnoresInput(s: Step, evs: seq<Event>, env: Env)
    requires s.state.TakePhoto?
    ensures ProcessInput(s, evs, env) == Going(s)
    decreases |evs|
  {
    if |evs| > 0 {
      TakePhotoIgnoresInput(s, evs[1..], env);
    }
  }

  /** One tick of the countdown screen: it reads the frame, or once the count is out switches to the last frame read. */
  lemma TakePhotoTick(w: World, c: int, fc: int, shot: Option<Shot>, evs: seq<Event>, env: Env)
    requires CountdownOk(c, fc, shot) && env.frame.Some? && FirstKill(evs) == |evs|
    ensures var cd := CountdownStep(c, fc);
      Tick(Session(w, Some(TakePhoto(c, fc, shot))), evs, env) ==
        Session(w, Some(
          if cd.fire then ConfirmPhotoState(shot.value)
          else TakePhoto(cd.countdown, cd.frameCount, Some(ShotOf(env.frame.value)))))
  {
    var s := Step(w, TakePhoto(c, fc, shot), None);
    TakePhotoIgnoresInput(s, evs, env);
    var cd := CountdownStep(c, fc);
    var s2 := if cd.fire then Step(w, TakePhoto(cd.countdown, cd.frameCount, shot), Some(ConfirmPhotoState(shot.value)))
      else Step(w, TakePhoto(cd.countdown, cd.frameCount, Some(ShotOf(env.frame.value))), None);
    assert Update(s, env) == Going(s2);
    TickQuiet(w, s.state, evs, env, s, s2);
  }

  /** A tick without quit or escape runs `ProcessInput` and `Update`, then moves to the switched-to screen if any. */
  lemma TickQuiet(w: World, st: AppState, evs: seq<Event>, env: Env, s1: Step, s2: Step)
    requires FirstKill(evs) == |evs|
    ensures ProcessInput(Step(w, st, None), evs, env) == Going(s1) && Update(s1, env) == Going(s2) ==>
      Tick(Session(w, Some(st)), evs, env) == Session(s2.world, if s2.switch.Some? then s2.switch else Some(s2.state))
  {
    assert evs[..|evs|] == evs;
  }

  /** For 18 ticks the countdown screen stays, showing 3, 2, 1 six ticks each and keeping the newest frame. */
  lemma {:induction false} CountdownTicks(w: World, inputs: seq<TickInput>)
    requires Steady(inputs) && 1 <= |inputs| <= 18
    ensures var n := |inputs|;
      Run(Session(w, Some(TakePhotoState())), inputs) ==
        Session(w, Some(TakePhoto(3 - n / 6, n % 6, Some(ShotOf(inputs[n - 1].env.frame.value)))))
    decreases |inputs|
  {
    var n := |inputs|;
    var pre := inputs[..n - 1];
    var x := inputs[n - 1];
    SteadySplit(inputs);
    if n == 1 {
      CountdownFirstTick(w, x);
    } else {
      CountdownTicks(w, pre);
      CountdownTickAt(w, pre, x, n);
    }
  }

  lemma CountdownTickAt(w: World, pre: seq<TickInput>, x: TickInput, n: nat)
    requires 2 <= n <= 18 && |pre| == n - 1
    requires x.env.frame.Some? && FirstKill(x.events) == |x.events| && pre[n - 2].env.frame.Some?
    requires Run(Session(w, Some(TakePhotoState())), pre) ==
      Session(w, Some(TakePhoto(3 - (n - 1) / 6, (n - 1) % 6, Some(ShotOf(pre[n - 2].env.frame.value)))))
    ensures Run(Session(w, Some(TakePhotoState())), pre + [x]) ==
      Session(w, Some(TakePhoto(3 - n / 6, n % 6, Some(ShotOf(x.env.frame.value)))))
  {
    CountdownStepAt(n);
    var c, fc := 3 - (n - 1) / 6, (n - 1) % 6;
    CountdownNextTick(w, pre, x, c, fc, ShotOf(pre[n - 2].env.frame.value));
  }

  lemma SteadySplit(inputs: seq<TickInput>)
    requires Steady(inputs) && |inputs| > 0
    ensures var n := |inputs|; var x := inputs[n - 1];
      inputs[..n - 1] + [x] == inputs && Steady(inputs[..n - 1]) &&
      x.env.frame.Some? && FirstKill(x.events) == |x.events| &&
      (n >= 2 ==> inputs[..n - 1][n - 2] == inputs[n - 2])
  {
    var n := |inputs|;
    assert inputs[..n - 1] + [inputs[n - 1]] == inputs;
  }

  lemma CountdownFirstTick(w: World, x: TickInput)
    requires x.env.frame.Some? && FirstKill(x.events) == |x.events|
    ensures Run(Session(w, Some(TakePhotoState())), [x]) ==
      Session(w, Some(TakePhoto(3, 1, Some(ShotOf(x.env.frame.value)))))
  {
    RunSnoc(Session(w, Some(TakePhotoState())), [], x);
    assert [] + [x] == [x];
    TakePhotoTick(w, CountdownStart, 0, None, x.events, x.env);
  }

  lemma CountdownNextTick(w: World, pre: seq<TickInput>, x: TickInput, c: int, fc: int, shot: Shot)
    requires CountdownOk(c, fc, Some(shot)) && !CountdownStep(c, fc).fire
    requires x.env.frame.Some? && FirstKill(x.events) == |x.events|
    requires Run(Session(w, Some(TakePhotoState())), pre) == Session(w, Some(TakePhoto(c, fc, Some(shot))))
    ensures var cd := CountdownStep(c, fc);
      Run(Session(w, Some(TakePhotoState())), pre + [x]) ==
        Session(w, Some(TakePhoto(cd.countdown, cd.frameCount, Some(ShotOf(x.env.frame.value)))))
  {
    RunSnoc(Session(w, Some(TakePhotoState())), pre, x);
    TakePhotoTick(w, c, fc, Some(shot), x.events, x.env);
  }

  lemma CountdownStepAt(n: nat)
    requires 1 <= n <= 18
    ensures CountdownStep(3 - (n - 1) / 6, (n - 1) % 6) == Countdown(3 - n / 6, n % 6, false)
    ensures 0 <= 3 - (n - 1) / 6 <= 3 && 0 <= (n - 1) % 6 <= 5
  {
    CountdownSchedule(n - 1);
    CountdownSchedule(n);
  }

  /** The 19th tick takes the photo: the frame read on the 18th moves to the confirmation screen. */
  lemma PhotoTakenOnTick19(w: World, inputs: seq<TickInput>)
    requires Steady(inputs) && |inputs| == 19
    ensures Run(Session(w, Some(TakePhotoState())), inputs) ==
      Session(w, Some(ConfirmPhotoState(ShotOf(inputs[17].env.frame.value))))
  {
    var pre := inputs[..18];
    var x := inputs[18];
    assert pre + [x] == inputs;
    CountdownTicks(w, pre);
    RunSnoc(Session(w, Some(TakePhotoState())), pre, x);
    TakePhotoTick(w, 0, 0, Some(ShotOf(pre[17].env.frame.value)), x.events, x.env);
  }

  // ---------------------------------------------------------------------
  // Saving and printing

  /** `n` updates in a row, stopping at the first exception. */
  function Updates(s: Step, env: Env, n: nat): Outcome
  {
    if n == 0 then Going(s)
    else match Updates(s, env, n - 1)
      case Crashed(w, m) => Crashed(w, m)
      case Going(s') => Update(s', env)
  }

  /**
    The print screen builds, saves and prints the composite exactly once, on
    its second update, under the run's own number.
  */
  lemma {:induction false} PrintsOnce(w: World, res: Results, r: Buttons.Button, env: Env, n: nat)
    ensures var o := Updates(Step(w, PrintResults(res, 0, r), None), env, n);
      var composite := PrintLayout.AssembleComposite(res.orig, res.thatch, env.scale, env.template);
      o.Going? && o.step.state == PrintResults(res, n, r) && o.step.switch.None? &&
      o.step.world.existing == w.existing &&
      o.step.world.printed == w.printed + (if n >= 2 then [CompositeStem(res.run)] else []) &&
      o.step.world.saved == w.saved + (if n >= 2 then [Saved(CompositeStem(res.run), composite)] else [])
  {
    if n > 0 {
      var s0 := Step(w, PrintResults(res, 0, r), None);
      PrintsOnce(w, res, r, env, n - 1);
      var p := Updates(s0, env, n - 1).step;
      assert Updates(s0, env, n) == Update(p, env);
      PrintUpdate(p, res, n - 1, r, env);
      if n == 2 {
        assert p.world.saved == w.saved && p.world.printed == w.printed;
      } else {
        assert p.world == Update(p, env).step.world;
      }
    }
  }

  lemma PrintUpdate(s: Step, res: Results, timer: int, r: Buttons.Button, env: Env)
    requires s.state == PrintResults(res, timer, r)
    ensures var composite := PrintLayout.AssembleComposite(res.orig, res.thatch, env.scale, env.template);
      Update(s, env) == Going(Step(
        if timer + 1 == 2 then
          s.world.(saved := s.world.saved + [Saved(CompositeStem(res.run), composite)],
                   printed := s.world.printed + [CompositeStem(res.run)])
        else s.world,
        PrintResults(res, timer + 1, r), s.switch))
  {
  }

  /**
    Below 1000 the run's number, which the composite carries, is also what
    the saved directory yields when the number is derived again after the
    two saves; at 1000 the two differ (`Numbering.CompositeNumberAfter999`).
  */
  lemma RunNumberAgreesBelow1000(stems: seq<string>)
    requires Numbering.AllThree(stems) && Numbering.MaxNumber(stems) + 1 < 1000
    ensures Numbering.NextFileNumber(stems).Ok?
    ensures var run := Numbering.NextFileNumber(stems).value;
      Numbering.LastFileNumber(stems + [Numbering.RunStem(run, "_orig"), Numbering.RunStem(run, "_thatch")]) == Ok(run)
  {
    Numbering.NextIsMaxPlusOne(stems);
    var run := Numbering.NextFileNumber(stems).value;
    assert run == Numbering.Pad3(Numbering.MaxNumber(stems) + 1);
    var suffixes := ["_orig", "_thatch"];
    Numbering.SavedRunIsLast(stems, suffixes);
    var pair := seq(|suffixes|, k requires 0 <= k < |suffixes| => Numbering.RunStem(run, suffixes[k]));
    assert pair[0] == Numbering.RunStem(run, "_orig") && pair[1] == Numbering.RunStem(run, "_thatch");
    assert pair == [Numbering.RunStem(run, "_orig"), Numbering.RunStem(run, "_thatch")];
  }

  /**
    The click that moves past the last feature saves exactly two new files
    numbered with the next number, and the results screen shows those images
    mirrored back; any other event of the screen saves nothing. The new
    stems are fresh when every number on disk has three digits and the
    next one stays below 1000; otherwise the source may reuse a stem.
  */
  lemma LastNextSavesRun(
    s: Step, shot: Shot, fs: seq<Features.Feature>, idx: nat, cur: nat, nb: Buttons.Button, e: Event, env: Env)
    requires Push(nb, e).Ok? && Numbering.NextFileNumber(Stems(s.world)).Ok?
    ensures var o := ConfirmFeaturesEvent(s, shot, fs, idx, cur, nb, e, env);
      var last := Push(nb, e).value.clicked && idx + 1 == |fs|;
      o.Going? &&
      (!last ==> o.step.world == s.world && o.step.switch == s.switch) &&
      (last ==>
        var added := o.step.world.saved[|s.world.saved|..];
        var num := Numbering.NextFileNumber(Stems(s.world)).value;
        o.step.world.existing == s.world.existing && o.step.world.printed == s.world.printed &&
        s.world.saved <= o.step.world.saved && |added| == 2 &&
        added[0].stem == Numbering.RunStem(num, "_orig") && added[1].stem == Numbering.RunStem(num, "_thatch") &&
        (Numbering.AllThree(Stems(s.world)) && Numbering.MaxNumber(Stems(s.world)) + 1 < 1000 ==>
          added[0].stem !in Stems(s.world) && added[1].stem !in Stems(s.world)) &&
        o.step.switch.Some? && o.step.switch.value == ShowResultsState(o.step.switch.value.results) &&
        o.step.switch.value.results == Results(FlipLR(added[0].image), FlipLR(added[1].image), num) &&
        // the files hold the un-mirrored crops of the photo thatcherized with the features' current rectangles
        var out := Compositor.Thatcherize(shot.frame, CurrentRects(fs), env.mask, env.blend);
        added[0].image == out.savedOrig && added[1].image == out.savedThatch)
  {
    var stems := Stems(s.world);
    if Numbering.AllThree(stems) && Numbering.MaxNumber(stems) + 1 < 1000 {
      Numbering.NextRunIsNew(stems, "_orig");
      Numbering.NextRunIsNew(stems, "_thatch");
    }
    var p := Push(nb, e).value;
    if p.clicked && idx + 1 == |fs| {
      LastClickOutcome(s, shot, fs, idx, cur, nb, e, env);
    } else {
      assert AdvanceFeature(s, shot, fs, idx, p.clicked, env) == Ok((s.world, s.switch));
    }
  }

  /** The last click's outcome, spelled out: the world with the two saves appended and the results screen next. */
  lemma LastClickOutcome(
    s: Step, shot: Shot, fs: seq<Features.Feature>, idx: nat, cur: nat, nb: Buttons.Button, e: Event, env: Env)
    requires Push(nb, e).Ok? && Push(nb, e).value.clicked && idx + 1 == |fs|
    requires Numbering.NextFileNumber(Stems(s.world)).Ok?
    ensures var o := ConfirmFeaturesEvent(s, shot, fs, idx, cur, nb, e, env);
      var num := Numbering.NextFileNumber(Stems(s.world)).value;
      var out := Compositor.Thatcherize(shot.frame, CurrentRects(fs), env.mask, env.blend);
      var saves := [Saved(Numbering.RunStem(num, "_orig"), out.savedOrig), Saved(Numbering.RunStem(num, "_thatch"), out.savedThatch)];
      o.Going? && o.step.world == s.world.(saved := s.world.saved + saves) &&
      o.step.world.saved[..|s.world.saved|] == s.world.saved && o.step.world.saved[|s.world.saved|..] == saves &&
      o.step.switch == Some(ShowResultsState(Results(out.orig, out.thatch, num)))
  {
    var num := Numbering.NextFileNumber(Stems(s.world)).value;
    var out := Compositor.Thatcherize(shot.frame, CurrentRects(fs), env.mask, env.blend);
    var saves := [Saved(Numbering.RunStem(num, "_orig"), out.savedOrig), Saved(Numbering.RunStem(num, "_thatch"), out.savedThatch)];
    var w' := s.world.(saved := s.world.saved + saves);
    assert RunThatcherize(s.world, shot.frame, CurrentRects(fs), env) == Ok((w', Results(out.orig, out.thatch, num)));
    assert w'.saved[..|s.world.saved|] == s.world.saved && w'.saved[|s.world.saved|..] == saves;
  }

  /**
    On the feature screen every event goes to the next button and then to
    the feature being edited: a click moves the index on by one, anything
    else leaves it, and the photo, the edited feature's position and the
    other features stay as they were. The screen carries on unless the
    button fails or the last click's run number cannot be derived.
  */
  lemma NextClickAdvances(
    s: Step, shot: Shot, fs: seq<Features.Feature>, idx: nat, cur: nat, nb: Buttons.Button, e: Event, env: Env)
    ensures var o := ConfirmFeaturesEvent(s, shot, fs, idx, cur, nb, e, env);
      var p := Push(nb, e);
      o.Going? <==> p.Ok? && (p.value.clicked && idx + 1 == |fs| ==> Numbering.NextFileNumber(Stems(s.world)).Ok?)
    ensures var o := ConfirmFeaturesEvent(s, shot, fs, idx, cur, nb, e, env);
      var p := Push(nb, e);
      o.Going? ==>
        o.step.state.ConfirmFeatures? &&
        o.step.state.picture == shot && o.step.state.current == cur &&
        o.step.state.index == (if p.value.clicked then idx + 1 else idx) &&
        o.step.state.nextButton == p.value.button &&
        EditedOnly(o.step.state.features, fs, cur, e)
  {
    var o := ConfirmFeaturesEvent(s, shot, fs, idx, cur, nb, e, env);
    match Push(nb, e)
    case Err(_) =>
    case Ok(p) =>
      AdvanceFails(s, shot, fs, idx, p.clicked, env);
      match AdvanceFeature(s, shot, fs, idx, p.clicked, env)
      case Err(_) =>
      case Ok(ws) =>
        var fs' := if cur < |fs| then fs[cur := Features.HandleEvent(fs[cur], e)] else fs;
        assert o == Going(Step(ws.0, ConfirmFeatures(shot, fs', if p.clicked then idx + 1 else idx, cur, p.button), ws.1));
  }

  /** `fs'` is `fs` with only the feature at `cur`, if there is one, having handled `e`. */
  predicate EditedOnly(fs': seq<Features.Feature>, fs: seq<Features.Feature>, cur: nat, e: Event)
  {
    |fs'| == |fs| &&
    (forall k :: 0 <= k < |fs| && k != cur ==> fs'[k] == fs[k]) &&
    (cur < |fs| ==> fs'[cur] == Features.HandleEvent(fs[cur], e))
  }

  /** Moving on fails only on the last click, and only when the run number cannot be derived. */
  lemma AdvanceFails(s: Step, shot: Shot, fs: seq<Features.Feature>, idx: nat, clicked: bool, env: Env)
    ensures AdvanceFeature(s, shot, fs, idx, clicked, env).Err? <==>
      clicked && idx + 1 == |fs| && Numbering.NextFileNumber(Stems(s.world)).Err?
  {
  }

  /** An untouched feature's rectangle maps back to exactly what the detector found on the photo. */
  lemma AcceptedFeaturesMapBack(frame: Image, env: Env)
    ensures var fs := MakeFeatures(frame, env);
      var eyes := Detection.DetectEyes(env.eyeDetections, Width(frame) / 2, env.eyeHeight);
      ScreenToImage(fs[0].currentRect) == eyes.left && ScreenToImage(fs[1].currentRect) == eyes.right &&
      ScreenToImage(fs[2].currentRect) == Detection.DetectMouth(env.mouthDetections, Height(frame) / 2)
  {
    var eyes := Detection.DetectEyes(env.eyeDetections, Width(frame) / 2, env.eyeHeight);
    ConversionRoundTrip(eyes.left);
    ConversionRoundTrip(eyes.right);
    ConversionRoundTrip(Detection.DetectMouth(env.mouthDetections, Height(frame) / 2));
  }
}
