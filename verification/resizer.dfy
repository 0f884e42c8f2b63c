/** The window-fit decision of `_resizeWindow` and `_doResize` (extension.js lines
    92-156) and the two ways it is triggered, as a pure function from a window
    snapshot, the monitor's work area, the padding and the actor argument to the
    host commands the plugin issues. */
module Resizer {
  import opened Wrappers
  import opened Geometry
  import opened Host

  /** A window `_resizeWindow` acts on: not null, of type NORMAL, not destroyed. */
  predicate Eligible(window: Option<Window>) {
    && window.Some?
    && window.value.windowType == Normal
    && !window.value.destroyed
  }

  /** The frame already sits on the target, so `_doResize` returns early. */
  predicate Placed(w: Window, work: Rect, padding: int) {
    w.frame == FitTarget(work, padding)
  }

  /** The unmaximize `_resizeWindow` issues before anything else. */
  function Normalize(w: Window): (cs: seq<Command>)
    ensures w.Maximized() <==> cs == [Unmaximize]
    ensures !w.Maximized() <==> cs == []
    ensures !ApplyAll(w, cs).Maximized()
    ensures ApplyAll(w, cs).frame == w.frame && ApplyAll(w, cs).buffer == w.buffer
  {
    if w.Maximized() then [Unmaximize] else []
  }

  /** The one-pixel workaround: a maximize/unmaximize cycle, taken when the window
      is not maximized at that point. */
  function Workaround(w: Window): (cs: seq<Command>)
    ensures !w.Maximized() ==> cs == [Maximize, Unmaximize]
    ensures w.Maximized() ==> cs == []
  {
    if !w.maximizedHorizontally && !w.maximizedVertically then [Maximize, Unmaximize] else []
  }

  /** The animation step, issued only when an actor was passed in. */
  function EaseStep(w: Window, target: Rect, actor: bool): (cs: seq<Command>)
    ensures actor <==> |cs| == 1
    ensures !actor <==> cs == []
    ensures actor ==> cs[0].Ease? && cs[0].to.width == target.width && cs[0].to.height == target.height
    // the animation is displaced from the target by the decoration offset
    ensures actor ==> (cs[0].to.x - target.x == w.buffer.x - w.frame.x
                       && cs[0].to.y - target.y == w.buffer.y - w.frame.y)
  {
    if actor then [Ease(EaseTarget(target, w.frame, w.buffer))] else []
  }

  /** `_doResize` on the window as it stands when it is called. */
  function DoResize(w: Window, work: Rect, padding: int, actor: bool): (cs: seq<Command>)
    // the early return: nothing at all when the frame is already on target
    ensures cs == [] <==> Placed(w, work, padding)
    // otherwise the authoritative move-resize to the target comes last
    ensures cs != [] ==> cs[|cs| - 1] == MoveResizeFrame(FitTarget(work, padding))
    // and an animation is started only when an actor was passed in
    ensures (exists i :: 0 <= i < |cs| && cs[i].Ease?) ==> actor
    // a window not maximized at this point goes through the maximize/unmaximize cycle first
    ensures !Placed(w, work, padding) && !w.Maximized() ==> cs[0] == Maximize && cs[1] == Unmaximize
    // and nothing else: the cycle, the animation and the move-resize, once each
    ensures !Placed(w, work, padding) ==>
              |cs| == (if w.Maximized() then 1 else 3) + (if actor then 1 else 0)
    // with an actor, the offset animation comes just before the move-resize
    ensures !Placed(w, work, padding) && actor ==>
              |cs| >= 2 && cs[|cs| - 2] == Ease(EaseTarget(FitTarget(work, padding), w.frame, w.buffer))
  {
    var target := FitTarget(work, padding);
    if target == w.frame then
      []
    else
      Workaround(w) + EaseStep(w, target, actor) + [MoveResizeFrame(target)]
  }

  /** `_resizeWindow(window, actor)`: the whole command sequence of one trigger. */
  function ResizeWindow(window: Option<Window>, work: Rect, padding: int, actor: bool): (cs: seq<Command>)
    // null, non-NORMAL and destroyed windows are left alone
    ensures !Eligible(window) ==> cs == []
    // a maximized window is unmaximized first, whatever follows
    ensures Eligible(window) && window.value.Maximized() ==> |cs| > 0 && cs[0] == Unmaximize
    // a window that does not allow resize gets at most that unmaximize
    ensures Eligible(window) && !window.value.allowsResize ==> cs == Normalize(window.value)
    // a window is only ever moved to the fit target, and that move is the last command
    ensures forall i :: 0 <= i < |cs| && cs[i].MoveResizeFrame? ==>
              i == |cs| - 1 && cs[i].to == FitTarget(work, padding)
    // no animation without an actor
    ensures forall i :: 0 <= i < |cs| && cs[i].Ease? ==> actor
    ensures |cs| <= 5
  {
    if !Eligible(window) then
      []
    else
      var w := window.value;
      var pre := Normalize(w);
      if w.allowsResize then pre + DoResize(ApplyAll(w, pre), work, padding, actor) else pre
  }

  /** Every sequence `ResizeWindow` can produce, with the condition for each. */
  lemma ResizeWindowCases(window: Option<Window>, work: Rect, padding: int, actor: bool)
    ensures var cs := ResizeWindow(window, work, padding, actor);
      && (!Eligible(window) ==> cs == [])
      && (Eligible(window) && !window.value.allowsResize ==> cs == Normalize(window.value))
      && (Eligible(window) && window.value.allowsResize && Placed(window.value, work, padding) ==>
            cs == Normalize(window.value))
      && (Eligible(window) && window.value.allowsResize && !Placed(window.value, work, padding) ==>
            var w := window.value;
            var t := FitTarget(work, padding);
            cs == Normalize(w) + [Maximize, Unmaximize]
                  + (if actor then [Ease(EaseTarget(t, w.frame, w.buffer))] else [])
                  + [MoveResizeFrame(t)])
  {
  }

  /** A window that is not maximized and already on target gets no command at all. */
  lemma PlacedWindowIsSkipped(w: Window, work: Rect, padding: int, actor: bool)
    requires !w.Maximized() && Placed(w, work, padding)
    ensures ResizeWindow(Some(w), work, padding, actor) == []
  {
  }

  /** After the host has carried out one run's commands, an eligible window that
      allows resize sits on the target, unmaximized. */
  lemma RunSettlesWindow(w: Window, work: Rect, padding: int, actor: bool)
    requires Eligible(Some(w)) && w.allowsResize
    ensures var w' := ApplyAll(w, ResizeWindow(Some(w), work, padding, actor));
      && w'.frame == FitTarget(work, padding)
      && !w'.Maximized()
  {
    ResizeWindowCases(Some(w), work, padding, actor);
    var t := FitTarget(work, padding);
    var pre := Normalize(w);
    if !Placed(w, work, padding) {
      var ease := if actor then [Ease(EaseTarget(t, w.frame, w.buffer))] else [];
      var body := pre + [Maximize, Unmaximize] + ease;
      assert ResizeWindow(Some(w), work, padding, actor) == body + [MoveResizeFrame(t)];
      ApplyAllSnoc(w, body, MoveResizeFrame(t));
      ApplyAllAppend(w, pre + [Maximize, Unmaximize], ease);
      ApplyAllSnoc(w, pre + [Maximize], Unmaximize);
      assert pre + [Maximize, Unmaximize] == (pre + [Maximize]) + [Unmaximize];
      var wu := ApplyAll(w, pre + [Maximize, Unmaximize]);
      assert !wu.Maximized();
      if actor {
        assert ApplyAll(wu, ease) == ApplyAll(Apply(wu, ease[0]), []);
      }
      assert ApplyAll(w, body) == ApplyAll(wu, ease) == wu;
    }
  }

  /** Re-running the procedure on the window the first run left behind issues
      nothing: a retry after a completed fit is a no-op. */
  lemma RerunIsNoOp(w: Window, work: Rect, padding: int, actor: bool, actor': bool)
    ensures var w' := ApplyAll(w, ResizeWindow(Some(w), work, padding, actor));
      ResizeWindow(Some(w'), work, padding, actor') == []
  {
    var cs := ResizeWindow(Some(w), work, padding, actor);
    var w' := ApplyAll(w, cs);
    if !Eligible(Some(w)) {
      assert cs == [] && w' == w;
    } else if !w.allowsResize {
      assert cs == Normalize(w);
      assert !w'.Maximized() && w'.frame == w.frame;
      assert !w'.allowsResize;
    } else {
      RunSettlesWindow(w, work, padding, actor);
      PlacedWindowIsSkipped(w', work, padding, actor');
    }
  }

  /** The animation comes to rest where the buffer ends up once the authoritative
      move-resize has been carried out: the decoration offset keeps the two in step. */
  lemma {:induction false} EaseMatchesFinalBuffer(w: Window, work: Rect, padding: int, i: int)
    requires Eligible(Some(w)) && w.allowsResize
    requires var cs := ResizeWindow(Some(w), work, padding, true); 0 <= i < |cs| && cs[i].Ease?
    ensures var cs := ResizeWindow(Some(w), work, padding, true);
      var w' := ApplyAll(w, cs);
      && cs[i].to.x == w'.buffer.x && cs[i].to.y == w'.buffer.y
      && cs[i].to.width == w'.frame.width && cs[i].to.height == w'.frame.height
  {
    var cs := ResizeWindow(Some(w), work, padding, true);
    ResizeWindowCases(Some(w), work, padding, true);
    var t := FitTarget(work, padding);
    var pre := Normalize(w);
    if Placed(w, work, padding) {
      assert false;
    }
    var e := EaseTarget(t, w.frame, w.buffer);
    var body := pre + [Maximize, Unmaximize, Ease(e)];
    assert cs == body + [MoveResizeFrame(t)];
    assert cs[i] == Ease(e);
    ApplyAllSnoc(w, body, MoveResizeFrame(t));
    var wb := ApplyAll(w, body);
    ApplyAllAppend(w, pre, [Maximize, Unmaximize, Ease(e)]);
    var m := ApplyAll(w, pre);
    assert m.frame == w.frame && m.buffer == w.buffer;
    assert ApplyAll(m, [Maximize, Unmaximize, Ease(e)])
        == ApplyAll(Apply(m, Maximize), [Unmaximize, Ease(e)]);
    assert ApplyAll(Apply(m, Maximize), [Unmaximize, Ease(e)])
        == ApplyAll(Apply(Apply(m, Maximize), Unmaximize), [Ease(e)]);
    assert ApplyAll(Apply(Apply(m, Maximize), Unmaximize), [Ease(e)])
        == ApplyAll(Apply(Apply(Apply(m, Maximize), Unmaximize), Ease(e)), []);
    assert wb.frame == w.frame && wb.buffer == w.buffer;
  }

  /** A new window: the first-frame handler and each fallback timer call
      `_resizeWindow(window)` without an actor. */
  function OnWindowCreated(w: Window, work: Rect, padding: int): (cs: seq<Command>)
    ensures forall i :: 0 <= i < |cs| ==> !cs[i].Ease?
  {
    ResizeWindow(Some(w), work, padding, false)
  }

  /** The hotkey: the focused window is resized with its own actor. With no focused
      window, reading its actor throws before `_resizeWindow` is reached. */
  function OnHotkey(focus: Option<Window>, work: Rect, padding: int): (cs: seq<Command>)
    ensures focus.None? ==> cs == []
    ensures (exists i :: 0 <= i < |cs| && cs[i].Ease?) ==> focus.Some? && focus.value.hasCompositorActor
  {
    match focus
    case None => []
    case Some(w) => ResizeWindow(focus, work, padding, w.hasCompositorActor)
  }

  /** The hotkey animates exactly when the focused window is eligible, allows
      resize, is not yet on target and has an actor. */
  lemma HotkeyEasesIff(focus: Option<Window>, work: Rect, padding: int)
    ensures var cs := OnHotkey(focus, work, padding);
      (exists i :: 0 <= i < |cs| && cs[i].Ease?)
      <==> (&& Eligible(focus) && focus.value.allowsResize
            && !Placed(focus.value, work, padding) && focus.value.hasCompositorActor)
  {
    var cs := OnHotkey(focus, work, padding);
    if focus.Some? {
      var w := focus.value;
      ResizeWindowCases(focus, work, padding, w.hasCompositorActor);
      if Eligible(focus) && w.allowsResize && !Placed(w, work, padding) && w.hasCompositorActor {
        var t := FitTarget(work, padding);
        assert cs[|Normalize(w)| + 2] == Ease(EaseTarget(t, w.frame, w.buffer));
      }
    }
  }

  /** The calls the window-created path makes on one window (the first frame, then
      the fallback timers), with the host carrying out each call's commands
      before the next call and nothing else changing the window in between. A
      window without a compositor actor gets no call at all: `actor.connect`
      throws before the handler and the timers are set up. */
  function CreatedRuns(w: Window, work: Rect, padding: int, calls: nat): (runs: seq<seq<Command>>)
    ensures |runs| == if w.hasCompositorActor then calls else 0
    // the first call is `_resizeWindow(window)` on the window as created
    ensures |runs| > 0 ==> runs[0] == ResizeWindow(Some(w), work, padding, false)
    // no call on this path animates
    ensures forall i, j :: 0 <= i < |runs| && 0 <= j < |runs[i]| ==> !runs[i][j].Ease?
    decreases calls
  {
    if calls == 0 || !w.hasCompositorActor then []
    else
      var cs := OnWindowCreated(w, work, padding);
      [cs] + CreatedRuns(ApplyAll(w, cs), work, padding, calls - 1)
  }

  /** Once a call has nothing to do, every later call has nothing to do either. */
  lemma {:induction false} SettledStaysSettled(w: Window, work: Rect, padding: int, calls: nat)
    requires OnWindowCreated(w, work, padding) == []
    ensures forall i :: 0 <= i < |CreatedRuns(w, work, padding, calls)| ==>
              CreatedRuns(w, work, padding, calls)[i] == []
    decreases calls
  {
    if calls > 0 {
      assert ApplyAll(w, []) == w;
      SettledStaysSettled(w, work, padding, calls - 1);
    }
  }

  /** The fallback retries after the first call of the window-created path are
      all no-ops. */
  lemma RetriesAreNoOps(w: Window, work: Rect, padding: int, calls: nat)
    ensures forall i :: 1 <= i < |CreatedRuns(w, work, padding, calls)| ==>
              CreatedRuns(w, work, padding, calls)[i] == []
  {
    if calls > 0 {
      var cs := OnWindowCreated(w, work, padding);
      var w' := ApplyAll(w, cs);
      RerunIsNoOp(w, work, padding, false, false);
      SettledStaysSettled(w', work, padding, calls - 1);
    }
  }

  /** Worked example: a 1920x1080 work area with padding 8 gives the target
      (8, 8, 1904, 1064), and a padding too large for an 800x600 area clamps to 100. */
  lemma ScenarioTargets()
    ensures FitTarget(Rect(0, 0, 1920, 1080), 8) == Rect(8, 8, 1904, 1064)
    ensures FitTarget(Rect(0, 0, 800, 600), 350) == Rect(350, 350, 100, 100)
  {
  }

  /** Worked example: a frame at (10, 10) whose buffer sits at (8, 8) is animated
      two pixels up and left of the target, then moved onto it. */
  lemma ScenarioOffset()
    ensures var w := Window(Normal, false, false, false, true, Rect(10, 10, 640, 480), Rect(8, 8, 644, 484), true);
      DoResize(w, Rect(0, 0, 1920, 1080), 8, true)
        == [Maximize, Unmaximize, Ease(Rect(6, 6, 1904, 1064)), MoveResizeFrame(Rect(8, 8, 1904, 1064))]
  {
  }

  /** Worked example: a window already at (8, 8, 1904, 1064) gets nothing. */
  lemma ScenarioPlaced()
    ensures var w := Window(Normal, false, false, false, true, Rect(8, 8, 1904, 1064), Rect(6, 6, 1908, 1068), true);
      OnHotkey(Some(w), Rect(0, 0, 1920, 1080), 8) == []
  {
  }
}
