/** The window as the plugin sees it, the commands it issues to the host, and
    the effect each command has on that view. The host itself is not modelled. */
module Host {
  import opened Geometry

  /** `Meta.WindowType`. */
  datatype WindowType =
    | Normal | Desktop | Dock | Dialog | ModalDialog | Toolbar | Menu | Utility
    | Splashscreen | DropdownMenu | PopupMenu | Tooltip | Notification | Combo
    | Dnd | OverrideOther

  /** A snapshot of the attributes of a `Meta.Window` the plugin reads. `frame` and
      `buffer` are the rectangles as `_doResize` queries them; `allowsResize` is
      read after the first unmaximize and is taken to be unaffected by it and by the
      maximize/unmaximize cycle; `hasCompositorActor` says whether
      `get_compositor_private()` returns an actor. */
  datatype Window = Window(
    windowType: WindowType,
    destroyed: bool,
    maximizedHorizontally: bool,
    maximizedVertically: bool,
    allowsResize: bool,
    frame: Rect,
    buffer: Rect,
    hasCompositorActor: bool)
  {
    predicate Maximized() {
      maximizedHorizontally || maximizedVertically
    }
  }

  /** The host calls the plugin makes, in the order it makes them. */
  datatype Command =
    | Unmaximize                 // window.unmaximize()
    | Maximize                   // window.maximize()
    | Ease(to: Rect)             // actor.ease({x, y, width, height, ...})
    | MoveResizeFrame(to: Rect)  // window.move_resize_frame(false, x, y, width, height)

  /** The attributes no command changes. */
  predicate SameIdentity(w: Window, w': Window) {
    && w'.windowType == w.windowType
    && w'.destroyed == w.destroyed
    && w'.allowsResize == w.allowsResize
    && w'.hasCompositorActor == w.hasCompositorActor
  }

  /** The effect of one command on the snapshot. Maximizing sets both flags and
      unmaximizing clears both; neither moves the frame. The animation leaves the
      window alone. A move-resize sets the frame to its argument and carries the
      buffer along, keeping the decoration offset. */
  function Apply(w: Window, c: Command): (w': Window)
    ensures SameIdentity(w, w')
    ensures c.Unmaximize? ==> !w'.Maximized()
    ensures c.Maximize? ==> w'.maximizedHorizontally && w'.maximizedVertically
    ensures c.Ease? ==> w' == w
    ensures c.MoveResizeFrame? ==>
      && w'.frame == c.to
      && w'.buffer.x - w'.frame.x == w.buffer.x - w.frame.x
      && w'.buffer.y - w'.frame.y == w.buffer.y - w.frame.y
      && w'.Maximized() == w.Maximized()
  {
    match c
    case Unmaximize => w.(maximizedHorizontally := false, maximizedVertically := false)
    case Maximize => w.(maximizedHorizontally := true, maximizedVertically := true)
    case Ease(_) => w
    case MoveResizeFrame(r) =>
      w.(frame := r,
         buffer := Rect(r.x + (w.buffer.x - w.frame.x), r.y + (w.buffer.y - w.frame.y),
                        r.width + (w.buffer.width - w.frame.width),
                        r.height + (w.buffer.height - w.frame.height)))
  }

  /** The effect of a command sequence, applied left to right. */
  function ApplyAll(w: Window, cs: seq<Command>): (w': Window)
    ensures SameIdentity(w, w')
    decreases |cs|
  {
    if cs == [] then w else ApplyAll(Apply(w, cs[0]), cs[1..])
  }

  /** Running `a` then `b` is running `a + b`. */
  lemma {:induction false} ApplyAllAppend(w: Window, a: seq<Command>, b: seq<Command>)
    ensures ApplyAll(w, a + b) == ApplyAll(ApplyAll(w, a), b)
    decreases |a|
  {
    if a == [] {
      assert a + b == b;
    } else {
      assert (a + b)[1..] == a[1..] + b;
      ApplyAllAppend(Apply(w, a[0]), a[1..], b);
    }
  }

  /** The last command of a sequence acts on the window the rest left behind. */
  lemma ApplyAllSnoc(w: Window, cs: seq<Command>, c: Command)
    ensures ApplyAll(w, cs + [c]) == Apply(ApplyAll(w, cs), c)
  {
    ApplyAllAppend(w, cs, [c]);
    assert ApplyAll(ApplyAll(w, cs), [c]) == ApplyAll(Apply(ApplyAll(w, cs), c), []);
  }
}
