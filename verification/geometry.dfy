/** Integer rectangles and the fit-target arithmetic of `_doResize` (extension.js). */
module Geometry {

  /** The smallest width or height the plugin ever asks the host for. */
  const MinSize: int := 100

  /** A host rectangle. The host's coordinates are whole pixels, so the source's
      `Math.round` on them is the identity here. */
  datatype Rect = Rect(x: int, y: int, width: int, height: int)

  /** `Math.max(100, v)`: a length never below `MinSize`. */
  function AtLeastMin(v: int): (r: int)
    ensures r >= MinSize && r >= v
    ensures r == v || r == MinSize
  {
    if v >= MinSize then v else MinSize
  }

  /** The rectangle a window is fitted to: the work area inset by `padding` on
      all four sides, with width and height floored at `MinSize`. */
  function FitTarget(work: Rect, padding: int): (t: Rect)
    ensures t.x == work.x + padding && t.y == work.y + padding
    ensures t.width >= MinSize && t.height >= MinSize
    ensures work.width - 2 * padding >= MinSize ==> t.width == work.width - 2 * padding
    ensures work.width - 2 * padding <= MinSize ==> t.width == MinSize
    ensures work.height - 2 * padding >= MinSize ==> t.height == work.height - 2 * padding
    ensures work.height - 2 * padding <= MinSize ==> t.height == MinSize
  {
    Rect(work.x + padding, work.y + padding,
         AtLeastMin(work.width - padding * 2), AtLeastMin(work.height - padding * 2))
  }

  /** When the padding is non-negative and the inset area is not clamped, the
      target lies inside the work area with the same margin on every side. */
  lemma FitTargetInsideWorkArea(work: Rect, padding: int)
    requires padding >= 0
    requires work.width - 2 * padding >= MinSize && work.height - 2 * padding >= MinSize
    ensures var t := FitTarget(work, padding);
      && work.x <= t.x && t.x + t.width <= work.x + work.width
      && work.y <= t.y && t.y + t.height <= work.y + work.height
      && t.x - work.x == (work.x + work.width) - (t.x + t.width) == padding
      && t.y - work.y == (work.y + work.height) - (t.y + t.height) == padding
  {
  }

  /** When the floor of 100 applies, the target's far edge sits 100 past its
      padded origin, and it runs past the work area exactly when the padding plus
      100 exceeds the work area's length. */
  lemma FitTargetClamped(work: Rect, padding: int)
    ensures var t := FitTarget(work, padding);
      && (work.width - 2 * padding <= MinSize ==>
            && t.x + t.width == work.x + padding + MinSize
            && (t.x + t.width > work.x + work.width <==> padding + MinSize > work.width))
      && (work.height - 2 * padding <= MinSize ==>
            && t.y + t.height == work.y + padding + MinSize
            && (t.y + t.height > work.y + work.height <==> padding + MinSize > work.height))
  {
  }

  /** The same rectangle moved by `(dx, dy)`. */
  function Translate(r: Rect, dx: int, dy: int): (s: Rect)
    ensures s.width == r.width && s.height == r.height
    ensures s.x - r.x == dx && s.y - r.y == dy
  {
    Rect(r.x + dx, r.y + dy, r.width, r.height)
  }

  /** Where the actor animation is sent: the target frame shifted by the decoration
      offset, i.e. by how far the buffer's origin sits from the frame's. */
  function EaseTarget(target: Rect, frame: Rect, buffer: Rect): (e: Rect)
    ensures e.width == target.width && e.height == target.height
    ensures e.x - target.x == buffer.x - frame.x
    ensures e.y - target.y == buffer.y - frame.y
  {
    Translate(target, buffer.x - frame.x, buffer.y - frame.y)
  }
}
