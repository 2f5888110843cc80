/** Types shared by the pointer-drag cells and the drag orchestrators. */
module DragTypes {
  import opened Wrappers

  /** The axes a drag may move along: `"x" | "y" | "both"`. */
  datatype DragAxis = X | Y | Both

  /** The axis a free (`"both"`) drag commits to once it locks: `"x" | "y"`. */
  datatype LockedAxis = LockX | LockY

  /** A semantic drag direction; `null` is `None` at the use sites. */
  datatype Direction = Left | Right | Top | Bottom

  /** A pair of absolute movement magnitudes fed to the threshold and the axis lock. */
  datatype Sample = Sample(absX: real, absY: real)

  /** Effective deltas after axis filtering and inversion. */
  datatype Delta = Delta(x: real, y: real)

  function AsAxis(l: LockedAxis): DragAxis {
    if l == LockX then X else Y
  }

  function Abs(x: real): (r: real)
    ensures r >= 0.0 && (r == x || r == -x)
  {
    if x < 0.0 then -x else x
  }

  function Max(a: real, b: real): (r: real)
    ensures r >= a && r >= b && (r == a || r == b)
  {
    if a >= b then a else b
  }
}
