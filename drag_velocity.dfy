/**
 * Raw drag velocity (`useDragVelocity`) in units per millisecond: the
 * first update only records a baseline; later updates with a strictly
 * later timestamp set the velocity to the change in delta over elapsed
 * time; updates whose timestamp does not advance are ignored.
 */
module DragVelocity {
  import opened Wrappers

  class Velocity {
    var vx: real
    var vy: real
    var lastTime: Option<real>
    var lastX: real
    var lastY: real

    predicate Cleared()
      reads this
    {
      vx == 0.0 && vy == 0.0 && lastTime == None && lastX == 0.0 && lastY == 0.0
    }

    constructor ()
      ensures Cleared()
    {
      vx, vy, lastTime, lastX, lastY := 0.0, 0.0, None, 0.0, 0.0;
    }

    method Update(dx: real, dy: real, time: real)
      modifies this
      ensures old(lastTime).None? ==>
        lastTime == Some(time) && lastX == dx && lastY == dy && vx == old(vx) && vy == old(vy)
      ensures old(lastTime).Some? && time - old(lastTime).value <= 0.0 ==>
        lastTime == old(lastTime) && lastX == old(lastX) && lastY == old(lastY) && vx == old(vx) && vy == old(vy)
      ensures old(lastTime).Some? && time - old(lastTime).value > 0.0 ==>
        && vx == (dx - old(lastX)) / (time - old(lastTime).value)
        && vy == (dy - old(lastY)) / (time - old(lastTime).value)
        && lastTime == Some(time) && lastX == dx && lastY == dy
      // accepted timestamps strictly increase
      ensures old(lastTime).Some? ==> lastTime.Some? && lastTime.value >= old(lastTime).value
      ensures old(lastTime).Some? && lastTime != old(lastTime) ==> lastTime.value > old(lastTime).value
    {
      if lastTime.None? {
        lastTime := Some(time);
        lastX := dx;
        lastY := dy;
        return;
      }
      var dt := time - lastTime.value;
      if dt <= 0.0 {
        return;
      }
      vx := (dx - lastX) / dt;
      vy := (dy - lastY) / dt;
      lastTime := Some(time);
      lastX := dx;
      lastY := dy;
    }

    method Reset()
      modifies this
      ensures Cleared()
    {
      vx, vy, lastTime, lastX, lastY := 0.0, 0.0, None, 0.0, 0.0;
    }
  }
}
