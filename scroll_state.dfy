/** The pinch-scroll anchor: an active flag and the point where the pinch began. */
module ScrollState {
  import opened Geometry

  /** Value view of the anchor, used by the engine's specification. */
  datatype Anchor = Anchor(active: bool, startX: real, startY: real)

  const Fresh := Anchor(false, 0.0, 0.0)

  function StartAt(x: real, y: real): Anchor { Anchor(true, x, y) }

  function Stopped(a: Anchor): (r: Anchor)
    ensures !r.active && r.startX == a.startX && r.startY == a.startY
  {
    a.(active := false)
  }

  /** Displacement of `(x, y)` from the anchor, whether or not it is active. */
  function AnchorDelta(a: Anchor, x: real, y: real): (d: Vec)
    ensures Add(d, Vec(a.startX, a.startY)) == Vec(x, y)
    ensures (x == a.startX && y == a.startY) <==> d == Origin
  {
    Vec(x - a.startX, y - a.startY)
  }

  class PinchScrollState {
    var active: bool
    var startX: real
    var startY: real

    function View(): Anchor
      reads this
    {
      Anchor(active, startX, startY)
    }

    constructor ()
      ensures View() == Fresh
    {
      active, startX, startY := false, 0.0, 0.0;
    }

    method Start(x: real, y: real)
      modifies this
      ensures View() == StartAt(x, y)
    {
      active, startX, startY := true, x, y;
    }

    /** Clears `active` only; the anchor coordinates stay. */
    method Stop()
      modifies this
      ensures View() == Stopped(old(View()))
    {
      active := false;
    }

    /** `delta`: the displacement from the anchor, whatever `active` says. */
    function Delta(x: real, y: real): (d: Vec)
      reads this
      ensures Geometry.Add(d, Vec(startX, startY)) == Vec(x, y)
    {
      AnchorDelta(View(), x, y)
    }
  }
}
