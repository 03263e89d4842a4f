/**
 * The drawer instantiated with the usual point reflection, and a complete drawing session
 * worked through event by event.
 */
module Scenarios {
  import opened Wrappers
  import opened Types
  import opened PathCommands
  import opened Drawer

  /** The point symmetric to q about p. */
  function Reflect(px: int, py: int, qx: int, qy: int): (q: (int, int)) {
    (2 * px - qx, 2 * py - qy)
  }

  /** Reflecting twice about the same pivot gives the point back. */
  lemma ReflectInvolution(px: int, py: int, qx: int, qy: int)
    ensures var (rx, ry) := Reflect(px, py, qx, qy); Reflect(px, py, rx, ry) == (qx, qy)
  {
  }

  /** With the usual reflection, a closing curve's second control point is the anchor it closes on. */
  lemma ClosingCurveHasNoOutgoingHandle(s: Snapshot, ox: int, oy: int, anchorSize: int)
    requires Inv(s) && s.state == NextPoint
    requires FirstNear(s.path, 2 * ox, 2 * oy, anchorSize) >= 0
    ensures var c := Last(MouseDown(s, 0, ox, oy, Reflect, anchorSize).path);
      c.Curve? && c.x2 == c.x && c.y2 == c.y
  {
  }

  function Last(p: seq<Cmd>): (c: Cmd)
    requires p != []
  {
    p[|p| - 1]
  }

  /**
   * Press and release at (5, 5), move to (20, 20), press and release there, right click.
   * Because the first commit carries its handle forward, both later commands are curves.
   * The bound on the tolerance matters: from anchorSize 31 on, (40, 40) is near the
   * Move at (10, 10), so the second press closes the path onto it instead.
   */
  lemma ClickClickRightClick(anchorSize: int)
    requires anchorSize <= 30
    ensures var r := Run(Fresh(), [Down(0, 5, 5), Up(5, 5), Moved(20, 20), Down(0, 20, 20), Up(20, 20), ContextMenu],
                         Reflect, anchorSize);
      && r.Some? && r.value.state == End
      && r.value.path == [Move(10, 10), Curve(40, 40, 10, 10, 40, 40), Curve(40, 40, 40, 40, 40, 40)]
  {
    // The first release commits the Move and carries its handle (10, 10) as (x1, y1).
    var s1 := MouseDown(Fresh(), 0, 5, 5, Reflect, anchorSize);
    var s2 := MouseUp(s1, 5, 5, Reflect);
    assert s2.path == [Move(10, 10)] && s2.x1 == Some(10);
    // The second press, at (40, 40), is near no anchor and sets a new point.
    var s3 := MouseMove(s2, 20, 20);
    assert FirstNear(s3.path, 40, 40, anchorSize) == -1;
    var s4 := MouseDown(s3, 0, 20, 20, Reflect, anchorSize);
    assert s4.state == PointSet;
    var s5 := MouseUp(s4, 20, 20, Reflect);
    assert s5.path == [Move(10, 10), Curve(40, 40, 10, 10, 40, 40)];
  }

  /** From tolerance 31 on, the second press lands near the starting Move and closes the path. */
  lemma ClickClickClosesWithWideTolerance(anchorSize: int)
    requires anchorSize > 30
    ensures var r := Run(Fresh(), [Down(0, 5, 5), Up(5, 5), Moved(20, 20), Down(0, 20, 20)],
                         Reflect, anchorSize);
      && r.Some? && r.value.state == End
      && r.value.path == [Move(10, 10), Curve(10, 10, 10, 10, 10, 10)]
  {
  }
}
