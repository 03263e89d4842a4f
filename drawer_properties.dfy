/** What the drawer's events do, stated event by event, and what every reachable drawer satisfies. */
module DrawerProperties {
  import opened Wrappers
  import opened Types
  import opened PathCommands
  import opened Drawer

  // ---- Choosing the command ----

  /** The rendering flag never influences which command is built. */
  lemma FlagIgnoredByCommand(s: Snapshot, flag: bool, sym: Symmetry)
    requires CanCommit(s)
    ensures NextCommand(s.(isPrevControlPoint := flag), sym) == NextCommand(s, sym)
  {
  }

  /** A commit leaves the anchor, the path and the phase alone and carries the unreflected handle. */
  lemma CommitSideEffects(s: Snapshot)
    ensures AfterCommand(s).isPrevControlPoint <==> (s.x != s.x2 || s.y != s.y2)
    ensures AfterCommand(s).x1 == s.x2 && AfterCommand(s).y1 == s.y2
    ensures AfterCommand(s).x2.None? && AfterCommand(s).y2.None?
    ensures AfterCommand(s).x == s.x && AfterCommand(s).y == s.y
    ensures AfterCommand(s).path == s.path && AfterCommand(s).state == s.state
  {
  }

  /**
   * In every reachable phase that commits onto a non-empty path, a control point has been
   * carried forward, so the straight-line branch is never taken.
   */
  lemma ReachableCommitIsCurve(s: Snapshot, sym: Symmetry)
    requires Inv(s)
    requires s.state == PointSet || s.state == NextPoint
    requires s.path != []
    ensures s.x1.Some? && s.y1.Some?
    ensures CanCommit(s) && NextCommand(s, sym).Curve?
  {
  }

  /** From a fresh drawer, whatever the events, the path is a Move followed by curves only. */
  lemma RunFromFreshIsWellFormed(es: seq<Event>, sym: Symmetry, anchorSize: int)
    requires Run(Fresh(), es, sym, anchorSize).Some?
    ensures WellFormedPath(Run(Fresh(), es, sym, anchorSize).value.path)
    ensures forall c | c in Run(Fresh(), es, sym, anchorSize).value.path :: !c.Line?
  {
  }

  // ---- Transitions ----

  /** A left press in Init places anchor and handle at the doubled offset. */
  lemma LeftDownInInit(s: Snapshot, ox: int, oy: int, sym: Symmetry, anchorSize: int)
    requires Inv(s) && s.state == Init
    ensures var r := MouseDown(s, 0, ox, oy, sym, anchorSize);
      && r.state == PointSet && r.path == s.path == []
      && r.x == r.x2 == Some(2 * ox) && r.y == r.y2 == Some(2 * oy)
  {
  }

  /** Presses that are not the primary button, or that come in PointSet or End, change nothing. */
  lemma IgnoredMouseDown(s: Snapshot, button: int, ox: int, oy: int, sym: Symmetry, anchorSize: int)
    requires Inv(s)
    requires button != 0 || s.state == PointSet || s.state == End
    ensures MouseDown(s, button, ox, oy, sym, anchorSize) == s
  {
  }

  /** Releasing in PointSet appends exactly the next command and waits for the next point. */
  lemma MouseUpCommits(s: Snapshot, ox: int, oy: int, sym: Symmetry)
    requires Inv(s) && s.state == PointSet
    ensures CanCommit(s)
    ensures var r := MouseUp(s, ox, oy, sym);
      && r.state == NextPoint
      && r.path == s.path + [NextCommand(s, sym)]
      && r.x == r.x2 == Some(2 * ox) && r.y == r.y2 == Some(2 * oy)
  {
  }

  /** Releasing in any other phase changes nothing. */
  lemma MouseUpElsewhere(s: Snapshot, ox: int, oy: int, sym: Symmetry)
    requires Inv(s) && s.state != PointSet
    ensures MouseUp(s, ox, oy, sym) == s
  {
  }

  /** A right click before End appends the command for the current point and ends the path. */
  lemma RightClickCommits(s: Snapshot, sym: Symmetry)
    requires Inv(s) && RightClickDefined(s) && s.state != End
    ensures CanCommit(s)
    ensures var r := RightClick(s, sym);
      r.state == End && r.path == s.path + [NextCommand(s, sym)]
  {
  }

  /** A right click in Init commits the path's Move. */
  lemma RightClickInInit(s: Snapshot, sym: Symmetry)
    requires Inv(s) && s.state == Init && s.x.Some? && s.y.Some?
    ensures RightClick(s, sym).path == [Move(s.x.value, s.y.value)]
    ensures RightClick(s, sym).state == End
  {
  }

  /** Moving in NextPoint puts anchor and handle together; in PointSet only the handle moves. */
  lemma MouseMoveEffects(s: Snapshot, ox: int, oy: int)
    requires Inv(s)
    ensures s.state == NextPoint ==>
      var r := MouseMove(s, ox, oy);
      !IsDifferentPoint(r) && r.x == Some(2 * ox) && r.y == Some(2 * oy)
      && r == s.(x := r.x, y := r.y, x2 := r.x, y2 := r.y)
    ensures s.state == PointSet ==>
      MouseMove(s, ox, oy) == s.(x2 := Some(2 * ox), y2 := Some(2 * oy))
    ensures s.state == Init || s.state == End ==> MouseMove(s, ox, oy) == s
  {
  }

  // ---- Closing the path ----

  /**
   * A primary press in NextPoint near any anchor of the path (the first one found) appends a
   * curve ending exactly at that anchor, with no dragged handle, and ends the path.
   */
  lemma ClosingClick(s: Snapshot, ox: int, oy: int, sym: Symmetry, anchorSize: int)
    requires Inv(s) && s.state == NextPoint
    requires FirstNear(s.path, 2 * ox, 2 * oy, anchorSize) >= 0
    ensures var i := FirstNear(s.path, 2 * ox, 2 * oy, anchorSize);
      var r := MouseDown(s, 0, ox, oy, sym, anchorSize);
      && r.state == End
      && |r.path| == |s.path| + 1 && r.path[..|s.path|] == s.path
      && r.path[|s.path|].Curve?
      && r.path[|s.path|].x == s.path[i].x && r.path[|s.path|].y == s.path[i].y
      && !r.isPrevControlPoint
  {
  }

  /** Pressing near the starting anchor closes the path onto its Move. */
  lemma ClickOnStartCloses(s: Snapshot, ox: int, oy: int, sym: Symmetry, anchorSize: int)
    requires Inv(s) && s.state == NextPoint
    requires s.path[0].IsNearPoint(2 * ox, 2 * oy, anchorSize)
    ensures var r := MouseDown(s, 0, ox, oy, sym, anchorSize);
      && r.state == End && r.path[0].Move?
      && r.path[|r.path| - 1].x == r.path[0].x && r.path[|r.path| - 1].y == r.path[0].y
  {
  }

  /** A press in NextPoint that is near no anchor places the next point. */
  lemma PressAwayFromAnchors(s: Snapshot, ox: int, oy: int, sym: Symmetry, anchorSize: int)
    requires Inv(s) && s.state == NextPoint
    requires forall j | 0 <= j < |s.path| :: !s.path[j].IsNearPoint(2 * ox, 2 * oy, anchorSize)
    ensures MouseDown(s, 0, ox, oy, sym, anchorSize)
      == s.(x := Some(2 * ox), y := Some(2 * oy), x2 := Some(2 * ox), y2 := Some(2 * oy), state := PointSet)
  {
  }

  // ---- Reset ----

  /** A right click in End clears the path and returns to Init; every other field is kept. */
  lemma ResetKeepsFields(s: Snapshot, sym: Symmetry)
    requires Inv(s) && s.state == End
    ensures RightClick(s, sym) == s.(path := [], state := Init)
  {
  }

  /**
   * After a reset, a press and a release leave the drawer exactly as they leave a fresh one:
   * the kept fields are all overwritten by the first commit, which is a Move.
   */
  lemma ResetBehavesLikeFresh(s: Snapshot, ox: int, oy: int, ux: int, uy: int, sym: Symmetry, anchorSize: int)
    requires Inv(s) && s.state == End
    ensures
      var reset := RightClick(s, sym);
      var start := Fresh();
      && MouseUp(MouseDown(reset, 0, ox, oy, sym, anchorSize), ux, uy, sym)
         == MouseUp(MouseDown(start, 0, ox, oy, sym, anchorSize), ux, uy, sym)
      && MouseUp(MouseDown(reset, 0, ox, oy, sym, anchorSize), ux, uy, sym).path == [Move(2 * ox, 2 * oy)]
  {
  }
}
