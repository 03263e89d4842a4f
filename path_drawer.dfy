/**
 * The interactive path builder: a state machine driven by mouse events that commits
 * path commands one at a time. Snapshot is the value of all of a drawer's fields;
 * the functions on snapshots (MouseDown, MouseMove, MouseUp, RightClick) say what
 * each event does, and the PathDrawer class does it in place.
 * Event offsets are doubled before they are stored or compared (the canvas backing
 * store is twice its displayed size).
 */
module Drawer {
  import opened Wrappers
  import opened Types
  import opened PathCommands

  /** The reflection helper a drawer is given: the point (px, py, qx, qy) maps q to, about p. */
  type Symmetry = (int, int, int, int) -> (int, int)

  /** All fields of a drawer. Coordinates are None while undefined. */
  datatype Snapshot = Snapshot(
    state: State,
    path: seq<Cmd>,
    x: Option<int>, y: Option<int>,
    x1: Option<int>, y1: Option<int>,
    x2: Option<int>, y2: Option<int>,
    isPrevControlPoint: bool)

  /** A drawer as constructed: no path, nothing defined. */
  function Fresh(): (r: Snapshot)
    ensures Inv(r) && r.state == Init && r.path == [] && !r.isPrevControlPoint
  {
    Snapshot(Init, [], None, None, None, None, None, None, false)
  }

  /** The handle (x2, y2) is not at the anchor (x, y); undefined differs from any number. */
  predicate IsDifferentPoint(s: Snapshot): (b: bool)
    ensures s.x.Some? && s.x2.None? ==> b
    ensures s.x.Some? && s.y.Some? && s.x2.Some? && s.y2.Some? ==>
      (b <==> (s.x.value, s.y.value) != (s.x2.value, s.y2.value))
  {
    s.x != s.x2 || s.y != s.y2
  }

  /** The commit would be a straight line: no carried control point and no drag. */
  predicate TakesLine(s: Snapshot) {
    s.path != [] && s.x1.None? && s.y1.None? && !IsDifferentPoint(s)
  }

  /** Every coordinate the next command reads is defined. */
  predicate CanCommit(s: Snapshot) {
    && s.x.Some? && s.y.Some?
    && (s.path != [] && !TakesLine(s) ==> s.x1.Some? && s.y1.Some? && s.x2.Some? && s.y2.Some?)
  }

  /** The command a commit appends to the path. */
  function NextCommand(s: Snapshot, sym: Symmetry): (c: Cmd)
    requires CanCommit(s)
    ensures c.x == s.x.value && c.y == s.y.value
    ensures c.Move? <==> s.path == []
    ensures c.Line? <==> TakesLine(s)
    ensures c.Curve? ==>
      (c.x1 == s.x1.value && c.y1 == s.y1.value
       && (c.x2, c.y2) == sym(s.x.value, s.y.value, s.x2.value, s.y2.value))
  {
    if s.path == [] then
      Move(s.x.value, s.y.value)
    else if TakesLine(s) then
      Line(s.x.value, s.y.value)
    else
      var (sx, sy) := sym(s.x.value, s.y.value, s.x2.value, s.y2.value);
      Curve(s.x.value, s.y.value, s.x1.value, s.y1.value, sx, sy)
  }

  /** The fields a commit leaves behind: the handle is carried forward and cleared. */
  function AfterCommand(s: Snapshot): (r: Snapshot)
    ensures r.isPrevControlPoint <==> IsDifferentPoint(s)
    ensures r.x1 == s.x2 && r.y1 == s.y2 && r.x2.None? && r.y2.None?
    ensures r.state == s.state && r.path == s.path && r.x == s.x && r.y == s.y
  {
    s.(isPrevControlPoint := IsDifferentPoint(s), x1 := s.x2, y1 := s.y2, x2 := None, y2 := None)
  }

  /** Appends the next command to the path. */
  function Commit(s: Snapshot, sym: Symmetry): (r: Snapshot)
    requires CanCommit(s)
    ensures |r.path| == |s.path| + 1 && r.path[..|s.path|] == s.path
    ensures r.path[|s.path|] == NextCommand(s, sym)
    ensures r.(path := s.path) == AfterCommand(s)
  {
    AfterCommand(s).(path := s.path + [NextCommand(s, sym)])
  }

  /** Anchor and handle both at the doubled offset. */
  function PlacePoint(s: Snapshot, ox: int, oy: int): (r: Snapshot)
    ensures r.x == Some(2 * ox) && r.y == Some(2 * oy) && !IsDifferentPoint(r)
    ensures r.(x := s.x, y := s.y, x2 := s.x2, y2 := s.y2) == s
  {
    s.(x := Some(2 * ox), y := Some(2 * oy), x2 := Some(2 * ox), y2 := Some(2 * oy))
  }

  /** Anchor and handle both at the anchor of path[i]. */
  function AtCommand(s: Snapshot, i: int): (r: Snapshot)
    requires 0 <= i < |s.path|
    ensures r.x == Some(s.path[i].x) && r.y == Some(s.path[i].y) && !IsDifferentPoint(r)
    ensures r.(x := s.x, y := s.y, x2 := s.x2, y2 := s.y2) == s
  {
    var p := s.path[i];
    s.(x := Some(p.x), y := Some(p.y), x2 := Some(p.x), y2 := Some(p.y))
  }

  /** A path starts with its only Move, and every later command is a curve. */
  predicate WellFormedPath(p: seq<Cmd>) {
    p != [] ==> p[0].Move? && forall i | 0 < i < |p| :: p[i].Curve?
  }

  /** What holds of every drawer the events can reach. */
  predicate Inv(s: Snapshot) {
    && WellFormedPath(s.path)
    && (s.state == Init ==> s.path == [])
    && (s.state == NextPoint || s.state == End ==> s.path != [])
    && (s.state == PointSet || s.state == NextPoint ==>
          s.x.Some? && s.y.Some? && s.x2.Some? && s.y2.Some?
          && (s.path != [] ==> s.x1.Some? && s.y1.Some?))
  }

  /** The least index of a command whose anchor is near (px, py), or -1. */
  function FirstNear(path: seq<Cmd>, px: int, py: int, anchorSize: int): (i: int)
    ensures -1 <= i < |path|
    ensures i >= 0 ==> path[i].IsNearPoint(px, py, anchorSize)
    ensures forall j | 0 <= j < |path| && (i < 0 || j < i) :: !path[j].IsNearPoint(px, py, anchorSize)
  {
    if path == [] then -1
    else if path[0].IsNearPoint(px, py, anchorSize) then 0
    else
      var j := FirstNear(path[1..], px, py, anchorSize);
      if j < 0 then -1 else j + 1
  }

  /** Committing from a reachable drawer that has left Init keeps the path well formed. */
  lemma CommitKeepsPathWellFormed(s: Snapshot, sym: Symmetry)
    requires Inv(s) && CanCommit(s)
    requires s.path != [] ==> s.x1.Some? && s.y1.Some?
    ensures WellFormedPath(Commit(s, sym).path)
    ensures Commit(s, sym).path != []
  {
  }

  function MouseDown(s: Snapshot, button: int, ox: int, oy: int, sym: Symmetry, anchorSize: int): (r: Snapshot)
    requires Inv(s)
    ensures Inv(r)
  {
    if button != 0 then s
    else match s.state
      case Init => PlacePoint(s, ox, oy).(state := PointSet)
      case PointSet => s
      case NextPoint =>
        var i := FirstNear(s.path, 2 * ox, 2 * oy, anchorSize);
        if i > -1 then
          var t := AtCommand(s, i);
          Commit(t, sym).(state := End)
        else
          PlacePoint(s, ox, oy).(state := PointSet)
      case End => s
  }

  function MouseMove(s: Snapshot, ox: int, oy: int): (r: Snapshot)
    requires Inv(s)
    ensures Inv(r)
  {
    match s.state
    case PointSet => s.(x2 := Some(2 * ox), y2 := Some(2 * oy))
    case NextPoint => PlacePoint(s, ox, oy)
    case _ => s
  }

  function MouseUp(s: Snapshot, ox: int, oy: int, sym: Symmetry): (r: Snapshot)
    requires Inv(s)
    ensures Inv(r)
  {
    if s.state == PointSet then
      PlacePoint(Commit(s, sym), ox, oy).(state := NextPoint)
    else s
  }

  /** A right click is covered when it does not commit an undefined anchor. */
  predicate RightClickDefined(s: Snapshot) {
    s.state == Init ==> s.x.Some? && s.y.Some?
  }

  function RightClick(s: Snapshot, sym: Symmetry): (r: Snapshot)
    requires Inv(s) && RightClickDefined(s)
    ensures Inv(r)
  {
    if s.state != End then
      Commit(s, sym).(state := End)
    else
      s.(path := [], state := Init)
  }

  /** The four listeners' events, with the offsets they carry. */
  datatype Event =
    | Down(button: int, ox: int, oy: int)
    | Moved(ox: int, oy: int)
    | Up(ox: int, oy: int)
    | ContextMenu

  /** The events the model covers from s: all but a right click before any anchor exists. */
  predicate Enabled(s: Snapshot, e: Event) {
    e.ContextMenu? ==> RightClickDefined(s)
  }

  /** One event. The path only grows by one command, stays as it is, or is cleared. */
  function Step(s: Snapshot, e: Event, sym: Symmetry, anchorSize: int): (r: Snapshot)
    requires Inv(s) && Enabled(s, e)
    ensures Inv(r)
    ensures r.path == s.path || r.path == []
      || (|r.path| == |s.path| + 1 && r.path[..|s.path|] == s.path)
  {
    var r := match e
      case Down(button, ox, oy) => MouseDown(s, button, ox, oy, sym, anchorSize)
      case Moved(ox, oy) => MouseMove(s, ox, oy)
      case Up(ox, oy) => MouseUp(s, ox, oy, sym)
      case ContextMenu => RightClick(s, sym);
    r
  }

  /** The drawer after a sequence of events, or None if one of them is not covered. */
  function Run(s: Snapshot, es: seq<Event>, sym: Symmetry, anchorSize: int): (r: Option<Snapshot>)
    requires Inv(s)
    ensures r.Some? ==> Inv(r.value)
    decreases |es|
  {
    if es == [] then Some(s)
    else if !Enabled(s, es[0]) then None
    else Run(Step(s, es[0], sym, anchorSize), es[1..], sym, anchorSize)
  }

  /**
   * The drawer. calcSymmetry and anchorSize stand for the reflection helper and the
   * hit-test tolerance, which the drawer takes from elsewhere.
   */
  class PathDrawer {
    const calcSymmetry: Symmetry
    const anchorSize: int
    var state: State
    var path: seq<Cmd>
    var x1: Option<int>
    var y1: Option<int>
    var x2: Option<int>
    var y2: Option<int>
    var x: Option<int>
    var y: Option<int>
    var isPrevControlPoint: bool

    function Snap(): (r: Snapshot)
      reads this
    {
      Snapshot(state, path, x, y, x1, y1, x2, y2, isPrevControlPoint)
    }

    predicate Valid()
      reads this
    {
      Inv(Snap())
    }

    constructor(calcSymmetry: Symmetry, anchorSize: int)
      ensures Snap() == Fresh() && Valid()
      ensures this.calcSymmetry == calcSymmetry && this.anchorSize == anchorSize
    {
      this.calcSymmetry := calcSymmetry;
      this.anchorSize := anchorSize;
      state := Init;
      path := [];
      x1, y1, x2, y2, x, y := None, None, None, None, None, None;
      isPrevControlPoint := false;
    }

    method SetCurrentPos(ox: int, oy: int)
      modifies this
      ensures Snap() == old(Snap()).(x := Some(2 * ox), y := Some(2 * oy))
    {
      x := Some(ox * 2);
      y := Some(oy * 2);
    }

    method SetCurrentPosByCommand(index: int)
      requires 0 <= index < |path|
      modifies this
      ensures Snap() == AtCommand(old(Snap()), index)
    {
      x := Some(path[index].x);
      y := Some(path[index].y);
      x2 := Some(path[index].x);
      y2 := Some(path[index].y);
    }

    method SetControlPoint(ox: int, oy: int)
      modifies this
      ensures Snap() == old(Snap()).(x2 := Some(2 * ox), y2 := Some(2 * oy))
    {
      x2 := Some(ox * 2);
      y2 := Some(oy * 2);
    }

    /** Builds the next command and carries this anchor's handle forward. */
    method GetCommand() returns (com: Cmd)
      requires CanCommit(Snap())
      modifies this
      ensures com == NextCommand(old(Snap()), calcSymmetry)
      ensures Snap() == AfterCommand(old(Snap()))
    {
      if |path| == 0 {
        com := Move(x.value, y.value);
      } else if x1 == None && y1 == None && !IsDifferentPoint(Snap()) {
        com := Line(x.value, y.value);
      } else {
        var symmetry := calcSymmetry(x.value, y.value, x2.value, y2.value);
        com := Curve(x.value, y.value, x1.value, y1.value, symmetry.0, symmetry.1);
      }
      isPrevControlPoint := IsDifferentPoint(Snap());
      x1 := x2;
      y1 := y2;
      x2 := None;
      y2 := None;
    }

    /** The SVG path text: every command's fragment, in order; it reads back as the path. */
    function SvgCommandString(): (s: string)
      reads this
      ensures s == Serialize(path)
      ensures ParsePath(s) == Some(path)
      ensures path == [] ==> s == ""
    {
      SerializeRoundTrip(path);
      Serialize(path)
    }

    /** Index of the first command whose anchor is near the doubled offset, or -1. */
    method GetClickablePoint(ox: int, oy: int) returns (index: int)
      ensures -1 <= index < |path|
      ensures index >= 0 ==> path[index].IsNearPoint(2 * ox, 2 * oy, anchorSize)
      ensures forall j | 0 <= j < |path| && (index < 0 || j < index) ::
        !path[j].IsNearPoint(2 * ox, 2 * oy, anchorSize)
      ensures index == FirstNear(path, 2 * ox, 2 * oy, anchorSize)
    {
      var i := 0;
      while i < |path|
        invariant 0 <= i <= |path|
        invariant forall j | 0 <= j < i :: !path[j].IsNearPoint(2 * ox, 2 * oy, anchorSize)
      {
        if path[i].IsNearPoint(ox * 2, oy * 2, anchorSize) {
          return i;
        }
        i := i + 1;
      }
      return -1;
    }

    method OnMouseMove(ox: int, oy: int)
      requires Valid()
      modifies this
      ensures Valid()
      ensures Snap() == MouseMove(old(Snap()), ox, oy)
    {
      if state == PointSet {
        SetControlPoint(ox, oy);
      } else if state == NextPoint {
        SetControlPoint(ox, oy);
        SetCurrentPos(ox, oy);
      }
    }

    method OnMouseUp(ox: int, oy: int)
      requires Valid()
      modifies this
      ensures Valid()
      ensures Snap() == MouseUp(old(Snap()), ox, oy, calcSymmetry)
    {
      if state == PointSet {
        var com := GetCommand();
        path := path + [com];
        SetCurrentPos(ox, oy);
        SetControlPoint(ox, oy);
        state := NextPoint;
      }
    }

    method OnMouseDown(button: int, ox: int, oy: int)
      requires Valid()
      modifies this
      ensures Valid()
      ensures Snap() == MouseDown(old(Snap()), button, ox, oy, calcSymmetry, anchorSize)
    {
      if button == 0 {
        if state == Init {
          SetCurrentPos(ox, oy);
          SetControlPoint(ox, oy);
          state := PointSet;
        } else if state == PointSet {
        } else if state == NextPoint {
          var index := GetClickablePoint(ox, oy);
          if index > -1 {
            SetCurrentPosByCommand(index);
            var com := GetCommand();
            path := path + [com];
            state := End;
          } else {
            SetCurrentPos(ox, oy);
            SetControlPoint(ox, oy);
            state := PointSet;
          }
        }
      }
    }

    method OnRightClick()
      requires Valid() && RightClickDefined(Snap())
      modifies this
      ensures Valid()
      ensures Snap() == RightClick(old(Snap()), calcSymmetry)
    {
      if state != End {
        var com := GetCommand();
        path := path + [com];
        state := End;
      } else {
        path := [];
        state := Init;
      }
    }
  }
}
