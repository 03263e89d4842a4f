# Path drawer, modelled in Dafny

A model of the interactive SVG path builder of `pathDrawing`. A user presses, drags and
releases the mouse on a canvas. Each confirmed point becomes a path command: a `Move` to
start, then straight `Line`s or cubic `Curve`s. A right click ends the path, and a second
right click clears it. The result is copied out as the text of an SVG path.

The model has seven modules:

- `Wrappers` (`wrappers.dfy`): the `Option` type, whose `None` stands for an undefined
  coordinate or a text that does not read back.
- `Types` (`types.dfy`): the drawer's four phases (`State`) and the ten SVG path command
  tags (`SvgPathCommand`) with their letters.
- `Numerals` (`numerals.dfy`): the decimal text a template string gives an integer
  coordinate, and a reader that turns such text back into the integer.
- `PathCommands` (`path_command.dfy`): the command values `Move(x, y)`, `Line(x, y)` and
  `Curve(x, y, x1, y1, x2, y2)`. It also has their box hit test and their SVG fragments,
  which are the absolute `M`, `L` and `C` commands of section 8.3 of the SVG 1.1
  specification, each with a trailing space. A whole path's text is the fragments in order,
  and `ParsePath` reads that text back.
- `Drawer` (`path_drawer.dfy`):
  - `Snapshot` is the value of all of a drawer's fields.
  - One pure function per event (`MouseDown`, `MouseMove`, `MouseUp`, `RightClick`) gives
    the next snapshot. Each is proved to keep the invariant `Inv` of reachable drawers.
  - The `PathDrawer` class holds the same fields and updates them in place. Each event
    method ensures `Snap() == <event function>(old(Snap()))`.
- `DrawerProperties` (`drawer_properties.dfy`): the transitions, one lemma each.
- `Scenarios` (`scenarios.dfy`): the drawer with the usual point reflection, and one whole
  drawing session.

Two of the drawer's collaborators are not part of this model: the reflection helper
`calcSymmetry` (`./utils`) and the tolerance `ANCHOR_SIZE` (`./constants`). The drawer
takes them as the constructor parameters `calcSymmetry` and `anchorSize`. Every drawer
property is proved for any such function and any tolerance. `Scenarios.Reflect` is the
usual `2p - q` reflection. It is an assumption about `./utils`, used only in `Scenarios`.

Event offsets are doubled before they are stored or compared, as in the source.

Three behaviours of the code are easy to miss; the model follows the code:

- A left click in `End` does nothing. Only a right click clears the path.
- The first commit carries its handle forward as `(x1, y1)`, so every later command is a
  curve, even when nothing was dragged. Consider: click at (5, 5), move to (20, 20), click
  there, then right click. This gives `[Move(10, 10), Curve(40, 40, 10, 10, 40, 40),
  Curve(40, 40, 40, 40, 40, 40)]`, not two `Line(40, 40)` (`Scenarios.ClickClickRightClick`).
- A reset keeps the coordinate fields and the flag. It clears only the path and the phase.

## Model

| member | source | states |
|---|---|---|
| `Types.Letter` | src/types.ts:8-19 | each tag's letter is an upper-case letter and `FromLetter` gives the tag back, so the letter identifies the tag |
| `Types.LettersDistinct` | src/types.ts:8-19 | two tags have the same letter exactly when they are the same tag |
| `Numerals.NatToString` | src/pathCommand.ts:44 | a natural number prints as a non-empty string of decimal digits |
| `Numerals.IntToString` | src/pathCommand.ts:44 | an integer coordinate prints as non-empty text with no space in it |
| `Numerals.ParseIntToString` | src/pathCommand.ts:44 | reading the printed text of any integer gives that integer back |
| `PathCommands.Cmd.Tag` | src/pathCommand.ts:24-31 | the tag is one of MOVETO, LINETO and CURVETO; it is MOVETO exactly for a Move and CURVETO exactly for a Curve |
| `PathCommands.Cmd.IsNearPoint` | src/pathCommand.ts:15-19 | a point is near exactly when it lies strictly within `anchorSize` of the anchor on each axis separately (a box, not a disk) |
| `PathCommands.NearItself` | src/pathCommand.ts:17 | with a positive tolerance, a command's own anchor is near it |
| `PathCommands.NotNearAtBound` | src/pathCommand.ts:17 | the test is strict: a point exactly `anchorSize` away on either axis is not near |
| `PathCommands.NearAtCorner` | src/pathCommand.ts:15-19 | a diagonal offset just inside both bounds is near, although it is farther away than `anchorSize` |
| `PathCommands.Cmd.Fragment` | src/pathCommand.ts:43-117 | every fragment starts with its tag's letter (M, L or C) and ends with a space |
| `PathCommands.FragmentIsLetterAndNumbers` | src/pathCommand.ts:43-117 | a fragment is the letter followed by each coordinate and one space; a Curve prints its control points first (x1 y1 x2 y2) and its end point last |
| `PathCommands.ParseFragmentOf` | src/pathCommand.ts:43-117 | reading a fragment at the front of any text gives back the command it came from and the rest of the text |
| `PathCommands.Serialize` | src/PathDrawer.ts:98-102 | the text of a path is empty iff the path is, has at least two characters per command, and ends with a space; its partner `SerializeRoundTrip` reads it back |
| `PathCommands.SerializeAppend` | src/PathDrawer.ts:98-102 | the text of a concatenation of paths is the concatenation of their texts |
| `PathCommands.SerializeCons` | src/PathDrawer.ts:98-102 | the text of a path is its first fragment followed by the text of the rest |
| `PathCommands.SerializeRoundTrip` | src/PathDrawer.ts:98-102 | reading a path's text gives back every command of the path, in order, so different paths never print alike |
| `PathCommands.SerializeExample` | src/PathDrawer.ts:98-102 | `[Move(0,0), Line(10,0), Curve(20,10,12,0,18,5)]` prints as `M0 0 L10 0 C12 0 18 5 20 10 ` |
| `Drawer.NextCommand` | src/PathDrawer.ts:60-82 | the command ends at the current point (x, y). It is a Move iff the path is empty. It is a Line iff the path is non-empty, x1 and y1 are undefined and the handle is at the anchor. Otherwise it is a Curve whose first control point is (x1, y1) and whose second is the symmetry helper applied to the anchor and the handle |
| `Drawer.Fresh` | src/PathDrawer.ts:15-23 | the fields of a new drawer: Init, an empty path, the flag false; it satisfies the invariant |
| `Drawer.IsDifferentPoint` | src/PathDrawer.ts:51-53 | an undefined handle differs from any defined anchor; with everything defined, the handle differs iff it is not the anchor |
| `Drawer.AfterCommand` | src/PathDrawer.ts:83-93 | after building a command the flag says whether the handle was off the anchor, (x1, y1) take the old handle, the handle becomes undefined, and the phase, path and anchor are unchanged |
| `Drawer.Commit` | src/PathDrawer.ts:187 | `path.push(getCommand())`: the path grows by exactly the next command with every earlier command kept, and the other fields are those `AfterCommand` leaves |
| `Drawer.PlacePoint` | src/PathDrawer.ts:34-49 | `setCurrentPos` then `setControlPoint` at one offset: anchor and handle coincide at the doubled offset, and nothing else changes |
| `Drawer.AtCommand` | src/PathDrawer.ts:39-44 | anchor and handle coincide at the anchor of `path[i]`, and nothing else changes |
| `Drawer.FirstNear` | src/PathDrawer.ts:236-244 | the least index of a command whose anchor is near the point, or -1 when none is |
| `Drawer.CommitKeepsPathWellFormed` | src/PathDrawer.ts:187 | appending the next command to a reachable path keeps it a Move followed only by curves |
| `Drawer.MouseDown` | src/PathDrawer.ts:195-220 | a mouse press keeps the reachable-state invariant |
| `Drawer.MouseMove` | src/PathDrawer.ts:168-182 | a mouse move keeps the reachable-state invariant |
| `Drawer.MouseUp` | src/PathDrawer.ts:184-193 | a mouse release keeps the reachable-state invariant |
| `Drawer.RightClick` | src/PathDrawer.ts:222-234 | a right click keeps the reachable-state invariant |
| `Drawer.Step` | src/PathDrawer.ts:184-234 | any covered event (all but a right click on a new drawer) keeps the invariant. The path either stays the same, is cleared, or grows by one command with every earlier command unchanged |
| `Drawer.Run` | src/PathDrawer.ts:184-234 | after any sequence of events from a drawer satisfying the invariant, the drawer still satisfies it: its path is a Move followed by curves only, and its defined fields match its phase |
| `Drawer.PathDrawer.constructor` | src/PathDrawer.ts:15-23 | a new drawer is in Init with an empty path, every coordinate undefined and the flag false |
| `Drawer.PathDrawer.SetCurrentPos` | src/PathDrawer.ts:34-37 | the anchor becomes the doubled offset; nothing else changes |
| `Drawer.PathDrawer.SetCurrentPosByCommand` | src/PathDrawer.ts:39-44 | anchor and handle both become the anchor of `path[index]`; nothing else changes |
| `Drawer.PathDrawer.SetControlPoint` | src/PathDrawer.ts:46-49 | the handle becomes the doubled offset; nothing else changes |
| `Drawer.PathDrawer.GetCommand` | src/PathDrawer.ts:60-96 | returns `NextCommand` of the old fields. The flag becomes whether the handle was off the anchor. (x1, y1) take the old, unreflected handle, the handle is cleared, and nothing else changes |
| `Drawer.PathDrawer.SvgCommandString` | src/PathDrawer.ts:98-102 | the text is the fragments of the drawer's commands concatenated in order (`Serialize`); it reads back as exactly the drawer's path; an empty path gives the empty string |
| `Drawer.PathDrawer.GetClickablePoint` | src/PathDrawer.ts:236-244 | returns the least index whose command is near the doubled offset, checking every command of the path, or -1 when none is |
| `Drawer.PathDrawer.OnMouseMove` | src/PathDrawer.ts:168-182 | updates the fields in place exactly as `MouseMove` says, keeping the invariant |
| `Drawer.PathDrawer.OnMouseUp` | src/PathDrawer.ts:184-193 | updates the fields in place exactly as `MouseUp` says, keeping the invariant |
| `Drawer.PathDrawer.OnMouseDown` | src/PathDrawer.ts:195-220 | updates the fields in place exactly as `MouseDown` says, keeping the invariant |
| `Drawer.PathDrawer.OnRightClick` | src/PathDrawer.ts:222-234 | updates the fields in place exactly as `RightClick` says, keeping the invariant |
| `DrawerProperties.FlagIgnoredByCommand` | src/PathDrawer.ts:55-71 | the `isPrevControlPoint` flag never changes which command is built |
| `DrawerProperties.CommitSideEffects` | src/PathDrawer.ts:83-93 | the flag becomes `x != x2 or y != y2`, evaluated before the clear. x1 and y1 take x2 and y2, x2 and y2 become undefined, and x, y, path and phase are unchanged |
| `DrawerProperties.ReachableCommitIsCurve` | src/PathDrawer.ts:67-72 | in PointSet or NextPoint with a non-empty path, x1 and y1 are defined, so the next command is a curve and the LineTo branch is never taken |
| `DrawerProperties.RunFromFreshIsWellFormed` | src/PathDrawer.ts:184-234 | from a new drawer, after any events `Run` covers, the path is a Move followed only by curves and contains no Line |
| `DrawerProperties.LeftDownInInit` | src/PathDrawer.ts:199-203 | a primary press in Init goes to PointSet with anchor and handle both at the doubled offset, and the path stays empty |
| `DrawerProperties.IgnoredMouseDown` | src/PathDrawer.ts:197-205 | a press with another button, or any press in PointSet or End, changes nothing at all |
| `DrawerProperties.MouseUpCommits` | src/PathDrawer.ts:186-190 | a release in PointSet appends exactly the next command and goes to NextPoint with anchor and handle at the doubled offset |
| `DrawerProperties.MouseUpElsewhere` | src/PathDrawer.ts:184-193 | a release in any other phase changes nothing |
| `DrawerProperties.RightClickCommits` | src/PathDrawer.ts:223-226 | a right click in any phase other than End, with every coordinate it reads defined, appends exactly the next command and goes to End |
| `DrawerProperties.RightClickInInit` | src/PathDrawer.ts:223-226 | a right click in Init after the anchor is defined commits the path's Move and goes to End |
| `DrawerProperties.MouseMoveEffects` | src/PathDrawer.ts:168-180 | a move in NextPoint puts anchor and handle at the doubled offset, so `isDifferentPoint` is false. A move in PointSet changes only the handle. In Init or End a move changes nothing |
| `DrawerProperties.ClosingClick` | src/PathDrawer.ts:206-211 | a primary press in NextPoint near some anchor appends one curve ending exactly at the first such anchor. The flag ends false and the phase is End |
| `DrawerProperties.ClickOnStartCloses` | src/PathDrawer.ts:206-211 | a press near the starting anchor closes the path onto the coordinates of its Move |
| `DrawerProperties.PressAwayFromAnchors` | src/PathDrawer.ts:212-216 | a press in NextPoint near no anchor places anchor and handle at the doubled offset and goes to PointSet |
| `DrawerProperties.ResetKeepsFields` | src/PathDrawer.ts:227-229 | a right click in End clears the path and goes to Init; coordinates and flag are kept |
| `DrawerProperties.ResetBehavesLikeFresh` | src/PathDrawer.ts:227-229 | after a reset, a press and a release leave the drawer exactly as they leave a new one, with the path `[Move(2ox, 2oy)]` |
| `Scenarios.ReflectInvolution` | src/PathDrawer.ts:62 | the assumed reflection, applied twice about the same pivot, gives the point back |
| `Scenarios.ClosingCurveHasNoOutgoingHandle` | src/PathDrawer.ts:39-44 | with the assumed reflection, the curve a closing click appends has its second control point at its end point |
| `Scenarios.ClickClickRightClick` | src/PathDrawer.ts:184-234 | press and release at (5,5), move to (20,20), press and release, right click: the path is a Move and two curves, and the phase is End. The tolerance is at most 30, so the second press at (40,40) is not near the Move at (10,10) |
| `Scenarios.ClickClickClosesWithWideTolerance` | src/PathDrawer.ts:195-220 | the same session with a tolerance above 30: the second press lands near the Move at (10,10), closes the path onto it with one curve, and the phase is End |

## Left out

- Rendering: `onDraw`, `drawCurrentPoint`, the `draw` methods of the commands and `src/drawings.ts` only issue canvas calls. `isPrevControlPoint()` is read only by them. The flag itself is modelled.
- DOM wiring is not modelled: the listener registration in the constructor, cursor styles, `preventDefault` and logging. Events are method parameters.
- The call to `getClickablePoint` in `onMouseMove` is not modelled, because its result only picks the cursor style.
- `src/index.ts` (keyboard shortcut and clipboard write) is not part of this model.
- `./utils` and `./constants` are not part of this model. The reflection helper and `ANCHOR_SIZE` are constructor parameters of the drawer.
- Coordinates are integers. Fractional offsets, JavaScript's floating-point number text, and `undefined` or `NaN` inside a command are not modelled.
- `Drawer.PathDrawer.OnRightClick`: requires that the anchor is defined when the phase is Init. A right click on a new drawer, before any press, commits `Move(undefined, undefined)`, which an integer command cannot hold.
- `Drawer.RightClick`: same restriction as `OnRightClick`.
- `Drawer.Run`: gives None for an event sequence that contains such a right click.
- `Drawer.Step`: same restriction as `OnRightClick`; it requires the event to be covered (`Enabled`), which leaves out only that right click.
- `DrawerProperties.RunFromFreshIsWellFormed`: speaks only of event sequences that `Run` covers, so not of one that contains a right click on a new drawer.
- `DrawerProperties.RightClickCommits`: same restriction as `OnRightClick`.
- `DrawerProperties.RightClickInInit`: requires the anchor to be defined, which leaves out a right click on a new drawer before any press.
- `Drawer.PathDrawer.GetCommand`: requires every coordinate it reads to be defined. The source also runs it with undefined ones, but only in the right-click case above.
