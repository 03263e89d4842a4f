/** The two enumerations of the drawing tool: the phases of the drawer and the SVG path command tags. */
module Types {
  import opened Wrappers

  /** The four phases of the drawer, in declaration order. */
  datatype State = Init | PointSet | NextPoint | End

  /**
   * The tags of the SVG 1.1 path commands (section 8.3 of the SVG 1.1 specification).
   * Only MoveTo, LineTo and CurveTo are ever given to a command.
   */
  datatype SvgPathCommand =
    | MoveTo
    | LineTo
    | HorizontalLineTo
    | VerticalLineTo
    | CurveTo
    | SmoothCurveTo
    | QuadraticBezierCurve
    | SmoothQuadraticBezierCurveTo
    | EllipticalArc
    | ClosePath

  /** The command letter a tag stands for; FromLetter undoes it, so no two tags share a letter. */
  function Letter(t: SvgPathCommand): (c: char)
    ensures 'A' <= c <= 'Z'
    ensures FromLetter(c) == Some(t)
  {
    match t
    case MoveTo => 'M'
    case LineTo => 'L'
    case HorizontalLineTo => 'H'
    case VerticalLineTo => 'V'
    case CurveTo => 'C'
    case SmoothCurveTo => 'S'
    case QuadraticBezierCurve => 'Q'
    case SmoothQuadraticBezierCurveTo => 'T'
    case EllipticalArc => 'A'
    case ClosePath => 'Z'
  }

  /** The tag whose letter is c, if any. */
  function FromLetter(c: char): (r: Option<SvgPathCommand>) {
    match c
    case 'M' => Some(MoveTo)
    case 'L' => Some(LineTo)
    case 'H' => Some(HorizontalLineTo)
    case 'V' => Some(VerticalLineTo)
    case 'C' => Some(CurveTo)
    case 'S' => Some(SmoothCurveTo)
    case 'Q' => Some(QuadraticBezierCurve)
    case 'T' => Some(SmoothQuadraticBezierCurveTo)
    case 'A' => Some(EllipticalArc)
    case 'Z' => Some(ClosePath)
    case _ => None
  }

  /** Distinct tags have distinct letters. */
  lemma LettersDistinct(a: SvgPathCommand, b: SvgPathCommand)
    ensures Letter(a) == Letter(b) <==> a == b
  {
  }
}
