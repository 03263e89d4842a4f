/**
 * The path commands a drawer commits: value objects holding an anchor (x, y) and,
 * for a cubic curve, its two control points. Each one answers a hit test against
 * its anchor and prints itself as an absolute SVG 1.1 path command followed by a space.
 */
module PathCommands {
  import opened Wrappers
  import opened Types
  import opened Numerals

  function Abs(n: int): (a: nat) {
    if n < 0 then -n else n
  }

  datatype Cmd =
    | Move(x: int, y: int)
    | Line(x: int, y: int)
    | Curve(x: int, y: int, x1: int, y1: int, x2: int, y2: int)
  {
    /** The tag each constructor assigns; no command carries any of the other seven. */
    function Tag(): (t: SvgPathCommand)
      ensures t in {MoveTo, LineTo, CurveTo}
      ensures t == MoveTo <==> Move?
      ensures t == CurveTo <==> Curve?
    {
      match this
      case Move(_, _) => MoveTo
      case Line(_, _) => LineTo
      case Curve(_, _, _, _, _, _) => CurveTo
    }

    /** Hit test: a box of half-width anchorSize around the anchor, open on every side. */
    function IsNearPoint(px: int, py: int, anchorSize: int): (near: bool)
      ensures near <==> x - anchorSize < px < x + anchorSize && y - anchorSize < py < y + anchorSize
    {
      Abs(px - x) < anchorSize && Abs(py - y) < anchorSize
    }

    /** The SVG text of the command: tag letter, coordinates (control points first), trailing space. */
    function Fragment(): (s: string)
      ensures |s| > 1 && s[0] == Letter(Tag()) && s[|s| - 1] == ' '
    {
      match this
      case Move(x, y) => "M" + IntToString(x) + " " + IntToString(y) + " "
      case Line(x, y) => "L" + IntToString(x) + " " + IntToString(y) + " "
      case Curve(x, y, x1, y1, x2, y2) =>
        "C" + IntToString(x1) + " " + IntToString(y1) + " " + IntToString(x2) + " " + IntToString(y2)
        + " " + IntToString(x) + " " + IntToString(y) + " "
    }

    /** The coordinates in the order the fragment prints them. */
    function Coordinates(): (ns: seq<int>) {
      match this
      case Move(x, y) => [x, y]
      case Line(x, y) => [x, y]
      case Curve(x, y, x1, y1, x2, y2) => [x1, y1, x2, y2, x, y]
    }
  }

  /** The text of a path: the fragments of its commands, in order (a left fold, starting from ""). */
  function Serialize(path: seq<Cmd>): (t: string)
    ensures t == "" <==> path == []
    ensures |t| >= 2 * |path|
    ensures path != [] ==> t[|t| - 1] == ' '
  {
    if path == [] then "" else Serialize(path[..|path| - 1]) + path[|path| - 1].Fragment()
  }

  /** Each number followed by one space. */
  function Numbers(ns: seq<int>): (t: string) {
    if ns == [] then "" else IntToString(ns[0]) + " " + Numbers(ns[1..])
  }

  /** Index of the first space in s, or |s| when there is none. */
  function SpaceIndex(s: string): (k: nat)
    ensures k <= |s|
    ensures k < |s| ==> s[k] == ' '
    ensures forall i | 0 <= i < k :: s[i] != ' '
  {
    if s == [] || s[0] == ' ' then 0 else 1 + SpaceIndex(s[1..])
  }

  /** Reads one number terminated by a space; the rest of the text follows. */
  function ReadNumber(s: string): (r: Option<(int, string)>)
    ensures r.Some? ==> |r.value.1| < |s|
  {
    var k := SpaceIndex(s);
    if k == |s| then None
    else match ParseInt(s[..k])
      case None => None
      case Some(n) => Some((n, s[k + 1..]))
  }

  /** Reads count space-terminated numbers. */
  function ReadNumbers(s: string, count: nat): (r: Option<(seq<int>, string)>)
    ensures r.Some? ==> |r.value.0| == count && |r.value.1| <= |s|
  {
    if count == 0 then Some(([], s))
    else match ReadNumber(s)
      case None => None
      case Some((n, rest)) =>
        match ReadNumbers(rest, count - 1)
        case None => None
        case Some((ns, rest')) => Some(([n] + ns, rest'))
  }

  /** Reads one fragment at the start of s. */
  function ParseFragment(s: string): (r: Option<(Cmd, string)>)
    ensures r.Some? ==> |r.value.1| < |s|
  {
    if s == [] then None
    else match FromLetter(s[0])
      case Some(MoveTo) =>
        (match ReadNumbers(s[1..], 2)
         case None => None
         case Some((ns, rest)) => Some((Move(ns[0], ns[1]), rest)))
      case Some(LineTo) =>
        (match ReadNumbers(s[1..], 2)
         case None => None
         case Some((ns, rest)) => Some((Line(ns[0], ns[1]), rest)))
      case Some(CurveTo) =>
        (match ReadNumbers(s[1..], 6)
         case None => None
         case Some((ns, rest)) => Some((Curve(ns[4], ns[5], ns[0], ns[1], ns[2], ns[3]), rest)))
      case _ => None
  }

  /** Reads a whole path text back into its commands. */
  function ParsePath(s: string): (r: Option<seq<Cmd>>)
    decreases |s|
  {
    if s == [] then Some([])
    else match ParseFragment(s)
      case None => None
      case Some((c, rest)) =>
        match ParsePath(rest)
        case None => None
        case Some(cs) => Some([c] + cs)
  }

  // ---- Hit test ----

  /** A command's own anchor is near itself whenever the tolerance is positive. */
  lemma NearItself(c: Cmd, anchorSize: int)
    requires anchorSize > 0
    ensures c.IsNearPoint(c.x, c.y, anchorSize)
  {
  }

  /** The bound is strict: exactly anchorSize away on either axis is not near. */
  lemma NotNearAtBound(c: Cmd, anchorSize: int, dx: int, dy: int)
    requires Abs(dx) == anchorSize || Abs(dy) == anchorSize
    ensures !c.IsNearPoint(c.x + dx, c.y + dy, anchorSize)
  {
  }

  /** A box, not a disk: a diagonal offset just inside both bounds is near. */
  lemma NearAtCorner(c: Cmd, anchorSize: int)
    requires anchorSize > 0
    ensures c.IsNearPoint(c.x + anchorSize - 1, c.y + anchorSize - 1, anchorSize)
  {
  }

  // ---- Regrouping concatenations ----
  // These lemmas regroup concatenations of strings given as variables, so that the
  // proofs about fragments and paths below never unfold the text of a number.

  lemma Associative(a: string, b: string, c: string)
    ensures a + b + c == a + (b + c)
  {
  }

  lemma SpacedAppend(a: string, b: string, c: string)
    ensures a + " " + b + c == a + " " + (b + c)
  {
  }

  lemma SpacedTwo(l: string, a: string, b: string)
    ensures l + (a + " " + b + " ") == l + a + " " + b + " "
  {
  }

  lemma SpacedSix(l: string, a: string, b: string, c: string, d: string, e: string, f: string)
    ensures l + (a + " " + b + " " + c + " " + d + " " + e + " " + f + " ")
         == l + a + " " + b + " " + c + " " + d + " " + e + " " + f + " "
  {
  }

  lemma SpacedChain(a: string, b: string, c: string, d: string, e: string, f: string)
    ensures a + " " + (b + " " + (c + " " + (d + " " + (e + " " + (f + " " + "")))))
         == a + " " + b + " " + c + " " + d + " " + e + " " + f + " "
  {
  }

  lemma EmptyLeft(a: string)
    ensures "" + a == a
  {
  }

  lemma AfterLetter(l: char, t: string, rest: string)
    ensures ([l] + t + rest)[0] == l
    ensures ([l] + t + rest)[1..] == t + rest
  {
  }

  // ---- Fragments ----

  lemma NumbersCons(n: int, ns: seq<int>)
    ensures Numbers([n] + ns) == IntToString(n) + " " + Numbers(ns)
  {
    assert ([n] + ns)[1..] == ns;
  }

  lemma NumbersOfTwo(a: int, b: int)
    ensures Numbers([a, b]) == IntToString(a) + " " + IntToString(b) + " "
  {
    NumbersCons(b, []);
    NumbersCons(a, [b]);
  }

  lemma NumbersOfSix(a: int, b: int, c: int, d: int, e: int, f: int)
    ensures Numbers([a, b, c, d, e, f])
         == IntToString(a) + " " + IntToString(b) + " " + IntToString(c) + " "
          + IntToString(d) + " " + IntToString(e) + " " + IntToString(f) + " "
  {
    NumbersCons(f, []);
    NumbersCons(e, [f]);
    NumbersCons(d, [e, f]);
    NumbersCons(c, [d, e, f]);
    NumbersCons(b, [c, d, e, f]);
    NumbersCons(a, [b, c, d, e, f]);
    SpacedChain(IntToString(a), IntToString(b), IntToString(c), IntToString(d), IntToString(e), IntToString(f));
  }

  /** A fragment is its tag letter followed by its coordinates, each with one space after it. */
  lemma FragmentIsLetterAndNumbers(c: Cmd)
    ensures c.Fragment() == [Letter(c.Tag())] + Numbers(c.Coordinates())
  {
    var l := [Letter(c.Tag())];
    match c
    case Move(x, y) =>
      NumbersOfTwo(x, y);
      SpacedTwo(l, IntToString(x), IntToString(y));
    case Line(x, y) =>
      NumbersOfTwo(x, y);
      SpacedTwo(l, IntToString(x), IntToString(y));
    case Curve(x, y, x1, y1, x2, y2) =>
      NumbersOfSix(x1, y1, x2, y2, x, y);
      SpacedSix(l, IntToString(x1), IntToString(y1), IntToString(x2), IntToString(y2),
        IntToString(x), IntToString(y));
  }

  lemma SpaceIndexAt(a: string, b: string)
    requires ' ' !in a
    ensures SpaceIndex(a + " " + b) == |a|
  {
    var s := a + " " + b;
    assert s[|a|] == ' ';
    assert forall i | 0 <= i < |a| :: s[i] == a[i];
  }

  lemma ReadNumberOf(n: int, rest: string)
    ensures ReadNumber(IntToString(n) + " " + rest) == Some((n, rest))
  {
    var a := IntToString(n);
    var s := a + " " + rest;
    SpaceIndexAt(a, rest);
    assert s[..|a|] == a;
    assert s[|a| + 1..] == rest;
    ParseIntToString(n);
  }

  lemma ReadNumbersStep(s: string, count: nat, n: int, tail: string, ns: seq<int>, rest: string)
    requires count > 0
    requires ReadNumber(s) == Some((n, tail))
    requires ReadNumbers(tail, count - 1) == Some((ns, rest))
    ensures ReadNumbers(s, count) == Some(([n] + ns, rest))
  {
  }

  lemma {:induction false} ReadNumbersOf(ns: seq<int>, rest: string)
    ensures ReadNumbers(Numbers(ns) + rest, |ns|) == Some((ns, rest))
  {
    if ns == [] {
      EmptyLeft(rest);
    } else {
      var a, more := IntToString(ns[0]), Numbers(ns[1..]);
      NumbersCons(ns[0], ns[1..]);
      assert [ns[0]] + ns[1..] == ns;
      SpacedAppend(a, more, rest);
      ReadNumberOf(ns[0], more + rest);
      ReadNumbersOf(ns[1..], rest);
      ReadNumbersStep(Numbers(ns) + rest, |ns|, ns[0], more + rest, ns[1..], rest);
    }
  }

  /** Parsing the front of a text that starts with a fragment gives the command and the rest. */
  lemma ParseFragmentOf(c: Cmd, rest: string)
    ensures ParseFragment(c.Fragment() + rest) == Some((c, rest))
  {
    var l, ns := Letter(c.Tag()), c.Coordinates();
    var t := Numbers(ns) + rest;
    FragmentIsLetterAndNumbers(c);
    AfterLetter(l, Numbers(ns), rest);
    ReadNumbersOf(ns, rest);
    ParseFragmentAt(c.Fragment() + rest, c, t, rest);
  }

  /** The letter selects the command and the numbers after it fill its coordinates. */
  lemma ParseFragmentAt(s: string, c: Cmd, t: string, rest: string)
    requires |s| > 0 && s[0] == Letter(c.Tag()) && s[1..] == t
    requires ReadNumbers(t, |c.Coordinates()|) == Some((c.Coordinates(), rest))
    ensures ParseFragment(s) == Some((c, rest))
  {
  }

  // ---- Paths ----

  /** Serializing a concatenation concatenates the texts. */
  lemma {:induction false} SerializeAppend(p: seq<Cmd>, q: seq<Cmd>)
    ensures Serialize(p + q) == Serialize(p) + Serialize(q)
  {
    if q == [] {
      assert p + q == p;
    } else {
      var q', last := q[..|q| - 1], q[|q| - 1];
      var f := last.Fragment();
      assert (p + q)[..|p + q| - 1] == p + q';
      assert (p + q)[|p + q| - 1] == last;
      assert Serialize(p + q) == Serialize(p + q') + f;
      SerializeAppend(p, q');
      assert Serialize(q) == Serialize(q') + f;
      Associative(Serialize(p), Serialize(q'), f);
    }
  }

  lemma SerializeCons(c: Cmd, path: seq<Cmd>)
    ensures Serialize([c] + path) == c.Fragment() + Serialize(path)
  {
    SerializeAppend([c], path);
    assert [c][..0] == [];
    EmptyLeft(c.Fragment());
  }

  /** The text of a path determines the path: reading it back gives every command, in order. */
  lemma {:induction false} SerializeRoundTrip(path: seq<Cmd>)
    ensures ParsePath(Serialize(path)) == Some(path)
  {
    if path != [] {
      var tail := path[1..];
      assert [path[0]] + tail == path;
      SerializeCons(path[0], tail);
      ParseFragmentOf(path[0], Serialize(tail));
      SerializeRoundTrip(tail);
    }
  }

  lemma TwoDigits(n: nat)
    requires 10 <= n < 100
    ensures IntToString(n) == [DigitChar(n / 10), DigitChar(n % 10)]
  {
    assert NatToString(n / 10) == [DigitChar(n / 10)];
  }

  lemma ExampleFragments()
    ensures Move(0, 0).Fragment() == "M0 0 "
    ensures Line(10, 0).Fragment() == "L10 0 "
  {
    assert IntToString(0) == "0";
    TwoDigits(10);
  }

  lemma ExampleCurveFragment()
    ensures Curve(20, 10, 12, 0, 18, 5).Fragment() == "C12 0 18 5 20 10 "
  {
    assert IntToString(0) == "0";
    assert IntToString(5) == "5";
    TwoDigits(10);
    TwoDigits(12);
    TwoDigits(18);
    TwoDigits(20);
    CurveText(IntToString(12), IntToString(0), IntToString(18), IntToString(5), IntToString(20), IntToString(10));
  }

  // CurveText and ExampleText compare the literal texts, with each part given as a variable.

  lemma CurveText(a: string, b: string, c: string, d: string, e: string, f: string)
    requires a == "12" && b == "0" && c == "18" && d == "5" && e == "20" && f == "10"
    ensures "C" + a + " " + b + " " + c + " " + d + " " + e + " " + f + " " == "C12 0 18 5 20 10 "
  {
  }

  lemma ExampleText(a: string, b: string, c: string)
    requires a == "M0 0 " && b == "L10 0 " && c == "C12 0 18 5 20 10 "
    ensures "" + a + b + c == "M0 0 L10 0 C12 0 18 5 20 10 "
  {
  }

  lemma SerializeThree(a: Cmd, b: Cmd, c: Cmd)
    ensures Serialize([a, b, c]) == "" + a.Fragment() + b.Fragment() + c.Fragment()
  {
    var p3, p2, p1 := [a, b, c], [a, b], [a];
    assert p3[..2] == p2 && p3[2] == c;
    assert p2[..1] == p1 && p2[1] == b;
    assert p1[..0] == [] && p1[0] == a;
    assert Serialize(p1) == "" + a.Fragment();
    assert Serialize(p2) == Serialize(p1) + b.Fragment();
    assert Serialize(p3) == Serialize(p2) + c.Fragment();
  }

  /** The worked example of the output format. */
  lemma SerializeExample()
    ensures Serialize([Move(0, 0), Line(10, 0), Curve(20, 10, 12, 0, 18, 5)])
      == "M0 0 L10 0 C12 0 18 5 20 10 "
  {
    var m, l, c := Move(0, 0), Line(10, 0), Curve(20, 10, 12, 0, 18, 5);
    SerializeThree(m, l, c);
    ExampleFragments();
    ExampleCurveFragment();
    ExampleText(m.Fragment(), l.Fragment(), c.Fragment());
  }
}
