/** Point conversions of the backend's GeometryService
    (services/geometryService.ts). */
module GeometryService {
  import opened Wrappers
  import opened Strings

  /** A JavaScript value as far as `toWKT` looks into it. */
  datatype Value =
    | Undefined
    | Null
    | Num(n: real)
    | Str(s: string)
    | Bool(b: bool)
    | Arr(items: seq<Value>)
    | Obj

  /** JavaScript truthiness (NaN, a falsy number, is not modelled). */
  predicate Truthy(v: Value)
  {
    match v
    case Undefined => false
    case Null => false
    case Num(n) => n != 0.0
    case Str(s) => |s| > 0
    case Bool(b) => b
    case Arr(_) => true
    case Obj => true
  }

  /** `v[0]`: `None` when reading a property of undefined or null throws. */
  function First(v: Value): Option<Value>
  {
    match v
    case Undefined => None
    case Null => None
    case Arr(items) => Some(if |items| > 0 then items[0] else Undefined)
    case Str(s) => Some(if |s| > 0 then Str(s[..1]) else Undefined)
    case _ => Some(Undefined)
  }

  /** `const [a, b] = v`: only arrays and strings are iterable; anything
      else throws. */
  function FirstTwo(v: Value): Option<(Value, Value)>
  {
    match v
    case Arr(items) =>
      Some((if |items| > 0 then items[0] else Undefined, if |items| > 1 then items[1] else Undefined))
    case Str(s) =>
      Some((if |s| > 0 then Str(s[..1]) else Undefined, if |s| > 1 then Str(s[1..2]) else Undefined))
    case _ => None
  }

  /** `${v}` for the values a coordinate can hold; `fmt` is JavaScript's
      number-to-string, and arrays and objects go through `render`. */
  function Show(fmt: real -> string, render: Value -> string, v: Value): string
  {
    match v
    case Undefined => "undefined"
    case Null => "null"
    case Num(n) => fmt(n)
    case Str(s) => s
    case Bool(b) => if b then "true" else "false"
    case _ => render(v)
  }

  /** `toWKT`: `geojson` is `None` for null or undefined, and `coordinates`
      the value of its `coordinates` property. Every throw gives "". */
  function ToWkt(fmt: real -> string, render: Value -> string, geojson: Option<Value>): (r: string)
    ensures geojson.None? ==> r == ""
    ensures r == "" || (|r| >= 8 && r[..6] == "POINT(" && r[|r| - 1] == ')')
  {
    match geojson
    case None => ""
    case Some(coordinates) =>
      if !Truthy(coordinates) then ""
      else
        match First(coordinates)
        case None => ""
        case Some(ring) =>
          match First(ring)
          case None => ""
          case Some(vertex) =>
            match FirstTwo(vertex)
            case None => ""
            case Some((lon, lat)) =>
              "POINT(" + Show(fmt, render, lon) + " " + Show(fmt, render, lat) + ")"
  }

  /** `coordinates[0][0]` of a polygon's coordinates. */
  function FirstVertex(coordinates: seq<seq<seq<real>>>): Option<seq<real>>
  {
    if |coordinates| > 0 && |coordinates[0]| > 0 then Some(coordinates[0][0]) else None
  }

  function Nums(xs: seq<real>): (r: seq<Value>)
    ensures |r| == |xs|
    ensures forall i :: 0 <= i < |xs| ==> r[i] == Num(xs[i])
  {
    seq(|xs|, i requires 0 <= i < |xs| => Num(xs[i]))
  }

  /** Polygon coordinates as a JavaScript value. */
  function CoordsValue(coordinates: seq<seq<seq<real>>>): Value
  {
    Arr(seq(|coordinates|, i requires 0 <= i < |coordinates| =>
      Arr(seq(|coordinates[i]|, j requires 0 <= j < |coordinates[i]| => Arr(Nums(coordinates[i][j]))))))
  }

  /** For a polygon's coordinates, `toWKT` writes "POINT(lon lat)" of the
      first vertex of the first ring and ignores every other vertex; with no
      first ring (a throw) it gives "". */
  lemma ToWktOfPolygon(fmt: real -> string, render: Value -> string, coordinates: seq<seq<seq<real>>>)
    requires forall i, j :: 0 <= i < |coordinates| && 0 <= j < |coordinates[i]| ==> |coordinates[i][j]| >= 2
    ensures var r := ToWkt(fmt, render, Some(CoordsValue(coordinates)));
      match FirstVertex(coordinates)
      case None => r == ""
      case Some(v) => r == "POINT(" + fmt(v[0]) + " " + fmt(v[1]) + ")"
  {
  }

  // ---------------------------------------------------------------
  // fromWKT
  // ---------------------------------------------------------------

  /** `[\d.-]`. */
  predicate NumberChar(c: char)
  {
    '0' <= c <= '9' || c == '.' || c == '-'
  }

  predicate NumberText(t: string)
  {
    |t| > 0 && forall i :: 0 <= i < |t| ==> NumberChar(t[i])
  }

  /** The end of the run of number characters that starts at `i`. */
  function RunEnd(s: string, i: nat): (j: nat)
    requires i <= |s|
    ensures i <= j <= |s|
    ensures j < |s| ==> !NumberChar(s[j])
    decreases |s| - i
  {
    if i < |s| && NumberChar(s[i]) then RunEnd(s, i + 1) else i
  }

  lemma {:induction false} RunEndChars(s: string, i: nat, k: nat)
    requires i <= |s| && i <= k < RunEnd(s, i)
    ensures NumberChar(s[k])
    decreases |s| - i
  {
    if k > i {
      RunEndChars(s, i + 1, k);
    }
  }

  const PointWord: string := "POINT("

  predicate PointWordAt(s: string, p: nat)
  {
    p + 6 <= |s| && s[p..p + 6] == PointWord
  }

  /** `POINT\(([\d.-]+) ([\d.-]+)\)` at `p`: both groups. A run of number
      characters cannot end in a space or `)`, so backtracking never finds
      a shorter group, and each group is the whole run. */
  function PointAt(s: string, p: nat): Option<(string, string)>
  {
    if !PointWordAt(s, p) then None
    else
      var a := p + 6;
      var e1 := RunEnd(s, a);
      if e1 == a || e1 >= |s| || s[e1] != ' ' then None
      else
        var e2 := RunEnd(s, e1 + 1);
        if e2 == e1 + 1 || e2 >= |s| || s[e2] != ')' then None
        else Some((s[a..e1], s[e1 + 1..e2]))
  }

  /** The leftmost match at or after `p`. */
  function FindPoint(s: string, p: nat): Option<(string, string)>
    decreases |s| + 1 - p
  {
    if p > |s| then None
    else match PointAt(s, p)
      case Some(m) => Some(m)
      case None => FindPoint(s, p + 1)
  }

  /** A parsed point; `None` stands for NaN. */
  datatype Point = Point(lon: Option<real>, lat: Option<real>)

  /** `fromWKT`: null without a match, else the two groups through
      `parseFloat`. */
  function FromWkt(parseFloat: string -> Option<real>, wkt: string): (r: Option<Point>)
    ensures r.Some? <==> exists p :: PointAt(wkt, p).Some?
    ensures forall q: nat :: PointAt(wkt, q).Some? && (forall k :: 0 <= k < q ==> PointAt(wkt, k).None?) ==>
      r == Some(Point(parseFloat(PointAt(wkt, q).value.0), parseFloat(PointAt(wkt, q).value.1)))
  {
    FindPointAnyMatch(wkt);
    FindPointLeftmostAll(wkt);
    match FindPoint(wkt, 0)
    case None => None
    case Some((lon, lat)) =>
      FindPointFound(wkt, 0);
      Some(Point(parseFloat(lon), parseFloat(lat)))
  }

  lemma {:induction false} FindPointFound(s: string, p: nat)
    requires FindPoint(s, p).Some?
    ensures exists q :: PointAt(s, q).Some?
    decreases |s| + 1 - p
  {
    if PointAt(s, p).None? {
      FindPointFound(s, p + 1);
    }
  }

  /** A match at or after `p` means the search from `p` finds one. */
  lemma {:induction false} FindPointComplete(s: string, p: nat, q: nat)
    requires p <= q && PointAt(s, q).Some?
    ensures FindPoint(s, p).Some?
    decreases q - p
  {
    if PointAt(s, p).None? {
      FindPointComplete(s, p + 1, q);
    }
  }

  /** The search from `p` stops at the first match at or after `p`. */
  lemma {:induction false} FindPointLeftmost(s: string, p: nat, q: nat)
    requires p <= q && PointAt(s, q).Some?
    requires forall k :: p <= k < q ==> PointAt(s, k).None?
    ensures FindPoint(s, p) == PointAt(s, q)
    decreases q - p
  {
    if p < q {
      FindPointLeftmost(s, p + 1, q);
    }
  }

  /** `wkt.match` succeeds exactly when the pattern matches somewhere. */
  lemma FindPointAnyMatch(s: string)
    ensures FindPoint(s, 0).Some? <==> exists q :: PointAt(s, q).Some?
  {
    if FindPoint(s, 0).Some? {
      FindPointFound(s, 0);
    }
    if exists q :: PointAt(s, q).Some? {
      var q :| PointAt(s, q).Some?;
      FindPointComplete(s, 0, q);
    }
  }

  /** The groups `wkt.match` returns are those of the leftmost match. */
  lemma FindPointLeftmostAll(s: string)
    ensures forall q: nat :: PointAt(s, q).Some? && (forall k :: 0 <= k < q ==> PointAt(s, k).None?) ==>
      FindPoint(s, 0) == PointAt(s, q)
  {
    forall q: nat | PointAt(s, q).Some? && (forall k :: 0 <= k < q ==> PointAt(s, k).None?)
      ensures FindPoint(s, 0) == PointAt(s, q)
    {
      FindPointLeftmost(s, 0, q);
    }
  }

  /** A match has both groups non-empty and made of number characters. */
  lemma PointAtGroups(s: string, p: nat)
    requires PointAt(s, p).Some?
    ensures NumberText(PointAt(s, p).value.0) && NumberText(PointAt(s, p).value.1)
  {
    var a := p + 6;
    var e1 := RunEnd(s, a);
    var e2 := RunEnd(s, e1 + 1);
    forall k | a <= k < e1 ensures NumberChar(s[k]) { RunEndChars(s, a, k); }
    forall k | e1 + 1 <= k < e2 ensures NumberChar(s[k]) { RunEndChars(s, e1 + 1, k); }
  }

  /** A space right after "POINT(" means no match there. */
  lemma SpaceAfterWordNoMatch(s: string, p: nat)
    requires PointWordAt(s, p) && p + 6 < |s| && s[p + 6] == ' '
    ensures PointAt(s, p).None?
  {
  }

  /** Two spaces between the numbers mean no match there. */
  lemma DoubleSpaceNoMatch(s: string, p: nat)
    requires PointWordAt(s, p)
    requires var e1 := RunEnd(s, p + 6); e1 + 1 < |s| && s[e1] == ' ' && s[e1 + 1] == ' '
    ensures PointAt(s, p).None?
  {
  }

  lemma {:induction false} RunEndFrom(s: string, i: nat, e: nat)
    requires i <= e < |s|
    requires forall k :: i <= k < e ==> NumberChar(s[k])
    requires !NumberChar(s[e])
    ensures RunEnd(s, i) == e
    decreases e - i
  {
    if i < e {
      RunEndFrom(s, i + 1, e);
    }
  }

  /** "POINT(a b)" with two number texts matches at 0 with groups a and b. */
  lemma PointTextMatches(a: string, b: string)
    requires NumberText(a) && NumberText(b)
    ensures FindPoint("POINT(" + a + " " + b + ")", 0) == Some((a, b))
  {
    var s := "POINT(" + a + " " + b + ")";
    assert s[0..6] == PointWord;
    RunEndFrom(s, 6, 6 + |a|);
    RunEndFrom(s, 7 + |a|, 7 + |a| + |b|);
    assert s[6..6 + |a|] == a;
    assert s[7 + |a|..7 + |a| + |b|] == b;
  }

  /** `fromWKT` reads back the point `toWKT` writes when both numbers
      render as non-empty runs of digits, '.' and '-', and `parseFloat`
      reads each rendering back. */
  lemma RoundTrip(fmt: real -> string, render: Value -> string, parseFloat: string -> Option<real>,
                  coordinates: seq<seq<seq<real>>>)
    requires forall i, j :: 0 <= i < |coordinates| && 0 <= j < |coordinates[i]| ==> |coordinates[i][j]| >= 2
    requires FirstVertex(coordinates).Some?
    requires var v := FirstVertex(coordinates).value;
      NumberText(fmt(v[0])) && NumberText(fmt(v[1]))
      && parseFloat(fmt(v[0])) == Some(v[0]) && parseFloat(fmt(v[1])) == Some(v[1])
    ensures var v := FirstVertex(coordinates).value;
      FromWkt(parseFloat, ToWkt(fmt, render, Some(CoordsValue(coordinates)))) == Some(Point(Some(v[0]), Some(v[1])))
  {
    var v := FirstVertex(coordinates).value;
    ToWktOfPolygon(fmt, render, coordinates);
    PointTextMatches(fmt(v[0]), fmt(v[1]));
  }
}
