/** Bounding boxes of GeoJSON coordinates (utils/geometryBounds.ts). */
module GeometryBounds {

  /** A JavaScript number as `Math.min`/`Math.max` see it here: finite or
      one of the two infinities the sentinel box uses. */
  datatype ExtReal = NegInf | Fin(r: real) | PosInf

  predicate Lt(a: ExtReal, b: ExtReal)
  {
    match (a, b)
    case (NegInf, NegInf) => false
    case (NegInf, _) => true
    case (Fin(x), Fin(y)) => x < y
    case (Fin(_), PosInf) => true
    case _ => false
  }

  predicate Le(a: ExtReal, b: ExtReal) { !Lt(b, a) }

  function Min(a: ExtReal, b: ExtReal): ExtReal { if Lt(b, a) then b else a }

  function Max(a: ExtReal, b: ExtReal): ExtReal { if Lt(a, b) then b else a }

  /** `[minX, minY, maxX, maxY]`. */
  datatype Bbox = Bbox(minX: ExtReal, minY: ExtReal, maxX: ExtReal, maxY: ExtReal)

  /** What `getBbox` returns when there is no coordinate: (+inf, +inf, -inf, -inf). */
  const EmptyBox := Bbox(PosInf, PosInf, NegInf, NegInf)

  datatype Pos = Pos(x: real, y: real)

  /** A GeoJSON `coordinates` value: numbers, arrays, and anything else. */
  datatype Json = JNum(n: real) | JArr(items: seq<Json>) | JOther

  function Size(j: Json): nat
  {
    match j
    case JArr(items) => 1 + SizeList(items)
    case _ => 1
  }

  function SizeList(items: seq<Json>): nat
  {
    if |items| == 0 then 0 else 1 + Size(items[0]) + SizeList(items[1..])
  }

  /** `flattenCoords`: an array whose first entry is a number is a position
      and contributes its first two numbers; any other array is walked
      entry by entry, left to right; non-arrays contribute nothing. */
  function Flatten(j: Json): (r: seq<Pos>)
    ensures !j.JArr? ==> r == []
    ensures |r| <= Size(j)
    decreases Size(j)
  {
    match j
    case JArr(items) =>
      if |items| > 0 && items[0].JNum? then
        (if |items| > 1 && items[1].JNum? then [Pos(items[0].n, items[1].n)] else [])
      else FlattenList(items)
    case _ => []
  }

  function FlattenList(items: seq<Json>): (r: seq<Pos>)
    ensures |r| <= SizeList(items)
    decreases SizeList(items)
  {
    if |items| == 0 then [] else Flatten(items[0]) + FlattenList(items[1..])
  }

  /** The GeoJSON coordinates of a polygon given by its rings. */
  function RingsJson(rings: seq<seq<Pos>>): Json
  {
    JArr(seq(|rings|, i requires 0 <= i < |rings| =>
      JArr(seq(|rings[i]|, k requires 0 <= k < |rings[i]| => JArr([JNum(rings[i][k].x), JNum(rings[i][k].y)])))))
  }

  function Concat(rings: seq<seq<Pos>>): seq<Pos>
  {
    if |rings| == 0 then [] else rings[0] + Concat(rings[1..])
  }

  lemma {:induction false} FlattenRing(ring: seq<Pos>)
    ensures FlattenList(seq(|ring|, k requires 0 <= k < |ring| => JArr([JNum(ring[k].x), JNum(ring[k].y)]))) == ring
  {
    var items := seq(|ring|, k requires 0 <= k < |ring| => JArr([JNum(ring[k].x), JNum(ring[k].y)]));
    if |ring| > 0 {
      FlattenRing(ring[1..]);
      assert items[1..] == seq(|ring[1..]|, k requires 0 <= k < |ring[1..]| => JArr([JNum(ring[1..][k].x), JNum(ring[1..][k].y)]));
    }
  }

  lemma {:induction false} FlattenRingList(rings: seq<seq<Pos>>)
    ensures FlattenList(RingsJson(rings).items) == Concat(rings)
  {
    var items := RingsJson(rings).items;
    if |rings| > 0 {
      FlattenRingList(rings[1..]);
      assert items[1..] == RingsJson(rings[1..]).items;
      var ring := rings[0];
      FlattenRing(ring);
      assert items[0] == JArr(seq(|ring|, k requires 0 <= k < |ring| => JArr([JNum(ring[k].x), JNum(ring[k].y)])));
      if |ring| > 0 {
        assert items[0].items[0].JArr?;
      }
    }
  }

  /** A polygon's coordinates flatten to all its ring vertices, ring by
      ring, in order. */
  lemma FlattenPolygon(rings: seq<seq<Pos>>)
    ensures Flatten(RingsJson(rings)) == Concat(rings)
  {
    FlattenRingList(rings);
    if |rings| > 0 {
      assert RingsJson(rings).items[0].JArr?;
    }
  }

  /** One step of the running min/max. */
  function Extend(b: Bbox, p: Pos): Bbox
  {
    Bbox(Min(b.minX, Fin(p.x)), Min(b.minY, Fin(p.y)), Max(b.maxX, Fin(p.x)), Max(b.maxY, Fin(p.y)))
  }

  /** The box after folding every coordinate, left to right, into the sentinel. */
  function BoundsOf(coords: seq<Pos>): (r: Bbox)
    ensures r == EmptyBox <==> |coords| == 0
    ensures |coords| > 0 ==> r.minX.Fin? && r.minY.Fin? && r.maxX.Fin? && r.maxY.Fin?
  {
    if |coords| == 0 then EmptyBox else Extend(BoundsOf(coords[..|coords| - 1]), coords[|coords| - 1])
  }

  /** `getBbox`: the loop over the flattened coordinates. */
  method GetBbox(geometry: Json) returns (b: Bbox)
    ensures b == BoundsOf(Flatten(geometry))
  {
    var coords := Flatten(geometry);
    var minX, minY, maxX, maxY := PosInf, PosInf, NegInf, NegInf;
    var i := 0;
    while i < |coords|
      invariant 0 <= i <= |coords|
      invariant Bbox(minX, minY, maxX, maxY) == BoundsOf(coords[..i])
    {
      var p := coords[i];
      assert coords[..i + 1][..i] == coords[..i];
      minX := Min(minX, Fin(p.x));
      minY := Min(minY, Fin(p.y));
      maxX := Max(maxX, Fin(p.x));
      maxY := Max(maxY, Fin(p.y));
      i := i + 1;
    }
    assert coords[..i] == coords;
    b := Bbox(minX, minY, maxX, maxY);
  }

  predicate Contains(b: Bbox, p: Pos)
  {
    Le(b.minX, Fin(p.x)) && Le(Fin(p.x), b.maxX) && Le(b.minY, Fin(p.y)) && Le(Fin(p.y), b.maxY)
  }

  /** An empty list gives the sentinel; a non-empty one gives a finite
      box that holds every coordinate, each bound being attained by one. */
  lemma {:induction false} BoundsOfSpec(coords: seq<Pos>)
    ensures |coords| == 0 ==> BoundsOf(coords) == EmptyBox
    ensures |coords| > 0 ==> var b := BoundsOf(coords);
      && b.minX.Fin? && b.minY.Fin? && b.maxX.Fin? && b.maxY.Fin?
      && (forall i :: 0 <= i < |coords| ==> Contains(b, coords[i]))
      && (exists i :: 0 <= i < |coords| && b.minX.r == coords[i].x)
      && (exists i :: 0 <= i < |coords| && b.minY.r == coords[i].y)
      && (exists i :: 0 <= i < |coords| && b.maxX.r == coords[i].x)
      && (exists i :: 0 <= i < |coords| && b.maxY.r == coords[i].y)
  {
    if |coords| > 1 {
      var n := |coords| - 1;
      var pre := coords[..n];
      BoundsOfSpec(pre);
      var b0 := BoundsOf(pre);
      var b := BoundsOf(coords);
      forall i | 0 <= i < |coords| ensures Contains(b, coords[i]) {
        if i < n { assert coords[i] == pre[i]; }
      }
      var ix :| 0 <= ix < n && b0.minX.r == pre[ix].x;
      var iy :| 0 <= iy < n && b0.minY.r == pre[iy].y;
      var jx :| 0 <= jx < n && b0.maxX.r == pre[jx].x;
      var jy :| 0 <= jy < n && b0.maxY.r == pre[jy].y;
      assert b.minX.r == coords[ix].x || b.minX.r == coords[n].x;
      assert b.minY.r == coords[iy].y || b.minY.r == coords[n].y;
      assert b.maxX.r == coords[jx].x || b.maxX.r == coords[n].x;
      assert b.maxY.r == coords[jy].y || b.maxY.r == coords[n].y;
    } else if |coords| == 1 {
      assert coords[..0] == [];
    }
  }

  /** `bboxIntersect`: the boxes intersect unless one lies strictly to one
      side of the other on some axis. */
  predicate BboxIntersect(a: Bbox, b: Bbox)
  {
    !(Lt(a.maxX, b.minX) || Lt(b.maxX, a.minX) || Lt(a.maxY, b.minY) || Lt(b.maxY, a.minY))
  }

  /** The test is symmetric, never holds for the sentinel, and for finite
      boxes is exactly "the x-intervals and the y-intervals overlap",
      touching edges and corners included. */
  lemma BboxIntersectSpec(a: Bbox, b: Bbox)
    ensures BboxIntersect(a, b) == BboxIntersect(b, a)
    ensures (a.minX.Fin? && a.minY.Fin? && a.maxX.Fin? && a.maxY.Fin?
             && b.minX.Fin? && b.minY.Fin? && b.maxX.Fin? && b.maxY.Fin?) ==>
           (BboxIntersect(a, b) <==>
              a.minX.r <= b.maxX.r && b.minX.r <= a.maxX.r && a.minY.r <= b.maxY.r && b.minY.r <= a.maxY.r)
  {
  }

  /** The sentinel box of a geometry without coordinates intersects no
      box computed from coordinates, itself included. */
  lemma EmptyBoxIntersectsNothing(coords: seq<Pos>)
    ensures !BboxIntersect(EmptyBox, BoundsOf(coords))
    ensures !BboxIntersect(BoundsOf(coords), EmptyBox)
  {
    BoundsOfSpec(coords);
  }

  /** The box of a non-empty coordinate list intersects itself. */
  lemma BoundsSelfIntersect(coords: seq<Pos>)
    requires |coords| > 0
    ensures BboxIntersect(BoundsOf(coords), BoundsOf(coords))
  {
    BoundsOfSpec(coords);
    var b := BoundsOf(coords);
    assert Contains(b, coords[0]);
  }
}
