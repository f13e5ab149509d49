/** Merging WKT geometries into one MULTIPOLYGON (utils/geometryMerger.ts). */
module GeometryMerger {
  import opened Wrappers
  import opened Strings
  import opened Seqs
  import opened GeometryBounds
  import opened WktText
  import GeojsonToWkt

  /** What `wellknown.parse` gives for a text it reads: a Polygon with its
      rings, or some other geometry. */
  datatype Geometry = Polygon(rings: seq<seq<Pos>>) | OtherGeometry(kind: string)

  /** A geometry handed to `geometryToWKT`, by its `type`. */
  datatype Shape =
    | PolygonShape(rings: seq<seq<Pos>>)
    | MultiPolygonShape(polygons: seq<seq<seq<Pos>>>)
    | OtherShape(kind: string)

  function RingTexts(fmt: real -> string, rings: seq<seq<Pos>>): (r: seq<string>)
    ensures |r| == |rings|
  {
    if |rings| == 0 then [] else [RingText(fmt, rings[0])] + RingTexts(fmt, rings[1..])
  }

  /** A polygon's rings, each in parentheses, joined by ", " and wrapped in
      one more pair of parentheses. */
  function PolygonText(fmt: real -> string, rings: seq<seq<Pos>>): string
  {
    "(" + Join(RingTexts(fmt, rings), ", ") + ")"
  }

  function PolygonTexts(fmt: real -> string, polygons: seq<seq<seq<Pos>>>): (r: seq<string>)
    ensures |r| == |polygons|
  {
    if |polygons| == 0 then [] else [PolygonText(fmt, polygons[0])] + PolygonTexts(fmt, polygons[1..])
  }

  /** `geometryToWKT`: MULTIPOLYGON and POLYGON texts; any other type throws. */
  function GeometryToWkt(fmt: real -> string, g: Shape): (r: Outcome<string>)
    ensures r.Throws? <==> g.OtherShape?
    ensures g.PolygonShape? ==> r == Ok("POLYGON" + PolygonText(fmt, g.rings))
    ensures g.MultiPolygonShape? ==> r == Ok("MULTIPOLYGON(" + Join(PolygonTexts(fmt, g.polygons), ", ") + ")")
  {
    match g
    case MultiPolygonShape(polygons) =>
      Ok("MULTIPOLYGON(" + Join(PolygonTexts(fmt, polygons), ", ") + ")")
    case PolygonShape(rings) =>
      var body := Join(RingTexts(fmt, rings), ", ");
      assert "POLYGON(" + body + ")" == "POLYGON" + ("(" + body + ")");
      Ok("POLYGON(" + body + ")")
    case OtherShape(_) => Throws
  }

  /** For a single ring, `geometryToWKT` writes the same text as
      `geojsonPolygonToWkt` does. */
  lemma SingleRingAgrees(fmt: real -> string, ring: seq<Pos>)
    ensures GeometryToWkt(fmt, PolygonShape([ring]))
         == GeojsonToWkt.GeojsonPolygonToWkt(fmt, Some(GeojsonToWkt.GeoJsonObject("Polygon", Some([ring]))))
  {
    assert RingTexts(fmt, [ring]) == [RingText(fmt, ring)];
    assert "POLYGON" + ("(" + ("(" + RingBody(fmt, ring) + ")") + ")") == "POLYGON((" + RingBody(fmt, ring) + "))";
  }

  /** `wkt && wkt.trim().length > 0`. */
  predicate NonBlank(w: string)
  {
    |Trim(w)| > 0
  }

  /** The parsed geometries, texts that do not read (null or a throw) dropped. */
  function Parsed(wkParse: string -> Option<Geometry>, texts: seq<string>): (r: seq<Geometry>)
    ensures |r| <= |texts|
  {
    if |texts| == 0 then []
    else (match wkParse(texts[0]) case Some(g) => [g] case None => []) + Parsed(wkParse, texts[1..])
  }

  /** `g.type === "Polygon" ? g.coordinates : null`, nulls dropped. */
  function PolygonCoords(gs: seq<Geometry>): (r: seq<seq<seq<Pos>>>)
    ensures |r| <= |gs|
  {
    if |gs| == 0 then []
    else (if gs[0].Polygon? then [gs[0].rings] else []) + PolygonCoords(gs[1..])
  }

  /** The polygons the merge keeps, in input order. */
  function PolygonsOf(wkParse: string -> Option<Geometry>, texts: seq<string>): seq<seq<seq<Pos>>>
  {
    PolygonCoords(Parsed(wkParse, Filter(texts, NonBlank)))
  }

  /** `mergeGeometriesToMultiPolygon`; an absent list is `None`, and every
      exception becomes "". */
  function MergeGeometriesToMultiPolygon(fmt: real -> string, wkParse: string -> Option<Geometry>,
                                         input: Option<seq<string>>): (r: string)
    ensures input.None? ==> r == ""
    ensures r == "" || (|r| >= 14 && r[..13] == "MULTIPOLYGON(" && r[|r| - 1] == ')')
  {
    if input.None? || |input.value| == 0 then ""
    else
      var polygons := Parsed(wkParse, Filter(input.value, NonBlank));
      if |polygons| == 0 then ""
      else
        var coords := PolygonCoords(polygons);
        if |coords| == 0 then ""
        else match GeometryToWkt(fmt, MultiPolygonShape(coords)) case Ok(t) => t case Throws => ""
  }

  /** The merge is "" exactly when no polygon survives; otherwise it is the
      MULTIPOLYGON of the surviving polygons, in input order. */
  lemma MergeSpec(fmt: real -> string, wkParse: string -> Option<Geometry>, input: Option<seq<string>>)
    ensures var r := MergeGeometriesToMultiPolygon(fmt, wkParse, input);
      && (r == "" <==> input.None? || |PolygonsOf(wkParse, input.value)| == 0)
      && (input.Some? && |PolygonsOf(wkParse, input.value)| > 0 ==>
            r == "MULTIPOLYGON(" + Join(PolygonTexts(fmt, PolygonsOf(wkParse, input.value)), ", ") + ")")
  {
    if input.Some? && |input.value| == 0 {
      assert Filter(input.value, NonBlank) == [];
    }
  }

  lemma {:induction false} ParsedConcat(wkParse: string -> Option<Geometry>, a: seq<string>, b: seq<string>)
    ensures Parsed(wkParse, a + b) == Parsed(wkParse, a) + Parsed(wkParse, b)
  {
    if |a| > 0 {
      ParsedConcat(wkParse, a[1..], b);
      assert (a + b)[0] == a[0] && (a + b)[1..] == a[1..] + b;
    } else {
      assert a + b == b;
    }
  }

  lemma {:induction false} PolygonCoordsConcat(a: seq<Geometry>, b: seq<Geometry>)
    ensures PolygonCoords(a + b) == PolygonCoords(a) + PolygonCoords(b)
  {
    if |a| > 0 {
      PolygonCoordsConcat(a[1..], b);
      assert (a + b)[0] == a[0] && (a + b)[1..] == a[1..] + b;
    } else {
      assert a + b == b;
    }
  }

  /** The polygons of two lists are those of the first followed by those of
      the second: the merge keeps input order. */
  lemma PolygonsOfConcat(wkParse: string -> Option<Geometry>, a: seq<string>, b: seq<string>)
    ensures PolygonsOf(wkParse, a + b) == PolygonsOf(wkParse, a) + PolygonsOf(wkParse, b)
  {
    FilterConcat(a, b, NonBlank);
    ParsedConcat(wkParse, Filter(a, NonBlank), Filter(b, NonBlank));
    PolygonCoordsConcat(Parsed(wkParse, Filter(a, NonBlank)), Parsed(wkParse, Filter(b, NonBlank)));
  }

  /** One text contributes its polygon with all its rings when it is not
      blank and reads as a Polygon, and nothing otherwise. */
  lemma PolygonsOfOne(wkParse: string -> Option<Geometry>, w: string)
    ensures PolygonsOf(wkParse, [w])
         == if NonBlank(w) && wkParse(w).Some? && wkParse(w).value.Polygon? then [wkParse(w).value.rings] else []
  {
    FilterCons(w, [], NonBlank);
    assert Filter([w], NonBlank) == (if NonBlank(w) then [w] else []) by {
      assert [w] + [] == [w];
    }
  }

  /** A single Polygon text merges to MULTIPOLYGON( + its polygon text + ). */
  lemma SinglePolygon(fmt: real -> string, wkParse: string -> Option<Geometry>, w: string, rings: seq<seq<Pos>>)
    requires NonBlank(w) && wkParse(w) == Some(Polygon(rings))
    ensures MergeGeometriesToMultiPolygon(fmt, wkParse, Some([w])) == "MULTIPOLYGON(" + PolygonText(fmt, rings) + ")"
    ensures GeometryToWkt(fmt, PolygonShape(rings)) == Ok("POLYGON" + PolygonText(fmt, rings))
  {
    PolygonsOfOne(wkParse, w);
    MergeSpec(fmt, wkParse, Some([w]));
    assert PolygonTexts(fmt, [rings]) == [PolygonText(fmt, rings)];
  }
}
