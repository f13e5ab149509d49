/** GeoJSON polygons to WKT (utils/geojsonToWkt.ts). */
module GeojsonToWkt {
  import opened Wrappers
  import opened Strings
  import opened GeometryBounds
  import opened WktText

  /** A GeoJSON object: its `type` and, when present, polygon coordinates
      (rings of positions). */
  datatype GeoJsonObject = GeoJsonObject(kind: string, coordinates: Option<seq<seq<Pos>>>)

  /** A value handed to `normalizeGeometryToWkt`, by `typeof`. */
  datatype GeometryValue = GText(text: string) | GObject(obj: GeoJsonObject) | GNull | GOther

  /** `geojsonPolygonToWkt`: the outer ring only, as `POLYGON((x y, ...))`. */
  function GeojsonPolygonToWkt(fmt: real -> string, g: Option<GeoJsonObject>): (r: Outcome<string>)
    ensures r.Throws? <==> g.None? || g.value.kind != "Polygon" || g.value.coordinates.None? || |g.value.coordinates.value| == 0
    ensures r.Ok? ==> r.value == "POLYGON((" + RingBody(fmt, g.value.coordinates.value[0]) + "))"
  {
    match g
    case None => Throws
    case Some(o) =>
      if o.kind != "Polygon" then Throws
      else match o.coordinates
        case None => Throws
        case Some(rings) =>
          // `coordinates[0]` of an empty array is undefined, and `.map` on it throws.
          if |rings| == 0 then Throws
          else Ok("POLYGON((" + RingBody(fmt, rings[0]) + "))")
  }

  /** Holes are dropped: polygons with the same outer ring give the same text. */
  lemma HolesDropped(fmt: real -> string, outer: seq<Pos>, holes1: seq<seq<Pos>>, holes2: seq<seq<Pos>>)
    ensures GeojsonPolygonToWkt(fmt, Some(GeoJsonObject("Polygon", Some([outer] + holes1))))
         == GeojsonPolygonToWkt(fmt, Some(GeoJsonObject("Polygon", Some([outer] + holes2))))
         == GeojsonPolygonToWkt(fmt, Some(GeoJsonObject("Polygon", Some([outer]))))
  {
  }

  /** One "x y" token per vertex of the outer ring, in ring order. */
  lemma TokensPerVertex(fmt: real -> string, g: GeoJsonObject)
    requires PlainFormat(fmt)
    requires g.kind == "Polygon" && g.coordinates.Some? && |g.coordinates.value| > 0 && |g.coordinates.value[0]| > 0
    ensures var ring := g.coordinates.value[0];
      var text := GeojsonPolygonToWkt(fmt, Some(g)).value;
      var pieces := Split(text[9..|text| - 2], ',');
      |pieces| == |ring| && pieces[0] == PosText(fmt, ring[0])
      && forall k :: 1 <= k < |ring| ==> pieces[k] == " " + PosText(fmt, ring[k])
  {
    var ring := g.coordinates.value[0];
    var text := GeojsonPolygonToWkt(fmt, Some(g)).value;
    assert text[9..|text| - 2] == RingBody(fmt, ring);
    RingBodyPieces(fmt, ring);
  }

  /** `normalizeGeometryToWkt`: strings pass through, Polygon objects are
      converted, everything else throws. */
  function NormalizeGeometryToWkt(fmt: real -> string, v: GeometryValue): (r: Outcome<string>)
    ensures v.GText? ==> r == Ok(v.text)
    ensures v.GObject? && v.obj.kind == "Polygon" ==> r == GeojsonPolygonToWkt(fmt, Some(v.obj))
    ensures !v.GText? && !(v.GObject? && v.obj.kind == "Polygon") ==> r == Throws
  {
    match v
    case GText(s) => Ok(s)
    case GObject(o) => if o.kind == "Polygon" then GeojsonPolygonToWkt(fmt, Some(o)) else Throws
    case _ => Throws
  }

  /** Normalising is idempotent on what it produces. */
  lemma NormalizeIdempotent(fmt: real -> string, v: GeometryValue)
    requires NormalizeGeometryToWkt(fmt, v).Ok?
    ensures NormalizeGeometryToWkt(fmt, GText(NormalizeGeometryToWkt(fmt, v).value)) == NormalizeGeometryToWkt(fmt, v)
  {
  }
}
