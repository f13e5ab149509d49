/** What the coverage engine (intersectionCalculator.ts, overlayFilter.ts)
    needs from the geometry libraries, and the shapes it works on. */
module GeoEngine {
  import opened Wrappers
  import opened GeometryBounds

  /** The turf and wellknown calls the engine makes, over an abstract
      geometry type `G`. `Throws` is an exception; `Ok(None)` is a null result. */
  datatype GeoOps<!G> = GeoOps(
    /** `wkt.parse`: null (or an exception, which every caller treats the same) as `None`. */
    parse: string -> Option<G>,
    /** `union(featureCollection([acc, f]))`; the accumulator may already be null. */
    union: (Option<G>, G) -> Outcome<Option<G>>,
    /** `intersect(featureCollection([a, b]))`. */
    intersect: (G, Option<G>) -> Outcome<Option<G>>,
    /** `difference(featureCollection([a, b]))`, `None` when the result or its geometry is null. */
    difference: (G, G) -> Outcome<Option<G>>,
    /** `area`, in square metres. */
    area: G -> real,
    /** The geometry's `coordinates`, as JSON. */
    coords: G -> Json,
    /** `geometry.type === "Point"`. */
    isPoint: G -> bool)

  /** The fields of an `ElasticProviderOverlay` the engine reads:
      `exclusive_id.entity_id` (`None` when `exclusive_id` is missing),
      `geo.wkt` (`""` when missing, as `overlay.geo?.wkt || ""` gives) and
      `properties_List.Resolution`. */
  datatype Overlay = Overlay(entityId: Option<string>, wkt: string, resolution: Option<real>)

  /** `site.geometry`: absent, a WKT string, or an already-parsed object. */
  datatype SiteGeom<G> = NoGeometry | WktText(text: string) | GeoObject(geom: G)

  /** `!site.geometry`: absent, or the empty string. */
  predicate Missing<G>(site: SiteGeom<G>)
  {
    site.NoGeometry? || site == WktText("")
  }

  /** The tolerance of every coverage comparison. */
  const Eps: real := 0.000000001

  /** `getBbox(feature(g))`. */
  function BoxOf<G>(ops: GeoOps<G>, g: G): Bbox
  {
    BoundsOf(Flatten(ops.coords(g)))
  }

  /** The bbox prefilter shared by both callers: the overlay's WKT parses
      and its box touches the site's. */
  function OverlayHit<G>(ops: GeoOps<G>, siteBox: Bbox, o: Overlay): Option<G>
  {
    match ops.parse(o.wkt)
    case None => None
    case Some(g) => if BboxIntersect(siteBox, BoxOf(ops, g)) then Some(g) else None
  }

  /** `Math.abs(pct - 100) < 1e-9`. */
  predicate NearFull(pct: real)
  {
    -Eps < pct - 100.0 < Eps
  }

  /** `area(x) / siteArea * 100`. */
  function Percent(a: real, siteArea: real): real
    requires siteArea != 0.0
  {
    a / siteArea * 100.0
  }
}
