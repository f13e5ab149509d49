/** Coverage status of a site by a set of imagery overlays
    (utils/intersectionCalculator.ts). */
module IntersectionCalculator {
  import opened Wrappers
  import opened GeometryBounds
  import opened Statuses
  import opened GeoEngine
  import Seqs

  /** `filterCandidateOverlays`: the overlays whose WKT parses and whose
      box touches the site's box, in input order. */
  function FilterCandidates<G>(ops: GeoOps<G>, siteBox: Bbox, overlays: seq<Overlay>): (r: seq<Overlay>)
    ensures |r| <= |overlays|
    ensures forall o :: o in r <==> o in overlays && OverlayHit(ops, siteBox, o).Some?
  {
    Seqs.Filter(overlays, o => OverlayHit(ops, siteBox, o).Some?)
  }

  /** The candidates keep their input order. */
  lemma FilterCandidatesOrder<G>(ops: GeoOps<G>, siteBox: Bbox, overlays: seq<Overlay>)
    ensures Seqs.IsSubseq(FilterCandidates(ops, siteBox, overlays), overlays)
  {
    Seqs.FilterIsSubseq(overlays, o => OverlayHit(ops, siteBox, o).Some?);
  }

  /** `parseOverlayFeatures`: every overlay whose WKT parses, as a geometry,
      in order; the others are dropped. */
  function ParseOverlayFeatures<G>(ops: GeoOps<G>, overlays: seq<Overlay>): (r: seq<G>)
    ensures |r| <= |overlays|
  {
    if |overlays| == 0 then []
    else
      match ops.parse(overlays[0].wkt)
      case Some(g) => [g] + ParseOverlayFeatures(ops, overlays[1..])
      case None => ParseOverlayFeatures(ops, overlays[1..])
  }

  /** Parsing is deterministic, so every candidate parses a second time:
      the features line up one to one with the candidates and the
      "no feature parsed" guard can only fire when there are no candidates. */
  lemma {:induction false} ParseCandidates<G>(ops: GeoOps<G>, siteBox: Bbox, cands: seq<Overlay>)
    requires forall o :: o in cands ==> OverlayHit(ops, siteBox, o).Some?
    ensures |ParseOverlayFeatures(ops, cands)| == |cands|
    ensures forall i :: 0 <= i < |cands| ==>
      Some(ParseOverlayFeatures(ops, cands)[i]) == ops.parse(cands[i].wkt)
  {
    if |cands| > 0 {
      assert cands[0] in cands;
      ParseCandidates(ops, siteBox, cands[1..]);
      var rest := ParseOverlayFeatures(ops, cands[1..]);
      forall i | 0 <= i < |cands|
        ensures Some(ParseOverlayFeatures(ops, cands)[i]) == ops.parse(cands[i].wkt)
      {
        if i > 0 { assert cands[i] == cands[1..][i - 1]; }
      }
    }
  }

  /** The union loop's state: the accumulator and whether it has reached
      full coverage (the `break`). */
  datatype UnionState<G> = UnionState(acc: Option<G>, reached: bool)

  /** The loop's test: `site ∩ acc` exists and covers the site to within 1e-9 %. */
  predicate Reached<G>(ops: GeoOps<G>, site: G, siteArea: real, acc: Option<G>)
    requires siteArea != 0.0
  {
    match ops.intersect(site, acc)
    case Ok(Some(t)) => NearFull(Percent(ops.area(t), siteArea))
    case _ => false
  }

  /** One iteration: a throwing `union` leaves the accumulator; a returning
      one replaces it, even when the intersection test then throws. */
  function UnionStep<G>(ops: GeoOps<G>, site: G, siteArea: real, s: UnionState<G>, f: G): UnionState<G>
    requires siteArea != 0.0
  {
    if s.reached then s
    else
      match ops.union(s.acc, f)
      case Throws => s
      case Ok(u) => UnionState(u, Reached(ops, site, siteArea, u))
  }

  /** The state once features `1..k-1` have been offered to the union,
      seeded with feature 0. */
  function UnionUpTo<G>(ops: GeoOps<G>, site: G, siteArea: real, feats: seq<G>, k: nat): UnionState<G>
    requires siteArea != 0.0 && 1 <= k <= |feats|
  {
    if k == 1 then UnionState(Some(feats[0]), false)
    else UnionStep(ops, site, siteArea, UnionUpTo(ops, site, siteArea, feats, k - 1), feats[k - 1])
  }

  /** What `computeUnion` returns; `overlayFeats[0]` is undefined for an
      empty list. */
  function UnionResult<G>(ops: GeoOps<G>, site: G, siteArea: real, feats: seq<G>): Option<G>
    requires siteArea != 0.0
  {
    if |feats| == 0 then None else UnionUpTo(ops, site, siteArea, feats, |feats|).acc
  }

  /** Once full coverage is reached nothing changes any more. */
  lemma {:induction false} ReachedSticky<G>(ops: GeoOps<G>, site: G, siteArea: real, feats: seq<G>, k: nat, m: nat)
    requires siteArea != 0.0 && 1 <= k <= m <= |feats|
    requires UnionUpTo(ops, site, siteArea, feats, k).reached
    ensures UnionUpTo(ops, site, siteArea, feats, m) == UnionUpTo(ops, site, siteArea, feats, k)
    decreases m
  {
    if m > k {
      ReachedSticky(ops, site, siteArea, feats, k, m - 1);
    }
  }

  /** The state after `k` features depends on those features only. */
  lemma {:induction false} UnionUpToPrefix<G>(ops: GeoOps<G>, site: G, siteArea: real, feats: seq<G>, other: seq<G>, k: nat)
    requires siteArea != 0.0 && 1 <= k <= |feats| && k <= |other|
    requires feats[..k] == other[..k]
    ensures UnionUpTo(ops, site, siteArea, feats, k) == UnionUpTo(ops, site, siteArea, other, k)
    decreases k
  {
    assert feats[k - 1] == feats[..k][k - 1] == other[k - 1];
    if k > 1 {
      assert feats[..k - 1] == feats[..k][..k - 1];
      assert other[..k - 1] == other[..k][..k - 1];
      UnionUpToPrefix(ops, site, siteArea, feats, other, k - 1);
    }
  }

  /** Early exit: once the first `k` features reach full coverage, the
      features after them are never unioned, whatever they are. */
  lemma LaterFeaturesIgnored<G>(ops: GeoOps<G>, site: G, siteArea: real, feats: seq<G>, other: seq<G>, k: nat)
    requires siteArea != 0.0 && 1 <= k <= |feats| && k <= |other|
    requires feats[..k] == other[..k]
    requires UnionUpTo(ops, site, siteArea, feats, k).reached
    ensures UnionResult(ops, site, siteArea, feats) == UnionResult(ops, site, siteArea, other)
  {
    UnionUpToPrefix(ops, site, siteArea, feats, other, k);
    ReachedSticky(ops, site, siteArea, feats, k, |feats|);
    ReachedSticky(ops, site, siteArea, other, k, |other|);
  }

  /** A union that always throws leaves the seed: the result is the first
      feature in input order. */
  lemma {:induction false} FailingUnionsKeepSeed<G>(ops: GeoOps<G>, site: G, siteArea: real, feats: seq<G>, k: nat)
    requires siteArea != 0.0 && 1 <= k <= |feats|
    requires forall i :: 1 <= i < |feats| ==> ops.union(Some(feats[0]), feats[i]) == Throws
    ensures UnionUpTo(ops, site, siteArea, feats, k) == UnionState(Some(feats[0]), false)
  {
    if k > 1 {
      FailingUnionsKeepSeed(ops, site, siteArea, feats, k - 1);
    }
  }

  /** `computeUnion`. `examined` is how many features were looked at before
      the loop ended (`i + 1` at the `break`). */
  method ComputeUnion<G>(ops: GeoOps<G>, feats: seq<G>, site: G, siteArea: real)
    returns (unioned: Option<G>, examined: nat)
    requires siteArea != 0.0
    ensures unioned == UnionResult(ops, site, siteArea, feats)
    ensures |feats| > 0 ==> 1 <= examined <= |feats| && unioned == UnionUpTo(ops, site, siteArea, feats, examined).acc
    ensures |feats| > 0 && examined < |feats| ==> UnionUpTo(ops, site, siteArea, feats, examined).reached
    ensures forall j :: 1 <= j < examined && j <= |feats| ==> !UnionUpTo(ops, site, siteArea, feats, j).reached
  {
    if |feats| == 0 {
      return None, 0;
    }
    unioned := Some(feats[0]);
    var i := 1;
    while i < |feats|
      invariant 1 <= i <= |feats|
      invariant UnionUpTo(ops, site, siteArea, feats, i) == UnionState(unioned, false)
      invariant forall j :: 1 <= j < i ==> !UnionUpTo(ops, site, siteArea, feats, j).reached
    {
      match ops.union(unioned, feats[i]) {
        case Throws =>
        case Ok(u) =>
          unioned := u;
          var test := ops.intersect(site, unioned);
          if test.Ok? && test.value.Some? && NearFull(Percent(ops.area(test.value.value), siteArea)) {
            ReachedSticky(ops, site, siteArea, feats, i + 1, |feats|);
            return unioned, i + 1;
          }
      }
      i := i + 1;
    }
    examined := i;
  }

  /** `pct` classified: Full within 1e-9 of 100, else Partial when
      positive, else No. */
  function Classify(pct: real): (r: UpdatedStatus)
    ensures r == Full <==> NearFull(pct)
    ensures r == Partial <==> !NearFull(pct) && pct > 0.0
    ensures r == No <==> !NearFull(pct) && pct <= 0.0
  {
    if NearFull(pct) then Full else if pct > 0.0 then Partial else No
  }

  /** `calculateCoverage`: a null or throwing final intersection is "No". */
  function CalculateCoverage<G>(ops: GeoOps<G>, site: G, unioned: G, siteArea: real): (r: UpdatedStatus)
    requires siteArea != 0.0
    ensures r != No ==> ops.intersect(site, Some(unioned)).Ok? && ops.intersect(site, Some(unioned)).value.Some?
    ensures (match ops.intersect(site, Some(unioned))
             case Ok(Some(p)) => r == Classify(Percent(ops.area(p), siteArea))
             case _ => r == No)
  {
    match ops.intersect(site, Some(unioned))
    case Ok(Some(p)) => Classify(Percent(ops.area(p), siteArea))
    case _ => No
  }

  /** The site geometry: a string is parsed, an object is used as is. */
  function SiteGeometry<G>(ops: GeoOps<G>, site: SiteGeom<G>): Option<G>
  {
    match site
    case NoGeometry => None
    case WktText(t) => ops.parse(t)
    case GeoObject(g) => Some(g)
  }

  /** What `calculateIntersectionPercent` returns, step by step. */
  function CoverageStatus<G>(ops: GeoOps<G>, site: SiteGeom<G>, overlays: seq<Overlay>): UpdatedStatus
  {
    if Missing(site) || |overlays| == 0 then No
    else
      match SiteGeometry(ops, site)
      case None => No
      case Some(sg) =>
        var siteArea := ops.area(sg);
        if siteArea == 0.0 then No
        else
          var cands := FilterCandidates(ops, BoxOf(ops, sg), overlays);
          if |cands| == 0 then No
          else
            var feats := ParseOverlayFeatures(ops, cands);
            if |feats| == 0 then No
            else
              match UnionResult(ops, sg, siteArea, feats)
              case None => No
              case Some(u) => CalculateCoverage(ops, sg, u, siteArea)
  }

  /** `calculateIntersectionPercent`. */
  method CalculateIntersectionPercent<G>(ops: GeoOps<G>, site: SiteGeom<G>, overlays: seq<Overlay>)
    returns (r: UpdatedStatus)
    ensures r == CoverageStatus(ops, site, overlays)
  {
    if Missing(site) || |overlays| == 0 {
      return No;
    }
    var siteGeom := SiteGeometry(ops, site);
    if siteGeom.None? {
      return No;
    }
    var sg := siteGeom.value;
    var siteArea := ops.area(sg);
    if siteArea == 0.0 {
      return No;
    }
    var cands := FilterCandidates(ops, BoxOf(ops, sg), overlays);
    if |cands| == 0 {
      return No;
    }
    var feats := ParseOverlayFeatures(ops, cands);
    if |feats| == 0 {
      return No;
    }
    var unioned, _ := ComputeUnion(ops, feats, sg, siteArea);
    if unioned.None? {
      return No;
    }
    r := CalculateCoverage(ops, sg, unioned.value, siteArea);
  }

  /** Every early "No" of `calculateIntersectionPercent`, and the only
      way to get anything else: a full or partial status needs a parsed,
      non-empty site with at least one candidate and a non-null union,
      and then agrees with the final coverage percentage. */
  lemma CoverageStatusSpec<G>(ops: GeoOps<G>, site: SiteGeom<G>, overlays: seq<Overlay>)
    ensures Missing(site) ==> CoverageStatus(ops, site, overlays) == No
    ensures |overlays| == 0 ==> CoverageStatus(ops, site, overlays) == No
    ensures SiteGeometry(ops, site).None? ==> CoverageStatus(ops, site, overlays) == No
    ensures (SiteGeometry(ops, site).Some? && ops.area(SiteGeometry(ops, site).value) == 0.0) ==>
      CoverageStatus(ops, site, overlays) == No
    ensures (SiteGeometry(ops, site).Some? &&
             |FilterCandidates(ops, BoxOf(ops, SiteGeometry(ops, site).value), overlays)| == 0) ==>
      CoverageStatus(ops, site, overlays) == No
    ensures CoverageStatus(ops, site, overlays) != No ==>
      var sg := SiteGeometry(ops, site).value;
      var siteArea := ops.area(sg);
      var cands := FilterCandidates(ops, BoxOf(ops, sg), overlays);
      && !Missing(site) && siteArea != 0.0 && |cands| > 0
      && UnionResult(ops, sg, siteArea, ParseOverlayFeatures(ops, cands)).Some?
      && CoverageStatus(ops, site, overlays)
         == CalculateCoverage(ops, sg, UnionResult(ops, sg, siteArea, ParseOverlayFeatures(ops, cands)).value, siteArea)
  {
  }

  /** For any overlay list, the union's seed is the parse of the first
      overlay in input order that parses and touches the site's box,
      whatever the overlays after it are. */
  lemma SeedIsFirstHit<G>(ops: GeoOps<G>, siteBox: Bbox, overlays: seq<Overlay>, i: nat, site: G, siteArea: real)
    requires siteArea != 0.0
    requires i < |overlays| && OverlayHit(ops, siteBox, overlays[i]).Some?
    requires forall j :: 0 <= j < i ==> OverlayHit(ops, siteBox, overlays[j]).None?
    ensures var feats := ParseOverlayFeatures(ops, FilterCandidates(ops, siteBox, overlays));
      |feats| > 0 && UnionUpTo(ops, site, siteArea, feats, 1).acc == ops.parse(overlays[i].wkt)
  {
    var cands := FilterCandidates(ops, siteBox, overlays);
    Seqs.FilterHead(overlays, o => OverlayHit(ops, siteBox, o).Some?, i);
    ParseCandidates(ops, siteBox, cands);
  }

  /** The union is seeded with the first candidate in input order, with no
      regard to resolution: a coarse overlay listed first is the seed even
      when a finer one follows (the selector in overlayFilter.ts sorts by
      resolution first). */
  lemma SeedIsFirstCandidate<G>(ops: GeoOps<G>, siteBox: Bbox, coarse: Overlay, fine: Overlay, site: G, siteArea: real)
    requires siteArea != 0.0
    requires OverlayHit(ops, siteBox, coarse).Some? && OverlayHit(ops, siteBox, fine).Some?
    ensures var feats := ParseOverlayFeatures(ops, FilterCandidates(ops, siteBox, [coarse, fine]));
      |feats| == 2 && UnionUpTo(ops, site, siteArea, feats, 1).acc == ops.parse(coarse.wkt)
  {
    var cands := FilterCandidates(ops, siteBox, [coarse, fine]);
    assert [coarse, fine][1..] == [fine];
    assert cands == [coarse, fine];
    ParseCandidates(ops, siteBox, cands);
  }
}
