/** Choosing the best-resolution overlays that cover a site
    (utils/overlayFilter.ts). */
module OverlayFilter {
  import opened Wrappers
  import opened GeometryBounds
  import opened GeoEngine
  import opened SelectionState
  import Seqs
  import Sorting

  function ResolutionKey(o: Overlay): ExtReal
  {
    match o.resolution
    case None => PosInf
    case Some(r) => Fin(r)
  }

  /** The comparator `a.resolution - b.resolution`: with two infinite
      resolutions it gives NaN, which the engine's stable sort treats as
      "keep the order". */
  function ByResolution<G>(a: Candidate<G>, b: Candidate<G>): bool
  {
    Le(a.resolution, b.resolution)
  }

  lemma ByResolutionTotal<G(!new)>()
    ensures Sorting.TotalPreorder<Candidate<G>>(ByResolution)
  {
  }

  /** The `map` step of `getCandidates`: the hits, as candidates, in input order. */
  function Hits<G>(ops: GeoOps<G>, siteBox: Bbox, overlays: seq<Overlay>): (r: seq<Candidate<G>>)
    ensures |r| <= |overlays|
  {
    if |overlays| == 0 then []
    else
      var rest := Hits(ops, siteBox, overlays[1..]);
      match OverlayHit(ops, siteBox, overlays[0])
      case None => rest
      case Some(g) => [Candidate(overlays[0], g, ResolutionKey(overlays[0]))] + rest
  }

  /** Every hit is an input overlay that parses and touches the site box,
      carrying that parse and its resolution; every such overlay is a hit. */
  lemma {:induction false} HitsSpec<G>(ops: GeoOps<G>, siteBox: Bbox, overlays: seq<Overlay>)
    ensures forall c :: c in Hits(ops, siteBox, overlays) ==>
      c.overlay in overlays && OverlayHit(ops, siteBox, c.overlay) == Some(c.geom)
      && c.resolution == ResolutionKey(c.overlay)
    ensures forall o :: o in overlays && OverlayHit(ops, siteBox, o).Some? ==>
      Candidate(o, OverlayHit(ops, siteBox, o).value, ResolutionKey(o)) in Hits(ops, siteBox, overlays)
  {
    if |overlays| > 0 {
      HitsSpec(ops, siteBox, overlays[1..]);
      forall o | o in overlays && OverlayHit(ops, siteBox, o).Some?
        ensures Candidate(o, OverlayHit(ops, siteBox, o).value, ResolutionKey(o)) in Hits(ops, siteBox, overlays)
      {
        if o != overlays[0] {
          assert o in overlays[1..];
        }
      }
    }
  }

  /** `getCandidates`: the hits sorted by ascending resolution, stably. */
  function GetCandidates<G(!new)>(ops: GeoOps<G>, siteBox: Bbox, overlays: seq<Overlay>): (r: seq<Candidate<G>>)
    ensures Sorting.Sorted(r, ByResolution)
    ensures multiset(r) == multiset(Hits(ops, siteBox, overlays))
  {
    ByResolutionTotal<G>();
    Sorting.Sort(Hits(ops, siteBox, overlays), ByResolution)
  }

  /** Candidates of equal resolution (in particular all those without one)
      stay in input order. */
  lemma GetCandidatesStable<G(!new)>(ops: GeoOps<G>, siteBox: Bbox, overlays: seq<Overlay>, c: Candidate<G>)
    ensures Seqs.Filter(GetCandidates(ops, siteBox, overlays), Sorting.EquivTo(c, ByResolution))
         == Seqs.Filter(Hits(ops, siteBox, overlays), Sorting.EquivTo(c, ByResolution))
  {
    ByResolutionTotal<G>();
    Sorting.SortStable(Hits(ops, siteBox, overlays), ByResolution, c);
  }

  /** `updateRemaining`: subtract the footprint from the remaining region,
      keeping the region as it is for a point footprint, a null
      difference, or a throwing one. */
  function UpdateRemaining<G>(ops: GeoOps<G>, remaining: G, footprint: G): (r: G)
    ensures ops.isPoint(footprint) ==> r == remaining
    ensures r != remaining ==> ops.difference(remaining, footprint) == Ok(Some(r))
    ensures (!ops.isPoint(footprint) && ops.difference(remaining, footprint).Ok?
             && ops.difference(remaining, footprint).value.Some?) ==>
      r == ops.difference(remaining, footprint).value.value
  {
    if ops.isPoint(footprint) then remaining
    else
      match ops.difference(remaining, footprint)
      case Ok(Some(d)) => d
      case _ => remaining
  }

  /** One iteration of `selectBest` on candidate number `i`. */
  function Step<G>(ops: GeoOps<G>, siteArea: real, s: SelState<G>, c: Candidate<G>, i: nat): SelState<G>
    requires siteArea != 0.0
  {
    if s.done then s
    else
      match ops.intersect(s.remGeom, Some(c.geom))
      case Ok(Some(t)) =>
        var left := s.remArea - ops.area(t);
        var covered := left / siteArea < Eps;
        SelState(s.selected + [c.overlay], s.picked + [i], s.gains + [ops.area(t)],
                 if covered then s.remGeom else UpdateRemaining(ops, s.remGeom, c.geom),
                 left, covered)
      case _ => s
  }

  /** The state after the first `k` candidates. */
  function SelectUpTo<G>(ops: GeoOps<G>, cands: seq<Candidate<G>>, siteGeom: G, siteArea: real, k: nat): SelState<G>
    requires siteArea != 0.0 && k <= |cands|
  {
    if k == 0 then SelState([], [], [], siteGeom, siteArea, false)
    else Step(ops, siteArea, SelectUpTo(ops, cands, siteGeom, siteArea, k - 1), cands[k - 1], k - 1)
  }

  /** One step either selects candidate `i`, extending the three lists
      and taking the intersection's area off, or changes nothing. */
  lemma StepShape<G>(ops: GeoOps<G>, siteArea: real, s: SelState<G>, c: Candidate<G>, i: nat)
    requires siteArea != 0.0
    ensures var s' := Step(ops, siteArea, s, c, i);
      || s' == s
      || (exists t :: ops.intersect(s.remGeom, Some(c.geom)) == Ok(Some(t))
           && s'.selected == s.selected + [c.overlay] && s'.picked == s.picked + [i]
           && s'.gains == s.gains + [ops.area(t)] && s'.remArea == s.remArea - ops.area(t))
  {
    if !s.done {
      match ops.intersect(s.remGeom, Some(c.geom)) {
        case Ok(Some(t)) =>
          var s' := Step(ops, siteArea, s, c, i);
          assert s'.gains == s.gains + [ops.area(t)];
        case _ =>
      }
    }
  }

  lemma {:induction false} SelectUpToAccounts<G>(ops: GeoOps<G>, cands: seq<Candidate<G>>, siteGeom: G, siteArea: real, k: nat)
    requires siteArea != 0.0 && k <= |cands|
    ensures Accounts(cands, siteArea, SelectUpTo(ops, cands, siteGeom, siteArea, k), k)
  {
    if k > 0 {
      SelectUpToAccounts(ops, cands, siteGeom, siteArea, k - 1);
      AccountsStepAt(ops, cands, siteGeom, siteArea, k);
    }
  }

  lemma AccountsStepAt<G>(ops: GeoOps<G>, cands: seq<Candidate<G>>, siteGeom: G, siteArea: real, k: nat)
    requires siteArea != 0.0 && 0 < k <= |cands|
    requires Accounts(cands, siteArea, SelectUpTo(ops, cands, siteGeom, siteArea, k - 1), k - 1)
    ensures Accounts(cands, siteArea, SelectUpTo(ops, cands, siteGeom, siteArea, k), k)
  {
    AccountsStep(ops, cands, siteArea, SelectUpTo(ops, cands, siteGeom, siteArea, k - 1), k - 1);
  }

  /** One step of the loop on candidate `i` keeps the account. */
  lemma AccountsStep<G>(ops: GeoOps<G>, cands: seq<Candidate<G>>, siteArea: real, s: SelState<G>, i: nat)
    requires siteArea != 0.0 && i < |cands| && Accounts(cands, siteArea, s, i)
    ensures Accounts(cands, siteArea, Step(ops, siteArea, s, cands[i], i), i + 1)
  {
    var c := cands[i];
    if s.done {
      AccountsWiden(cands, siteArea, s, i);
    } else {
      match ops.intersect(s.remGeom, Some(c.geom)) {
        case Ok(Some(t)) =>
          AccountsExtend(cands, siteArea, s, Step(ops, siteArea, s, c, i), i, ops.area(t));
        case _ =>
          AccountsWiden(cands, siteArea, s, i);
      }
    }
  }

  /** Each gain is the area of an intersection, so with non-negative areas
      the remaining area never grows. */
  lemma {:induction false} SumNonNegative(xs: seq<real>)
    requires forall j :: 0 <= j < |xs| ==> xs[j] >= 0.0
    ensures Sum(xs) >= 0.0
  {
    if |xs| > 0 {
      SumNonNegative(xs[..|xs| - 1]);
    }
  }

  lemma {:induction false} GainsAreAreas<G>(ops: GeoOps<G>, cands: seq<Candidate<G>>, siteGeom: G, siteArea: real, k: nat)
    requires siteArea != 0.0 && k <= |cands|
    requires forall g :: ops.area(g) >= 0.0
    ensures var s := SelectUpTo(ops, cands, siteGeom, siteArea, k);
      (forall j :: 0 <= j < |s.gains| ==> s.gains[j] >= 0.0) && s.remArea <= siteArea
  {
    var s := SelectUpTo(ops, cands, siteGeom, siteArea, k);
    if k > 0 {
      GainsAreAreas(ops, cands, siteGeom, siteArea, k - 1);
      var s0 := SelectUpTo(ops, cands, siteGeom, siteArea, k - 1);
      StepShape(ops, siteArea, s0, cands[k - 1], k - 1);
      if s != s0 {
        var t :| ops.intersect(s0.remGeom, Some(cands[k - 1].geom)) == Ok(Some(t))
           && s.gains == s0.gains + [ops.area(t)];
        assert forall j :: 0 <= j < |s.gains| ==> s.gains[j] >= 0.0 by {
          forall j | 0 <= j < |s.gains| ensures s.gains[j] >= 0.0 {
            if j < |s0.gains| { assert s.gains[j] == s0.gains[j]; }
          }
        }
      }
    }
    SelectUpToAccounts(ops, cands, siteGeom, siteArea, k);
    SumNonNegative(s.gains);
  }

  /** Once the site is covered nothing changes any more. */
  lemma {:induction false} DoneSticky<G>(ops: GeoOps<G>, cands: seq<Candidate<G>>, siteGeom: G, siteArea: real, k: nat, m: nat)
    requires siteArea != 0.0 && k <= m <= |cands|
    requires SelectUpTo(ops, cands, siteGeom, siteArea, k).done
    ensures SelectUpTo(ops, cands, siteGeom, siteArea, m) == SelectUpTo(ops, cands, siteGeom, siteArea, k)
    decreases m
  {
    if m > k {
      DoneSticky(ops, cands, siteGeom, siteArea, k, m - 1);
    }
  }

  lemma {:induction false} SelectUpToPrefix<G>(ops: GeoOps<G>, cands: seq<Candidate<G>>, other: seq<Candidate<G>>,
                                               siteGeom: G, siteArea: real, k: nat)
    requires siteArea != 0.0 && k <= |cands| && k <= |other| && cands[..k] == other[..k]
    ensures SelectUpTo(ops, cands, siteGeom, siteArea, k) == SelectUpTo(ops, other, siteGeom, siteArea, k)
    decreases k
  {
    if k > 0 {
      assert cands[k - 1] == cands[..k][k - 1] == other[k - 1];
      assert cands[..k - 1] == cands[..k][..k - 1];
      assert other[..k - 1] == other[..k][..k - 1];
      SelectUpToPrefix(ops, cands, other, siteGeom, siteArea, k - 1);
    }
  }

  /** Early return: once the first `k` candidates cover the site, the
      candidates after them are never examined. */
  lemma LaterCandidatesIgnored<G>(ops: GeoOps<G>, cands: seq<Candidate<G>>, other: seq<Candidate<G>>,
                                  siteGeom: G, siteArea: real, k: nat)
    requires siteArea != 0.0 && k <= |cands| && k <= |other| && cands[..k] == other[..k]
    requires SelectUpTo(ops, cands, siteGeom, siteArea, k).done
    ensures SelectUpTo(ops, cands, siteGeom, siteArea, |cands|).selected
         == SelectUpTo(ops, other, siteGeom, siteArea, |other|).selected
  {
    SelectUpToPrefix(ops, cands, other, siteGeom, siteArea, k);
    DoneSticky(ops, cands, siteGeom, siteArea, k, |cands|);
    DoneSticky(ops, other, siteGeom, siteArea, k, |other|);
  }

  /** A candidate that does not meet the remaining region (a null or
      throwing intersection) changes nothing. */
  lemma SkippedCandidate<G>(ops: GeoOps<G>, cands: seq<Candidate<G>>, siteGeom: G, siteArea: real, k: nat)
    requires siteArea != 0.0 && k < |cands|
    requires !(ops.intersect(SelectUpTo(ops, cands, siteGeom, siteArea, k).remGeom, Some(cands[k].geom)).Ok?
               && ops.intersect(SelectUpTo(ops, cands, siteGeom, siteArea, k).remGeom, Some(cands[k].geom)).value.Some?)
    ensures SelectUpTo(ops, cands, siteGeom, siteArea, k + 1) == SelectUpTo(ops, cands, siteGeom, siteArea, k)
  {
  }

  /** `selectBest`. `examined` is the number of candidates looked at. */
  method SelectBest<G>(ops: GeoOps<G>, cands: seq<Candidate<G>>, siteGeom: G, siteArea: real)
    returns (selected: seq<Overlay>, examined: nat)
    requires siteArea != 0.0
    ensures selected == SelectUpTo(ops, cands, siteGeom, siteArea, |cands|).selected
    ensures examined <= |cands| && selected == SelectUpTo(ops, cands, siteGeom, siteArea, examined).selected
    ensures examined < |cands| ==> SelectUpTo(ops, cands, siteGeom, siteArea, examined).done
  {
    selected := [];
    var remainingGeom := siteGeom;
    var remainingArea := siteArea;
    ghost var picked: seq<nat> := [];
    ghost var gains: seq<real> := [];
    var i := 0;
    while i < |cands|
      invariant 0 <= i <= |cands|
      invariant SelectUpTo(ops, cands, siteGeom, siteArea, i)
             == SelState(selected, picked, gains, remainingGeom, remainingArea, false)
    {
      var c := cands[i];
      var inter := ops.intersect(remainingGeom, Some(c.geom));
      if inter.Ok? && inter.value.Some? {
        var t := inter.value.value;
        selected := selected + [c.overlay];
        picked := picked + [i];
        gains := gains + [ops.area(t)];
        remainingArea := remainingArea - ops.area(t);
        if remainingArea / siteArea < Eps {
          DoneSticky(ops, cands, siteGeom, siteArea, i + 1, |cands|);
          return selected, i + 1;
        }
        remainingGeom := UpdateRemaining(ops, remainingGeom, c.geom);
      }
      i := i + 1;
    }
    examined := i;
  }

  /** The site geometry as this file parses it: only a WKT string parses;
      an object makes `wkt.parse` throw, which the outer `catch` turns into []. */
  function SiteGeometry<G>(ops: GeoOps<G>, site: SiteGeom<G>): Option<G>
  {
    match site
    case WktText(t) => ops.parse(t)
    case _ => None
  }

  /** What `filterOverlaysByIntersection` returns, step by step. */
  function Selection<G(!new)>(ops: GeoOps<G>, site: SiteGeom<G>, overlays: seq<Overlay>): seq<Overlay>
  {
    if Missing(site) || |overlays| == 0 then []
    else
      match SiteGeometry(ops, site)
      case None => []
      case Some(sg) =>
        var siteArea := ops.area(sg);
        if siteArea == 0.0 then []
        else
          var cands := GetCandidates(ops, BoxOf(ops, sg), overlays);
          if |cands| == 0 then []
          else SelectUpTo(ops, cands, sg, siteArea, |cands|).selected
  }

  /** `filterOverlaysByIntersection`. */
  method FilterOverlaysByIntersection<G(!new)>(ops: GeoOps<G>, site: SiteGeom<G>, overlays: seq<Overlay>)
    returns (r: seq<Overlay>)
    ensures r == Selection(ops, site, overlays)
  {
    if Missing(site) || |overlays| == 0 {
      return [];
    }
    var siteGeom := SiteGeometry(ops, site);
    if siteGeom.None? {
      return [];
    }
    var sg := siteGeom.value;
    var siteArea := ops.area(sg);
    if siteArea == 0.0 {
      return [];
    }
    var cands := GetCandidates(ops, BoxOf(ops, sg), overlays);
    if |cands| == 0 {
      return [];
    }
    var examined;
    r, examined := SelectBest(ops, cands, sg, siteArea);
  }

  /** What the greedy pass picks out of a non-empty candidate list:
      candidates in sorted order, each at most once, each an input overlay
      whose box touches the site's. */
  lemma PickedCandidates<G(!new)>(ops: GeoOps<G>, sg: G, siteArea: real, overlays: seq<Overlay>)
    requires siteArea != 0.0
    requires |GetCandidates(ops, BoxOf(ops, sg), overlays)| > 0
    ensures var cands := GetCandidates(ops, BoxOf(ops, sg), overlays);
      var r := SelectUpTo(ops, cands, sg, siteArea, |cands|).selected;
      && |r| <= |cands|
      && (forall o :: o in r ==> o in overlays && OverlayHit(ops, BoxOf(ops, sg), o).Some?)
      && exists picked: seq<nat> ::
           && |picked| == |r|
           && (forall j :: 0 <= j < |picked| ==> picked[j] < |cands| && r[j] == cands[picked[j]].overlay)
           && (forall j, l :: 0 <= j < l < |picked| ==> picked[j] < picked[l])
  {
    var box := BoxOf(ops, sg);
    var cands := GetCandidates(ops, box, overlays);
    HitsSpec(ops, box, overlays);
    var s := SelectUpTo(ops, cands, sg, siteArea, |cands|);
    SelectUpToAccounts(ops, cands, sg, siteArea, |cands|);
    IncreasingBound(s.picked, |cands|);
    var w := s.picked;
    assert |w| == |s.selected|;
    forall o | o in s.selected
      ensures o in overlays && OverlayHit(ops, box, o).Some?
    {
      var j :| 0 <= j < |s.selected| && s.selected[j] == o;
      var c := cands[s.picked[j]];
      assert c in multiset(Hits(ops, box, overlays));
    }
  }

  /** The selection is empty in every early-exit case; otherwise it lists
      sorted candidates, each at most once, in sorted order, each of them
      an input overlay whose WKT parses and whose box touches the site's. */
  lemma SelectionSpec<G(!new)>(ops: GeoOps<G>, site: SiteGeom<G>, overlays: seq<Overlay>)
    ensures Missing(site) || |overlays| == 0 || SiteGeometry(ops, site).None? ==> Selection(ops, site, overlays) == []
    ensures (SiteGeometry(ops, site).Some? && ops.area(SiteGeometry(ops, site).value) == 0.0) ==>
      Selection(ops, site, overlays) == []
    ensures (SiteGeometry(ops, site).Some? && ops.area(SiteGeometry(ops, site).value) != 0.0) ==>
      var sg := SiteGeometry(ops, site).value;
      var cands := GetCandidates(ops, BoxOf(ops, sg), overlays);
      var r := Selection(ops, site, overlays);
      && |r| <= |cands|
      && (forall o :: o in r ==> o in overlays && OverlayHit(ops, BoxOf(ops, sg), o).Some?)
      && (|cands| == 0 ==> r == [])
      && exists picked: seq<nat> ::
           && |picked| == |r|
           && (forall j :: 0 <= j < |picked| ==> picked[j] < |cands| && r[j] == cands[picked[j]].overlay)
           && (forall j, l :: 0 <= j < l < |picked| ==> picked[j] < picked[l])
  {
    if !Missing(site) && |overlays| > 0 && SiteGeometry(ops, site).Some? && ops.area(SiteGeometry(ops, site).value) != 0.0 {
      var sg := SiteGeometry(ops, site).value;
      var cands := GetCandidates(ops, BoxOf(ops, sg), overlays);
      if |cands| > 0 {
        PickedCandidates(ops, sg, ops.area(sg), overlays);
      } else {
        var w: seq<nat> := [];
        assert |w| == |Selection(ops, site, overlays)|;
      }
    }
  }

  /** Strictly increasing indices below `n` are at most `n` in number. */
  lemma {:induction false} IncreasingBound(xs: seq<nat>, n: nat)
    requires forall j :: 0 <= j < |xs| ==> xs[j] < n
    requires forall j, l :: 0 <= j < l < |xs| ==> xs[j] < xs[l]
    ensures |xs| <= n
  {
    if |xs| > 0 {
      var last := xs[|xs| - 1];
      IncreasingBound(xs[..|xs| - 1], last);
    }
  }

  /** The selector looks at the finest overlay first: with a coarse
      overlay listed before a finer one, the finer comes first among the
      candidates (compare `IntersectionCalculator.SeedIsFirstCandidate`). */
  lemma FinestFirst<G(!new)>(ops: GeoOps<G>, siteBox: Bbox, coarse: Overlay, fine: Overlay, rc: real, rf: real)
    requires rf < rc && coarse.resolution == Some(rc) && fine.resolution == Some(rf)
    requires OverlayHit(ops, siteBox, coarse).Some? && OverlayHit(ops, siteBox, fine).Some?
    ensures |GetCandidates(ops, siteBox, [coarse, fine])| == 2
    ensures GetCandidates(ops, siteBox, [coarse, fine])[0].overlay == fine
  {
    var hits := Hits(ops, siteBox, [coarse, fine]);
    assert [coarse, fine][1..] == [fine];
    assert [fine][1..] == [];
    assert Hits(ops, siteBox, [fine]) == [Candidate(fine, OverlayHit(ops, siteBox, fine).value, ResolutionKey(fine))];
    var r := GetCandidates(ops, siteBox, [coarse, fine]);
    assert hits[0].overlay == coarse && hits[1].overlay == fine;
    assert r == [r[0], r[1]];
    assert multiset{r[0], r[1]} == multiset{hits[0], hits[1]};
    assert !ByResolution(hits[0], hits[1]);
    assert ByResolution(r[0], r[1]);
    assert r[0] == hits[1];
  }
}
