/** The state of the overlay selection loop (utils/overlayFilter.ts) and
    the account it keeps of what has been selected. */
module SelectionState {
  import opened GeometryBounds
  import opened GeoEngine

  /** An `OverlayCandidate`: the overlay, its parsed footprint and its
      resolution, `+inf` when the overlay has none. */
  datatype Candidate<G> = Candidate(overlay: Overlay, geom: G, resolution: ExtReal)

  /** The selection loop's state. `picked` holds the index of every
      selected candidate and `gains` the area each one took off. */
  datatype SelState<G> = SelState(
    selected: seq<Overlay>, picked: seq<nat>, gains: seq<real>,
    remGeom: G, remArea: real, done: bool)

  function Sum(xs: seq<real>): real
  {
    if |xs| == 0 then 0.0 else Sum(xs[..|xs| - 1]) + xs[|xs| - 1]
  }

  /** What the loop keeps: the selected overlays are the picked candidates
      in increasing index order, and the remaining area is the site area
      less exactly the area each selection took off. */
  ghost predicate Accounts<G>(cands: seq<Candidate<G>>, siteArea: real, s: SelState<G>, k: nat)
  {
    && |s.selected| == |s.picked| == |s.gains|
    && (forall j :: 0 <= j < |s.picked| ==> s.picked[j] < k && s.picked[j] < |cands|)
    && (forall j :: 0 <= j < |s.picked| ==> s.selected[j] == cands[s.picked[j]].overlay)
    && (forall j, l :: 0 <= j < l < |s.picked| ==> s.picked[j] < s.picked[l])
    && s.remArea == siteArea - Sum(s.gains)
  }

  /** A state that accounts for the first `i` candidates accounts for the
      first `i + 1` when candidate `i` is skipped. */
  lemma AccountsWiden<G>(cands: seq<Candidate<G>>, siteArea: real, s: SelState<G>, i: nat)
    requires Accounts(cands, siteArea, s, i)
    ensures Accounts(cands, siteArea, s, i + 1)
  {
  }

  /** Selecting candidate `i` after the first `i` keeps the account. */
  lemma AccountsExtend<G>(cands: seq<Candidate<G>>, siteArea: real, s: SelState<G>, s': SelState<G>, i: nat, gain: real)
    requires i < |cands| && Accounts(cands, siteArea, s, i)
    requires s'.selected == s.selected + [cands[i].overlay] && s'.picked == s.picked + [i]
    requires s'.gains == s.gains + [gain] && s'.remArea == s.remArea - gain
    ensures Accounts(cands, siteArea, s', i + 1)
  {
    assert s'.gains[..|s'.gains| - 1] == s.gains;
    assert Sum(s'.gains) == Sum(s.gains) + gain;
    forall j | 0 <= j < |s'.picked|
      ensures s'.picked[j] < i + 1 && s'.selected[j] == cands[s'.picked[j]].overlay
    {
      if j < |s.picked| {
        assert s'.picked[j] == s.picked[j] && s'.selected[j] == s.selected[j];
      }
    }
    forall j, l | 0 <= j < l < |s'.picked|
      ensures s'.picked[j] < s'.picked[l]
    {
      if l < |s.picked| {
        assert s'.picked[j] == s.picked[j] && s'.picked[l] == s.picked[l];
      } else {
        assert s'.picked[j] == s.picked[j];
      }
    }
  }
}
