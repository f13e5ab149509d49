/** The older history merge (services/historyMergeService.ts): the same
    status table, but a later visit on the same day replaces an earlier
    one, and date keys come from `toISOString()`. */
module HistoryMergeLegacy {
  import opened Wrappers
  import opened Strings
  import opened Statuses
  import opened DateKeyHelper
  import MergedStatusCalculator
  import Seqs
  import Sorting
  import opened HistoryMergeService

  /** The private `getMergedStatus`, as an if-chain ending in the
      "Not Cover" fallback. */
  function LegacyMergedStatus(cover: UpdatedStatus, visit: SeenStatus): MergedStatus
  {
    if cover == No then MNotCover
    else if cover == Full then (if visit == Seen then MSeen else MNotSeen)
    else if cover == Partial then
      (if visit == PartlySeen then MPartialSeen else if visit == NotSeen then MPartialCover else MNotSeen)
    else MNotCover
  }

  /** Both files implement the same table. */
  lemma SameTable(cover: UpdatedStatus, visit: SeenStatus)
    ensures LegacyMergedStatus(cover, visit) == MergedStatusCalculator.GetMergedStatus(cover, visit)
  {
  }

  /** `toDateKey`: `toISOString().split("T")[0]`. `iso` is `toISOString`,
      `None` when the date is invalid (it then throws). */
  function IsoKey(iso: DateInput -> Option<string>, d: DateInput): Option<string>
  {
    match iso(d)
    case None => None
    case Some(s) => Some(Split(s, 'T')[0])
  }

  predicate AllValid(iso: DateInput -> Option<string>, ds: seq<DateInput>)
  {
    forall i :: 0 <= i < |ds| ==> IsoKey(iso, ds[i]).Some?
  }

  function VisitDates(visits: seq<Visit>): (r: seq<DateInput>)
    ensures |r| == |visits| && forall i :: 0 <= i < |visits| ==> r[i] == visits[i].recordedDate
  {
    seq(|visits|, i requires 0 <= i < |visits| => visits[i].recordedDate)
  }

  function UpdateDates(updates: seq<CoverUpdate>): (r: seq<DateInput>)
    ensures |r| == |updates| && forall i :: 0 <= i < |updates| ==> r[i] == DateText(updates[i].date)
  {
    seq(|updates|, i requires 0 <= i < |updates| => DateText(updates[i].date))
  }

  function LegacyPairs(visits: seq<Visit>, iso: DateInput -> Option<string>): (r: seq<(string, SeenStatus)>)
    requires AllValid(iso, VisitDates(visits))
    ensures |r| == |visits|
    ensures forall i :: 0 <= i < |visits| ==>
      IsoKey(iso, visits[i].recordedDate).Some? && r[i] == (IsoKey(iso, visits[i].recordedDate).value, visits[i].status)
  {
    seq(|visits|, i requires 0 <= i < |visits| =>
      assert VisitDates(visits)[i] == visits[i].recordedDate;
      (IsoKey(iso, visits[i].recordedDate).value, visits[i].status))
  }

  function LegacyEntry(visitMap: map<string, SeenStatus>, u: CoverUpdate, key: string): (e: MergedEntry)
    ensures e.date == u.date && e.coverStatus == u.status && e.visitStatus == StatusFor(visitMap, key)
    ensures e.mergedStatus == MergedStatusCalculator.GetMergedStatus(e.coverStatus, e.visitStatus)
  {
    var vs := StatusFor(visitMap, key);
    SameTable(u.status, vs);
    MergedEntry(u.date, u.status, vs, LegacyMergedStatus(u.status, vs))
  }

  function LegacyEntries(visitMap: map<string, SeenStatus>, updates: seq<CoverUpdate>, iso: DateInput -> Option<string>): (r: seq<MergedEntry>)
    requires AllValid(iso, UpdateDates(updates))
    ensures |r| == |updates|
  {
    seq(|updates|, i requires 0 <= i < |updates| =>
      assert UpdateDates(updates)[i] == DateText(updates[i].date);
      LegacyEntry(visitMap, updates[i], IsoKey(iso, DateText(updates[i].date)).value))
  }

  /** What the older `mergeHistory` returns; an invalid date anywhere
      makes `toISOString` throw. */
  function LegacyMergeSpec(updates: seq<CoverUpdate>, visits: seq<Visit>,
                           iso: DateInput -> Option<string>, timeOf: DateInput -> int): (r: Outcome<seq<MergedEntry>>)
    ensures r.Throws? <==> !AllValid(iso, VisitDates(visits)) || !AllValid(iso, UpdateDates(updates))
    ensures r.Ok? ==> |r.value| == |updates| && Sorting.Sorted(r.value, OldestFirst(timeOf))
  {
    if !AllValid(iso, VisitDates(visits)) || !AllValid(iso, UpdateDates(updates)) then Throws
    else
      OldestFirstTotal(timeOf);
      var visitMap := Seqs.LastWins(LegacyPairs(visits, iso));
      Ok(Sorting.Sort(LegacyEntries(visitMap, updates, iso), OldestFirst(timeOf)))
  }

  /** The older `mergeHistory`: fill the map (later visits overwrite),
      push one entry per update, sort by date. */
  method LegacyMergeHistory(updates: seq<CoverUpdate>, visits: seq<Visit>,
                            iso: DateInput -> Option<string>, timeOf: DateInput -> int)
    returns (r: Outcome<seq<MergedEntry>>)
    ensures r == LegacyMergeSpec(updates, visits, iso, timeOf)
  {
    var filled := LegacyVisitMap(visits, iso);
    if filled.Throws? {
      return Throws;
    }
    var entries := LegacyUpdateEntries(filled.value, updates, iso);
    if entries.Throws? {
      return Throws;
    }
    OldestFirstTotal(timeOf);
    r := Ok(Sorting.Sort(entries.value, OldestFirst(timeOf)));
  }

  /** The first loop: a later visit on a day overwrites an earlier one;
      an invalid date throws. */
  method LegacyVisitMap(visits: seq<Visit>, iso: DateInput -> Option<string>)
    returns (r: Outcome<map<string, SeenStatus>>)
    ensures r.Throws? <==> !AllValid(iso, VisitDates(visits))
    ensures r.Ok? ==> r.value == Seqs.LastWins(LegacyPairs(visits, iso))
  {
    var visitMap: map<string, SeenStatus> := map[];
    var i := 0;
    while i < |visits|
      invariant 0 <= i <= |visits|
      invariant AllValid(iso, VisitDates(visits[..i]))
      invariant visitMap == Seqs.LastWins(LegacyPairs(visits[..i], iso))
    {
      var key := IsoKey(iso, visits[i].recordedDate);
      if key.None? {
        assert VisitDates(visits)[i] == visits[i].recordedDate;
        return Throws;
      }
      LegacyPairsStep(visits, iso, i);
      visitMap := visitMap[key.value := visits[i].status];
      i := i + 1;
    }
    assert visits[..i] == visits;
    r := Ok(visitMap);
  }

  lemma LegacyPairsStep(visits: seq<Visit>, iso: DateInput -> Option<string>, i: nat)
    requires i < |visits| && AllValid(iso, VisitDates(visits[..i])) && IsoKey(iso, visits[i].recordedDate).Some?
    ensures AllValid(iso, VisitDates(visits[..i + 1]))
    ensures Seqs.LastWins(LegacyPairs(visits[..i + 1], iso))
         == Seqs.LastWins(LegacyPairs(visits[..i], iso))[IsoKey(iso, visits[i].recordedDate).value := visits[i].status]
  {
    assert VisitDates(visits[..i + 1]) == VisitDates(visits[..i]) + [visits[i].recordedDate];
    assert LegacyPairs(visits[..i + 1], iso)[..i] == LegacyPairs(visits[..i], iso);
  }

  /** The second loop: one entry per update, in order; an invalid date
      throws. */
  method LegacyUpdateEntries(visitMap: map<string, SeenStatus>, updates: seq<CoverUpdate>, iso: DateInput -> Option<string>)
    returns (r: Outcome<seq<MergedEntry>>)
    ensures r.Throws? <==> !AllValid(iso, UpdateDates(updates))
    ensures r.Ok? ==> AllValid(iso, UpdateDates(updates)) && r.value == LegacyEntries(visitMap, updates, iso)
  {
    var merged: seq<MergedEntry> := [];
    var j := 0;
    while j < |updates|
      invariant 0 <= j <= |updates|
      invariant AllValid(iso, UpdateDates(updates[..j]))
      invariant merged == LegacyEntries(visitMap, updates[..j], iso)
    {
      var key := IsoKey(iso, DateText(updates[j].date));
      if key.None? {
        assert UpdateDates(updates)[j] == DateText(updates[j].date);
        return Throws;
      }
      LegacyEntriesStep(visitMap, updates, iso, j);
      merged := merged + [LegacyEntry(visitMap, updates[j], key.value)];
      j := j + 1;
    }
    assert updates[..j] == updates;
    r := Ok(merged);
  }

  lemma LegacyEntriesStep(visitMap: map<string, SeenStatus>, updates: seq<CoverUpdate>, iso: DateInput -> Option<string>, j: nat)
    requires j < |updates| && AllValid(iso, UpdateDates(updates[..j])) && IsoKey(iso, DateText(updates[j].date)).Some?
    ensures AllValid(iso, UpdateDates(updates[..j + 1]))
    ensures LegacyEntries(visitMap, updates[..j + 1], iso)
         == LegacyEntries(visitMap, updates[..j], iso) + [LegacyEntry(visitMap, updates[j], IsoKey(iso, DateText(updates[j].date)).value)]
  {
    assert UpdateDates(updates[..j + 1]) == UpdateDates(updates[..j]) + [DateText(updates[j].date)];
  }

  /** With valid dates: one entry per update, sorted by date, statuses
      consistent with the shared table. */
  lemma LegacyMergeShape(updates: seq<CoverUpdate>, visits: seq<Visit>,
                         iso: DateInput -> Option<string>, timeOf: DateInput -> int)
    requires AllValid(iso, VisitDates(visits)) && AllValid(iso, UpdateDates(updates))
    ensures var r := LegacyMergeSpec(updates, visits, iso, timeOf);
      && r.Ok? && |r.value| == |updates|
      && Sorting.Sorted(r.value, OldestFirst(timeOf))
      && (forall e :: e in r.value ==> e.mergedStatus == MergedStatusCalculator.GetMergedStatus(e.coverStatus, e.visitStatus))
  {
    OldestFirstTotal(timeOf);
    var visitMap := Seqs.LastWins(LegacyPairs(visits, iso));
    var es := LegacyEntries(visitMap, updates, iso);
    var r := LegacyMergeSpec(updates, visits, iso, timeOf).value;
    forall e | e in r
      ensures e.mergedStatus == MergedStatusCalculator.GetMergedStatus(e.coverStatus, e.visitStatus)
    {
      assert e in multiset(r);
      assert e in es;
    }
  }

  /** A day's status is that of the last visit on that day in input
      order. */
  lemma LastVisitWins(visits: seq<Visit>, iso: DateInput -> Option<string>, i: nat)
    requires AllValid(iso, VisitDates(visits))
    requires i < |visits|
    requires forall j :: i < j < |visits| ==> IsoKey(iso, visits[j].recordedDate) != IsoKey(iso, visits[i].recordedDate)
    ensures StatusFor(Seqs.LastWins(LegacyPairs(visits, iso)), IsoKey(iso, visits[i].recordedDate).value) == visits[i].status
  {
    Seqs.LastWinsValue(LegacyPairs(visits, iso), i);
  }

  /** A day without any visit reads as "Not Seen". */
  lemma LegacyNoVisitIsNotSeen(visits: seq<Visit>, iso: DateInput -> Option<string>, key: string)
    requires AllValid(iso, VisitDates(visits))
    requires forall j :: 0 <= j < |visits| ==> IsoKey(iso, visits[j].recordedDate) != Some(key)
    ensures StatusFor(Seqs.LastWins(LegacyPairs(visits, iso)), key) == NotSeen
  {
    var pairs := LegacyPairs(visits, iso);
    assert key !in Seqs.Keys(pairs);
  }

  /** The two dedup policies differ. Two visits on the same day, the newer
      one listed first: the older service keeps the one listed last ... */
  lemma LegacyKeepsLastListed(newer: Visit, older: Visit, update: CoverUpdate,
                              iso: DateInput -> Option<string>, timeOf: DateInput -> int)
    requires newer.status == Seen && older.status == NotSeen
    requires update.status == Full
    requires iso(newer.recordedDate) == iso(older.recordedDate) == iso(DateText(update.date)) && iso(newer.recordedDate).Some?
    ensures LegacyMergeSpec([update], [newer, older], iso, timeOf) == Ok([MergedEntry(update.date, Full, NotSeen, MNotSeen)])
  {
    var visits := [newer, older];
    assert VisitDates(visits) == [newer.recordedDate, older.recordedDate];
    assert UpdateDates([update]) == [DateText(update.date)];
    var pairs := LegacyPairs(visits, iso);
    Seqs.LastWinsValue(pairs, 1);
    var visitMap := Seqs.LastWins(pairs);
    var es := LegacyEntries(visitMap, [update], iso);
    assert es == [MergedEntry(update.date, Full, NotSeen, MNotSeen)];
    OldestFirstTotal(timeOf);
  }

  /** ... and the newer service the one recorded last. */
  lemma NewKeepsNewest(newer: Visit, older: Visit, update: CoverUpdate,
                       timeOf: DateInput -> int, parseDate: string -> Option<DateParts>)
    requires newer.status == Seen && older.status == NotSeen
    requires timeOf(newer.recordedDate) > timeOf(older.recordedDate)
    requires update.status == Full
    requires ToDateKey(newer.recordedDate, parseDate) == ToDateKey(older.recordedDate, parseDate) == ToDateKey(DateText(update.date), parseDate)
    ensures MergeHistorySpec([update], [newer, older], timeOf, parseDate) == [MergedEntry(update.date, Full, Seen, MSeen)]
  {
    SortTwoVisits(newer, older, timeOf);
    var vp := VisitPairs([newer, older], parseDate);
    Seqs.FirstWinsValue(vp, 0);
    var visitMap := Seqs.FirstWins(vp);
    assert Entries(visitMap, [update], parseDate) == [MergedEntry(update.date, Full, Seen, MSeen)];
    OldestFirstTotal(timeOf);
  }

  /** Sorting a newer and an older visit keeps them in that order. */
  lemma SortTwoVisits(newer: Visit, older: Visit, timeOf: DateInput -> int)
    requires timeOf(newer.recordedDate) > timeOf(older.recordedDate)
    ensures SortedVisits([newer, older], timeOf) == [newer, older]
  {
    var visits := [newer, older];
    var sorted := SortedVisits(visits, timeOf);
    assert sorted[0] in multiset(visits) && sorted[1] in multiset(visits);
    assert multiset(sorted) == multiset{newer, older};
    assert NewestFirst(timeOf)(sorted[0], sorted[1]);
    assert !NewestFirst(timeOf)(older, newer);
  }
}
