/** Merging a site's cover updates with its visit history
    (services/historyMerge/historyMergeService.ts). */
module HistoryMergeService {
  import opened Wrappers
  import opened Statuses
  import opened MergedStatusCalculator
  import opened DateKeyHelper
  import Seqs
  import Sorting

  /** A `CoverUpdateEntry`. */
  datatype CoverUpdate = CoverUpdate(date: string, status: UpdatedStatus)

  /** A `SiteHistory` record: `history_id` may be absent in the data. */
  datatype Visit = Visit(recordedDate: DateInput, status: SeenStatus, historyId: Option<int>)

  /** A `MergedHistoryEntry`. */
  datatype MergedEntry = MergedEntry(date: string, coverStatus: UpdatedStatus, visitStatus: SeenStatus, mergedStatus: MergedStatus)

  /** `history_id || 0`. */
  function IdOf(v: Visit): int
  {
    match v.historyId
    case None => 0
    case Some(id) => id
  }

  /** The visit comparator: newest `recorded_date` first, then highest id.
      `timeOf` is `new Date(d).getTime()`. */
  function NewestFirst(timeOf: DateInput -> int): (Visit, Visit) -> bool
  {
    (a: Visit, b: Visit) =>
      timeOf(a.recordedDate) > timeOf(b.recordedDate)
      || (timeOf(a.recordedDate) == timeOf(b.recordedDate) && IdOf(a) >= IdOf(b))
  }

  lemma NewestFirstTotal(timeOf: DateInput -> int)
    ensures Sorting.TotalPreorder(NewestFirst(timeOf))
  {
  }

  /** The cover-update comparator: oldest date first. */
  function OldestFirst(timeOf: DateInput -> int): (MergedEntry, MergedEntry) -> bool
  {
    (a: MergedEntry, b: MergedEntry) => timeOf(DateText(a.date)) <= timeOf(DateText(b.date))
  }

  lemma OldestFirstTotal(timeOf: DateInput -> int)
    ensures Sorting.TotalPreorder(OldestFirst(timeOf))
  {
  }

  /** `[...visitHistory].sort(...)`: a sorted copy. */
  function SortedVisits(visits: seq<Visit>, timeOf: DateInput -> int): (r: seq<Visit>)
    ensures Sorting.Sorted(r, NewestFirst(timeOf)) && multiset(r) == multiset(visits)
  {
    NewestFirstTotal(timeOf);
    Sorting.Sort(visits, NewestFirst(timeOf))
  }

  /** (date key, status) for every visit, in the given order. */
  function VisitPairs(visits: seq<Visit>, parseDate: string -> Option<DateParts>): (r: seq<(string, SeenStatus)>)
    ensures |r| == |visits|
    ensures forall i :: 0 <= i < |visits| ==> r[i] == (ToDateKey(visits[i].recordedDate, parseDate), visits[i].status)
  {
    seq(|visits|, i requires 0 <= i < |visits| => (ToDateKey(visits[i].recordedDate, parseDate), visits[i].status))
  }

  /** The status the merge reads for a date key: `visitMap.get(key) || "Not Seen"`. */
  function StatusFor(visitMap: map<string, SeenStatus>, key: string): SeenStatus
  {
    if key in visitMap then visitMap[key] else NotSeen
  }

  /** The merged entry for one cover update. */
  function EntryFor(visitMap: map<string, SeenStatus>, u: CoverUpdate, parseDate: string -> Option<DateParts>): (e: MergedEntry)
    ensures e.date == u.date && e.coverStatus == u.status
    ensures e.visitStatus == StatusFor(visitMap, ToDateKey(DateText(u.date), parseDate))
    ensures e.mergedStatus == GetMergedStatus(e.coverStatus, e.visitStatus)
  {
    var vs := StatusFor(visitMap, ToDateKey(DateText(u.date), parseDate));
    MergedEntry(u.date, u.status, vs, GetMergedStatus(u.status, vs))
  }

  function Entries(visitMap: map<string, SeenStatus>, updates: seq<CoverUpdate>, parseDate: string -> Option<DateParts>): (r: seq<MergedEntry>)
    ensures |r| == |updates|
    ensures forall i :: 0 <= i < |updates| ==> r[i] == EntryFor(visitMap, updates[i], parseDate)
  {
    seq(|updates|, i requires 0 <= i < |updates| => EntryFor(visitMap, updates[i], parseDate))
  }

  /** What `mergeHistory` returns. */
  function MergeHistorySpec(updates: seq<CoverUpdate>, visits: seq<Visit>,
                            timeOf: DateInput -> int, parseDate: string -> Option<DateParts>): (r: seq<MergedEntry>)
    ensures |r| == |updates|
    ensures Sorting.Sorted(r, OldestFirst(timeOf))
  {
    OldestFirstTotal(timeOf);
    var visitMap := Seqs.FirstWins(VisitPairs(SortedVisits(visits, timeOf), parseDate));
    Sorting.Sort(Entries(visitMap, updates, parseDate), OldestFirst(timeOf))
  }

  /** `HistoryMergeService.mergeHistory`: sort a copy of the visits, fill
      the map keeping the first status per day, then map and sort the
      cover updates. */
  method MergeHistory(updates: seq<CoverUpdate>, visits: seq<Visit>,
                      timeOf: DateInput -> int, parseDate: string -> Option<DateParts>)
    returns (r: seq<MergedEntry>)
    ensures r == MergeHistorySpec(updates, visits, timeOf, parseDate)
  {
    var sorted := SortedVisits(visits, timeOf);
    var visitMap := BuildVisitMap(sorted, parseDate);
    OldestFirstTotal(timeOf);
    r := Sorting.Sort(Entries(visitMap, updates, parseDate), OldestFirst(timeOf));
  }

  /** The map-filling loop of `mergeHistory`: a key already present keeps
      its status. */
  method BuildVisitMap(sorted: seq<Visit>, parseDate: string -> Option<DateParts>)
    returns (visitMap: map<string, SeenStatus>)
    ensures visitMap == Seqs.FirstWins(VisitPairs(sorted, parseDate))
  {
    ghost var pairs := VisitPairs(sorted, parseDate);
    visitMap := map[];
    var i := 0;
    while i < |sorted|
      invariant 0 <= i <= |sorted|
      invariant visitMap == Seqs.FirstWins(pairs[..i])
    {
      var key := ToDateKey(sorted[i].recordedDate, parseDate);
      FirstWinsStep(pairs, i);
      if key !in visitMap {
        visitMap := visitMap[key := sorted[i].status];
      }
      i := i + 1;
    }
    assert pairs[..i] == pairs;
  }

  lemma FirstWinsStep<V>(pairs: seq<(string, V)>, i: nat)
    requires i < |pairs|
    ensures Seqs.FirstWins(pairs[..i + 1])
         == if pairs[i].0 in Seqs.FirstWins(pairs[..i]) then Seqs.FirstWins(pairs[..i])
            else Seqs.FirstWins(pairs[..i])[pairs[i].0 := pairs[i].1]
  {
    assert pairs[..i + 1][..i] == pairs[..i];
  }

  /** One entry per cover update, sorted by ascending date, each carrying
      an update's date and cover status and the merged status of its
      cover and visit statuses. */
  lemma MergeHistoryShape(updates: seq<CoverUpdate>, visits: seq<Visit>,
                          timeOf: DateInput -> int, parseDate: string -> Option<DateParts>)
    ensures var r := MergeHistorySpec(updates, visits, timeOf, parseDate);
      && |r| == |updates|
      && Sorting.Sorted(r, OldestFirst(timeOf))
      && (forall e :: e in r ==> e.mergedStatus == GetMergedStatus(e.coverStatus, e.visitStatus))
      && (forall e :: e in r ==> exists i :: 0 <= i < |updates| && e.date == updates[i].date && e.coverStatus == updates[i].status)
      && multiset(r) == multiset(Entries(Seqs.FirstWins(VisitPairs(SortedVisits(visits, timeOf), parseDate)), updates, parseDate))
  {
    OldestFirstTotal(timeOf);
    var visitMap := Seqs.FirstWins(VisitPairs(SortedVisits(visits, timeOf), parseDate));
    var es := Entries(visitMap, updates, parseDate);
    var r := MergeHistorySpec(updates, visits, timeOf, parseDate);
    forall e | e in r
      ensures e.mergedStatus == GetMergedStatus(e.coverStatus, e.visitStatus)
      ensures exists i :: 0 <= i < |updates| && e.date == updates[i].date && e.coverStatus == updates[i].status
    {
      assert e in multiset(r);
      assert e in es;
    }
  }

  /** The winner for a day: the status a date key gets comes from a visit on
      that day that is at least as new, by (`recorded_date`, `history_id`),
      as every other visit on that day. */
  lemma NewestVisitWins(visits: seq<Visit>, timeOf: DateInput -> int, parseDate: string -> Option<DateParts>, key: string)
    requires exists v :: v in visits && ToDateKey(v.recordedDate, parseDate) == key
    ensures var visitMap := Seqs.FirstWins(VisitPairs(SortedVisits(visits, timeOf), parseDate));
      key in visitMap &&
      exists v :: v in visits && ToDateKey(v.recordedDate, parseDate) == key && visitMap[key] == v.status
        && forall w :: w in visits && ToDateKey(w.recordedDate, parseDate) == key ==> NewestFirst(timeOf)(v, w)
  {
    var sorted := SortedVisits(visits, timeOf);
    var pairs := VisitPairs(sorted, parseDate);
    var v0 :| v0 in visits && ToDateKey(v0.recordedDate, parseDate) == key;
    var j0 := IndexInSorted(visits, sorted, v0);
    var i := FirstKeyIndex(pairs, key, j0);
    Seqs.FirstWinsValue(pairs, i);
    var v := sorted[i];
    assert v in visits by { assert v in multiset(visits); }
    forall w | w in visits && ToDateKey(w.recordedDate, parseDate) == key
      ensures NewestFirst(timeOf)(v, w)
    {
      var j := IndexInSorted(visits, sorted, w);
      assert pairs[j].0 == key;
      NewestAtOrBefore(sorted, timeOf, i, j);
    }
  }

  /** A visit's position in the sorted copy. */
  lemma IndexInSorted(visits: seq<Visit>, sorted: seq<Visit>, w: Visit) returns (j: nat)
    requires multiset(sorted) == multiset(visits) && w in visits
    ensures j < |sorted| && sorted[j] == w
  {
    assert w in multiset(sorted);
    j :| 0 <= j < |sorted| && sorted[j] == w;
  }

  /** In the sorted copy a visit is at least as new as every later one. */
  lemma NewestAtOrBefore(sorted: seq<Visit>, timeOf: DateInput -> int, i: nat, j: nat)
    requires Sorting.Sorted(sorted, NewestFirst(timeOf)) && i <= j < |sorted|
    ensures NewestFirst(timeOf)(sorted[i], sorted[j])
  {
    if i < j {
      assert NewestFirst(timeOf)(sorted[i], sorted[j]);
    }
  }

  /** The first index holding `key`, given one that does. */
  lemma FirstKeyIndex<V>(pairs: seq<(string, V)>, key: string, j: nat) returns (i: nat)
    requires j < |pairs| && pairs[j].0 == key
    ensures i <= j && pairs[i].0 == key
    ensures forall l :: 0 <= l < i ==> pairs[l].0 != key
  {
    i := 0;
    while pairs[i].0 != key
      invariant i <= j
      invariant forall l :: 0 <= l < i ==> pairs[l].0 != key
      decreases j - i
    {
      i := i + 1;
    }
  }

  /** A day with no visit reads as "Not Seen". */
  lemma NoVisitIsNotSeen(visits: seq<Visit>, timeOf: DateInput -> int, parseDate: string -> Option<DateParts>, key: string)
    requires forall v :: v in visits ==> ToDateKey(v.recordedDate, parseDate) != key
    ensures StatusFor(Seqs.FirstWins(VisitPairs(SortedVisits(visits, timeOf), parseDate)), key) == NotSeen
  {
    var sorted := SortedVisits(visits, timeOf);
    var pairs := VisitPairs(sorted, parseDate);
    forall i | 0 <= i < |pairs| ensures pairs[i].0 != key {
      assert sorted[i] in multiset(visits);
    }
  }
}
