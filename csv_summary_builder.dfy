/** The monthly status grid exported as CSV (utils/csvSummaryBuilder.ts):
    one row per site, with the site's name and, for each of the last 31
    days, the Hebrew text of that day's merged status. Days are day
    numbers; `dayOf` stands for normalising an entry's date with dayjs and
    `localize` for formatting a day as `DD/MM/YYYY`. */
module CsvSummaryBuilder {
  import opened Wrappers
  import opened Seqs
  import opened Statuses
  import opened CsvExporter

  /** "No information". */
  const NoInfo := "אין מידע"
  /** "Awaiting a visit". */
  const AwaitingVisit := "מחכה לביקור"

  /** A merged-history entry as it arrives: a missing merged status reads
      as the empty string. */
  datatype HistoryRow = HistoryRow(date: string, mergedStatus: string)

  /** The fields of a card this builder reads. */
  datatype SummarySite = SummarySite(siteId: int, siteName: Option<string>)

  /** The days of the grid: thirty days ago up to today. */
  function DateRange(today: int): (r: seq<int>)
    ensures |r| == 31 && r[30] == today
    ensures forall j, k :: 0 <= j <= k < 31 ==> r[k] - r[j] == k - j
  {
    seq(31, k requires 0 <= k < 31 => today - 30 + k)
  }

  /** `generateDateRange`: pushes today minus 30, 29, ..., 0 days. */
  method GenerateDateRange(today: int) returns (dates: seq<int>)
    ensures dates == DateRange(today)
  {
    dates := [];
    var i := 30;
    while i >= 0
      invariant -1 <= i <= 30
      invariant dates == DateRange(today)[..30 - i]
    {
      dates := dates + [today - i];
      i := i - 1;
    }
  }

  /** `translateMergedStatus`: the Hebrew text of a known merged status,
      and the input itself otherwise. */
  function TranslateMergedStatus(status: string): (r: string)
    ensures r == status <==> forall m: MergedStatus :: status != MergedText(m)
  {
    if status == "Not Cover" then assert status == MergedText(MNotCover); "אין כיסוי"
    else if status == "Partial Seen" then assert status == MergedText(MPartialSeen); "בוקר חלקית"
    else if status == "Seen" then assert status == MergedText(MSeen); "בוקר"
    else if status == "Not Seen" then assert status == MergedText(MNotSeen); AwaitingVisit
    else if status == "Partial Cover" then assert status == MergedText(MPartialCover); AwaitingVisit
    else status
  }

  /** Two merged statuses read the same exactly when they are equal or
      are "Not Seen" and "Partial Cover". */
  lemma TranslateMerged(a: MergedStatus, b: MergedStatus)
    ensures TranslateMergedStatus(MergedText(a)) == TranslateMergedStatus(MergedText(b))
        <==> (a == b || ({a, b} == {MNotSeen, MPartialCover}))
  {
  }

  /** Any other text is kept as it is. */
  lemma TranslateUnknown(status: string)
    requires forall m: MergedStatus :: status != MergedText(m)
    ensures TranslateMergedStatus(status) == status
  {
    assert status != MergedText(MNotCover) && status != MergedText(MPartialSeen) && status != MergedText(MSeen);
    assert status != MergedText(MNotSeen) && status != MergedText(MPartialCover);
  }

  /** An entry's text: the translation of its merged status, or no
      information when that is empty. */
  function StatusText(entry: HistoryRow): (r: string)
    ensures |r| > 0
    ensures |entry.mergedStatus| == 0 ==> r == NoInfo
  {
    if |entry.mergedStatus| > 0 then TranslateMergedStatus(entry.mergedStatus) else NoInfo
  }

  /** Each entry's day with its text, in order. */
  function DatedTexts(history: seq<HistoryRow>, dayOf: string -> int): (pairs: seq<(int, string)>)
    ensures |pairs| == |history|
    ensures forall i :: 0 <= i < |history| ==> pairs[i] == (dayOf(history[i].date), StatusText(history[i]))
  {
    seq(|history|, i requires 0 <= i < |history| => (dayOf(history[i].date), StatusText(history[i])))
  }

  /** `historyByDate` once filled: a later entry of a day overwrites an
      earlier one. */
  function HistoryByDate(history: seq<HistoryRow>, dayOf: string -> int): map<int, string>
  {
    LastWins(DatedTexts(history, dayOf))
  }

  /** The loop filling `historyByDate`. */
  method BuildHistoryByDate(history: seq<HistoryRow>, dayOf: string -> int) returns (byDate: map<int, string>)
    ensures byDate == HistoryByDate(history, dayOf)
  {
    ghost var pairs := DatedTexts(history, dayOf);
    byDate := map[];
    var i := 0;
    while i < |history|
      invariant 0 <= i <= |history|
      invariant byDate == LastWins(pairs[..i])
    {
      assert pairs[..i + 1][..i] == pairs[..i];
      byDate := byDate[dayOf(history[i].date) := StatusText(history[i])];
      i := i + 1;
    }
    assert pairs[..|history|] == pairs;
  }

  /** `historyByDate.get(date) || NoInfo`. */
  function Cell(byDate: map<int, string>, day: int): string
  {
    if day in byDate && |byDate[day]| > 0 then byDate[day] else NoInfo
  }

  /** `row[key] = value` on an object: an existing key keeps its place and
      takes the new value, a new key goes last. */
  function ObjSet(row: Record<string>, key: string, value: string): Record<string>
  {
    if |row| == 0 then [(key, value)]
    else if row[0].0 == key then [(key, value)] + row[1..]
    else [row[0]] + ObjSet(row[1..], key, value)
  }

  /** Reading back after `row[key] = value`: the new value under `key`,
      the old value under every other key. */
  lemma {:induction false} ObjSetGet(row: Record<string>, key: string, value: string, k: string)
    ensures Get(ObjSet(row, key, value), k) == if k == key then Some(value) else Get(row, k)
  {
    if |row| > 0 && row[0].0 != key {
      ObjSetGet(row[1..], key, value, k);
      assert ObjSet(row, key, value)[1..] == ObjSet(row[1..], key, value);
    }
  }

  /** The keys after `row[key] = value`: unchanged when present, the new
      key appended otherwise. */
  lemma {:induction false} ObjSetKeys(row: Record<string>, key: string, value: string)
    ensures KeysOf(ObjSet(row, key, value)) == SetAdd(KeysOf(row), key)
  {
    if |row| > 0 {
      assert KeysOf(row) == [row[0].0] + KeysOf(row[1..]);
      if row[0].0 != key {
        ObjSetKeys(row[1..], key, value);
        assert KeysOf(ObjSet(row, key, value)) == [row[0].0] + KeysOf(ObjSet(row[1..], key, value));
      }
    }
  }

  /** The formatted days, in order. */
  function Localized(days: seq<int>, localize: int -> string): (r: seq<string>)
    ensures |r| == |days|
    ensures forall i :: 0 <= i < |days| ==> r[i] == localize(days[i])
  {
    seq(|days|, i requires 0 <= i < |days| => localize(days[i]))
  }

  /** The row after setting one column per day in order. */
  function RowFill(row: Record<string>, byDate: map<int, string>, days: seq<int>, localize: int -> string): Record<string>
  {
    if |days| == 0 then row
    else
      var n := |days| - 1;
      ObjSet(RowFill(row, byDate, days[..n], localize), localize(days[n]), Cell(byDate, days[n]))
  }

  /** `site_name || ""`. */
  function SiteCell(site: SummarySite): string
  {
    if site.siteName.Some? then site.siteName.value else ""
  }

  /** The site's history, empty when the map has none. */
  function HistoryOf(historyMap: map<int, seq<HistoryRow>>, siteId: int): seq<HistoryRow>
  {
    if siteId in historyMap then historyMap[siteId] else []
  }

  /** One site's row over the given days. */
  function RowOf(site: SummarySite, historyMap: map<int, seq<HistoryRow>>, days: seq<int>,
                 dayOf: string -> int, localize: int -> string): Record<string>
  {
    RowFill([("site", SiteCell(site))], HistoryByDate(HistoryOf(historyMap, site.siteId), dayOf), days, localize)
  }

  /** The callback of `sites.map`: the site column, the day texts, then
      one column per day. */
  method BuildRow(site: SummarySite, historyMap: map<int, seq<HistoryRow>>, dateRange: seq<int>,
                  dayOf: string -> int, localize: int -> string)
    returns (row: Record<string>)
    ensures row == RowOf(site, historyMap, dateRange, dayOf, localize)
  {
    row := [("site", SiteCell(site))];
    var byDate: map<int, string> := map[];
    if site.siteId in historyMap {
      byDate := BuildHistoryByDate(historyMap[site.siteId], dayOf);
    }
    assert byDate == HistoryByDate(HistoryOf(historyMap, site.siteId), dayOf);
    row := FillDays(row, byDate, dateRange, localize);
  }

  /** The `forEach` over the days: `row[formatted day] = cell`. */
  method FillDays(start: Record<string>, byDate: map<int, string>, dateRange: seq<int>, localize: int -> string)
    returns (row: Record<string>)
    ensures row == RowFill(start, byDate, dateRange, localize)
  {
    row := start;
    var i := 0;
    while i < |dateRange|
      invariant 0 <= i <= |dateRange|
      invariant row == RowFill(start, byDate, dateRange[..i], localize)
    {
      var day := dateRange[i];
      RowFillStep(start, byDate, dateRange, localize, i);
      row := ObjSet(row, localize(day), Cell(byDate, day));
      i := i + 1;
    }
    assert dateRange[..|dateRange|] == dateRange;
  }

  lemma RowFillStep(start: Record<string>, byDate: map<int, string>, days: seq<int>, localize: int -> string, i: nat)
    requires i < |days|
    ensures RowFill(start, byDate, days[..i + 1], localize)
         == ObjSet(RowFill(start, byDate, days[..i], localize), localize(days[i]), Cell(byDate, days[i]))
  {
    assert days[..i + 1][..i] == days[..i];
  }

  /** `buildCsvSummaryData`: one row per site, in site order, over the
      last 31 days. */
  method BuildCsvSummaryData(sites: seq<SummarySite>, historyMap: map<int, seq<HistoryRow>>, today: int,
                             dayOf: string -> int, localize: int -> string)
    returns (rows: seq<Record<string>>)
    ensures |rows| == |sites|
    ensures forall i :: 0 <= i < |sites| ==> rows[i] == RowOf(sites[i], historyMap, DateRange(today), dayOf, localize)
  {
    var dateRange := GenerateDateRange(today);
    rows := [];
    var i := 0;
    while i < |sites|
      invariant 0 <= i <= |sites|
      invariant |rows| == i
      invariant forall j :: 0 <= j < i ==> rows[j] == RowOf(sites[j], historyMap, dateRange, dayOf, localize)
    {
      var row := BuildRow(sites[i], historyMap, dateRange, dayOf, localize);
      rows := rows + [row];
      i := i + 1;
    }
  }

  /** The columns are the initial ones followed by the formatted days, each
      key once, in first-insertion order. */
  lemma {:induction false} RowFillKeys(row: Record<string>, byDate: map<int, string>, days: seq<int>, localize: int -> string)
    ensures KeysOf(RowFill(row, byDate, days, localize)) == SetAddAll(KeysOf(row), Localized(days, localize))
  {
    if |days| > 0 {
      var n := |days| - 1;
      var before := RowFill(row, byDate, days[..n], localize);
      RowFillKeys(row, byDate, days[..n], localize);
      ObjSetKeys(before, localize(days[n]), Cell(byDate, days[n]));
      LocalizedSnoc(days, localize);
      SetAddAllSnoc(KeysOf(row), Localized(days[..n], localize), localize(days[n]));
    }
  }

  lemma LocalizedSnoc(days: seq<int>, localize: int -> string)
    requires |days| > 0
    ensures Localized(days, localize) == Localized(days[..|days| - 1], localize) + [localize(days[|days| - 1])]
  {
  }

  /** With distinct formatted days, each day's column holds that day's
      cell, and every other column keeps its value. */
  lemma {:induction false} RowFillGet(row: Record<string>, byDate: map<int, string>, days: seq<int>, localize: int -> string, key: string)
    requires NoDup(Localized(days, localize))
    ensures forall j :: 0 <= j < |days| && key == localize(days[j])
              ==> Get(RowFill(row, byDate, days, localize), key) == Some(Cell(byDate, days[j]))
    ensures key !in Localized(days, localize) ==> Get(RowFill(row, byDate, days, localize), key) == Get(row, key)
  {
    if |days| > 0 {
      var n := |days| - 1;
      assert Localized(days[..n], localize) == Localized(days, localize)[..n];
      RowFillGet(row, byDate, days[..n], localize, key);
      ObjSetGet(RowFill(row, byDate, days[..n], localize), localize(days[n]), Cell(byDate, days[n]), key);
      forall j | 0 <= j < |days| && key == localize(days[j])
        ensures Get(RowFill(row, byDate, days, localize), key) == Some(Cell(byDate, days[j]))
      {
        if j < n {
          assert Localized(days, localize)[j] != Localized(days, localize)[n];
          assert days[..n][j] == days[j];
        }
      }
      if key !in Localized(days, localize) {
        assert Localized(days, localize)[n] == localize(days[n]);
        assert key !in Localized(days[..n], localize);
      }
    }
  }

  /** With distinct formatted days, none of them "site": a row has the site
      column and then one column per day, in day order; the site column
      holds the name, or "" when it is missing; and each day's column holds
      the day's text, or no information. */
  lemma SummaryRowShape(site: SummarySite, historyMap: map<int, seq<HistoryRow>>, today: int,
                        dayOf: string -> int, localize: int -> string)
    requires NoDup(Localized(DateRange(today), localize))
    requires forall k :: 0 <= k < 31 ==> localize(DateRange(today)[k]) != "site"
    ensures KeysOf(RowOf(site, historyMap, DateRange(today), dayOf, localize)) == ["site"] + Localized(DateRange(today), localize)
    ensures |RowOf(site, historyMap, DateRange(today), dayOf, localize)| == 32
    ensures Get(RowOf(site, historyMap, DateRange(today), dayOf, localize), "site") == Some(SiteCell(site))
    ensures forall k :: 0 <= k < 31
              ==> Get(RowOf(site, historyMap, DateRange(today), dayOf, localize), localize(DateRange(today)[k]))
                  == Some(Cell(HistoryByDate(HistoryOf(historyMap, site.siteId), dayOf), DateRange(today)[k]))
  {
    var days := DateRange(today);
    var byDate := HistoryByDate(HistoryOf(historyMap, site.siteId), dayOf);
    var start: Record<string> := [("site", SiteCell(site))];
    assert "site" !in Localized(days, localize) by {
      forall k | 0 <= k < |days| ensures Localized(days, localize)[k] != "site" { }
    }
    SiteRowKeys(start, byDate, days, localize);
    SiteRowCells(start, byDate, days, localize);
  }

  /** The keys of a row started from the site column, when the formatted
      days are distinct and none is "site". */
  lemma SiteRowKeys(start: Record<string>, byDate: map<int, string>, days: seq<int>, localize: int -> string)
    requires KeysOf(start) == ["site"]
    requires NoDup(Localized(days, localize)) && "site" !in Localized(days, localize)
    ensures KeysOf(RowFill(start, byDate, days, localize)) == ["site"] + Localized(days, localize)
    ensures |RowFill(start, byDate, days, localize)| == 1 + |days|
  {
    var loc := Localized(days, localize);
    RowFillKeys(start, byDate, days, localize);
    assert NoDup(["site"] + loc) by {
      forall i, j | 0 <= i < j < |["site"] + loc| ensures (["site"] + loc)[i] != (["site"] + loc)[j] {
        if i > 0 {
          assert (["site"] + loc)[i] == loc[i - 1];
        }
      }
    }
    SetAddAllFresh(["site"], loc);
  }

  /** The cells of such a row: the site column keeps its value and each
      day's column holds the day's cell. */
  lemma SiteRowCells(start: Record<string>, byDate: map<int, string>, days: seq<int>, localize: int -> string)
    requires NoDup(Localized(days, localize)) && "site" !in Localized(days, localize)
    ensures Get(RowFill(start, byDate, days, localize), "site") == Get(start, "site")
    ensures forall k :: 0 <= k < |days| ==> Get(RowFill(start, byDate, days, localize), localize(days[k])) == Some(Cell(byDate, days[k]))
  {
    RowFillGet(start, byDate, days, localize, "site");
    forall k | 0 <= k < |days|
      ensures Get(RowFill(start, byDate, days, localize), localize(days[k])) == Some(Cell(byDate, days[k]))
    {
      RowFillGet(start, byDate, days, localize, localize(days[k]));
    }
  }

  /** A site without history shows no information on every day. */
  lemma NoHistoryNoInfo(site: SummarySite, historyMap: map<int, seq<HistoryRow>>, dayOf: string -> int, day: int)
    requires site.siteId !in historyMap
    ensures Cell(HistoryByDate(HistoryOf(historyMap, site.siteId), dayOf), day) == NoInfo
  {
  }

  /** The last entry of a day gives that day's text. */
  lemma LastEntryOfDayWins(history: seq<HistoryRow>, dayOf: string -> int, i: nat)
    requires i < |history|
    requires forall j :: i < j < |history| ==> dayOf(history[j].date) != dayOf(history[i].date)
    ensures Cell(HistoryByDate(history, dayOf), dayOf(history[i].date)) == StatusText(history[i])
  {
    LastWinsValue(DatedTexts(history, dayOf), i);
  }

  /** Entries of days outside the grid make no difference: day texts that
      agree on the grid's days give the same row. */
  lemma {:induction false} OutsideDaysIgnored(row: Record<string>, m1: map<int, string>, m2: map<int, string>,
                                              days: seq<int>, localize: int -> string)
    requires forall k :: 0 <= k < |days| ==> Cell(m1, days[k]) == Cell(m2, days[k])
    ensures RowFill(row, m1, days, localize) == RowFill(row, m2, days, localize)
  {
    if |days| > 0 {
      var n := |days| - 1;
      OutsideDaysIgnored(row, m1, m2, days[..n], localize);
    }
  }
}
