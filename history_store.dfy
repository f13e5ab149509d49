/** The frontend history store (stores/history/historyStore.ts): each
    site's day-to-entry map, plus the day being viewed, with previous, next
    and today navigation that never moves past today. Days are day numbers
    and "today" is a parameter. */
module HistoryStore {
  import opened Wrappers
  import opened HistoryMergeService
  import opened HistoryMapBuilder

  /** `getSiteHistoryEntry` over a snapshot of the store's data: the entry
      of that site on that day, if both are known. */
  function EntryAt(data: map<int, map<int, MergedEntry>>, siteId: int, day: int): (r: Option<MergedEntry>)
    ensures r.Some? <==> siteId in data && day in data[siteId]
    ensures r.Some? ==> r.value == data[siteId][day]
  {
    if siteId !in data then None
    else if day !in data[siteId] then None
    else Some(data[siteId][day])
  }

  /** The day in view: today when no day is selected. */
  function Effective(selected: Option<int>, today: int): int
  {
    match selected
    case None => today
    case Some(day) => day
  }

  /** The selection after `goToPreviousDay`. */
  function PreviousDay(selected: Option<int>, today: int): Option<int>
  {
    Some(Effective(selected, today) - 1)
  }

  /** The selection after `goToNextDay`: unchanged at or after today,
      otherwise the next day, or no selection should that pass today. */
  function NextDay(selected: Option<int>, today: int): Option<int>
  {
    var current := Effective(selected, today);
    if current >= today then selected
    else if current + 1 > today then None
    else Some(current + 1)
  }

  /** `canGoForward` for a selection. */
  predicate CanGoForwardFrom(selected: Option<int>, today: int)
  {
    Effective(selected, today) < today
  }

  class HistoryStore {
    var historyData: map<int, map<int, MergedEntry>>
    var selectedDate: Option<int>
    var loading: bool
    var error: Option<string>

    /** The initial state: no data, today in view, idle, no error. */
    predicate IsInitial()
      reads this
    {
      historyData == map[] && selectedDate == None && !loading && error == None
    }

    constructor()
      ensures IsInitial()
    {
      historyData := map[];
      selectedDate := None;
      loading := false;
      error := None;
    }

    /** `setSiteHistory`: replaces that site's map by the one built from
      `history`; every other site keeps its map. */
    method SetSiteHistory(siteId: int, history: seq<MergedEntry>, dayOf: string -> int)
      modifies this
      ensures historyData == old(historyData)[siteId := HistoryMap(history, dayOf)]
      ensures forall s :: s in old(historyData) && s != siteId ==> s in historyData && historyData[s] == old(historyData)[s]
      ensures selectedDate == old(selectedDate) && loading == old(loading) && error == old(error)
    {
      var siteMap := BuildHistoryMap(history, dayOf);
      historyData := historyData[siteId := siteMap];
    }

    /** `getSiteHistoryEntry`: `None` for an unknown site or day. */
    function GetSiteHistoryEntry(siteId: int, day: int): (r: Option<MergedEntry>)
      reads this
      ensures r.Some? <==> siteId in historyData && day in historyData[siteId]
      ensures r.Some? ==> r.value == historyData[siteId][day]
    {
      EntryAt(historyData, siteId, day)
    }

    /** `setSelectedDate`: changes the selection and nothing else. */
    method SetSelectedDate(day: Option<int>)
      modifies this
      ensures selectedDate == day
      ensures historyData == old(historyData) && loading == old(loading) && error == old(error)
    {
      selectedDate := day;
    }

    /** `getSelectedDate`: today when nothing is selected. */
    function GetSelectedDate(today: int): (day: int)
      reads this
      ensures selectedDate.None? ==> day == today
      ensures selectedDate.Some? ==> day == selectedDate.value
    {
      Effective(selectedDate, today)
    }

    /** `goToPreviousDay`: selects the day before the one in view. */
    method GoToPreviousDay(today: int)
      modifies this
      ensures selectedDate == PreviousDay(old(selectedDate), today)
      ensures selectedDate == Some(old(GetSelectedDate(today)) - 1)
      ensures historyData == old(historyData) && loading == old(loading) && error == old(error)
    {
      var current := GetSelectedDate(today);
      SetSelectedDate(Some(current - 1));
    }

    /** `goToNextDay`: does nothing from today or later; otherwise moves one
      day on, dropping the selection if that passed today. */
    method GoToNextDay(today: int)
      modifies this
      ensures selectedDate == NextDay(old(selectedDate), today)
      ensures old(GetSelectedDate(today)) >= today ==> selectedDate == old(selectedDate)
      ensures old(GetSelectedDate(today)) < today ==> GetSelectedDate(today) == old(GetSelectedDate(today)) + 1 <= today
      ensures historyData == old(historyData) && loading == old(loading) && error == old(error)
    {
      var current := GetSelectedDate(today);
      if current >= today {
        return;
      }
      var next := current + 1;
      SetSelectedDate(if next > today then None else Some(next));
    }

    /** `goToYesterday`. */
    method GoToYesterday(today: int)
      modifies this
      ensures selectedDate == Some(today - 1)
      ensures CanGoForward(today)
      ensures historyData == old(historyData) && loading == old(loading) && error == old(error)
    {
      SetSelectedDate(Some(today - 1));
    }

    /** `goToToday`: drops the selection, after which there is no going
      forward. */
    method GoToToday(today: int)
      modifies this
      ensures selectedDate == None
      ensures GetSelectedDate(today) == today && !CanGoForward(today)
      ensures historyData == old(historyData) && loading == old(loading) && error == old(error)
    {
      SetSelectedDate(None);
    }

    /** `canGoForward`: the day in view is before today. */
    function CanGoForward(today: int): (b: bool)
      reads this
      ensures b <==> GetSelectedDate(today) < today
    {
      CanGoForwardFrom(selectedDate, today)
    }

    /** `setLoading`: changes the flag and nothing else. */
    method SetLoading(value: bool)
      modifies this
      ensures loading == value
      ensures historyData == old(historyData) && selectedDate == old(selectedDate) && error == old(error)
    {
      loading := value;
    }

    /** `setError`: changes the error and nothing else. */
    method SetError(message: Option<string>)
      modifies this
      ensures error == message
      ensures historyData == old(historyData) && selectedDate == old(selectedDate) && loading == old(loading)
    {
      error := message;
    }

    /** `clear`: back to the initial state. */
    method Clear()
      modifies this
      ensures IsInitial()
    {
      historyData := map[];
      selectedDate := None;
      loading := false;
      error := None;
    }
  }

  /** Going forward is possible exactly when `goToNextDay` would change the
      selection, and then it moves the day in view by one, to at most
      today. */
  lemma NextDayMoves(selected: Option<int>, today: int)
    ensures CanGoForwardFrom(selected, today) <==> NextDay(selected, today) != selected
    ensures CanGoForwardFrom(selected, today)
        ==> Effective(NextDay(selected, today), today) == Effective(selected, today) + 1 <= today
  {
  }

  /** `goToNextDay` never selects a day after today. */
  lemma NextDayNeverPastToday(selected: Option<int>, today: int)
    ensures NextDay(selected, today) == selected || Effective(NextDay(selected, today), today) <= today
    ensures NextDay(selected, today).Some? && NextDay(selected, today) != selected ==> NextDay(selected, today).value <= today
  {
  }

  /** From any day up to today, a step back and a step forward return to
      the same day in view. */
  lemma PreviousThenNext(selected: Option<int>, today: int)
    requires Effective(selected, today) <= today
    ensures Effective(NextDay(PreviousDay(selected, today), today), today) == Effective(selected, today)
  {
  }

  /** The selection after `n` calls of `goToNextDay`. */
  function NextDays(selected: Option<int>, today: int, n: nat): Option<int>
  {
    if n == 0 then selected else NextDay(NextDays(selected, today, n - 1), today)
  }

  /** Stepping forward `n` times from a day up to today advances the day in
      view by `n`, but stops at today. */
  lemma {:induction false} NextDaysStopAtToday(selected: Option<int>, today: int, n: nat)
    requires Effective(selected, today) <= today
    ensures Effective(NextDays(selected, today, n), today)
         == if Effective(selected, today) + n <= today then Effective(selected, today) + n else today
  {
    if n > 0 {
      NextDaysStopAtToday(selected, today, n - 1);
    }
  }
}
