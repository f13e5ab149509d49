/** Client-side filtering of the visit cards while a past day is viewed
    (components/historyFilter.ts): the toggles of the filter bar are
    matched against the statuses the site had on that day. */
module HistoryFilter {
  import opened Wrappers
  import opened Seqs
  import opened Statuses
  import opened HistoryMergeService
  import opened FilterRequestBuilder
  import opened HistoryStore

  /** The fields of a visit card that the filter reads; `username` may be
      missing on a card. */
  datatype VisitCard = VisitCard(siteId: int, username: Option<string>, updatedStatus: UpdatedStatus, seenStatus: SeenStatus)

  /** The coverage status to filter on: the day's entry's, else the card's. */
  function CoverOf(card: VisitCard, entry: Option<MergedEntry>): UpdatedStatus
  {
    if entry.Some? then entry.value.coverStatus else card.updatedStatus
  }

  /** The visit status to filter on: the day's entry's, else the card's. */
  function SeenOf(card: VisitCard, entry: Option<MergedEntry>): SeenStatus
  {
    if entry.Some? then entry.value.visitStatus else card.seenStatus
  }

  /** The user filter, which always applies. */
  predicate UserAllowed(card: VisitCard, filters: SiteFilters)
  {
    |filters.selectedUsers| == 0 || (card.username.Some? && card.username.value in filters.selectedUsers)
  }

  predicate AnyStatusFlag(filters: SiteFilters)
  {
    filters.awaiting || filters.collection || filters.completedFull || filters.completedPartial
  }

  /** Covered, fully or partly, and not fully seen. */
  predicate Awaiting(cover: UpdatedStatus, seen: SeenStatus)
  {
    (cover == Full || cover == Partial) && (seen == NotSeen || seen == PartlySeen)
  }

  /** Some enabled toggle matches the statuses. */
  predicate AnyFlagMatches(filters: SiteFilters, cover: UpdatedStatus, seen: SeenStatus)
  {
    (filters.awaiting && Awaiting(cover, seen))
    || (filters.collection && cover == No)
    || (filters.completedFull && seen == Seen)
    || (filters.completedPartial && seen == PartlySeen)
  }

  /** The card passes the user filter and, when any toggle is on, some
      toggle matches its statuses on the day. */
  predicate Matches(card: VisitCard, filters: SiteFilters, entry: Option<MergedEntry>)
    ensures Matches(card, filters, entry) ==> UserAllowed(card, filters)
    ensures !AnyStatusFlag(filters) ==> (Matches(card, filters, entry) <==> UserAllowed(card, filters))
  {
    UserAllowed(card, filters)
    && (!AnyStatusFlag(filters) || AnyFlagMatches(filters, CoverOf(card, entry), SeenOf(card, entry)))
  }

  /** `matchesHistoryFilter`: looks the day's entry up in the store's data,
      applies the user filter, then raises a flag for each matching toggle. */
  method MatchesHistoryFilter(card: VisitCard, filters: SiteFilters, day: int,
                              data: map<int, map<int, MergedEntry>>)
    returns (r: bool)
    ensures r == Matches(card, filters, EntryAt(data, card.siteId, day))
  {
    var entry := EntryAt(data, card.siteId, day);
    var coverStatus := if entry.Some? then entry.value.coverStatus else card.updatedStatus;
    var seenStatus := if entry.Some? then entry.value.visitStatus else card.seenStatus;

    if |filters.selectedUsers| > 0 {
      if !(card.username.Some? && card.username.value in filters.selectedUsers) {
        return false;
      }
    }

    var matchesAnyFilter := false;
    if filters.awaiting {
      var hasCoverage := coverStatus == Full || coverStatus == Partial;
      var notFullySeen := seenStatus == NotSeen || seenStatus == PartlySeen;
      if hasCoverage && notFullySeen {
        matchesAnyFilter := true;
      }
    }
    if filters.collection {
      if coverStatus == No {
        matchesAnyFilter := true;
      }
    }
    if filters.completedFull {
      if seenStatus == Seen {
        matchesAnyFilter := true;
      }
    }
    if filters.completedPartial {
      if seenStatus == PartlySeen {
        matchesAnyFilter := true;
      }
    }
    assert matchesAnyFilter == AnyFlagMatches(filters, coverStatus, seenStatus);

    var hasStatusFilters := filters.awaiting || filters.collection || filters.completedFull || filters.completedPartial;
    r := !hasStatusFilters || matchesAnyFilter;
  }

  /** A past day is in view: a day is selected and it is not today. */
  predicate ViewingHistory(selectedDate: Option<int>, today: int)
  {
    selectedDate.Some? && selectedDate.value != today
  }

  /** `filterCardsForHistory`, with the store's data passed in. */
  function FilterCardsForHistory(cards: seq<VisitCard>, filters: SiteFilters, selectedDate: Option<int>, today: int,
                                 data: map<int, map<int, MergedEntry>>): (r: seq<VisitCard>)
    ensures |r| <= |cards|
  {
    if !ViewingHistory(selectedDate, today) then cards
    else Filter(cards, (c: VisitCard) => Matches(c, filters, EntryAt(data, c.siteId, selectedDate.value)))
  }

  /** Today, or no day selected: the cards come back as they are. */
  lemma TodayKeepsCards(cards: seq<VisitCard>, filters: SiteFilters, selectedDate: Option<int>, today: int,
                        data: map<int, map<int, MergedEntry>>)
    requires selectedDate.None? || selectedDate.value == today
    ensures FilterCardsForHistory(cards, filters, selectedDate, today, data) == cards
  {
  }

  /** The result is the input with some cards removed, in input order. */
  lemma FilterCardsSubseq(cards: seq<VisitCard>, filters: SiteFilters, selectedDate: Option<int>, today: int,
                          data: map<int, map<int, MergedEntry>>)
    ensures IsSubseq(FilterCardsForHistory(cards, filters, selectedDate, today, data), cards)
  {
    if ViewingHistory(selectedDate, today) {
      FilterIsSubseq(cards, (c: VisitCard) => Matches(c, filters, EntryAt(data, c.siteId, selectedDate.value)));
    } else {
      FilterIsSubseq(cards, (c: VisitCard) => true);
      FilterKeepsAll(cards, (c: VisitCard) => true);
    }
  }

  /** While a past day is viewed, a card is kept exactly when it matches
      the filters on that day. */
  lemma FilterCardsKept(cards: seq<VisitCard>, filters: SiteFilters, selectedDate: Option<int>, today: int,
                        data: map<int, map<int, MergedEntry>>, card: VisitCard)
    requires ViewingHistory(selectedDate, today)
    ensures card in FilterCardsForHistory(cards, filters, selectedDate, today, data)
        <==> card in cards && Matches(card, filters, EntryAt(data, card.siteId, selectedDate.value))
  {
  }

  /** While a past day is viewed, a card of a user who is not selected is
      never shown. */
  lemma UnselectedUserExcluded(cards: seq<VisitCard>, filters: SiteFilters, selectedDate: Option<int>, today: int,
                               data: map<int, map<int, MergedEntry>>, card: VisitCard)
    requires ViewingHistory(selectedDate, today)
    requires |filters.selectedUsers| > 0
    requires card.username.None? || card.username.value !in filters.selectedUsers
    ensures card !in FilterCardsForHistory(cards, filters, selectedDate, today, data)
  {
  }

  /** With no toggle on and no user chosen, every card is shown. */
  lemma NoFiltersKeepsAll(cards: seq<VisitCard>, filters: SiteFilters, selectedDate: Option<int>, today: int,
                          data: map<int, map<int, MergedEntry>>)
    requires !AnyStatusFlag(filters) && |filters.selectedUsers| == 0
    ensures FilterCardsForHistory(cards, filters, selectedDate, today, data) == cards
  {
    if ViewingHistory(selectedDate, today) {
      FilterKeepsAll(cards, (c: VisitCard) => Matches(c, filters, EntryAt(data, c.siteId, selectedDate.value)));
    }
  }

  /** Only the awaiting toggle on. */
  function AwaitingOnly(filters: SiteFilters): SiteFilters
  {
    filters.(awaiting := true, collection := false, completedFull := false, completedPartial := false)
  }

  /** Only the collection toggle on. */
  function CollectionOnly(filters: SiteFilters): SiteFilters
  {
    filters.(awaiting := false, collection := true, completedFull := false, completedPartial := false)
  }

  /** Only the completed-full toggle on. */
  function CompletedFullOnly(filters: SiteFilters): SiteFilters
  {
    filters.(awaiting := false, collection := false, completedFull := true, completedPartial := false)
  }

  /** Only the completed-partial toggle on. */
  function CompletedPartialOnly(filters: SiteFilters): SiteFilters
  {
    filters.(awaiting := false, collection := false, completedFull := false, completedPartial := true)
  }

  /** The toggles combine with OR: with some toggle on, a card matches
      exactly when it matches one enabled toggle on its own. */
  lemma TogglesCombineWithOr(card: VisitCard, filters: SiteFilters, entry: Option<MergedEntry>)
    requires AnyStatusFlag(filters)
    ensures Matches(card, filters, entry)
        <==> ((filters.awaiting && Matches(card, AwaitingOnly(filters), entry))
              || (filters.collection && Matches(card, CollectionOnly(filters), entry))
              || (filters.completedFull && Matches(card, CompletedFullOnly(filters), entry))
              || (filters.completedPartial && Matches(card, CompletedPartialOnly(filters), entry)))
  {
  }

  /** Awaiting on its own matches a card of an allowed user exactly when it
      is covered, fully or partly, and seen not at all or partly. */
  lemma AwaitingMatches(card: VisitCard, filters: SiteFilters, entry: Option<MergedEntry>)
    ensures Matches(card, AwaitingOnly(filters), entry)
        <==> (UserAllowed(card, filters)
              && (CoverOf(card, entry) == Full || CoverOf(card, entry) == Partial)
              && (SeenOf(card, entry) == NotSeen || SeenOf(card, entry) == PartlySeen))
  {
  }

  /** The day's entry takes precedence: a card with an entry is judged as
      if its own statuses were the entry's. */
  lemma EntryTakesPrecedence(card: VisitCard, filters: SiteFilters, entry: MergedEntry)
    ensures Matches(card, filters, Some(entry))
        == Matches(card.(updatedStatus := entry.coverStatus, seenStatus := entry.visitStatus), filters, None)
  {
  }
}
