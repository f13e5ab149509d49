/** The frontend turns the state of its filter buttons into the filter
    request it sends to the backend. */
module FilterRequestBuilder {
  import opened Wrappers
  import opened Seqs

  /** The filter buttons: the chosen users and four status toggles. */
  datatype SiteFilters = SiteFilters(
    selectedUsers: seq<string>,
    awaiting: bool,
    collection: bool,
    completedFull: bool,
    completedPartial: bool)

  /** The request; a field that is not set is `None`. */
  datatype VisitFilterRequest = VisitFilterRequest(
    usernames: Option<seq<string>>,
    seenStatuses: Option<seq<string>>,
    updatedStatuses: Option<seq<string>>)

  /** A request field is set and lists `x`. */
  predicate Has(field: Option<seq<string>>, x: string) { field.Some? && x in field.value }

  /** The visit statuses the toggles add, in the order the code adds them. */
  function SeenAdded(f: SiteFilters): seq<string>
  {
    (if f.awaiting then ["Not Seen", "Partial"] else [])
    + (if f.completedFull then ["Seen"] else [])
    + (if f.completedPartial then ["Partial"] else [])
  }

  /** The coverage statuses the toggles add, in the order the code adds them. */
  function UpdatedAdded(f: SiteFilters): seq<string>
  {
    (if f.awaiting then ["Full", "Partial"] else []) + (if f.collection then ["No"] else [])
  }

  /** An array field is set only when something was added to it. */
  function Present(list: seq<string>): Option<seq<string>>
  {
    if |list| > 0 then Some(list) else None
  }

  /** The request as a value: each status field is the `Set` filled with
      everything the toggles add, in first-insertion order. */
  function FilterRequestOf(f: SiteFilters): (r: VisitFilterRequest)
    ensures r.usernames.Some? <==> |f.selectedUsers| > 0
    ensures r.usernames.Some? ==> r.usernames.value == f.selectedUsers
    ensures r.seenStatuses.Some? ==> |r.seenStatuses.value| > 0
    ensures r.updatedStatuses.Some? ==> |r.updatedStatuses.value| > 0
  {
    VisitFilterRequest(
      Present(f.selectedUsers),
      Present(SetAddAll([], SeenAdded(f))),
      Present(SetAddAll([], UpdatedAdded(f))))
  }

  /** `buildFilterRequest`: sets the users, then adds statuses to two
      `Set`s toggle by toggle, then copies each non-empty `Set` into the
      request. */
  method BuildFilterRequest(filters: SiteFilters) returns (request: VisitFilterRequest)
    ensures request == FilterRequestOf(filters)
  {
    request := VisitFilterRequest(None, None, None);
    if |filters.selectedUsers| > 0 {
      request := request.(usernames := Some(filters.selectedUsers));
    }

    var seen: seq<string> := [];
    var updated: seq<string> := [];
    ghost var seenAdded: seq<string> := [];
    ghost var updatedAdded: seq<string> := [];

    if filters.awaiting {
      SetAddAllSnoc([], updatedAdded, "Full");
      updated, updatedAdded := SetAdd(updated, "Full"), updatedAdded + ["Full"];
      SetAddAllSnoc([], updatedAdded, "Partial");
      updated, updatedAdded := SetAdd(updated, "Partial"), updatedAdded + ["Partial"];
      SetAddAllSnoc([], seenAdded, "Not Seen");
      seen, seenAdded := SetAdd(seen, "Not Seen"), seenAdded + ["Not Seen"];
      SetAddAllSnoc([], seenAdded, "Partial");
      seen, seenAdded := SetAdd(seen, "Partial"), seenAdded + ["Partial"];
    }
    assert seenAdded == (if filters.awaiting then ["Not Seen", "Partial"] else []);
    assert updatedAdded == (if filters.awaiting then ["Full", "Partial"] else []);
    if filters.collection {
      SetAddAllSnoc([], updatedAdded, "No");
      updated, updatedAdded := SetAdd(updated, "No"), updatedAdded + ["No"];
    }
    assert updatedAdded == UpdatedAdded(filters);
    if filters.completedFull {
      SetAddAllSnoc([], seenAdded, "Seen");
      seen, seenAdded := SetAdd(seen, "Seen"), seenAdded + ["Seen"];
    }
    assert seenAdded == (if filters.awaiting then ["Not Seen", "Partial"] else [])
                        + (if filters.completedFull then ["Seen"] else []);
    if filters.completedPartial {
      SetAddAllSnoc([], seenAdded, "Partial");
      seen, seenAdded := SetAdd(seen, "Partial"), seenAdded + ["Partial"];
    }
    assert seen == SetAddAll([], SeenAdded(filters)) by {
      assert seenAdded == SeenAdded(filters);
    }
    assert updated == SetAddAll([], UpdatedAdded(filters));

    if |seen| > 0 {
      request := request.(seenStatuses := Some(seen));
    }
    if |updated| > 0 {
      request := request.(updatedStatuses := Some(updated));
    }
  }

  /** The users are sent exactly when some are chosen, and as chosen. */
  lemma RequestUsers(f: SiteFilters)
    ensures FilterRequestOf(f).usernames.Some? <==> |f.selectedUsers| > 0
    ensures FilterRequestOf(f).usernames.Some? ==> FilterRequestOf(f).usernames.value == f.selectedUsers
  {
  }

  /** Which visit statuses are requested: "Seen" for completed-full,
      "Not Seen" for awaiting, "Partial" for awaiting or completed-partial,
      and nothing else. */
  lemma RequestSeen(f: SiteFilters)
    ensures Has(FilterRequestOf(f).seenStatuses, "Seen") <==> f.completedFull
    ensures Has(FilterRequestOf(f).seenStatuses, "Not Seen") <==> f.awaiting
    ensures Has(FilterRequestOf(f).seenStatuses, "Partial") <==> f.awaiting || f.completedPartial
    ensures forall x :: Has(FilterRequestOf(f).seenStatuses, x) ==> x == "Seen" || x == "Not Seen" || x == "Partial"
  {
    var added := SeenAdded(f);
    forall x ensures x in SetAddAll([], added) <==> x in added {
      SetAddAllHas([], added, x);
    }
  }

  /** Which coverage statuses are requested: "No" for collection, "Full"
      and "Partial" for awaiting, and nothing else. */
  lemma RequestUpdated(f: SiteFilters)
    ensures Has(FilterRequestOf(f).updatedStatuses, "No") <==> f.collection
    ensures Has(FilterRequestOf(f).updatedStatuses, "Full") <==> f.awaiting
    ensures Has(FilterRequestOf(f).updatedStatuses, "Partial") <==> f.awaiting
    ensures forall x :: Has(FilterRequestOf(f).updatedStatuses, x) ==> x == "No" || x == "Full" || x == "Partial"
  {
    var added := UpdatedAdded(f);
    forall x ensures x in SetAddAll([], added) <==> x in added {
      SetAddAllHas([], added, x);
    }
  }

  /** Neither status array repeats a value, and neither is sent empty. */
  lemma RequestArraysWellFormed(f: SiteFilters)
    ensures FilterRequestOf(f).seenStatuses.Some?
        ==> NoDup(FilterRequestOf(f).seenStatuses.value) && |FilterRequestOf(f).seenStatuses.value| > 0
    ensures FilterRequestOf(f).updatedStatuses.Some?
        ==> NoDup(FilterRequestOf(f).updatedStatuses.value) && |FilterRequestOf(f).updatedStatuses.value| > 0
  {
    SetAddAllNoDup([], SeenAdded(f));
    SetAddAllNoDup([], UpdatedAdded(f));
  }

  /** The request is empty exactly when no user is chosen and no toggle
      is on. */
  lemma EmptyRequest(f: SiteFilters)
    ensures FilterRequestOf(f) == VisitFilterRequest(None, None, None)
        <==> |f.selectedUsers| == 0 && !f.awaiting && !f.collection && !f.completedFull && !f.completedPartial
  {
    RequestSeen(f);
    RequestUpdated(f);
  }

  /** Values keep first-insertion order: with awaiting on, the visit
      statuses begin "Not Seen", "Partial" and the coverage statuses begin
      "Full", "Partial", whatever else is on. */
  lemma AwaitingComesFirst(f: SiteFilters)
    requires f.awaiting
    ensures FilterRequestOf(f).seenStatuses.Some? && |FilterRequestOf(f).seenStatuses.value| >= 2
    ensures FilterRequestOf(f).seenStatuses.value[..2] == ["Not Seen", "Partial"]
    ensures FilterRequestOf(f).updatedStatuses.Some? && |FilterRequestOf(f).updatedStatuses.value| >= 2
    ensures FilterRequestOf(f).updatedStatuses.value[..2] == ["Full", "Partial"]
  {
    var seenRest := SeenAdded(f)[2..];
    assert SeenAdded(f) == ["Not Seen", "Partial"] + seenRest;
    SetAddAllAppend([], ["Not Seen", "Partial"], seenRest);
    SetAddAllKeepsFront(SetAddAll([], ["Not Seen", "Partial"]), seenRest);
    var updatedRest := UpdatedAdded(f)[2..];
    assert UpdatedAdded(f) == ["Full", "Partial"] + updatedRest;
    SetAddAllAppend([], ["Full", "Partial"], updatedRest);
    SetAddAllKeepsFront(SetAddAll([], ["Full", "Partial"]), updatedRest);
  }

  /** Awaiting and completed-partial together ask for "Not Seen" then
      "Partial", once each. */
  lemma AwaitingWithPartial(f: SiteFilters)
    requires f.awaiting && f.completedPartial && !f.completedFull
    ensures FilterRequestOf(f).seenStatuses == Some(["Not Seen", "Partial"])
  {
    assert SeenAdded(f) == ["Not Seen", "Partial"] + ["Partial"];
    assert ["Not Seen", "Partial"][1..] == ["Partial"];
    assert SetAddAll(["Not Seen"], ["Partial"]) == ["Not Seen", "Partial"];
    assert SetAddAll([], ["Not Seen", "Partial"]) == ["Not Seen", "Partial"];
    SetAddAllSnoc([], ["Not Seen", "Partial"], "Partial");
  }
}
