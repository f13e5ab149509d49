/** The older backend filter service. It filters by reassigning a local
    list and builds the query in one method; both are proved to agree with
    the current service, so every property proved there holds here too. */
module FilterServiceLegacy {
  import opened Wrappers
  import opened Strings
  import opened Seqs
  import opened Statuses
  import opened Sites
  import opened QueryText
  import FilterService

  /** `applyRuntimeFilters`: starts from the input and narrows it only when
      coverage statuses are requested. */
  method ApplyRuntimeFilters(sites: seq<EnrichedSite>, filters: FilterRequest)
    returns (filtered: seq<EnrichedSite>)
    ensures filtered == FilterService.ApplyRuntimeFilters(sites, filters)
  {
    filtered := sites;
    if HasItems(filters.updatedStatuses) {
      var statuses := filters.updatedStatuses.value;
      filtered := Filter(filtered, (s: EnrichedSite) => UpdatedText(s.updatedStatus) in statuses);
      FilterSame(sites, (s: EnrichedSite) => UpdatedText(s.updatedStatus) in statuses, s => FilterService.Listed(s, statuses));
    }
  }

  /** `buildQuery`: pushes the group clause, then the username clause when
      a non-empty username is given, then the status clause when statuses
      are given, and appends its own copy of the select list. */
  method BuildQuery(groupId: int, username: Option<string>, seenStatuses: Option<seq<string>>,
                    encode: string -> string)
    returns (q: string)
    ensures q == FilterService.Query(groupId, username, seenStatuses, encode)
  {
    var params := ["group_id=eq." + IntToString(groupId)];
    if username.Some? && |username.value| > 0 {
      params := params + ["username=eq." + encode(username.value)];
    }
    if seenStatuses.Some? && |seenStatuses.value| > 0 {
      var list := Join(QuotedAll(seenStatuses.value), ",");
      params := params + ["seen_status=in.(" + list + ")"];
    }
    assert params == FilterService.QueryParams(groupId, username, seenStatuses, encode);
    q := "/sites?" + Join(params, "&") + "&select=" + "site_id,site_name,group_id,user_id,seen_status,seen_date,geometry";
  }
}
