/** The PostgREST queries that fetch sites: by group with optional user
    and visit-status filters, and single-site lookups by name or id. */
module SiteQueryBuilder {
  import opened Wrappers
  import opened Strings
  import opened Sites
  import opened QueryText

  /** The column list, with the user's name and display name embedded. */
  const SiteSelect := "site_id,site_name,group_id,user_id,seen_status,seen_date,geometry,users(username,display_name)"

  function IdTexts(ids: seq<int>): (r: seq<string>)
    ensures |r| == |ids|
    ensures forall i :: 0 <= i < |ids| ==> r[i] == IntToString(ids[i])
  {
    seq(|ids|, i requires 0 <= i < |ids| => IntToString(ids[i]))
  }

  /** `user_id=in.(<ids joined by ,>)`. */
  function UserClause(ids: seq<int>): string { "user_id=in.(" + Join(IdTexts(ids), ",") + ")" }

  lemma UserClauseFree(ids: seq<int>)
    ensures '&' !in UserClause(ids)
  {
    var ts := IdTexts(ids);
    forall k | 0 <= k < |ts| ensures '&' !in ts[k] {
      var t := ts[k];
      assert forall i :: 0 <= i < |t| ==> t[i] != '&';
    }
    JoinFree(ts, ",", '&');
  }

  /** The user clause is a `key=value` parameter. */
  lemma UserClauseParam(ids: seq<int>)
    ensures UserClause(ids) == "user_id" + "=" + ("in.(" + Join(IdTexts(ids), ",") + ")")
  {
  }

  /** The clauses `buildSiteQuery` collects, in the order it pushes them. */
  function SiteFilters(groupId: int, userIds: Option<seq<int>>, seenStatuses: Option<seq<string>>): seq<string>
  {
    [GroupClause(groupId)]
    + (if HasItems(userIds) then [UserClause(userIds.value)] else [])
    + (if HasItems(seenStatuses) then [SeenClause(seenStatuses.value)] else [])
  }

  function SiteQuery(groupId: int, userIds: Option<seq<int>>, seenStatuses: Option<seq<string>>): string
  {
    SitesQuery(SiteFilters(groupId, userIds, seenStatuses), SiteSelect)
  }

  /** `buildSiteQuery`: pushes the group clause, then the user clause when
      ids are given, then the status clause when statuses are given. */
  method BuildSiteQuery(groupId: int, userIds: Option<seq<int>>, seenStatuses: Option<seq<string>>)
    returns (q: string)
    ensures q == SiteQuery(groupId, userIds, seenStatuses)
  {
    var filters := [GroupClause(groupId)];
    if HasItems(userIds) {
      filters := filters + [UserClause(userIds.value)];
    }
    if HasItems(seenStatuses) {
      filters := filters + [SeenClause(seenStatuses.value)];
    }
    assert filters == SiteFilters(groupId, userIds, seenStatuses);
    q := SitesQuery(filters, SiteSelect);
  }

  /** The server always finds the group under `group_id`. */
  lemma SiteFiltersGroup(groupId: int, userIds: Option<seq<int>>, seenStatuses: Option<seq<string>>)
    ensures Lookup(SiteFilters(groupId, userIds, seenStatuses), "group_id") == Some("eq." + IntToString(groupId))
  {
    var g := [GroupClause(groupId)];
    var rest := SiteFilters(groupId, userIds, seenStatuses)[1..];
    assert SiteFilters(groupId, userIds, seenStatuses) == g + rest;
    LookupHit(g[0], "group_id", "eq." + IntToString(groupId));
    LookupConcat(g, rest, "group_id");
  }

  /** The server finds the ids, comma-joined in order, under `user_id`
      exactly when some are given. */
  lemma SiteFiltersUser(groupId: int, userIds: Option<seq<int>>, seenStatuses: Option<seq<string>>)
    ensures Lookup(SiteFilters(groupId, userIds, seenStatuses), "user_id")
         == if HasItems(userIds) then Some("in.(" + Join(IdTexts(userIds.value), ",") + ")") else None
  {
    var g := [GroupClause(groupId)];
    var u := if HasItems(userIds) then [UserClause(userIds.value)] else [];
    var s := if HasItems(seenStatuses) then [SeenClause(seenStatuses.value)] else [];
    assert SiteFilters(groupId, userIds, seenStatuses) == g + u + s;
    LookupMiss(g[0], "user_id");
    if HasItems(userIds) {
      UserClauseParam(userIds.value);
      LookupHit(u[0], "user_id", "in.(" + Join(IdTexts(userIds.value), ",") + ")");
    }
    if HasItems(seenStatuses) {
      LookupMiss(s[0], "user_id");
    }
    LookupMiddle(g, u, s, "user_id");
  }

  /** The server finds the quoted statuses, comma-joined in order, under
      `seen_status` exactly when some are given. */
  lemma SiteFiltersSeen(groupId: int, userIds: Option<seq<int>>, seenStatuses: Option<seq<string>>)
    ensures Lookup(SiteFilters(groupId, userIds, seenStatuses), "seen_status")
         == if HasItems(seenStatuses) then Some("in.(" + Join(QuotedAll(seenStatuses.value), ",") + ")") else None
  {
    var g := [GroupClause(groupId)];
    var u := if HasItems(userIds) then [UserClause(userIds.value)] else [];
    var s := if HasItems(seenStatuses) then [SeenClause(seenStatuses.value)] else [];
    assert SiteFilters(groupId, userIds, seenStatuses) == g + u + s + [];
    LookupMiss(g[0], "seen_status");
    if HasItems(userIds) {
      LookupMiss(u[0], "seen_status");
    }
    LookupMiddle([], g, u, "seen_status");
    if HasItems(seenStatuses) {
      LookupHit(s[0], "seen_status", "in.(" + Join(QuotedAll(seenStatuses.value), ",") + ")");
    }
    LookupMiddle(g + u, s, [], "seen_status");
  }

  /** The clauses come in the fixed order group, user, status, each one
      present only when it is asked for. */
  lemma SiteFiltersOrder(groupId: int, userIds: Option<seq<int>>, seenStatuses: Option<seq<string>>)
    ensures var f := SiteFilters(groupId, userIds, seenStatuses);
      && |f| == 1 + (if HasItems(userIds) then 1 else 0) + (if HasItems(seenStatuses) then 1 else 0)
      && StartsWith(f[0], "group_id=")
      && (HasItems(userIds) ==> StartsWith(f[1], "user_id="))
      && (HasItems(seenStatuses) ==> StartsWith(f[|f| - 1], "seen_status="))
  {
  }

  lemma SiteFiltersFree(groupId: int, userIds: Option<seq<int>>, seenStatuses: Option<seq<string>>)
    requires seenStatuses.Some? ==> forall k :: 0 <= k < |seenStatuses.value| ==> '&' !in seenStatuses.value[k]
    ensures forall k :: 0 <= k < |SiteFilters(groupId, userIds, seenStatuses)| ==> '&' !in SiteFilters(groupId, userIds, seenStatuses)[k]
  {
    GroupClauseFree(groupId);
    if HasItems(userIds) {
      UserClauseFree(userIds.value);
    }
    if HasItems(seenStatuses) {
      SeenClauseFree(seenStatuses.value);
    }
  }

  /** The query starts with the group clause and ends with the select
      list; splitting the stretch between them on `&` gives the clauses
      back, provided no status holds a `&`. */
  lemma SiteQueryReadsBack(groupId: int, userIds: Option<seq<int>>, seenStatuses: Option<seq<string>>)
    requires seenStatuses.Some? ==> forall k :: 0 <= k < |seenStatuses.value| ==> '&' !in seenStatuses.value[k]
    ensures var q := SiteQuery(groupId, userIds, seenStatuses);
      && StartsWith(q, SitesPath + GroupClause(groupId))
      && EndsWith(q, "&select=" + SiteSelect)
      && |SitesPath| + |"&select=" + SiteSelect| <= |q|
      && Split(q[|SitesPath|..|q| - |"&select=" + SiteSelect|], '&') == SiteFilters(groupId, userIds, seenStatuses)
  {
    var f := SiteFilters(groupId, userIds, seenStatuses);
    SiteFiltersFree(groupId, userIds, seenStatuses);
    SitesQueryReadsBack(f, SiteSelect);
    SitesQueryStarts(f, SiteSelect);
    SitesQueryEnds(f, SiteSelect);
  }

  /** `buildSiteByGroupQuery`. */
  function SiteByGroupQuery(groupId: int): (r: string)
    ensures r == SitesPath + "group_id=eq." + IntToString(groupId) + "&select=" + SiteSelect
  {
    SitesQuery([GroupClause(groupId)], SiteSelect)
  }

  /** `buildSiteQuery` gives the by-group query exactly when neither a user
      nor a status filter is given. */
  lemma NoFiltersIsByGroup(groupId: int, userIds: Option<seq<int>>, seenStatuses: Option<seq<string>>)
    ensures SiteQuery(groupId, userIds, seenStatuses) == SiteByGroupQuery(groupId)
        <==> !HasItems(userIds) && !HasItems(seenStatuses)
  {
    var f := SiteFilters(groupId, userIds, seenStatuses);
    SitesQueryOneParam(f, SiteSelect);
  }

  /** `buildSiteByNameQuery`, with `encodeURIComponent` as `encode`. */
  function SiteByNameQuery(siteName: string, encode: string -> string): (r: string)
    ensures r == SitesPath + "site_name=eq." + encode(siteName) + "&select=" + SiteSelect + "&limit=1"
  {
    SingleRowQuery("site_name=eq." + encode(siteName), SiteSelect)
  }

  /** `buildSiteByIdQuery`. */
  function SiteByIdQuery(siteId: int): (r: string)
    ensures r == SitesPath + "site_id=eq." + IntToString(siteId) + "&select=" + SiteSelect + "&limit=1"
  {
    SingleRowQuery("site_id=eq." + IntToString(siteId), SiteSelect)
  }
}
