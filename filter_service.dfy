/** The backend filter service: filters enriched sites by their coverage
    status after loading, and builds the PostgREST query that loads a
    group's sites with an optional user and visit-status filter. */
module FilterService {
  import opened Wrappers
  import opened Strings
  import opened Seqs
  import opened Statuses
  import opened Sites
  import opened QueryText

  const SitesSelect := "site_id,site_name,group_id,user_id,seen_status,seen_date,geometry"

  /** The site's coverage status is one of the requested ones. */
  predicate Listed(site: EnrichedSite, statuses: seq<string>) { UpdatedText(site.updatedStatus) in statuses }

  /** `applyRuntimeFilters`: without requested coverage statuses the sites
      come back as they are; otherwise only the listed ones are kept. */
  function ApplyRuntimeFilters(sites: seq<EnrichedSite>, filters: FilterRequest): (r: seq<EnrichedSite>)
    ensures |r| <= |sites|
  {
    if !HasItems(filters.updatedStatuses) then sites
    else Filter(sites, s => Listed(s, filters.updatedStatuses.value))
  }

  /** With statuses requested, every site keeps all its copies exactly
      when its status is listed and loses them all otherwise. */
  lemma RuntimeFiltersExact(sites: seq<EnrichedSite>, filters: FilterRequest, x: EnrichedSite)
    requires HasItems(filters.updatedStatuses)
    ensures multiset(ApplyRuntimeFilters(sites, filters))[x]
         == if Listed(x, filters.updatedStatuses.value) then multiset(sites)[x] else 0
  {
    FilterCount(sites, s => Listed(s, filters.updatedStatuses.value), x);
  }

  /** The result keeps the input's order: it is the input with some sites
      removed. */
  lemma RuntimeFiltersSubseq(sites: seq<EnrichedSite>, filters: FilterRequest)
    ensures IsSubseq(ApplyRuntimeFilters(sites, filters), sites)
  {
    if HasItems(filters.updatedStatuses) {
      FilterIsSubseq(sites, s => Listed(s, filters.updatedStatuses.value));
    } else {
      FilterIsSubseq(sites, s => true);
      FilterKeepsAll(sites, s => true);
    }
  }

  /** Filtering twice with the same request is filtering once. */
  lemma RuntimeFiltersIdempotent(sites: seq<EnrichedSite>, filters: FilterRequest)
    ensures ApplyRuntimeFilters(ApplyRuntimeFilters(sites, filters), filters) == ApplyRuntimeFilters(sites, filters)
  {
    if HasItems(filters.updatedStatuses) {
      FilterIdempotent(sites, s => Listed(s, filters.updatedStatuses.value));
    }
  }

  /** `username=eq.<encoded username>`. */
  function UsernameClause(username: string, encode: string -> string): string
  {
    "username=eq." + encode(username)
  }

  /** The parameters `buildQueryParams` collects, in the order it pushes
      them; `encode` stands for `encodeURIComponent`. */
  function QueryParams(groupId: int, username: Option<string>, seenStatuses: Option<seq<string>>,
                       encode: string -> string): seq<string>
  {
    [GroupClause(groupId)]
    + (if Truthy(username) then [UsernameClause(username.value, encode)] else [])
    + (if HasItems(seenStatuses) then [SeenClause(seenStatuses.value)] else [])
  }

  /** `buildQueryParams`. */
  method BuildQueryParams(groupId: int, username: Option<string>, seenStatuses: Option<seq<string>>,
                          encode: string -> string)
    returns (params: seq<string>)
    ensures params == QueryParams(groupId, username, seenStatuses, encode)
  {
    params := [GroupClause(groupId)];
    if Truthy(username) {
      params := params + [UsernameClause(username.value, encode)];
    }
    if HasItems(seenStatuses) {
      params := params + [SeenClause(seenStatuses.value)];
    }
    assert params == QueryParams(groupId, username, seenStatuses, encode);
  }

  function Query(groupId: int, username: Option<string>, seenStatuses: Option<seq<string>>,
                 encode: string -> string): string
  {
    SitesQuery(QueryParams(groupId, username, seenStatuses, encode), SitesSelect)
  }

  /** `buildQuery`. */
  method BuildQuery(groupId: int, username: Option<string>, seenStatuses: Option<seq<string>>,
                    encode: string -> string)
    returns (q: string)
    ensures q == Query(groupId, username, seenStatuses, encode)
  {
    var params := BuildQueryParams(groupId, username, seenStatuses, encode);
    q := SitesQuery(params, SitesSelect);
  }

  /** The server always finds the group under `group_id`. */
  lemma QueryParamsGroup(groupId: int, username: Option<string>, seenStatuses: Option<seq<string>>,
                         encode: string -> string)
    ensures Lookup(QueryParams(groupId, username, seenStatuses, encode), "group_id") == Some("eq." + IntToString(groupId))
  {
    var g := [GroupClause(groupId)];
    var rest := QueryParams(groupId, username, seenStatuses, encode)[1..];
    assert QueryParams(groupId, username, seenStatuses, encode) == g + rest;
    LookupHit(g[0], "group_id", "eq." + IntToString(groupId));
    LookupConcat(g, rest, "group_id");
  }

  /** The server finds the encoded username under `username` exactly when
      a non-empty username is given. */
  lemma QueryParamsUsername(groupId: int, username: Option<string>, seenStatuses: Option<seq<string>>,
                            encode: string -> string)
    ensures Lookup(QueryParams(groupId, username, seenStatuses, encode), "username")
         == if Truthy(username) then Some("eq." + encode(username.value)) else None
  {
    var g := [GroupClause(groupId)];
    var u := if Truthy(username) then [UsernameClause(username.value, encode)] else [];
    var s := if HasItems(seenStatuses) then [SeenClause(seenStatuses.value)] else [];
    assert QueryParams(groupId, username, seenStatuses, encode) == g + u + s;
    LookupMiss(g[0], "username");
    if Truthy(username) {
      LookupHit(u[0], "username", "eq." + encode(username.value));
    }
    if HasItems(seenStatuses) {
      LookupMiss(s[0], "username");
    }
    LookupMiddle(g, u, s, "username");
  }

  /** The server finds the quoted statuses, comma-joined in order, under
      `seen_status` exactly when some are given. */
  lemma QueryParamsSeen(groupId: int, username: Option<string>, seenStatuses: Option<seq<string>>,
                        encode: string -> string)
    ensures Lookup(QueryParams(groupId, username, seenStatuses, encode), "seen_status")
         == if HasItems(seenStatuses) then Some("in.(" + Join(QuotedAll(seenStatuses.value), ",") + ")") else None
  {
    var g := [GroupClause(groupId)];
    var u := if Truthy(username) then [UsernameClause(username.value, encode)] else [];
    var s := if HasItems(seenStatuses) then [SeenClause(seenStatuses.value)] else [];
    assert QueryParams(groupId, username, seenStatuses, encode) == g + u + s + [];
    LookupMiss(g[0], "seen_status");
    if Truthy(username) {
      LookupMiss(u[0], "seen_status");
    }
    LookupMiddle([], g, u, "seen_status");
    if HasItems(seenStatuses) {
      LookupHit(s[0], "seen_status", "in.(" + Join(QuotedAll(seenStatuses.value), ",") + ")");
    }
    LookupMiddle(g + u, s, [], "seen_status");
  }

  lemma QueryParamsFree(groupId: int, username: Option<string>, seenStatuses: Option<seq<string>>,
                        encode: string -> string)
    requires username.Some? ==> '&' !in encode(username.value)
    requires seenStatuses.Some? ==> forall k :: 0 <= k < |seenStatuses.value| ==> '&' !in seenStatuses.value[k]
    ensures var params := QueryParams(groupId, username, seenStatuses, encode);
      forall k :: 0 <= k < |params| ==> '&' !in params[k]
  {
    GroupClauseFree(groupId);
    if HasItems(seenStatuses) {
      SeenClauseFree(seenStatuses.value);
    }
  }

  /** The query starts with the group clause and ends with the select list. */
  lemma QueryEnds(groupId: int, username: Option<string>, seenStatuses: Option<seq<string>>,
                  encode: string -> string)
    ensures StartsWith(Query(groupId, username, seenStatuses, encode), SitesPath + GroupClause(groupId))
    ensures EndsWith(Query(groupId, username, seenStatuses, encode), "&select=" + SitesSelect)
  {
    var params := QueryParams(groupId, username, seenStatuses, encode);
    SitesQueryStarts(params, SitesSelect);
    SitesQueryEnds(params, SitesSelect);
  }

  /** Splitting the stretch between the path and the select list on `&`
      gives the parameters back, provided neither the encoded username nor
      a status holds a `&`. */
  lemma QueryReadsBack(groupId: int, username: Option<string>, seenStatuses: Option<seq<string>>,
                       encode: string -> string)
    requires username.Some? ==> '&' !in encode(username.value)
    requires seenStatuses.Some? ==> forall k :: 0 <= k < |seenStatuses.value| ==> '&' !in seenStatuses.value[k]
    ensures |SitesPath| + |"&select=" + SitesSelect| <= |Query(groupId, username, seenStatuses, encode)|
    ensures Split(Query(groupId, username, seenStatuses, encode)[|SitesPath|..|Query(groupId, username, seenStatuses, encode)| - |"&select=" + SitesSelect|], '&')
         == QueryParams(groupId, username, seenStatuses, encode)
  {
    var params := QueryParams(groupId, username, seenStatuses, encode);
    QueryParamsFree(groupId, username, seenStatuses, encode);
    SitesQueryReadsBack(params, SitesSelect);
  }
}
