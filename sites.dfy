/** The records the site services exchange: an enriched site as the
    backend returns it, and the filter request the frontend sends. */
module Sites {
  import opened Wrappers
  import opened Statuses

  /** A site row with the backend-computed coverage status and link. */
  datatype EnrichedSite = EnrichedSite(
    siteId: int,
    siteName: string,
    groupId: int,
    username: string,
    seenStatus: SeenStatus,
    geometry: string,
    updatedStatus: UpdatedStatus,
    siteLink: string)

  /** Optional filters; an absent field is `None`. */
  datatype FilterRequest = FilterRequest(
    username: Option<string>,
    seenStatuses: Option<seq<string>>,
    updatedStatuses: Option<seq<string>>)

  /** `list?.length` is truthy: the list is present and not empty. */
  predicate HasItems<T>(list: Option<seq<T>>) { list.Some? && |list.value| > 0 }

  /** A string that may be absent is truthy: present and not empty. */
  predicate Truthy(s: Option<string>) { s.Some? && |s.value| > 0 }
}
