/** The request sent to the external enrichment service and the lookup
    built from its answer. */
module EnrichmentRequestBuilder {
  import opened Seqs
  import opened Statuses

  /** The two kinds of value the request body holds. */
  datatype RequestEntry =
    | DataEntry(text: seq<string>, textId: seq<string>)
    | DateEntry(startFrom: string, startTo: string)

  /** The configured names of the two request keys. */
  datatype RequestKeys = RequestKeys(dataKey: string, dateKey: string)

  /** One item of the service's answer. */
  datatype StatusItem = StatusItem(siteName: string, status: UpdatedStatus, projectLink: string)

  /** The object literal's entries in the order they are written: the
      geometries with the site names, then the date window. */
  function RequestEntries(siteNames: seq<string>, geometries: seq<string>, dateFrom: string, dateTo: string,
                          keys: RequestKeys): seq<(string, RequestEntry)>
  {
    [(keys.dataKey, DataEntry(geometries, siteNames)), (keys.dateKey, DateEntry(dateFrom, dateTo))]
  }

  /** `buildEnrichmentRequest`: an object literal with computed keys, in
      which a later key overwrites an earlier equal one. */
  function BuildEnrichmentRequest(siteNames: seq<string>, geometries: seq<string>, dateFrom: string, dateTo: string,
                                  keys: RequestKeys): (r: map<string, RequestEntry>)
    ensures r.Keys == {keys.dataKey, keys.dateKey}
  {
    var entries := RequestEntries(siteNames, geometries, dateFrom, dateTo, keys);
    assert Keys(entries) == {keys.dataKey, keys.dateKey} by {
      assert entries[0].0 == keys.dataKey && entries[1].0 == keys.dateKey;
    }
    LastWins(entries)
  }

  /** The date key always holds the date window; the data key holds the
      geometries and the site names, exactly as given, unless it is the
      date key, whose entry then overwrites it. */
  lemma RequestContents(siteNames: seq<string>, geometries: seq<string>, dateFrom: string, dateTo: string,
                        keys: RequestKeys)
    ensures BuildEnrichmentRequest(siteNames, geometries, dateFrom, dateTo, keys)[keys.dateKey] == DateEntry(dateFrom, dateTo)
    ensures keys.dataKey != keys.dateKey
        ==> BuildEnrichmentRequest(siteNames, geometries, dateFrom, dateTo, keys)[keys.dataKey] == DataEntry(geometries, siteNames)
    ensures |BuildEnrichmentRequest(siteNames, geometries, dateFrom, dateTo, keys)| == if keys.dataKey == keys.dateKey then 1 else 2
  {
    var entries := RequestEntries(siteNames, geometries, dateFrom, dateTo, keys);
    LastWinsValue(entries, 1);
    if keys.dataKey != keys.dateKey {
      LastWinsValue(entries, 0);
    }
  }

  /** The (site name, item) pairs `createStatusMap` feeds to `new Map`. */
  function NamedItems(items: seq<StatusItem>): (pairs: seq<(string, StatusItem)>)
    ensures |pairs| == |items|
    ensures forall i :: 0 <= i < |items| ==> pairs[i] == (items[i].siteName, items[i])
  {
    seq(|items|, i requires 0 <= i < |items| => (items[i].siteName, items[i]))
  }

  /** `createStatusMap`. */
  function CreateStatusMap(items: seq<StatusItem>): (m: map<string, StatusItem>)
    ensures m.Keys == set i | 0 <= i < |items| :: items[i].siteName
  {
    var pairs := NamedItems(items);
    assert Keys(pairs) == set i | 0 <= i < |items| :: items[i].siteName by {
      forall i | 0 <= i < |items| ensures pairs[i].0 == items[i].siteName { }
    }
    LastWins(pairs)
  }

  /** An item that no later item with the same site name follows is the
      one stored under that name: for duplicate names the last one wins. */
  lemma StatusMapLastWins(items: seq<StatusItem>, i: nat)
    requires i < |items|
    requires forall j :: i < j < |items| ==> items[j].siteName != items[i].siteName
    ensures CreateStatusMap(items)[items[i].siteName] == items[i]
  {
    LastWinsValue(NamedItems(items), i);
  }

  /** Every stored item is an input item filed under its own name, and the
      map has no more entries than there are items. */
  lemma StatusMapValues(items: seq<StatusItem>, name: string)
    requires name in CreateStatusMap(items)
    ensures CreateStatusMap(items)[name] in items
    ensures CreateStatusMap(items)[name].siteName == name
    ensures |CreateStatusMap(items)| <= |items|
  {
    var pairs := NamedItems(items);
    var i := LastWinsSource(pairs, name);
    KeysSize(pairs);
  }
}
