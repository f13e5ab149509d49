/** PostgREST query strings as the site services build them: a path,
    `&`-separated `key=value` parameters and a trailing `select=` list. */
module QueryText {
  import opened Wrappers
  import opened Strings

  const SitesPath := "/sites?"

  /** `"${s}"`: a value wrapped in double quotes. */
  function Quote(s: string): string { "\"" + s + "\"" }

  function QuotedAll(values: seq<string>): (r: seq<string>)
    ensures |r| == |values|
    ensures forall i :: 0 <= i < |values| ==> r[i] == Quote(values[i])
  {
    seq(|values|, i requires 0 <= i < |values| => Quote(values[i]))
  }

  /** `group_id=eq.<groupId>`. */
  function GroupClause(groupId: int): string { "group_id=eq." + IntToString(groupId) }

  /** `seen_status=in.("a","b",…)`. */
  function SeenClause(statuses: seq<string>): string
  {
    "seen_status=in.(" + Join(QuotedAll(statuses), ",") + ")"
  }

  /** `/sites?<params joined by &>&select=<select>`. */
  function SitesQuery(params: seq<string>, select: string): string
  {
    SitesPath + Join(params, "&") + "&select=" + select
  }

  /** What a server reading the parameter list finds for `key`: the value
      of the first `key=value` parameter, if there is one. */
  function Lookup(params: seq<string>, key: string): Option<string>
  {
    if |params| == 0 then None
    else if StartsWith(params[0], key + "=") then Some(params[0][|key| + 1..])
    else Lookup(params[1..], key)
  }

  lemma {:induction false} LookupConcat(a: seq<string>, b: seq<string>, key: string)
    ensures Lookup(a + b, key) == if Lookup(a, key).Some? then Lookup(a, key) else Lookup(b, key)
  {
    if |a| > 0 {
      assert (a + b)[0] == a[0] && (a + b)[1..] == a[1..] + b;
      LookupConcat(a[1..], b, key);
    } else {
      assert a + b == b;
    }
  }

  /** A key found in neither `a` nor `c` is looked up in `b` alone. */
  lemma LookupMiddle(a: seq<string>, b: seq<string>, c: seq<string>, key: string)
    requires Lookup(a, key).None? && Lookup(c, key).None?
    ensures Lookup(a + b + c, key) == Lookup(b, key)
  {
    LookupConcat(a + b, c, key);
    LookupConcat(a, b, key);
  }

  /** A parameter written `key=value` is found under `key` with that value. */
  lemma LookupHit(c: string, key: string, value: string)
    requires c == key + "=" + value
    ensures Lookup([c], key) == Some(value)
  {
    assert c[..|key + "="|] == key + "=";
    assert c[|key| + 1..] == value;
  }

  /** A parameter whose first character differs from the key's is not
      found under it. */
  lemma LookupMiss(c: string, key: string)
    requires |c| > 0 && |key| > 0 && c[0] != key[0]
    ensures Lookup([c], key) == None
  {
    assert [c][1..] == [];
  }

  lemma {:induction false} JoinAppend(parts: seq<string>, x: string, sep: string)
    requires |parts| >= 1
    ensures Join(parts + [x], sep) == Join(parts, sep) + sep + x
  {
    if |parts| == 1 {
      assert (parts + [x])[1..] == [x];
    } else {
      assert (parts + [x])[1..] == parts[1..] + [x];
      JoinAppend(parts[1..], x, sep);
    }
  }

  /** A joined list holds a character only if a part or the separator does. */
  lemma {:induction false} JoinFree(parts: seq<string>, sep: string, c: char)
    requires c !in sep
    requires forall k :: 0 <= k < |parts| ==> c !in parts[k]
    ensures c !in Join(parts, sep)
  {
    if |parts| > 1 {
      JoinFree(parts[1..], sep, c);
    }
  }

  /** Reading a query back: between the path and the trailing select
      list lie the parameters, and splitting that stretch on `&` gives
      them back in order, provided no parameter holds a `&`. */
  lemma SitesQueryReadsBack(params: seq<string>, select: string)
    requires |params| >= 1
    requires forall k :: 0 <= k < |params| ==> '&' !in params[k]
    ensures |SitesPath| + |"&select=" + select| <= |SitesQuery(params, select)|
    ensures Split(SitesQuery(params, select)[|SitesPath|..|SitesQuery(params, select)| - |"&select=" + select|], '&') == params
  {
    var q := SitesQuery(params, select);
    var body := Join(params, "&");
    var tail := "&select=" + select;
    assert q == SitesPath + body + tail;
    assert q[|SitesPath|..|q| - |tail|] == body;
    assert q[|q| - |tail|..] == tail;
    SplitJoin(params, '&');
  }

  /** A query ends with its select list. */
  lemma SitesQueryEnds(params: seq<string>, select: string)
    ensures EndsWith(SitesQuery(params, select), "&select=" + select)
  {
    var q := SitesQuery(params, select);
    var tail := "&select=" + select;
    assert q == SitesPath + Join(params, "&") + tail;
    assert q[|q| - |tail|..] == tail;
  }

  /** A query starts with the path followed by its first parameter. */
  lemma SitesQueryStarts(params: seq<string>, select: string)
    requires |params| >= 1
    ensures StartsWith(SitesQuery(params, select), SitesPath + params[0])
  {
    var rest := if |params| == 1 then "" else "&" + Join(params[1..], "&");
    assert Join(params, "&") == params[0] + rest;
    assert SitesQuery(params, select) == SitesPath + params[0] + (rest + "&select=" + select);
  }

  /** A single-row lookup: one filter, the select list, then `limit=1`. */
  function SingleRowQuery(param: string, select: string): string
  {
    SitesQuery([param], select) + "&limit=1"
  }

  /** A single-row lookup starts with its filter and ends with the select
      list and `&limit=1`. */
  lemma SingleRowQueryShape(param: string, select: string)
    ensures StartsWith(SingleRowQuery(param, select), SitesPath + param)
    ensures EndsWith(SingleRowQuery(param, select), "&select=" + select + "&limit=1")
  {
    var q := SingleRowQuery(param, select);
    var head := SitesPath + param;
    var tail := "&select=" + select + "&limit=1";
    assert q == head + tail;
    assert q[..|head|] == head && q[|q| - |tail|..] == tail;
  }

  /** Two queries with the same select list and the same first parameter
      are equal exactly when the parameter lists are. */
  lemma {:induction false} SitesQueryOneParam(params: seq<string>, select: string)
    requires |params| >= 1
    ensures SitesQuery(params, select) == SitesQuery([params[0]], select) <==> |params| == 1
  {
    if |params| >= 2 {
      assert Join(params, "&") == params[0] + "&" + Join(params[1..], "&");
      assert |SitesQuery(params, select)| > |SitesQuery([params[0]], select)|;
    }
  }

  /** The quoted list reads back: splitting it on `,` gives one piece per
      value, in order, and each piece is that value between double quotes,
      provided no value holds a `,`. */
  lemma QuotedListReadsBack(values: seq<string>)
    requires |values| >= 1
    requires forall k :: 0 <= k < |values| ==> ',' !in values[k]
    ensures Split(Join(QuotedAll(values), ","), ',') == QuotedAll(values)
    ensures forall k :: 0 <= k < |values| ==>
      var piece := QuotedAll(values)[k];
      |piece| >= 2 && piece[0] == '"' && piece[|piece| - 1] == '"' && piece[1..|piece| - 1] == values[k]
  {
    var qs := QuotedAll(values);
    forall k | 0 <= k < |qs| ensures ',' !in qs[k] {
      assert qs[k] == "\"" + values[k] + "\"";
    }
    SplitJoin(qs, ',');
  }

  /** The seen-status clause holds a `&` only if a status does. */
  lemma SeenClauseFree(statuses: seq<string>)
    requires forall k :: 0 <= k < |statuses| ==> '&' !in statuses[k]
    ensures '&' !in SeenClause(statuses)
  {
    var qs := QuotedAll(statuses);
    forall k | 0 <= k < |qs| ensures '&' !in qs[k] {
      assert qs[k] == "\"" + statuses[k] + "\"";
    }
    JoinFree(qs, ",", '&');
  }

  lemma GroupClauseFree(groupId: int)
    ensures '&' !in GroupClause(groupId)
  {
    var t := IntToString(groupId);
    assert forall i :: 0 <= i < |t| ==> t[i] != '&';
  }
}
