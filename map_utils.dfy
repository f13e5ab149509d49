/** Map helpers of the frontend (utils/mapUtils.ts): the WKT polygon
    reader, status colours and bounds. */
module MapUtils {
  import opened Wrappers
  import opened Strings
  import opened GeometryBounds
  import opened WktText
  import GeojsonToWkt

  // ---------------------------------------------------------------
  // Whitespace handling of `wktToGeoJSON`
  // ---------------------------------------------------------------

  /** `s.replace(/\s+/g, " ")`: every run of whitespace becomes one space. */
  function CollapseSpaces(s: string): (r: string)
    decreases |s|
  {
    if |s| == 0 then ""
    else if IsSpace(s[0]) then
      var t := TrimStart(s);
      " " + CollapseSpaces(t)
    else [s[0]] + CollapseSpaces(s[1..])
  }

  /** Whitespace only as single spaces between two other characters:
      the text `CollapseSpaces` leaves alone. */
  predicate SingleSpaced(s: string)
  {
    forall i :: 0 <= i < |s| && IsSpace(s[i]) ==> s[i] == ' ' && 0 < i && i + 1 < |s| && !IsSpace(s[i + 1])
  }

  lemma SingleSpacedSuffix(s: string, k: nat)
    requires SingleSpaced(s) && k <= |s|
    requires k < |s| ==> !IsSpace(s[k])
    ensures SingleSpaced(s[k..])
  {
    var t := s[k..];
    forall i | 0 <= i < |t| && IsSpace(t[i])
      ensures t[i] == ' ' && 0 < i && i + 1 < |t| && !IsSpace(t[i + 1])
    {
      assert t[i] == s[i + k];
      assert i + k + 1 < |s|;
      assert t[i + 1] == s[i + k + 1];
    }
  }

  lemma {:induction false} CollapseSingleSpaced(s: string)
    requires SingleSpaced(s)
    ensures CollapseSpaces(s) == s
    decreases |s|
  {
    if |s| > 0 {
      assert !IsSpace(s[0]);
      if |s| > 1 && IsSpace(s[1]) {
        assert s[1] == ' ' && !IsSpace(s[2]);
        assert TrimStart(s[1..]) == s[2..];
        SingleSpacedSuffix(s, 2);
        CollapseSingleSpaced(s[2..]);
        assert s == [s[0]] + " " + s[2..];
      } else {
        SingleSpacedSuffix(s, 1);
        CollapseSingleSpaced(s[1..]);
        assert s == [s[0]] + s[1..];
      }
    }
  }

  lemma SingleSpacedConcat(a: string, b: string)
    requires SingleSpaced(a) && SingleSpaced(b)
    requires |a| > 0 && |b| > 0
    ensures SingleSpaced(a + b)
  {
    var s := a + b;
    forall i | 0 <= i < |s| && IsSpace(s[i])
      ensures s[i] == ' ' && 0 < i && i + 1 < |s| && !IsSpace(s[i + 1])
    {
      if i < |a| {
        assert s[i] == a[i];
        assert s[i + 1] == a[i + 1];
      } else {
        assert s[i] == b[i - |a|];
        if i + 1 < |s| { assert s[i + 1] == b[i + 1 - |a|]; }
      }
    }
  }

  /** `\s*` at index `i`: the index after the whitespace run. */
  function SkipSpaces(s: string, i: nat): (j: nat)
    requires i <= |s|
    ensures i <= j <= |s|
    ensures j < |s| ==> !IsSpace(s[j])
    decreases |s| - i
  {
    if i < |s| && IsSpace(s[i]) then SkipSpaces(s, i + 1) else i
  }

  /** Everything `SkipSpaces` skips is whitespace. */
  lemma {:induction false} SkippedAreSpaces(s: string, i: nat, k: nat)
    requires i <= |s| && i <= k < SkipSpaces(s, i)
    ensures IsSpace(s[k])
    decreases |s| - i
  {
    if k > i {
      SkippedAreSpaces(s, i + 1, k);
    }
  }

  /** `.` does not match a line terminator. */
  predicate LineTerminator(c: char)
  {
    c == '\n' || c == '\r' || c == '\U{2028}' || c == '\U{2029}'
  }

  /** An upper-case ASCII letter matched under the `i` flag. */
  predicate CaseFoldEq(c: char, upper: char)
  {
    c == upper || c as int == upper as int + 32
  }

  const PolygonWord: string := "POLYGON"

  predicate PolygonWordAt(s: string, p: nat)
  {
    p + 7 <= |s| && forall k :: 0 <= k < 7 ==> CaseFoldEq(s[p + k], PolygonWord[k])
  }

  /** `POLYGON\s*\(\s*\(\s*` at `p`: where the captured group starts. */
  function OpeningAt(s: string, p: nat): Option<nat>
  {
    if !PolygonWordAt(s, p) then None
    else
      var i1 := SkipSpaces(s, p + 7);
      if i1 >= |s| || s[i1] != '(' then None
      else
        var i2 := SkipSpaces(s, i1 + 1);
        if i2 >= |s| || s[i2] != '(' then None
        else Some(SkipSpaces(s, i2 + 1))
  }

  /** `\s*\)\s*\)` at `e`. */
  predicate ClosingAt(s: string, e: nat)
    requires e <= |s|
  {
    var a := SkipSpaces(s, e);
    a < |s| && s[a] == ')' && var b := SkipSpaces(s, a + 1); b < |s| && s[b] == ')'
  }

  /** The lazy `(.*?)`: the first end from `e` on where the closing matches,
      the group never crossing a line terminator. */
  function FirstClosing(s: string, e: nat): (r: Option<nat>)
    requires e <= |s|
    ensures r.Some? ==> e <= r.value <= |s| && ClosingAt(s, r.value)
    decreases |s| - e
  {
    if ClosingAt(s, e) then Some(e)
    else if e < |s| && !LineTerminator(s[e]) then FirstClosing(s, e + 1)
    else None
  }

  /** The leftmost match at or after `p`: the group's start and end. */
  function FindPolygon(s: string, p: nat): (r: Option<(nat, nat)>)
    ensures r.Some? ==> r.value.0 <= r.value.1 <= |s|
    decreases |s| + 1 - p
  {
    if p > |s| then None
    else
      match OpeningAt(s, p)
      case Some(start) =>
        (match FirstClosing(s, start)
         case Some(e) => Some((start, e))
         case None => FindPolygon(s, p + 1))
      case None => FindPolygon(s, p + 1)
  }

  /** `coord.trim().split(/\s+/)`: pieces between whitespace runs. */
  function SplitWs(s: string): (r: seq<string>)
    ensures |r| >= 1
    decreases |s|
  {
    if |s| == 0 then [""]
    else if IsSpace(s[0]) then
      var t := TrimStart(s);
      [""] + SplitWs(t)
    else
      var rest := SplitWs(s[1..]);
      [[s[0]] + rest[0]] + rest[1..]
  }

  lemma {:induction false} SplitWsNoSpace(s: string)
    requires NoSpace(s)
    ensures SplitWs(s) == [s]
  {
    if |s| > 0 {
      SplitWsNoSpace(s[1..]);
      assert [s[0]] + s[1..] == s;
    }
  }

  lemma {:induction false} SplitWsPair(a: string, b: string)
    requires NoSpace(a) && NoSpace(b) && |b| > 0
    ensures SplitWs(a + " " + b) == [a, b]
  {
    if |a| == 0 {
      assert a + " " + b == " " + b;
      assert TrimStart(" " + b) == b by {
        assert (" " + b)[1..] == b;
        assert !IsSpace(b[0]);
      }
      SplitWsNoSpace(b);
    } else {
      assert (a + " " + b)[0] == a[0] && !IsSpace(a[0]);
      assert (a + " " + b)[1..] == a[1..] + " " + b;
      SplitWsPair(a[1..], b);
      assert [a[0]] + a[1..] == a;
    }
  }

  /** One token of the coordinate list: `[lon, lat]`, or `[0, 0]` when it
      has fewer than two parts or a part is not a number. `parseFloat`
      gives `None` for NaN. */
  function ParseCoord(parseFloat: string -> Option<real>, token: string): (r: Pos)
    ensures r != Pos(0.0, 0.0) ==>
      var parts := SplitWs(Trim(token));
      |parts| >= 2 && parseFloat(parts[0]) == Some(r.x) && parseFloat(parts[1]) == Some(r.y)
  {
    var parts := SplitWs(Trim(token));
    if |parts| < 2 then Pos(0.0, 0.0)
    else
      match (parseFloat(parts[0]), parseFloat(parts[1]))
      case (Some(lon), Some(lat)) => Pos(lon, lat)
      case _ => Pos(0.0, 0.0)
  }

  /** `pairs.map(...)` over the tokens. */
  function ParseCoords(parseFloat: string -> Option<real>, tokens: seq<string>): (r: seq<Pos>)
    ensures |r| == |tokens|
  {
    if |tokens| == 0 then [] else [ParseCoord(parseFloat, tokens[0])] + ParseCoords(parseFloat, tokens[1..])
  }

  lemma {:induction false} ParseCoordsAt(parseFloat: string -> Option<real>, tokens: seq<string>, i: nat)
    requires i < |tokens|
    ensures ParseCoords(parseFloat, tokens)[i] == ParseCoord(parseFloat, tokens[i])
  {
    if i > 0 {
      ParseCoordsAt(parseFloat, tokens[1..], i - 1);
    }
  }

  /** `wktToGeoJSON`: the single ring of the Polygon feature it builds
      (the `properties` argument is passed through and not modelled). */
  function WktToGeoJson(wkt: string, parseFloat: string -> Option<real>): (r: Outcome<seq<Pos>>)
    ensures r.Ok? ==> |r.value| >= 1
  {
    var normalized := CollapseSpaces(Trim(wkt));
    match FindPolygon(normalized, 0)
    case None => Throws
    case Some((start, e)) =>
      var tokens := Split(normalized[start..e], ',');
      Ok(ParseCoords(parseFloat, tokens))
  }

  /** No "POLYGON((...))" anywhere, in any letter case: it throws. */
  lemma NoPolygonThrows(wkt: string, parseFloat: string -> Option<real>)
    requires FindPolygon(CollapseSpaces(Trim(wkt)), 0).None?
    ensures WktToGeoJson(wkt, parseFloat) == Throws
  {
  }

  /** A token with a single part, or with a part `parseFloat` rejects,
      becomes [0, 0] rather than failing. */
  lemma BadTokenIsOrigin(parseFloat: string -> Option<real>, token: string)
    requires var parts := SplitWs(Trim(token));
      |parts| < 2 || parseFloat(parts[0]).None? || parseFloat(parts[1]).None?
    ensures ParseCoord(parseFloat, token) == Pos(0.0, 0.0)
  {
  }

  // The round trip with geojsonToWkt.ts

  ghost predicate ReadsBack(fmt: real -> string, parseFloat: string -> Option<real>)
  {
    forall x :: parseFloat(fmt(x)) == Some(x)
  }

  lemma PosTextSingleSpaced(fmt: real -> string, p: Pos)
    requires PlainFormat(fmt)
    ensures SingleSpaced(PosText(fmt, p))
    ensures |PosText(fmt, p)| > 0 && !IsSpace(PosText(fmt, p)[0]) && !IsSpace(PosText(fmt, p)[|PosText(fmt, p)| - 1])
    ensures ')' !in PosText(fmt, p)
  {
    var a, b := fmt(p.x), fmt(p.y);
    assert Plain(a) && Plain(b);
    var t := a + " " + b;
    assert forall k :: 0 <= k < |a| ==> t[k] == a[k];
    assert forall k :: |a| < k < |t| ==> t[k] == b[k - |a| - 1];
    assert t[|a| + 1] == b[0];
  }

  /** The joined positions are single-spaced, start and end with a
      non-space and contain no closing parenthesis. */
  lemma {:induction false} BodyShape(fmt: real -> string, ring: seq<Pos>)
    requires PlainFormat(fmt) && |ring| > 0
    ensures var t := RingBody(fmt, ring);
      SingleSpaced(t) && |t| > 0 && !IsSpace(t[0]) && !IsSpace(t[|t| - 1]) && ')' !in t
    decreases |ring|
  {
    var parts := PosTexts(fmt, ring);
    PosTextSingleSpaced(fmt, ring[0]);
    if |ring| > 1 {
      BodyShape(fmt, ring[1..]);
      var rest := RingBody(fmt, ring[1..]);
      assert PosTexts(fmt, ring[1..]) == parts[1..];
      var t := parts[0] + ", " + rest;
      assert RingBody(fmt, ring) == t;
      var tail := ", " + rest;
      assert SingleSpaced(tail) by {
        forall i | 0 <= i < |tail| && IsSpace(tail[i])
          ensures tail[i] == ' ' && 0 < i && i + 1 < |tail| && !IsSpace(tail[i + 1])
        {
          if i >= 2 { assert tail[i] == rest[i - 2]; if i + 1 < |tail| { assert tail[i + 1] == rest[i - 1]; } }
          else { assert tail[2] == rest[0]; }
        }
      }
      SingleSpacedConcat(parts[0], tail);
      assert t == parts[0] + tail;
      assert t[|t| - 1] == rest[|rest| - 1];
      forall k | 0 <= k < |t| ensures t[k] != ')' {
        if k < |parts[0]| { assert t[k] == parts[0][k]; }
        else if k >= |parts[0]| + 2 { assert t[k] == rest[k - |parts[0]| - 2]; }
      }
    }
  }

  lemma {:induction false} NoEarlyClosing(s: string, lo: nat, hi: nat)
    requires lo <= hi <= |s|
    requires forall k :: lo <= k < hi ==> !LineTerminator(s[k])
    requires forall k :: lo <= k < hi ==> !ClosingAt(s, k)
    requires ClosingAt(s, hi)
    ensures FirstClosing(s, lo) == Some(hi)
    decreases hi - lo
  {
    if lo < hi {
      NoEarlyClosing(s, lo + 1, hi);
    }
  }

  const Opening: string := "POLYGON(("
  const Closing: string := "))"

  lemma OpeningClosingShape()
    ensures SingleSpaced(Opening) && SingleSpaced(Closing)
  {
    assert NoSpace(Opening) && NoSpace(Closing);
  }

  /** A single-spaced body between the opening and the closing is single-spaced. */
  lemma WrappedSingleSpaced(body: string)
    requires SingleSpaced(body)
    ensures SingleSpaced(Opening + body + Closing)
  {
    OpeningClosingShape();
    if |body| == 0 {
      assert Opening + body + Closing == Opening + Closing;
      SingleSpacedConcat(Opening, Closing);
    } else {
      SingleSpacedConcat(Opening, body);
      SingleSpacedConcat(Opening + body, Closing);
    }
  }

  /** Such a text is left as it is by `trim` and the whitespace collapse. */
  lemma WrappedNormalized(body: string)
    requires SingleSpaced(body)
    ensures CollapseSpaces(Trim(Opening + body + Closing)) == Opening + body + Closing
  {
    var text := Opening + body + Closing;
    WrappedSingleSpaced(body);
    assert text[0] == 'P' && text[|text| - 1] == ')';
    TrimNoSpaceEnds(text);
    CollapseSingleSpaced(text);
  }

  lemma OpeningFound(body: string)
    requires SingleSpaced(body)
    ensures OpeningAt(Opening + body + Closing, 0) == Some(9)
  {
    var text := Opening + body + Closing;
    assert forall k :: 0 <= k < 9 ==> text[k] == Opening[k];
    assert PolygonWordAt(text, 0);
    assert SkipSpaces(text, 7) == 7;
    assert SkipSpaces(text, 8) == 8;
    if |body| > 0 {
      assert text[9] == body[0];
    } else {
      assert text[9] == ')';
    }
    assert SkipSpaces(text, 9) == 9;
  }

  lemma ClosingAtEnd(body: string)
    ensures ClosingAt(Opening + body + Closing, 9 + |body|)
  {
    var text := Opening + body + Closing;
    var end := 9 + |body|;
    assert text[end] == ')' && text[end + 1] == ')';
    assert SkipSpaces(text, end) == end;
    assert SkipSpaces(text, end + 1) == end + 1;
  }

  /** Inside a single-spaced body without `)` the closing cannot match
      and `.` never meets a line terminator. */
  lemma NoClosingInside(body: string, k: nat)
    requires SingleSpaced(body) && ')' !in body
    requires 9 <= k < 9 + |body|
    ensures !LineTerminator((Opening + body + Closing)[k])
    ensures !ClosingAt(Opening + body + Closing, k)
  {
    var text := Opening + body + Closing;
    var end := 9 + |body|;
    assert forall j :: 9 <= j < end ==> text[j] == body[j - 9];
    assert !IsSpace(text[end - 1]);
    var a := SkipSpaces(text, k);
    if a >= end {
      SkippedAreSpaces(text, k, end - 1);
    }
    assert text[a] == body[a - 9];
  }

  lemma ClosingFound(body: string)
    requires SingleSpaced(body) && ')' !in body
    ensures FirstClosing(Opening + body + Closing, 9) == Some(9 + |body|)
  {
    var text := Opening + body + Closing;
    ClosingAtEnd(body);
    forall k | 9 <= k < 9 + |body| ensures !LineTerminator(text[k]) && !ClosingAt(text, k) {
      NoClosingInside(body, k);
    }
    NoEarlyClosing(text, 9, 9 + |body|);
  }

  /** The reader finds the body of "POLYGON((" + body + "))" and maps its
      comma-separated tokens to positions. */
  lemma WrappedReads(body: string, parseFloat: string -> Option<real>)
    requires SingleSpaced(body) && ')' !in body
    ensures WktToGeoJson(Opening + body + Closing, parseFloat) == Ok(ParseCoords(parseFloat, Split(body, ',')))
  {
    var text := Opening + body + Closing;
    WrappedNormalized(body);
    OpeningFound(body);
    ClosingFound(body);
    assert FindPolygon(text, 0) == Some((9, 9 + |body|));
    assert text[9..9 + |body|] == body;
  }

  /** One written position reads back as itself, with or without the
      space that follows a comma. */
  lemma TokenReadsBack(fmt: real -> string, parseFloat: string -> Option<real>, p: Pos, token: string)
    requires PlainFormat(fmt) && ReadsBack(fmt, parseFloat)
    requires token == PosText(fmt, p) || token == " " + PosText(fmt, p)
    ensures ParseCoord(parseFloat, token) == p
  {
    var a, b := fmt(p.x), fmt(p.y);
    assert Plain(a) && Plain(b);
    PosTextSingleSpaced(fmt, p);
    var t := PosText(fmt, p);
    if token == t {
      TrimNoSpaceEnds(t);
    } else {
      assert TrimStart(" " + t) == t by { assert (" " + t)[1..] == t; }
      assert TrimEnd(t) == t;
    }
    assert Trim(token) == t;
    SplitWsPair(a, b);
  }

  /** The `i`-th comma-separated token of a written ring is the `i`-th
      position's text, after a space for all but the first. */
  lemma RingToken(fmt: real -> string, ring: seq<Pos>, i: nat)
    requires PlainFormat(fmt) && i < |ring|
    ensures |Split(RingBody(fmt, ring), ',')| == |ring|
    ensures Split(RingBody(fmt, ring), ',')[i] == PosText(fmt, ring[i])
         || Split(RingBody(fmt, ring), ',')[i] == " " + PosText(fmt, ring[i])
  {
    RingBodyPieces(fmt, ring);
    if i > 0 {
      assert Split(RingBody(fmt, ring), ',')[i] == " " + PosText(fmt, ring[i]);
    }
  }

  /** The tokens of a written ring read back as the ring. */
  lemma TokensReadBack(fmt: real -> string, parseFloat: string -> Option<real>, ring: seq<Pos>)
    requires PlainFormat(fmt) && ReadsBack(fmt, parseFloat) && |ring| > 0
    ensures ParseCoords(parseFloat, Split(RingBody(fmt, ring), ',')) == ring
  {
    var tokens := Split(RingBody(fmt, ring), ',');
    var coords := ParseCoords(parseFloat, tokens);
    RingToken(fmt, ring, 0);
    forall i | 0 <= i < |ring| ensures coords[i] == ring[i] {
      RingToken(fmt, ring, i);
      ParseCoordsAt(parseFloat, tokens, i);
      TokenReadsBack(fmt, parseFloat, ring[i], tokens[i]);
    }
  }

  /** `wktToGeoJSON` reads back the outer ring `geojsonPolygonToWkt`
      writes, when numbers render without whitespace, commas or
      parentheses and `parseFloat` reads each rendering back. */
  lemma RoundTrip(fmt: real -> string, parseFloat: string -> Option<real>, g: GeojsonToWkt.GeoJsonObject)
    requires PlainFormat(fmt) && ReadsBack(fmt, parseFloat)
    requires g.kind == "Polygon" && g.coordinates.Some? && |g.coordinates.value| > 0 && |g.coordinates.value[0]| > 0
    ensures WktToGeoJson(GeojsonToWkt.GeojsonPolygonToWkt(fmt, Some(g)).value, parseFloat) == Ok(g.coordinates.value[0])
  {
    var ring := g.coordinates.value[0];
    var body := RingBody(fmt, ring);
    assert GeojsonToWkt.GeojsonPolygonToWkt(fmt, Some(g)).value == Opening + body + Closing;
    BodyShape(fmt, ring);
    WrappedReads(body, parseFloat);
    TokensReadBack(fmt, parseFloat, ring);
  }

  /** An empty outer ring is written as "POLYGON(())" and read back as
      the single position [0, 0]. */
  lemma EmptyRingReadsAsOrigin(fmt: real -> string, parseFloat: string -> Option<real>, g: GeojsonToWkt.GeoJsonObject)
    requires g.kind == "Polygon" && g.coordinates.Some? && |g.coordinates.value| > 0 && g.coordinates.value[0] == []
    ensures GeojsonToWkt.GeojsonPolygonToWkt(fmt, Some(g)) == Ok(Opening + Closing)
    ensures WktToGeoJson(GeojsonToWkt.GeojsonPolygonToWkt(fmt, Some(g)).value, parseFloat) == Ok([Pos(0.0, 0.0)])
  {
    assert RingBody(fmt, []) == "";
    assert Opening + "" + Closing == Opening + Closing;
    WrappedReads("", parseFloat);
    assert Split("", ',') == [""];
    assert SplitWs(Trim("")) == [""];
    assert ParseCoords(parseFloat, [""]) == [Pos(0.0, 0.0)];
  }

  // ---------------------------------------------------------------
  // Colours
  // ---------------------------------------------------------------

  datatype Colour = Colour(stroke: string, fill: string, fillOpacity: real)

  const Red := Colour("#ef4444", "#ef4444", 0.3)
  const Yellow := Colour("#facc15", "#facc15", 0.3)
  const Green := Colour("#4ade80", "#4ade80", 0.3)
  const Amber := Colour("#fbbf24", "#fbbf24", 0.3)

  /** `colorMap`, keyed by cover and merged status texts. */
  const ColourMap: map<string, Colour> := map[
    "No" := Red, "Full" := Yellow, "Partial" := Yellow,
    "Seen" := Green, "Not Seen" := Yellow, "Partial Seen" := Amber,
    "Partial Cover" := Yellow, "Not Cover" := Red]

  /** `getPolygonColor`: the status's colour, Full's for an unknown status. */
  function GetPolygonColour(status: string): (r: Colour)
    ensures status in ColourMap ==> r == ColourMap[status]
    ensures status !in ColourMap ==> r == ColourMap["Full"]
  {
    if status in ColourMap then ColourMap[status] else ColourMap["Full"]
  }

  /** Every colour is drawn at opacity 0.3 with stroke equal to fill;
      no-cover statuses are red, seen green, partly seen amber, and every
      other status yellow. */
  lemma ColourSpec(status: string)
    ensures GetPolygonColour(status).fillOpacity == 0.3
    ensures GetPolygonColour(status).stroke == GetPolygonColour(status).fill
    ensures GetPolygonColour(status) == Red <==> status == "No" || status == "Not Cover"
    ensures GetPolygonColour(status) == Green <==> status == "Seen"
    ensures GetPolygonColour(status) == Amber <==> status == "Partial Seen"
  {
  }

  // ---------------------------------------------------------------
  // Bounds
  // ---------------------------------------------------------------

  /** `[minLng, minLat, maxLng, maxLat]`. */
  datatype Bounds = Bounds(minLng: real, minLat: real, maxLng: real, maxLat: real)

  /** The box `GeometryBounds.BoundsOf` computes, as finite numbers. */
  function FiniteBounds(coords: seq<Pos>): Bounds
    requires |coords| > 0
  {
    BoundsOfSpec(coords);
    var b := BoundsOf(coords);
    Bounds(b.minX.r, b.minY.r, b.maxX.r, b.maxY.r)
  }

  /** `calculateBounds`: seeded with the first coordinate (reading it from
      an empty list throws), then a running min/max over all of them. */
  method CalculateBounds(coords: seq<Pos>) returns (r: Outcome<Bounds>)
    ensures |coords| == 0 <==> r == Throws
    ensures |coords| > 0 ==> r == Ok(FiniteBounds(coords))
  {
    if |coords| == 0 {
      return Throws;
    }
    var minLng, maxLng, minLat, maxLat := coords[0].x, coords[0].x, coords[0].y, coords[0].y;
    var i := 0;
    while i < |coords|
      invariant 0 <= i <= |coords|
      invariant i == 0 ==> minLng == maxLng == coords[0].x && minLat == maxLat == coords[0].y
      invariant i > 0 ==> BoundsOf(coords[..i]) == Bbox(Fin(minLng), Fin(minLat), Fin(maxLng), Fin(maxLat))
    {
      var p := coords[i];
      assert coords[..i + 1][..i] == coords[..i];
      if i == 0 { assert coords[..1][..0] == []; }
      minLng := if p.x < minLng then p.x else minLng;
      maxLng := if maxLng < p.x then p.x else maxLng;
      minLat := if p.y < minLat then p.y else minLat;
      maxLat := if maxLat < p.y then p.y else maxLat;
      i := i + 1;
    }
    assert coords[..i] == coords;
    r := Ok(Bounds(minLng, minLat, maxLng, maxLat));
  }

  /** The bounds hold every coordinate and each bound is attained. */
  lemma FiniteBoundsSpec(coords: seq<Pos>)
    requires |coords| > 0
    ensures var b := FiniteBounds(coords);
      && (forall i :: 0 <= i < |coords| ==>
            b.minLng <= coords[i].x <= b.maxLng && b.minLat <= coords[i].y <= b.maxLat)
      && (exists i :: 0 <= i < |coords| && b.minLng == coords[i].x)
      && (exists i :: 0 <= i < |coords| && b.minLat == coords[i].y)
      && (exists i :: 0 <= i < |coords| && b.maxLng == coords[i].x)
      && (exists i :: 0 <= i < |coords| && b.maxLat == coords[i].y)
  {
    BoundsOfSpec(coords);
    var b := BoundsOf(coords);
    forall i | 0 <= i < |coords|
      ensures b.minX.r <= coords[i].x <= b.maxX.r && b.minY.r <= coords[i].y <= b.maxY.r
    {
      assert Contains(b, coords[i]);
    }
  }

  /** A card's `geometry`, absent or a WKT string. */
  function CardCoords(geometry: Option<string>, parseFloat: string -> Option<real>): seq<Pos>
  {
    match geometry
    case None => []
    case Some(w) => match WktToGeoJson(w, parseFloat) case Ok(ring) => ring case Throws => []
  }

  /** `allCoords` after the first `n` cards. */
  function AllCoords(cards: seq<Option<string>>, parseFloat: string -> Option<real>, n: nat): seq<Pos>
    requires n <= |cards|
  {
    if n == 0 then [] else AllCoords(cards, parseFloat, n - 1) + CardCoords(cards[n - 1], parseFloat)
  }

  predicate Parses(geometry: Option<string>, parseFloat: string -> Option<real>)
  {
    geometry.Some? && WktToGeoJson(geometry.value, parseFloat).Ok?
  }

  /** The `try` block of `getConvexHullBounds`: the outer ring of a card
      whose geometry reads, nothing when reading throws. */
  method ReadCard(geometry: Option<string>, parseFloat: string -> Option<real>) returns (coords: seq<Pos>)
    ensures coords == CardCoords(geometry, parseFloat)
    ensures |coords| > 0 <==> Parses(geometry, parseFloat)
  {
    coords := [];
    if geometry.Some? {
      var parsed := WktToGeoJson(geometry.value, parseFloat);
      if parsed.Ok? {
        coords := parsed.value;
      }
    }
  }

  /** The loop of `getConvexHullBounds`: pushes the coordinates of every
      card whose geometry reads. */
  method CollectCoords(cards: seq<Option<string>>, parseFloat: string -> Option<real>)
    returns (allCoords: seq<Pos>)
    ensures allCoords == AllCoords(cards, parseFloat, |cards|)
  {
    allCoords := [];
    var i := 0;
    while i < |cards|
      invariant 0 <= i <= |cards|
      invariant allCoords == AllCoords(cards, parseFloat, i)
    {
      var coords := ReadCard(cards[i], parseFloat);
      AllCoordsStep(cards, parseFloat, i, allCoords, coords);
      allCoords := allCoords + coords;
      i := i + 1;
    }
  }

  lemma AllCoordsStep(cards: seq<Option<string>>, parseFloat: string -> Option<real>, i: nat,
                      before: seq<Pos>, coords: seq<Pos>)
    requires i < |cards|
    requires before == AllCoords(cards, parseFloat, i) && coords == CardCoords(cards[i], parseFloat)
    ensures before + coords == AllCoords(cards, parseFloat, i + 1)
  {
  }

  /** `getConvexHullBounds`: the bounds of every coordinate of every card
      whose geometry reads; cards that throw are skipped. */
  method GetConvexHullBounds(cards: seq<Option<string>>, parseFloat: string -> Option<real>)
    returns (r: Option<Bounds>)
    ensures r.None? <==> |AllCoords(cards, parseFloat, |cards|)| == 0
    ensures r.Some? ==> r.value == FiniteBounds(AllCoords(cards, parseFloat, |cards|))
  {
    var allCoords := CollectCoords(cards, parseFloat);
    if |allCoords| == 0 {
      return None;
    }
    var b := CalculateBounds(allCoords);
    r := Some(b.value);
  }

  lemma CardCoordsEmpty(geometry: Option<string>, parseFloat: string -> Option<real>)
    ensures |CardCoords(geometry, parseFloat)| == 0 <==> !Parses(geometry, parseFloat)
  {
    if geometry.Some? {
      var r := WktToGeoJson(geometry.value, parseFloat);
      assert r.Ok? ==> |r.value| >= 1;
    }
  }

  /** The hull is null exactly when no card's geometry reads: every
      geometry that reads gives at least one coordinate. */
  lemma {:induction false} HullNullIffNoneParse(cards: seq<Option<string>>, parseFloat: string -> Option<real>, n: nat)
    requires n <= |cards|
    ensures |AllCoords(cards, parseFloat, n)| == 0 <==> forall i :: 0 <= i < n ==> !Parses(cards[i], parseFloat)
  {
    if n > 0 {
      HullNullIffNoneParse(cards, parseFloat, n - 1);
      CardCoordsEmpty(cards[n - 1], parseFloat);
      if |AllCoords(cards, parseFloat, n)| == 0 {
        forall i | 0 <= i < n ensures !Parses(cards[i], parseFloat) {
          if i < n - 1 {
          }
        }
      }
    }
  }
}
