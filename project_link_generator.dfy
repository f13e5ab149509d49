/** The project link that lists the selected overlays
    (utils/projectLinkGenerator.ts). */
module ProjectLinkGenerator {
  import opened Wrappers
  import opened Strings
  import opened GeoEngine

  const Placeholder: string := "{overlayIds}"

  /** Three backslashes and a double quote, on each side of every id. */
  const IdQuote: string := "\\\\\\\""

  function WrapId(id: string): (r: string)
    ensures |r| == |id| + 2 * |IdQuote|
    ensures r[|IdQuote|..|r| - |IdQuote|] == id
  {
    IdQuote + id + IdQuote
  }

  /** Every overlay carries an `exclusive_id` (reading `entity_id` of a
      missing one throws). */
  predicate AllIdentified(overlays: seq<Overlay>)
  {
    forall i :: 0 <= i < |overlays| ==> overlays[i].entityId.Some?
  }

  /** The wrapped entity ids, comma-joined in overlay order. */
  function IdList(overlays: seq<Overlay>): string
    requires AllIdentified(overlays)
  {
    Join(seq(|overlays|, i requires 0 <= i < |overlays| => WrapId(overlays[i].entityId.value)), ",")
  }

  /** `createProjectLink` for the configured template `format`. */
  function CreateProjectLink(format: string, overlays: seq<Overlay>): (r: string)
    ensures |overlays| == 0 ==> r == ReplaceFirst(format, Placeholder, "")
    ensures |overlays| > 0 && !AllIdentified(overlays) ==> r == ""
    ensures |overlays| > 0 && AllIdentified(overlays) ==> r == ReplaceFirst(format, Placeholder, IdList(overlays))
    ensures (forall j: nat :: !OccursAt(format, Placeholder, j)) && AllIdentified(overlays) ==> r == format
  {
    if |overlays| == 0 then ReplaceFirst(format, Placeholder, "")
    else if !AllIdentified(overlays) then ""
    else ReplaceFirst(format, Placeholder, IdList(overlays))
  }

  /** Only the first placeholder is replaced: the text before it and the
      text after it (later placeholders included) are kept as they are. */
  lemma FirstPlaceholderOnly(format: string, overlays: seq<Overlay>, i: nat)
    requires |overlays| > 0 && AllIdentified(overlays)
    requires OccursAt(format, Placeholder, i) && forall j: nat :: j < i ==> !OccursAt(format, Placeholder, j)
    ensures CreateProjectLink(format, overlays) == format[..i] + IdList(overlays) + format[i + |Placeholder|..]
  {
  }

  /** For ids without commas, the inserted text splits at its commas into
      exactly one wrapped id per overlay, in order: n ids and n - 1 commas. */
  lemma {:induction false} IdListPieces(overlays: seq<Overlay>)
    requires |overlays| > 0 && AllIdentified(overlays)
    requires forall i :: 0 <= i < |overlays| ==> ',' !in overlays[i].entityId.value
    ensures Split(IdList(overlays), ',') == seq(|overlays|, i requires 0 <= i < |overlays| => WrapId(overlays[i].entityId.value))
    ensures |IdList(overlays)|
         == TotalLength(seq(|overlays|, i requires 0 <= i < |overlays| => WrapId(overlays[i].entityId.value))) + |overlays| - 1
  {
    var parts := seq(|overlays|, i requires 0 <= i < |overlays| => WrapId(overlays[i].entityId.value));
    forall k | 0 <= k < |parts| ensures ',' !in parts[k] {
      assert parts[k] == IdQuote + overlays[k].entityId.value + IdQuote;
    }
    SplitJoin(parts, ',');
    JoinLength(parts, ",");
  }

  /** The ids can be read back from the link text: split at commas and
      strip the quoting of each piece. */
  lemma IdListRoundTrip(overlays: seq<Overlay>)
    requires |overlays| > 0 && AllIdentified(overlays)
    requires forall i :: 0 <= i < |overlays| ==> ',' !in overlays[i].entityId.value
    ensures var pieces := Split(IdList(overlays), ',');
      |pieces| == |overlays| &&
      forall i :: 0 <= i < |overlays| ==>
        |pieces[i]| >= 2 * |IdQuote| &&
        pieces[i][|IdQuote|..|pieces[i]| - |IdQuote|] == overlays[i].entityId.value
  {
    IdListPieces(overlays);
  }
}
