/** WKT coordinate text as the serialisers write it: `${x} ${y}` per
    position, positions joined by ", ". `fmt` is JavaScript's
    number-to-string conversion. */
module WktText {
  import opened Strings
  import opened GeometryBounds

  function PosText(fmt: real -> string, p: Pos): string
  {
    fmt(p.x) + " " + fmt(p.y)
  }

  function PosTexts(fmt: real -> string, ring: seq<Pos>): (r: seq<string>)
    ensures |r| == |ring| && forall i :: 0 <= i < |ring| ==> r[i] == PosText(fmt, ring[i])
  {
    seq(|ring|, i requires 0 <= i < |ring| => PosText(fmt, ring[i]))
  }

  /** `ring.map(c => `${c[0]} ${c[1]}`).join(", ")`. */
  function RingBody(fmt: real -> string, ring: seq<Pos>): string
  {
    Join(PosTexts(fmt, ring), ", ")
  }

  /** A ring in parentheses. */
  function RingText(fmt: real -> string, ring: seq<Pos>): string
  {
    "(" + RingBody(fmt, ring) + ")"
  }

  /** The renderings of the numbers involved are non-empty and contain no
      whitespace, comma or parenthesis (true of JavaScript's rendering of
      every finite number). */
  predicate Plain(t: string)
  {
    |t| > 0 && NoSpace(t) && ',' !in t && ')' !in t && '(' !in t
  }

  ghost predicate PlainFormat(fmt: real -> string)
  {
    forall x :: Plain(fmt(x))
  }

  /** With plain number renderings, the body splits at its commas into one
      piece per position: the first as written, the others after the space
      that follows each comma. */
  lemma RingBodyPieces(fmt: real -> string, ring: seq<Pos>)
    requires PlainFormat(fmt) && |ring| > 0
    ensures Split(RingBody(fmt, ring), ',')
         == [PosText(fmt, ring[0])] + seq(|ring| - 1, k requires 0 <= k < |ring| - 1 => " " + PosText(fmt, ring[k + 1]))
  {
    var parts := PosTexts(fmt, ring);
    forall k | 0 <= k < |parts| ensures ',' !in parts[k] {
      var a, b := fmt(ring[k].x), fmt(ring[k].y);
      assert Plain(a) && Plain(b);
      assert parts[k] == a + " " + b;
    }
    assert [','] + " " == ", ";
    SplitJoinPadded(parts, ',', " ");
    assert PadEach(parts[1..], " ") == seq(|ring| - 1, k requires 0 <= k < |ring| - 1 => " " + PosText(fmt, ring[k + 1]));
  }
}
