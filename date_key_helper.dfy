/** `toDateKey` (historyMerge/dateKeyHelper.ts): turns a date or a date
    string into a `YYYY-MM-DD` key. */
module DateKeyHelper {
  import opened Wrappers
  import opened Strings

  /** The UTC calendar fields of a JavaScript `Date`: `getUTCFullYear()`,
      `getUTCMonth()` (0-based) and `getUTCDate()`. */
  datatype DateParts = DateParts(year: int, month0: int, day: int)

  /** The argument of `toDateKey`: a string, or a `Date` object whose
      fields are `None` when it is an Invalid Date. */
  datatype DateInput = DateText(text: string) | DateObject(parts: Option<DateParts>)

  /** `s` begins with `\d{4}-\d{2}-\d{2}` (ASCII digits). */
  predicate HasDatePrefix(s: string)
  {
    && |s| >= 10
    && IsDigit(s[0]) && IsDigit(s[1]) && IsDigit(s[2]) && IsDigit(s[3]) && s[4] == '-'
    && IsDigit(s[5]) && IsDigit(s[6]) && s[7] == '-' && IsDigit(s[8]) && IsDigit(s[9])
  }

  /** `s` matches `^\d{4}-\d{2}-\d{2}$` exactly. */
  predicate IsDateKey(s: string) { HasDatePrefix(s) && |s| == 10 }

  /** The fallback: year, zero-padded 1-based month and zero-padded day,
      joined by '-'. An Invalid Date gives NaN in every field. */
  function FormatUtc(parts: Option<DateParts>): string
  {
    match parts
    case None => "NaN-NaN-NaN"
    case Some(p) =>
      IntToString(p.year) + "-" + PadTwo(IntToString(p.month0 + 1)) + "-" + PadTwo(IntToString(p.day))
  }

  /** `parseDate` stands for `new Date(text)` read in UTC. */
  function ToDateKey(date: DateInput, parseDate: string -> Option<DateParts>): (r: string)
    ensures date.DateText? && HasDatePrefix(date.text) ==> r == date.text[..10] && IsDateKey(r)
    ensures date.DateText? && IsDateKey(date.text) ==> r == date.text
    ensures date.DateText? && !HasDatePrefix(date.text) ==> r == FormatUtc(parseDate(date.text))
    ensures date.DateObject? ==> r == FormatUtc(date.parts)
  {
    match date
    case DateText(s) =>
      if IsDateKey(s) then s
      else if HasDatePrefix(s) then s[..10]
      else FormatUtc(parseDate(s))
    case DateObject(p) => FormatUtc(p)
  }

  /** On the string paths the key is a fixed point. */
  lemma ToDateKeyIdempotent(s: string, parseDate: string -> Option<DateParts>)
    requires HasDatePrefix(s)
    ensures ToDateKey(DateText(ToDateKey(DateText(s), parseDate)), parseDate)
         == ToDateKey(DateText(s), parseDate)
  {
  }

  /** The numbers a date key spells: year, month and day. */
  function DecodeKey(k: string): (int, int, int)
    requires IsDateKey(k)
  {
    (DigitsValue(k[..4]), DigitsValue(k[5..7]), DigitsValue(k[8..]))
  }

  lemma {:induction false} FourDigits(n: nat)
    requires 1000 <= n <= 9999
    ensures |NatToString(n)| == 4
  {
    NatToStringLength(n);
    assert NumDigits(n) == 1 + NumDigits(n / 10);
    assert NumDigits(n / 10) == 1 + NumDigits(n / 100);
    assert NumDigits(n / 100) == 1 + NumDigits(n / 1000);
  }

  lemma {:induction false} PaddedValue(n: nat)
    requires 1 <= n <= 31
    ensures |PadTwo(NatToString(n))| == 2 && AllDigits(PadTwo(NatToString(n)))
    ensures DigitsValue(PadTwo(NatToString(n))) == n
  {
    NatToStringValue(n);
    NatToStringLength(n);
    var s := NatToString(n);
    if n < 10 {
      assert PadTwo(s) == "0" + s;
      LeadingZeroValue(s);
    } else {
      assert NumDigits(n / 10) == 1;
    }
  }

  /** For a valid date with a four-digit year the fallback is itself a
      date key, and it spells the year, the 1-based month and the day. */
  lemma FormatUtcRoundTrip(p: DateParts)
    requires 1000 <= p.year <= 9999 && 0 <= p.month0 <= 11 && 1 <= p.day <= 31
    ensures IsDateKey(FormatUtc(Some(p)))
    ensures DecodeKey(FormatUtc(Some(p))) == (p.year, p.month0 + 1, p.day)
  {
    var y := NatToString(p.year);
    var m := PadTwo(NatToString(p.month0 + 1));
    var d := PadTwo(NatToString(p.day));
    FourDigits(p.year);
    NatToStringValue(p.year);
    PaddedValue(p.month0 + 1);
    PaddedValue(p.day);
    var k := FormatUtc(Some(p));
    assert k == y + "-" + m + "-" + d;
    assert k[..4] == y && k[5..7] == m && k[8..] == d;
  }
}
