/*******************************************************************************
 *  `formatDate` of src/utils/dateUtils.js: a date printed as
 *  `DD.MM.YYYY HH:mm`, and the reading of that text back into a date and
 *  time of day.
 *******************************************************************************/

module DateUtils {
  import opened Js
  import opened Calendar
  import IsoDates

  /** `formatDate(value)`: a falsy value (`null`, `undefined`, `""`) is
      `None` and prints as the empty string. Parsing the ISO string of a
      truthy value into a `Date` is not modelled: the value arrives parsed. */
  function FormatDate(value: Option<Instant>): (r: string)
    ensures value.None? <==> r == ""
    ensures value.Some? ==> r == DisplayDate(value.value)
  {
    match value
    case None => ""
    case Some(t) => DisplayDate(t)
  }

  /** `${day}.${month}.${year} ${hours}:${minutes}` with the two-digit
      fields zero-padded and the month counted from one. */
  function DisplayDate(t: Instant): (r: string)
    ensures |r| >= 13
  {
    Pad2(t.date.day) + "." + Pad2(t.date.month + 1) + "." + IntToString(t.date.year)
    + " " + Pad2(t.hour) + ":" + Pad2(t.minute)
  }

  /** Reads `DD.MM.YYYY HH:mm` (four-digit year) back into a moment with
      zero seconds; `None` for any other text or a date that does not exist. */
  function ParseDisplayDate(s: string): Option<Instant> {
    if |s| == 16 && s[2] == '.' && s[5] == '.' && s[10] == ' ' && s[13] == ':' then
      ReadFields(s[..2], s[3..5], s[6..10], s[11..13], s[14..16])
    else None
  }

  /** The moment named by day, one-based month, year, hours and minutes
      written as digit strings, if it exists. */
  function ReadFields(day: string, month1: string, year: string, hours: string, minutes: string): Option<Instant> {
    match (IsoDates.ParseDigits(day), IsoDates.ParseDigits(month1), IsoDates.ParseDigits(year),
           IsoDates.ParseDigits(hours), IsoDates.ParseDigits(minutes))
    case (Some(dd), Some(mm), Some(y), Some(h), Some(m)) =>
      (match IsoDates.MakeDate(y, mm, dd)
       case Some(d) => if h < 24 && m < 60 then Some(At(d, h, m)) else None
       case None => None)
    case _ => None
  }

  /** The pieces of `a.b.c d:e` sit at fixed positions. */
  lemma DisplayFieldsAt(a: string, b: string, c: string, d: string, e: string)
    requires |a| == 2 && |b| == 2 && |c| == 4 && |d| == 2 && |e| == 2
    ensures var s := a + "." + b + "." + c + " " + d + ":" + e;
            && |s| == 16 && s[..2] == a && s[2] == '.' && s[3..5] == b && s[5] == '.'
            && s[6..10] == c && s[10] == ' ' && s[11..13] == d && s[13] == ':' && s[14..16] == e
  {
  }

  lemma Year4Digits(y: int)
    requires 1000 <= y <= 9999
    ensures |IntToString(y)| == 4
    ensures IsoDates.ParseDigits(IntToString(y)) == Some(y)
  {
    NatToStringRoundTrip(y);
  }

  lemma Pad2Reads(n: nat)
    requires n < 100
    ensures |Pad2(n)| == 2
    ensures IsoDates.ParseDigits(Pad2(n)) == Some(n)
  {
    Pad2RoundTrip(n);
  }

  /** For a four-digit year the text is exactly 16 characters and reads back
      as the same date, hour and minute: day, month (one-based), year, hours
      and minutes each sit in their own zero-padded field. */
  lemma FormatDateRoundTrip(t: Instant)
    requires 1000 <= t.date.year <= 9999
    ensures |FormatDate(Some(t))| == 16
    ensures ParseDisplayDate(FormatDate(Some(t))) == Some(At(t.date, t.hour, t.minute))
  {
    Pad2Reads(t.date.day);
    Pad2Reads(t.date.month + 1);
    Year4Digits(t.date.year);
    Pad2Reads(t.hour);
    Pad2Reads(t.minute);
    DisplayFieldsAt(Pad2(t.date.day), Pad2(t.date.month + 1), IntToString(t.date.year),
                    Pad2(t.hour), Pad2(t.minute));
  }
}
