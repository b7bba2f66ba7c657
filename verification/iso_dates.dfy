/*******************************************************************************
 *  `Date.prototype.toISOString()` and the string surgery the pages apply to
 *  it (`split('T')[0]`, `slice(0, 10)`, `slice(0, 16)`), together with the
 *  reading of an ISO calendar date that the backend performs on them. The
 *  conversion to UTC is not modelled: the fields printed are the local ones.
 *******************************************************************************/

module IsoDates {
  import opened Js
  import opened Calendar

  /** The year field of an ISO string: four digits for years 0..9999, a sign
      and six digits outside that range. */
  function IsoYear(y: int): string {
    if 0 <= y <= 9999 then PadStart(NatToString(y), 4, '0')
    else (if y < 0 then "-" else "+") + PadStart(NatToString(if y < 0 then -y else y), 6, '0')
  }

  /** `YYYY-MM-DD`. */
  function IsoDate(d: Day): string {
    IsoYear(d.year) + "-" + Pad2(d.month + 1) + "-" + Pad2(d.day)
  }

  /** `toISOString()`: `YYYY-MM-DDTHH:mm:ss.sssZ`. */
  function IsoString(t: Instant): string {
    IsoDate(t.date) + "T" + HoursMinutes(t) + IsoSecondsTail(t)
  }

  /** `HH:mm`. */
  function HoursMinutes(t: Instant): string {
    Pad2(t.hour) + ":" + Pad2(t.minute)
  }

  /** `:ss.sssZ`. */
  function IsoSecondsTail(t: Instant): string {
    ":" + Pad2(t.second) + "." + PadStart(NatToString(t.millis), 3, '0') + "Z"
  }

  /** `s.slice(0, n)`. */
  function SlicePrefix(s: string, n: nat): (r: string)
    ensures |r| == if |s| < n then |s| else n
    ensures r <= s
  {
    if |s| < n then s else s[..n]
  }

  /** `s.split('T')[0]`: everything before the first `T`. */
  function DatePart(s: string): (r: string)
    ensures r <= s
    ensures !Contains(r, 'T')
    ensures |r| < |s| ==> s[|r|] == 'T'
  {
    if s == [] || s[0] == 'T' then [] else [s[0]] + DatePart(s[1..])
  }

  /** `toISOString().slice(0, 16)`: `YYYY-MM-DDTHH:mm`. */
  function IsoMinutes(t: Instant): string {
    SlicePrefix(IsoString(t), 16)
  }

  // ---------------------------------------------------------------------------
  // Reading dates back
  // ---------------------------------------------------------------------------

  /** A non-empty run of digits, read as a number. */
  function ParseDigits(s: string): Option<nat> {
    if |s| > 0 && AllDigits(s) then Some(DigitsValue(s)) else None
  }

  /** The calendar date with the given year, one-based month and day, if it exists. */
  function MakeDate(y: int, month1: int, day: int): (r: Option<Day>)
    ensures r.Some? <==> 1 <= month1 <= 12 && 1 <= day <= DaysInMonth(y, month1 - 1)
    ensures r.Some? ==> r.value == Date(y, month1 - 1, day)
  {
    if 1 <= month1 <= 12 && 1 <= day <= DaysInMonth(y, month1 - 1) then Some(Date(y, month1 - 1, day))
    else None
  }

  /** Reads a `YYYY-MM-DD` date with a four-digit year. */
  function ParseIsoDate(s: string): Option<Day> {
    if |s| == 10 && s[4] == '-' && s[7] == '-' then
      match (ParseDigits(s[..4]), ParseDigits(s[5..7]), ParseDigits(s[8..10]))
      case (Some(y), Some(m), Some(d)) => MakeDate(y, m, d)
      case _ => None
    else None
  }

  lemma Year4RoundTrip(y: int)
    requires 0 <= y <= 9999
    ensures |IsoYear(y)| == 4
    ensures AllDigits(IsoYear(y))
    ensures ParseDigits(IsoYear(y)) == Some(y)
  {
    NatToStringRoundTrip(y);
    ZeroPadValue(NatToString(y), 4);
  }

  /** The pieces of `a + "-" + b + "-" + c` sit at fixed positions. */
  lemma DashedFields(a: string, b: string, c: string)
    requires |a| == 4 && |b| == 2 && |c| == 2
    ensures var s := a + "-" + b + "-" + c;
            |s| == 10 && s[..4] == a && s[4] == '-' && s[5..7] == b && s[7] == '-' && s[8..10] == c
  {
  }

  /** An ISO calendar date reads back as the date it was printed from. */
  lemma IsoDateRoundTrip(d: Day)
    requires 0 <= d.year <= 9999
    ensures |IsoDate(d)| == 10
    ensures ParseIsoDate(IsoDate(d)) == Some(d)
  {
    Year4RoundTrip(d.year);
    Pad2RoundTrip(d.month + 1);
    Pad2RoundTrip(d.day);
    DashedFields(IsoYear(d.year), Pad2(d.month + 1), Pad2(d.day));
  }

  lemma DigitsHaveNoT(s: string)
    requires AllDigits(s)
    ensures !Contains(s, 'T')
  {
    forall i | 0 <= i < |s| ensures s[i] != 'T' {
      assert IsDigit(s[i]);
    }
  }

  lemma IsoYearHasNoT(y: int)
    ensures !Contains(IsoYear(y), 'T')
  {
    var digits := NatToString(if y < 0 then -y else y);
    if 0 <= y <= 9999 {
      ZeroPadValue(digits, 4);
      DigitsHaveNoT(PadStart(digits, 4, '0'));
    } else {
      var p := PadStart(digits, 6, '0');
      ZeroPadValue(digits, 6);
      DigitsHaveNoT(p);
      var sign := if y < 0 then "-" else "+";
      assert IsoYear(y) == sign + p;
      forall i | 0 <= i < |sign + p| ensures (sign + p)[i] != 'T' {
        if i > 0 {
          assert (sign + p)[i] == p[i - 1];
        }
      }
    }
  }

  lemma ConcatHasNoT(a: string, b: string)
    requires !Contains(a, 'T') && !Contains(b, 'T')
    ensures !Contains(a + b, 'T')
  {
    forall i | 0 <= i < |a + b| ensures (a + b)[i] != 'T' {
      if i >= |a| {
        assert (a + b)[i] == b[i - |a|];
      }
    }
  }

  lemma DashedHasNoT(a: string, b: string, c: string)
    requires !Contains(a, 'T') && !Contains(b, 'T') && !Contains(c, 'T')
    ensures !Contains(a + "-" + b + "-" + c, 'T')
  {
    ConcatHasNoT(a, "-");
    ConcatHasNoT(a + "-", b);
    ConcatHasNoT(a + "-" + b, "-");
    ConcatHasNoT(a + "-" + b + "-", c);
  }

  lemma IsoDateHasNoT(d: Day)
    ensures !Contains(IsoDate(d), 'T')
  {
    IsoYearHasNoT(d.year);
    Pad2HasNoT(d.month + 1);
    Pad2HasNoT(d.day);
    DashedHasNoT(IsoYear(d.year), Pad2(d.month + 1), Pad2(d.day));
  }

  lemma Pad2HasNoT(n: nat)
    ensures !Contains(Pad2(n), 'T')
  {
    Pad2Digits(n);
    DigitsHaveNoT(Pad2(n));
  }

  lemma Pad2Digits(n: nat)
    ensures AllDigits(Pad2(n))
  {
    ZeroPadValue(NatToString(n), 2);
  }

  lemma {:induction false} DatePartOfPrefix(a: string, b: string)
    requires !Contains(a, 'T')
    ensures DatePart(a + "T" + b) == a
    decreases |a|
  {
    if a != [] {
      assert (a + "T" + b)[1..] == a[1..] + "T" + b;
      assert !Contains(a[1..], 'T') by {
        forall i | 0 <= i < |a[1..]| ensures a[1..][i] != 'T' {
          assert a[1..][i] == a[i + 1];
        }
      }
      DatePartOfPrefix(a[1..], b);
    }
  }

  /** `toISOString().split('T')[0]` is the ISO calendar date of the moment. */
  lemma DatePartOfIsoString(t: Instant)
    ensures DatePart(IsoString(t)) == IsoDate(t.date)
  {
    IsoDateHasNoT(t.date);
    JoinAssoc(IsoDate(t.date), "T", HoursMinutes(t), IsoSecondsTail(t));
    DatePartOfPrefix(IsoDate(t.date), HoursMinutes(t) + IsoSecondsTail(t));
  }

  lemma JoinAssoc(a: string, b: string, c: string, d: string)
    ensures a + b + c + d == a + b + (c + d)
    ensures a + b + c + d == a + (b + c + d)
  {
  }

  lemma PrefixOfConcat(a: string, b: string, n: nat)
    requires |a| == n
    ensures SlicePrefix(a + b, n) == a
  {
    assert (a + b)[..n] == a;
  }

  /** `toISOString().slice(0, 10)` is the same ISO calendar date, for
      four-digit years. */
  lemma SliceTenOfIsoString(t: Instant)
    requires 0 <= t.date.year <= 9999
    ensures SlicePrefix(IsoString(t), 10) == IsoDate(t.date)
  {
    IsoDateRoundTrip(t.date);
    JoinAssoc(IsoDate(t.date), "T", HoursMinutes(t), IsoSecondsTail(t));
    PrefixOfConcat(IsoDate(t.date), "T" + HoursMinutes(t) + IsoSecondsTail(t), 10);
  }

  /** `toISOString().slice(0, 16)` is the date, `T`, hours and minutes, for
      four-digit years. */
  lemma IsoMinutesShape(t: Instant)
    requires 0 <= t.date.year <= 9999
    ensures IsoMinutes(t) == IsoDate(t.date) + "T" + HoursMinutes(t)
    ensures |IsoMinutes(t)| == 16
  {
    IsoDateRoundTrip(t.date);
    Pad2RoundTrip(t.hour);
    Pad2RoundTrip(t.minute);
    PrefixOfConcat(IsoDate(t.date) + "T" + HoursMinutes(t), IsoSecondsTail(t), 16);
  }
}
