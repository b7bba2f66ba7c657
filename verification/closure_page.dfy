/*******************************************************************************
 *  src/pages/ClosurePage.jsx: the daily closure. A range is typed into two
 *  `datetime-local` fields (text `YYYY-MM-DDTHH:MM`) or set a whole day at a
 *  time by the Today / Previous / Next buttons; loading fetches the entries
 *  and transactions of the range and shows them in the two history tables.
 *  The clock reading and the outcome of the requests are parameters.
 *******************************************************************************/

module ClosurePage {
  import opened Js
  import opened Calendar
  import opened Effects
  import IsoDates
  import DateUtils
  import EntryHistoryTable
  import TransactionHistoryTable

  // ---------------------------------------------------------------------------
  // Range text
  // ---------------------------------------------------------------------------

  /** What `formatToLocalDatetime` prints for an invalid date: every getter
      returns `NaN`. */
  const INVALID_LOCAL_TEXT: string := "NaN-NaN-NaNTNaN:NaN"

  /** `formatToLocalDatetime(date)`: `${year}-MM-DDTHH:MM` with the year
      unpadded; `None` is an invalid `Date`. */
  function FormatToLocalDatetime(t: Option<Instant>): (r: string)
    ensures t.None? <==> r == INVALID_LOCAL_TEXT
    ensures r != ""
  {
    match t
    case None => INVALID_LOCAL_TEXT
    case Some(m) =>
      var text := IntToString(m.date.year) + "-" + Pad2(m.date.month + 1) + "-" + Pad2(m.date.day)
                  + "T" + Pad2(m.hour) + ":" + Pad2(m.minute);
      IsoDates.Pad2Digits(m.minute);
      assert text[|text| - 1] == Pad2(m.minute)[|Pad2(m.minute)| - 1];
      text
  }

  /** `new Date(text)` for the text of a `datetime-local` field: a local
      date and time `YYYY-MM-DDTHH:MM`, or an invalid date (`None`) for any
      other text, the empty text included. */
  function ParseLocalDatetime(s: string): (r: Option<Instant>)
    ensures r.Some? ==> && |s| == 16 && s[10] == 'T' && s[13] == ':'
                        && IsoDates.ParseIsoDate(s[..10]) == Some(r.value.date)
                        && IsoDates.ParseDigits(s[11..13]) == Some(r.value.hour)
                        && IsoDates.ParseDigits(s[14..16]) == Some(r.value.minute)
                        && r.value.second == 0 && r.value.millis == 0
    ensures |s| != 16 ==> r.None?
  {
    if |s| == 16 && s[10] == 'T' && s[13] == ':' then
      match (IsoDates.ParseIsoDate(s[..10]), IsoDates.ParseDigits(s[11..13]), IsoDates.ParseDigits(s[14..16]))
      case (Some(d), Some(h), Some(m)) => if h < 24 && m < 60 then Some(At(d, h, m)) else None
      case _ => None
    else None
  }

  /** The pieces of `a-b-cTd:e` sit at fixed positions. */
  lemma LocalFieldsAt(a: string, b: string, c: string, d: string, e: string)
    requires |a| == 4 && |b| == 2 && |c| == 2 && |d| == 2 && |e| == 2
    ensures var s := a + "-" + b + "-" + c + "T" + d + ":" + e;
            && |s| == 16 && s[..10] == a + "-" + b + "-" + c
            && s[10] == 'T' && s[11..13] == d && s[13] == ':' && s[14..16] == e
  {
  }

  /** For four-digit years the printed range end reads back as the same
      date, hour and minute. */
  lemma LocalDatetimeRoundTrip(t: Instant)
    requires 1000 <= t.date.year <= 9999
    ensures |FormatToLocalDatetime(Some(t))| == 16
    ensures ParseLocalDatetime(FormatToLocalDatetime(Some(t))) == Some(At(t.date, t.hour, t.minute))
  {
    var y, mo, d, h, mi := IntToString(t.date.year), Pad2(t.date.month + 1), Pad2(t.date.day), Pad2(t.hour), Pad2(t.minute);
    DateUtils.Year4Digits(t.date.year);
    DateUtils.Pad2Reads(t.date.month + 1);
    DateUtils.Pad2Reads(t.date.day);
    DateUtils.Pad2Reads(t.hour);
    DateUtils.Pad2Reads(t.minute);
    LocalFieldsAt(y, mo, d, h, mi);
    IsoDates.DashedFields(y, mo, d);
    assert IsoDates.ParseIsoDate(y + "-" + mo + "-" + d) == Some(t.date);
  }

  // ---------------------------------------------------------------------------
  // Page state and loading
  // ---------------------------------------------------------------------------

  datatype State = State(
    start: string,
    end: string,
    entries: seq<EntryHistoryTable.Entry>,
    transactions: seq<TransactionHistoryTable.Transaction>,
    loading: bool,
    error: string)

  const Initial: State := State("", "", [], [], false, "")

  const RANGE_REQUIRED: string := "Prosím zadej datum a čas OD a DO."
  const LOAD_ERROR: string := "Nepodařilo se načíst data. Zkontroluj konzoli nebo kontaktuj správce."

  /** The two lists of a successful load. */
  datatype Loaded = Loaded(entries: seq<EntryHistoryTable.Entry>,
                           transactions: seq<TransactionHistoryTable.Transaction>)

  /** The two GETs of one load, sent together. */
  function RangeRequests(startDate: string, endDate: string): seq<Request> {
    var params := map["start" := JStr(startDate), "end" := JStr(endDate)];
    [GetRequest("/entry-history/range", params), GetRequest("/transaction-history/range", params)]
  }

  /** One handler call: the requests sent, the state while they are in
      flight, the state afterwards. */
  datatype Run = Run(requests: seq<Request>, during: State, state: State)

  /** `handleFetchData(startDate, endDate)`; `outcome` is `None` when either
      request fails. */
  function FetchData(s: State, startDate: string, endDate: string, outcome: Option<Loaded>): (r: Run)
    ensures startDate == "" || endDate == "" ==> r == Run([], s.(error := RANGE_REQUIRED), s.(error := RANGE_REQUIRED))
    ensures startDate != "" && endDate != "" ==> (&& r.requests == RangeRequests(startDate, endDate)
                                                 && r.during == s.(error := "", loading := true)
                                                 && !r.state.loading)
    ensures startDate != "" && endDate != "" && outcome.None? ==> r.state == s.(error := LOAD_ERROR, loading := false)
    ensures startDate != "" && endDate != "" && outcome.Some? ==>
              r.state == s.(entries := outcome.value.entries, transactions := outcome.value.transactions,
                            error := "", loading := false)
  {
    if startDate == "" || endDate == "" then
      Run([], s.(error := RANGE_REQUIRED), s.(error := RANGE_REQUIRED))
    else
      var during := s.(error := "", loading := true);
      match outcome
      case None => Run(RangeRequests(startDate, endDate), during, during.(error := LOAD_ERROR, loading := false))
      case Some(l) =>
        Run(RangeRequests(startDate, endDate), during,
            during.(entries := l.entries, transactions := l.transactions, loading := false))
  }

  /** Set both fields to the given texts and load that range. */
  function LoadRange(s: State, startText: string, endText: string, outcome: Option<Loaded>): Run {
    FetchData(s.(start := startText, end := endText), startText, endText, outcome)
  }

  /** Show the whole of day `d`: 00:00 to 23:59. Both fields are set, so
      the range is always loaded; for a four-digit year the fields read back
      as the first and last minute of `d`. */
  function ShowDay(s: State, d: Day, outcome: Option<Loaded>): (r: Run)
    ensures r.state.start != "" && r.state.end != ""
    ensures r.requests == RangeRequests(r.state.start, r.state.end) && !r.state.loading
    ensures 1000 <= d.year <= 9999 ==>
              && ParseLocalDatetime(r.state.start) == Some(At(d, 0, 0))
              && ParseLocalDatetime(r.state.end) == Some(At(d, 23, 59))
  {
    if 1000 <= d.year <= 9999 then
      LocalDatetimeRoundTrip(At(d, 0, 0));
      LocalDatetimeRoundTrip(At(d, 23, 59));
      LoadRange(s, FormatToLocalDatetime(Some(At(d, 0, 0))), FormatToLocalDatetime(Some(At(d, 23, 59))), outcome)
    else
      LoadRange(s, FormatToLocalDatetime(Some(At(d, 0, 0))), FormatToLocalDatetime(Some(At(d, 23, 59))), outcome)
  }

  /** `handleToday()` at clock reading `now`: loads the whole current day. */
  function Today(s: State, now: Instant, outcome: Option<Loaded>): (r: Run)
    ensures r.requests == RangeRequests(r.state.start, r.state.end) && r.requests != []
    ensures 1000 <= now.date.year <= 9999 ==>
              && ParseLocalDatetime(r.state.start) == Some(At(now.date, 0, 0))
              && ParseLocalDatetime(r.state.end) == Some(At(now.date, 23, 59))
  {
    ShowDay(s, now.date, outcome)
  }

  /** `handleYesterday()` at clock reading `now`: loads the whole previous
      day. */
  function Yesterday(s: State, now: Instant, outcome: Option<Loaded>): (r: Run)
    ensures r.requests == RangeRequests(r.state.start, r.state.end) && r.requests != []
    ensures 1000 <= PrevDay(now.date).year <= 9999 ==>
              && ParseLocalDatetime(r.state.start) == Some(At(PrevDay(now.date), 0, 0))
              && ParseLocalDatetime(r.state.end) == Some(At(PrevDay(now.date), 23, 59))
  {
    ShowDay(s, PrevDay(now.date), outcome)
  }

  /** The last representable moment of today: `today.setHours(23, 59, 59, 999)`. */
  function EndOfToday(now: Instant): Instant {
    Moment(now.date, 23, 59, 59, 999)
  }

  /** `handleNextDay()`: without a range, today; with an unreadable end, the
      invalid-date text in both fields; otherwise the day after the end,
      unless that day starts after the end of today, when nothing happens. */
  function NextDay(s: State, now: Instant, outcome: Option<Loaded>): (r: Run)
    ensures r == Run([], s, s) || (r.requests == RangeRequests(r.state.start, r.state.end) && r.requests != [])
    ensures s.start == "" || s.end == "" ==> r == Today(s, now, outcome)
    ensures s.start != "" && s.end != "" && ParseLocalDatetime(s.end).None? ==>
              r.state.start == INVALID_LOCAL_TEXT && r.state.end == INVALID_LOCAL_TEXT && r.requests != []
    ensures s.start != "" && s.end != "" && ParseLocalDatetime(s.end).Some? ==>
              var e := ParseLocalDatetime(s.end).value;
              && (r == Run([], s, s) <==> DateLeq(now.date, e.date))
              && (!DateLeq(now.date, e.date) && 1000 <= Calendar.NextDay(e.date).year <= 9999 ==>
                    ParseLocalDatetime(r.state.start) == Some(At(Calendar.NextDay(e.date), 0, 0)))
  {
    if s.start == "" || s.end == "" then Today(s, now, outcome)
    else
      match ParseLocalDatetime(s.end)
      case None => LoadRange(s, INVALID_LOCAL_TEXT, INVALID_LOCAL_TEXT, outcome)
      case Some(e) =>
        StartsAfterTodayIff(now, e.date);
        var newStart := Moment(Calendar.NextDay(e.date), 0, 0, e.second, e.millis);
        if Before(EndOfToday(now), newStart) then Run([], s, s)
        else ShowDay(s, Calendar.NextDay(e.date), outcome)
  }

  /** `handlePreviousDay()`: without a range, yesterday; with an unreadable
      start, the invalid-date text; otherwise the day before the start. */
  function PreviousDay(s: State, now: Instant, outcome: Option<Loaded>): (r: Run)
    ensures r.requests == RangeRequests(r.state.start, r.state.end) && r.requests != []
    ensures s.start == "" || s.end == "" ==> r == Yesterday(s, now, outcome)
    ensures s.start != "" && s.end != "" && ParseLocalDatetime(s.start).None? ==>
              r.state.start == INVALID_LOCAL_TEXT && r.state.end == INVALID_LOCAL_TEXT
    ensures s.start != "" && s.end != "" && ParseLocalDatetime(s.start).Some?
            && 1000 <= PrevDay(ParseLocalDatetime(s.start).value.date).year <= 9999 ==>
              var p := PrevDay(ParseLocalDatetime(s.start).value.date);
              && ParseLocalDatetime(r.state.start) == Some(At(p, 0, 0))
              && ParseLocalDatetime(r.state.end) == Some(At(p, 23, 59))
  {
    if s.start == "" || s.end == "" then Yesterday(s, now, outcome)
    else
      match ParseLocalDatetime(s.start)
      case None => LoadRange(s, INVALID_LOCAL_TEXT, INVALID_LOCAL_TEXT, outcome)
      case Some(st) => ShowDay(s, PrevDay(st.date), outcome)
  }

  /** A whole-day range is exactly 00:00 to 23:59 of that day, and it is
      loaded (the guard never fires, both requests go out). */
  lemma ShowDayRange(s: State, d: Day, outcome: Option<Loaded>)
    requires 1000 <= d.year <= 9999
    ensures var r := ShowDay(s, d, outcome);
            && ParseLocalDatetime(r.state.start) == Some(At(d, 0, 0))
            && ParseLocalDatetime(r.state.end) == Some(At(d, 23, 59))
            && r.requests == RangeRequests(r.state.start, r.state.end)
            && !r.state.loading
  {
    LocalDatetimeRoundTrip(At(d, 0, 0));
    LocalDatetimeRoundTrip(At(d, 23, 59));
  }

  /** Today and Yesterday show the whole of the current and the previous
      day; without a range, Next shows today and Previous yesterday. */
  lemma DayButtons(s: State, now: Instant, outcome: Option<Loaded>)
    requires 1000 <= PrevDay(now.date).year && now.date.year <= 9999
    ensures ParseLocalDatetime(Today(s, now, outcome).state.start) == Some(At(now.date, 0, 0))
    ensures ParseLocalDatetime(Today(s, now, outcome).state.end) == Some(At(now.date, 23, 59))
    ensures ParseLocalDatetime(Yesterday(s, now, outcome).state.start) == Some(At(PrevDay(now.date), 0, 0))
    ensures ParseLocalDatetime(Yesterday(s, now, outcome).state.end) == Some(At(PrevDay(now.date), 23, 59))
    ensures s.start == "" || s.end == "" ==>
              NextDay(s, now, outcome) == Today(s, now, outcome)
              && PreviousDay(s, now, outcome) == Yesterday(s, now, outcome)
  {
    ShowDayRange(s, now.date, outcome);
    ShowDayRange(s, PrevDay(now.date), outcome);
  }

  /** Previous always moves one whole day back from the start of a readable
      range; Next then moves forward again to the same day. */
  lemma PreviousThenNext(s: State, now: Instant, o1: Option<Loaded>, o2: Option<Loaded>)
    requires s.start != "" && s.end != ""
    requires ParseLocalDatetime(s.start).Some?
    requires 1000 <= PrevDay(ParseLocalDatetime(s.start).value.date).year
    requires ParseLocalDatetime(s.start).value.date.year <= 9999
    requires DateBefore(ParseLocalDatetime(s.start).value.date, now.date)
             || ParseLocalDatetime(s.start).value.date == now.date
    ensures var st := ParseLocalDatetime(s.start).value;
            var back := PreviousDay(s, now, o1).state;
            && ParseLocalDatetime(back.start) == Some(At(PrevDay(st.date), 0, 0))
            && ParseLocalDatetime(NextDay(back, now, o2).state.start) == Some(At(st.date, 0, 0))
  {
    var st := ParseLocalDatetime(s.start).value;
    var p := PrevDay(st.date);
    ShowDayRange(s, p, o1);
    var back := PreviousDay(s, now, o1).state;
    NextOfPrev(st.date);
    StartsAfterTodayIff(now, st.date);
    assert !DateBefore(now.date, st.date) by { DateOrderTotal(now.date, st.date); }
    ShowDayRange(back, st.date, o2);
  }

  // ---------------------------------------------------------------------------
  // The Next button
  // ---------------------------------------------------------------------------

  /** The day after `end` starts after the end of today exactly when `end`
      falls on today or later. */
  lemma StartsAfterTodayIff(now: Instant, endDay: Day)
    ensures Before(EndOfToday(now), Moment(Calendar.NextDay(endDay), 0, 0, 0, 0))
            <==> DateLeq(now.date, endDay)
  {
    var n := Calendar.NextDay(endDay);
    NextDayIsSuccessor(endDay, now.date);
    DateOrderTotal(now.date, n);
    DateOrderTotal(now.date, endDay);
    if DateLeq(now.date, endDay) {
      DateLeqTransitive(now.date, endDay, n);
      assert now.date != n by { DateOrderTotal(endDay, n); }
    }
  }

  /** `isNextDisabled()` as written: disabled when the end is no earlier
      than 23:59:59.999 today. A range end typed in a `datetime-local` field
      has no seconds, so an end on today's date never reaches that. */
  predicate IsNextDisabledAsWritten(end: string, now: Instant) {
    end != "" && ParseLocalDatetime(end).Some? && !Before(ParseLocalDatetime(end).value, EndOfToday(now))
  }

  /** As written, Next is disabled exactly for a readable end on a day after
      today, which Next can never produce; so whenever the written button is
      disabled the corrected one is too. */
  lemma WrittenDisabledIff(end: string, now: Instant)
    ensures IsNextDisabledAsWritten(end, now) <==>
              end != "" && ParseLocalDatetime(end).Some? && DateBefore(now.date, ParseLocalDatetime(end).value.date)
    ensures IsNextDisabledAsWritten(end, now) ==> IsNextDisabled(end, now)
  {
    if end != "" && ParseLocalDatetime(end).Some? {
      DateOrderTotal(now.date, ParseLocalDatetime(end).value.date);
    }
  }

  /** The button as evidently meant: disabled exactly when the range
      already ends today or later, so that Next would do nothing. */
  predicate IsNextDisabled(end: string, now: Instant) {
    end != "" && ParseLocalDatetime(end).Some? && DateLeq(now.date, ParseLocalDatetime(end).value.date)
  }

  /** Whenever a range has been set, the corrected button is disabled
      exactly when pressing Next would change nothing and load nothing. */
  lemma NextDisabledIffNoOp(s: State, now: Instant, outcome: Option<Loaded>)
    requires s.start != ""
    ensures IsNextDisabled(s.end, now) <==> NextDay(s, now, outcome) == Run([], s, s)
  {
    if s.end != "" {
      match ParseLocalDatetime(s.end)
      case None =>
        assert NextDay(s, now, outcome).requests != [];
      case Some(e) =>
        StartsAfterTodayIff(now, e.date);
        if !DateLeq(now.date, e.date) {
          assert NextDay(s, now, outcome).requests != [];
        }
    }
  }

  /** The code as written leaves Next enabled for a range that ends on
      today's date, yet pressing it then does nothing. */
  lemma EnabledNextDoesNothing(s: State, now: Instant, outcome: Option<Loaded>)
    requires s.start != "" && ParseLocalDatetime(s.end).Some?
    requires ParseLocalDatetime(s.end).value.date == now.date
    ensures !IsNextDisabledAsWritten(s.end, now)
    ensures NextDay(s, now, outcome) == Run([], s, s)
    ensures IsNextDisabled(s.end, now)
  {
    StartsAfterTodayIff(now, now.date);
  }

  /** Pressing Today gives such a range: afterwards the written Next button
      is enabled and does nothing. */
  lemma TodayLeavesDeadNextButton(s: State, now: Instant, o1: Option<Loaded>, o2: Option<Loaded>)
    requires 1000 <= now.date.year <= 9999
    ensures var t := Today(s, now, o1).state;
            && !IsNextDisabledAsWritten(t.end, now)
            && NextDay(t, now, o2) == Run([], t, t)
  {
    ShowDayRange(s, now.date, o1);
    var t := Today(s, now, o1).state;
    EnabledNextDoesNothing(t, now, o2);
  }

  // ---------------------------------------------------------------------------
  // The tables
  // ---------------------------------------------------------------------------

  const INVALID_DISPLAY_TEXT: string := "NaN.NaN.NaN NaN:NaN"

  /** The page's own `formatDate(isoString)` for a backend timestamp
      `YYYY-MM-DDTHH:MM` or `YYYY-MM-DDTHH:MM:SS`: `DD.MM.YYYY HH:MM`, or the
      invalid-date text for anything else (a missing value included). */
  function TableDate(v: Option<string>): (r: string)
    ensures |r| >= 13
    ensures v.None? ==> r == INVALID_DISPLAY_TEXT
  {
    if v.None? then INVALID_DISPLAY_TEXT
    else
      var s := v.value;
      var head := if HasSeconds(s) then s[..16] else s;
      match ParseLocalDatetime(head)
      case Some(t) => DateUtils.DisplayDate(t)
      case None => INVALID_DISPLAY_TEXT
  }

  /** Whether a text ends in `:SS` after 16 characters, with `SS` below 60. */
  predicate HasSeconds(s: string) {
    |s| == 19 && s[16] == ':' && IsoDates.ParseDigits(s[17..19]).Some? && IsoDates.ParseDigits(s[17..19]).value < 60
  }

  /** A backend timestamp `YYYY-MM-DDTHH:MM:SS` is shown in the tables as
      `formatDate` of the date utilities shows its minute: the seconds are
      read and dropped. */
  lemma TableDateWithSeconds(t: Instant, sec: nat)
    requires 1000 <= t.date.year <= 9999 && sec < 60
    ensures TableDate(Some(FormatToLocalDatetime(Some(t)) + ":" + Pad2(sec))) == DateUtils.FormatDate(Some(t))
  {
    var f := FormatToLocalDatetime(Some(t));
    var s := f + ":" + Pad2(sec);
    LocalDatetimeRoundTrip(t);
    DateUtils.Pad2Reads(sec);
    assert s[..16] == f;
    assert s[17..19] == Pad2(sec);
    assert HasSeconds(s);
  }

  /** A timestamp printed by `formatToLocalDatetime` is shown in the tables
      exactly as `formatDate` of the date utilities shows the moment. */
  lemma TableDateAgreesWithFormatDate(t: Instant)
    requires 1000 <= t.date.year <= 9999
    ensures TableDate(Some(FormatToLocalDatetime(Some(t)))) == DateUtils.FormatDate(Some(t))
  {
    LocalDatetimeRoundTrip(t);
  }

  const TRANSACTION_COLUMNS: seq<TransactionHistoryTable.Column> :=
    [TransactionHistoryTable.DateColumn, TransactionHistoryTable.UserNameColumn,
     TransactionHistoryTable.PurchaseTypeColumn, TransactionHistoryTable.AmountColumn]

  const ENTRY_COLUMNS: seq<EntryHistoryTable.Column> :=
    [EntryHistoryTable.DateColumn, EntryHistoryTable.UserNameColumn, EntryHistoryTable.SubscriptionTypeColumn]

  datatype View = View(error: Option<string>, transactions: TransactionHistoryTable.View,
                       entries: EntryHistoryTable.View)

  function Render(s: State): View {
    View(if s.error != "" then Some(s.error) else None,
         TransactionHistoryTable.Render(s.transactions, TableDate, Some(TRANSACTION_COLUMNS), Some(true)),
         EntryHistoryTable.Render(s.entries, TableDate, Some(ENTRY_COLUMNS), Some(true)))
  }

  /** After a successful load both non-empty tables carry their totals: the
      sum of the amounts and the number of entries of the range. */
  lemma LoadedTotals(s: State, startDate: string, endDate: string, l: Loaded)
    requires startDate != "" && endDate != ""
    requires |l.transactions| > 0 && |l.entries| > 0
    ensures var v := Render(FetchData(s, startDate, endDate, Some(l)).state);
            && v.error.None?
            && v.transactions.footer
               == Some(TransactionHistoryTable.Footer(3, IntToString(TransactionHistoryTable.TotalPrice(l.transactions)) + " Kč"))
            && v.entries.footer
               == Some(EntryHistoryTable.Footer(3, "Celkový počet vstupů: " + IntToString(|l.entries|)))
  {
    var st := FetchData(s, startDate, endDate, Some(l)).state;
    TransactionHistoryTable.FooterRule(l.transactions, TableDate, Some(TRANSACTION_COLUMNS), Some(true));
    EntryHistoryTable.FooterRule(l.entries, TableDate, Some(ENTRY_COLUMNS), Some(true));
  }
}
