/*******************************************************************************
 *  src/pages/ShowUserHistoryPage.jsx: one member's entries and purchases,
 *  filtered by a quick range (today, this week, this month, everything) or
 *  a custom one, with summary cards above the two history tables. The clock
 *  reading, the locale formatter and the outcome of the requests are
 *  parameters.
 *******************************************************************************/

module ShowUserHistoryPage {
  import opened Js
  import opened Calendar
  import opened Effects
  import IsoDates
  import EntryHistoryTable
  import TransactionHistoryTable

  /** The filter keys: `all`, `today`, `week`, `month`, and `range` (or any
      other key), which keeps the custom range typed in the picker. */
  datatype Filter = All | TodayFilter | WeekFilter | MonthFilter | CustomFilter

  // ---------------------------------------------------------------------------
  // Quick ranges
  // ---------------------------------------------------------------------------

  /** `now.getDay() || 7`: Monday 1 … Sunday 7. */
  function IsoWeekday(d: Day): (w: int)
    ensures 1 <= w <= 7
    ensures w == 7 <==> Weekday(d) == 0
    ensures w < 7 ==> w == Weekday(d)
  {
    if Weekday(d) == 0 then 7 else Weekday(d)
  }

  /** The Monday of the week `d` lies in. */
  function Monday(d: Day): Day {
    AddDays(d, 1 - IsoWeekday(d))
  }

  /** The first and last moments of a quick filter, `None` for `all` and
      the custom range. */
  function QuickRange(f: Filter, now: Instant): (r: Option<(Instant, Instant)>)
    ensures r.Some? <==> f in {TodayFilter, WeekFilter, MonthFilter}
  {
    match f
    case TodayFilter => Some((At(now.date, 0, 0), Moment(now.date, 23, 59, 59, 0)))
    case WeekFilter =>
      var monday := Monday(now.date);
      Some((Moment(monday, 0, 0, 0, 0), Moment(AddDays(monday, 6), 23, 59, 59, 999)))
    case MonthFilter =>
      var y, m := now.date.year, now.date.month;
      // `new Date(y, m + 1, 0)` is day 0 of the next month: the last day of month `m`.
      Some((At(Date(y, m, 1), 0, 0), Moment(Date(y, m, DaysInMonth(y, m)), 23, 59, 59, 0)))
    case _ => None
  }

  /** `computeRange(type)`: the two range texts `toISOString().slice(0, 16)`
      of a quick filter; empty texts for `all`; the typed range otherwise. */
  function ComputeRange(f: Filter, now: Instant, rangeStart: string, rangeEnd: string): (r: (string, string))
    ensures f == All ==> r == ("", "")
    ensures f == CustomFilter ==> r == (rangeStart, rangeEnd)
    ensures QuickRange(f, now).Some? ==>
              r == (IsoDates.IsoMinutes(QuickRange(f, now).value.0), IsoDates.IsoMinutes(QuickRange(f, now).value.1))
  {
    match QuickRange(f, now)
    case Some((a, b)) => (IsoDates.IsoMinutes(a), IsoDates.IsoMinutes(b))
    case None => if f == All then ("", "") else (rangeStart, rangeEnd)
  }

  /** `today` runs from 00:00 to 23:59:59 of the current day. */
  lemma TodayRange(now: Instant)
    ensures var r := QuickRange(TodayFilter, now).value;
            && r.0.date == now.date && r.1.date == now.date
            && (r.0.hour, r.0.minute, r.0.second) == (0, 0, 0)
            && (r.1.hour, r.1.minute, r.1.second) == (23, 59, 59)
  {
  }

  /** The Monday of a week is a Monday, and today lies `IsoWeekday - 1`
      days after it. */
  lemma MondayOfWeek(d: Day)
    ensures AddDays(Monday(d), IsoWeekday(d) - 1) == d
    ensures Weekday(Monday(d)) == 1
  {
    var w := IsoWeekday(d);
    AddDaysAdditive(d, 1 - w, w - 1);
    WeekdayAddDays(Monday(d), w - 1);
    var m := Weekday(Monday(d));
    assert (m + w - 1) % 7 == Weekday(d);
  }

  /** The week from Monday to Monday + 6 contains `d`. */
  lemma WeekContains(d: Day)
    ensures DateLeq(Monday(d), d) && DateLeq(d, AddDays(Monday(d), 6))
  {
    var w := IsoWeekday(d);
    MondayOfWeek(d);
    AddDaysMonotone(Monday(d), 0, w - 1);
    AddDaysMonotone(Monday(d), w - 1, 6);
  }

  /** `week` starts on a Monday, ends six days later, and contains today;
      Sunday belongs to the week that began six days before it. */
  lemma WeekRange(now: Instant)
    ensures var r := QuickRange(WeekFilter, now).value;
            && Weekday(r.0.date) == 1
            && r.1.date == AddDays(r.0.date, 6)
            && DateLeq(r.0.date, now.date) && DateLeq(now.date, r.1.date)
            && (Weekday(now.date) == 0 ==> now.date == AddDays(r.0.date, 6))
  {
    MondayOfWeek(now.date);
    WeekContains(now.date);
  }

  /** `month` runs from the first to the last day of the current month. */
  lemma MonthRange(now: Instant)
    ensures var r := QuickRange(MonthFilter, now).value;
            && r.0.date == Date(now.date.year, now.date.month, 1)
            && r.1.date.year == now.date.year && r.1.date.month == now.date.month
            && NextDay(r.1.date) == FirstOfNextMonth(now.date)
            && DateLeq(r.0.date, now.date) && DateLeq(now.date, r.1.date)
  {
  }

  /** For four-digit years the range texts are `YYYY-MM-DDTHH:mm`: the ISO
      date and the time of day to the minute. */
  lemma QuickRangeText(f: Filter, now: Instant)
    requires QuickRange(f, now).Some?
    requires 0 <= QuickRange(f, now).value.0.date.year <= 9999
    requires 0 <= QuickRange(f, now).value.1.date.year <= 9999
    ensures var r := QuickRange(f, now).value;
            var t := ComputeRange(f, now, "", "");
            && t.0 == IsoDates.IsoDate(r.0.date) + "T" + IsoDates.HoursMinutes(r.0)
            && t.1 == IsoDates.IsoDate(r.1.date) + "T" + IsoDates.HoursMinutes(r.1)
            && |t.0| == 16 && |t.1| == 16
  {
    IsoDates.IsoMinutesShape(QuickRange(f, now).value.0);
    IsoDates.IsoMinutesShape(QuickRange(f, now).value.1);
  }

  // ---------------------------------------------------------------------------
  // Loading
  // ---------------------------------------------------------------------------

  datatype State = State(
    filter: Filter,
    rangeStart: string,
    rangeEnd: string,
    entries: seq<EntryHistoryTable.Entry>,
    transactions: seq<TransactionHistoryTable.Transaction>,
    loading: bool,
    firstEntryDate: Option<string>,
    lastEntryDate: Option<string>)

  const Initial: State := State(All, "", "", [], [], false, None, None)

  /** The two responses, each `None` if its request fails. The second
      request is only sent once the first has answered. */
  datatype Responses = Responses(entries: Option<seq<EntryHistoryTable.Entry>>,
                                 transactions: Option<seq<TransactionHistoryTable.Transaction>>)

  function EntriesRequest(f: Filter, id: Id, startIso: string, endIso: string): Request {
    if f == All then GetRequest("/entry-history/user/" + IdText(id), map[])
    else GetRequest("/entry-history/range",
                    map["userId" := JStr(IdText(id)), "start" := JStr(startIso), "end" := JStr(endIso)])
  }

  function TransactionsRequest(f: Filter, id: Id, startIso: string, endIso: string): Request {
    if f == All then GetRequest("/transaction-history/user/" + IdText(id), map[])
    else GetRequest("/transaction-history/range",
                    map["userId" := JStr(IdText(id)), "start" := JStr(startIso), "end" := JStr(endIso)])
  }

  /** The date an entry row is dated by: `entryDate || date`. */
  function EntryDate(e: EntryHistoryTable.Entry): Option<string> {
    StrOr(e.entryDate, e.date)
  }

  /** The first/last capture of an `all` load: only while nothing has been
      captured and only for a non-empty list. */
  function Capture(s: State, entries: seq<EntryHistoryTable.Entry>, fmt: Option<string> -> string): (c: State)
    ensures StrTruthy(s.firstEntryDate) || entries == [] ==> c == s
    ensures !StrTruthy(s.firstEntryDate) && entries != [] ==>
              && c.firstEntryDate == Some(fmt(EntryDate(entries[0])))
              && c.lastEntryDate == Some(fmt(EntryDate(entries[|entries| - 1])))
    ensures c.(firstEntryDate := s.firstEntryDate, lastEntryDate := s.lastEntryDate) == s
  {
    if !StrTruthy(s.firstEntryDate) && |entries| > 0 then
      s.(firstEntryDate := Some(fmt(EntryDate(entries[0]))),
         lastEntryDate := Some(fmt(EntryDate(entries[|entries| - 1]))))
    else s
  }

  datatype Run = Run(requests: seq<Request>, during: State, state: State)

  /** `fetchData(type, startIso, endIso)` for member `id`. A failed request
      is not caught: the lists stay as they were and only `loading` is
      reset. */
  function FetchData(s: State, id: Id, f: Filter, startIso: string, endIso: string,
                     fmt: Option<string> -> string, outcome: Responses): (r: Run)
    ensures r.during == s.(loading := true)
    ensures !r.state.loading
    ensures 1 <= |r.requests| <= 2 && r.requests[0] == EntriesRequest(f, id, startIso, endIso)
    ensures |r.requests| == 2 <==> outcome.entries.Some?
    ensures |r.requests| == 2 ==> r.requests[1] == TransactionsRequest(f, id, startIso, endIso)
    ensures outcome.entries.None? || outcome.transactions.None? ==> r.state == s.(loading := false)
    ensures outcome.entries.Some? && outcome.transactions.Some? ==>
              r.state.entries == outcome.entries.value && r.state.transactions == outcome.transactions.value
    ensures f != All ==> r.state.firstEntryDate == s.firstEntryDate && r.state.lastEntryDate == s.lastEntryDate
    ensures (r.state.filter, r.state.rangeStart, r.state.rangeEnd) == (s.filter, s.rangeStart, s.rangeEnd)
  {
    var during := s.(loading := true);
    var first := EntriesRequest(f, id, startIso, endIso);
    match outcome.entries
    case None => Run([first], during, during.(loading := false))
    case Some(es) =>
      var both := [first, TransactionsRequest(f, id, startIso, endIso)];
      match outcome.transactions
      case None => Run(both, during, during.(loading := false))
      case Some(ts) =>
        var captured := if f == All then Capture(during, es, fmt) else during;
        Run(both, during, captured.(entries := es, transactions := ts, loading := false))
  }

  /** `handleFilter(type)`: remember the filter and its range texts, then
      load. */
  function HandleFilter(s: State, id: Id, f: Filter, now: Instant,
                        fmt: Option<string> -> string, outcome: Responses): (r: Run)
    ensures r.state.filter == f && 1 <= |r.requests|
    ensures (r.state.rangeStart, r.state.rangeEnd) == ComputeRange(f, now, s.rangeStart, s.rangeEnd)
    ensures f == All ==> r.requests[0] == GetRequest("/entry-history/user/" + IdText(id), map[])
    ensures f != All ==> r.requests[0].url == "/entry-history/range"
                         && "start" in r.requests[0].params && "end" in r.requests[0].params
                         && r.requests[0].params["start"] == JStr(r.state.rangeStart)
                         && r.requests[0].params["end"] == JStr(r.state.rangeEnd)
    ensures f == CustomFilter ==> (r.state.rangeStart, r.state.rangeEnd) == (s.rangeStart, s.rangeEnd)
  {
    var range := ComputeRange(f, now, s.rangeStart, s.rangeEnd);
    FetchData(s.(filter := f, rangeStart := range.0, rangeEnd := range.1), id, f, range.0, range.1, fmt, outcome)
  }

  /** `handleRangeFetch()`: load the typed range. */
  function HandleRangeFetch(s: State, id: Id, fmt: Option<string> -> string, outcome: Responses): (r: Run)
    ensures r.state.filter == CustomFilter && 1 <= |r.requests|
    ensures (r.state.rangeStart, r.state.rangeEnd) == (s.rangeStart, s.rangeEnd)
    ensures r.requests[0] == GetRequest("/entry-history/range",
                                        map["userId" := JStr(IdText(id)), "start" := JStr(s.rangeStart),
                                            "end" := JStr(s.rangeEnd)])
    ensures r.state.firstEntryDate == s.firstEntryDate && r.state.lastEntryDate == s.lastEntryDate
  {
    FetchData(s.(filter := CustomFilter), id, CustomFilter, s.rangeStart, s.rangeEnd, fmt, outcome)
  }

  /** The first and last entry dates are captured by an `all` load of a
      non-empty list when none is held yet, from the list's first and last
      rows; any other load, or a later one, leaves them alone. */
  lemma CaptureRule(s: State, id: Id, f: Filter, startIso: string, endIso: string,
                    fmt: Option<string> -> string, es: seq<EntryHistoryTable.Entry>,
                    ts: seq<TransactionHistoryTable.Transaction>)
    ensures var t := FetchData(s, id, f, startIso, endIso, fmt, Responses(Some(es), Some(ts))).state;
            && t.entries == es && t.transactions == ts
            && (f == All && !StrTruthy(s.firstEntryDate) && |es| > 0 ==>
                  t.firstEntryDate == Some(fmt(EntryDate(es[0])))
                  && t.lastEntryDate == Some(fmt(EntryDate(es[|es| - 1]))))
            && (f != All || StrTruthy(s.firstEntryDate) || es == [] ==>
                  t.firstEntryDate == s.firstEntryDate && t.lastEntryDate == s.lastEntryDate)
  {
  }

  /** With a formatter that never prints the empty text, the dates are
      captured once: a second `all` load keeps the first one's dates. */
  lemma CapturedOnce(s: State, id: Id, fmt: Option<string> -> string,
                     o1: Responses, o2: Responses)
    requires forall v :: fmt(v) != ""
    requires o1.entries.Some? && o1.transactions.Some? && |o1.entries.value| > 0
    ensures var t1 := FetchData(s, id, All, "", "", fmt, o1).state;
            var t2 := FetchData(t1, id, All, "", "", fmt, o2).state;
            && StrTruthy(t1.firstEntryDate)
            && t2.firstEntryDate == t1.firstEntryDate && t2.lastEntryDate == t1.lastEntryDate
  {
    var es := o1.entries.value;
    if !StrTruthy(s.firstEntryDate) {
      assert fmt(EntryDate(es[0])) != "";
    }
  }

  // ---------------------------------------------------------------------------
  // Summary
  // ---------------------------------------------------------------------------

  /** A summary card: its title and the value it shows. */
  datatype Card = Card(title: string, value: string)

  /** The four summary cards in order. As written, the card titled
      "Poslední vstup" (last entry) shows the date captured from the first
      row of the list, and "První vstup" (first entry) the one from the last
      row. */
  function Summary(s: State): (cards: seq<Card>)
    ensures |cards| == 4
    ensures cards[0] == Card("Celkem vstupů", IntToString(|s.entries|))
    ensures cards[1] == Card("Celková částka", IntToString(TransactionHistoryTable.TotalPrice(s.transactions)))
    ensures cards[2].title == "Poslední vstup" && cards[3].title == "První vstup"
    ensures cards[2].value != "" && cards[3].value != ""
    ensures StrTruthy(s.firstEntryDate) ==> cards[2].value == s.firstEntryDate.value
    ensures StrTruthy(s.lastEntryDate) ==> cards[3].value == s.lastEntryDate.value
    ensures !StrTruthy(s.firstEntryDate) ==> cards[2].value == "-"
    ensures !StrTruthy(s.lastEntryDate) ==> cards[3].value == "-"
  {
    [Card("Celkem vstupů", IntToString(|s.entries|)),
     Card("Celková částka", IntToString(TransactionHistoryTable.TotalPrice(s.transactions))),
     Card("Poslední vstup", if StrTruthy(s.firstEntryDate) then s.firstEntryDate.value else "-"),
     Card("První vstup", if StrTruthy(s.lastEntryDate) then s.lastEntryDate.value else "-")]
  }

  /** After the first `all` load of a non-empty list, the card titled
      "Poslední vstup" shows the first row's date and "První vstup" the last
      row's; before any capture both show `-`. The totals are the number of
      entries and the sum of the amounts. */
  lemma SummaryCards(s: State, id: Id, fmt: Option<string> -> string,
                     es: seq<EntryHistoryTable.Entry>, ts: seq<TransactionHistoryTable.Transaction>)
    requires !StrTruthy(s.firstEntryDate) && |es| > 0
    requires forall v :: fmt(v) != ""
    ensures var cards := Summary(FetchData(s, id, All, "", "", fmt, Responses(Some(es), Some(ts))).state);
            && cards[0].value == IntToString(|es|)
            && cards[1].value == IntToString(TransactionHistoryTable.TotalPrice(ts))
            && cards[2] == Card("Poslední vstup", fmt(EntryDate(es[0])))
            && cards[3] == Card("První vstup", fmt(EntryDate(es[|es| - 1])))
    ensures Summary(Initial)[2].value == "-" && Summary(Initial)[3].value == "-"
  {
    assert fmt(EntryDate(es[0])) != "";
    assert fmt(EntryDate(es[|es| - 1])) != "";
  }

  /** The amount card sums the amounts of the shown purchases, a missing one
      counting zero; loading more purchases adds their sum. */
  lemma AmountCardAdds(s: State, more: seq<TransactionHistoryTable.Transaction>)
    ensures TransactionHistoryTable.TotalPrice(s.transactions + more)
            == TransactionHistoryTable.TotalPrice(s.transactions) + TransactionHistoryTable.TotalPrice(more)
  {
    TransactionHistoryTable.TotalPriceAppend(s.transactions, more);
  }

  /** On mount the page loads everything for the member, with empty range
      texts, and captures the first and last entry of a non-empty history. */
  lemma MountLoadsAll(id: Id, now: Instant, fmt: Option<string> -> string, outcome: Responses)
    ensures var r := HandleFilter(Initial, id, All, now, fmt, outcome);
            && r.requests[0] == GetRequest("/entry-history/user/" + IdText(id), map[])
            && r.state.rangeStart == "" && r.state.rangeEnd == ""
            && (outcome.entries.Some? ==>
                  r.requests[1] == GetRequest("/transaction-history/user/" + IdText(id), map[]))
  {
  }
}
