/*******************************************************************************
 *  src/components/EntryHistoryTable.jsx: the table of gym entries with the
 *  number of entries in the footer. The date formatter is the caller's and
 *  is a parameter.
 *******************************************************************************/

module EntryHistoryTable {
  import opened Js
  import opened TableCells

  /** An entry as the backend lists it; `None` is an absent field. */
  datatype Entry = Entry(
    id: Option<int>,
    entryDate: Option<string>,
    date: Option<string>,
    firstName: Option<string>,
    lastName: Option<string>,
    userID: Option<int>,
    subscriptionType: Option<string>)

  /** The keys of `COLUMN_DEFINITIONS`. */
  datatype Column = DateColumn | UserNameColumn | SubscriptionTypeColumn

  function Header(c: Column): string {
    match c
    case DateColumn => "Datum/čas"
    case UserNameColumn => "Jméno uživatele"
    case SubscriptionTypeColumn => "Předplatné"
  }

  const DEFAULT_COLUMNS: seq<Column> := [DateColumn, UserNameColumn, SubscriptionTypeColumn]

  const NO_DATA_TEXT: string := "Žádné vstupy v tomto období."

  function RenderCell(c: Column, e: Entry, formatDate: Option<string> -> string): Cell {
    match c
    case DateColumn => Text(formatDate(StrOr(e.entryDate, e.date)))
    case UserNameColumn => UserNameCell(e.firstName, e.lastName, e.userID)
    case SubscriptionTypeColumn => Text(FirstTruthyOrDash([e.subscriptionType]))
  }

  /** The footer: one cell spanning `span` columns with the entry count. */
  datatype Footer = Footer(span: int, text: string)

  datatype View =
    | NoData(text: string)
    | Table(headers: seq<string>, rows: seq<seq<Cell>>, footer: Option<Footer>)

  /** `EntryHistoryTable({entries, formatDate, columns, showTotal})`; `None`
      for `columns` or `showTotal` is an omitted prop, which takes its
      default from `defaultProps`. */
  function Render(entries: seq<Entry>, formatDate: Option<string> -> string,
                  columns: Option<seq<Column>>, showTotal: Option<bool>): (v: View)
    ensures |entries| == 0 <==> v == NoData(NO_DATA_TEXT)
    ensures v.Table? ==> |v.rows| == |entries| && |v.headers| == |columns.GetOr(DEFAULT_COLUMNS)|
    ensures v.Table? ==> forall i :: 0 <= i < |entries| ==> |v.rows[i]| == |columns.GetOr(DEFAULT_COLUMNS)|
  {
    var cols := columns.GetOr(DEFAULT_COLUMNS);
    if |entries| == 0 then NoData(NO_DATA_TEXT)
    else
      Table(seq(|cols|, j requires 0 <= j < |cols| => Header(cols[j])),
            seq(|entries|, i requires 0 <= i < |entries| =>
              seq(|cols|, j requires 0 <= j < |cols| => RenderCell(cols[j], entries[i], formatDate))),
            if showTotal.GetOr(true)
            then Some(Footer(|cols|, "Celkový počet vstupů: " + IntToString(|entries|)))
            else None)
  }

  /** Cell `(i, j)` is column `j` rendered for entry `i`. */
  lemma GridCells(entries: seq<Entry>, formatDate: Option<string> -> string,
                  columns: Option<seq<Column>>, showTotal: Option<bool>, i: nat, j: nat)
    requires i < |entries| && j < |columns.GetOr(DEFAULT_COLUMNS)|
    ensures var v := Render(entries, formatDate, columns, showTotal);
            var cols := columns.GetOr(DEFAULT_COLUMNS);
            && v.Table?
            && v.headers[j] == Header(cols[j])
            && v.rows[i][j] == RenderCell(cols[j], entries[i], formatDate)
  {
  }

  /** The footer appears exactly when totals are on (whatever the columns),
      spans the whole table, and its count is the number of rows. */
  lemma FooterRule(entries: seq<Entry>, formatDate: Option<string> -> string,
                   columns: Option<seq<Column>>, showTotal: Option<bool>)
    requires |entries| > 0
    ensures var v := Render(entries, formatDate, columns, showTotal);
            && (v.footer.Some? <==> showTotal != Some(false))
            && (v.footer.Some? ==> v.footer.value.span == |v.headers|)
            && (v.footer.Some? ==> v.footer.value.text == "Celkový počet vstupů: " + IntToString(|v.rows|))
  {
  }

  /** With every prop defaulted, a non-empty table has the three default
      columns and the footer. */
  lemma DefaultsShowTotal(entries: seq<Entry>, formatDate: Option<string> -> string)
    requires |entries| > 0
    ensures var v := Render(entries, formatDate, None, None);
            && v.headers == ["Datum/čas", "Jméno uživatele", "Předplatné"]
            && v.footer.Some? && v.footer.value.span == 3
  {
  }

  /** The date cell formats `entryDate`, falling back to `date` when
      `entryDate` is absent or empty; the subscription cell is the type or
      `-`. */
  lemma CellFallbacks(e: Entry, formatDate: Option<string> -> string)
    ensures RenderCell(DateColumn, e, formatDate)
            == Text(formatDate(if StrTruthy(e.entryDate) then e.entryDate else e.date))
    ensures RenderCell(SubscriptionTypeColumn, e, formatDate)
            == Text(if StrTruthy(e.subscriptionType) then e.subscriptionType.value else "-")
  {
    var c := [e.subscriptionType];
    if StrTruthy(e.subscriptionType) {
      assert StrTruthy(c[0]);
    }
  }
}
