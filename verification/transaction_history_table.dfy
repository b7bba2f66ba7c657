/*******************************************************************************
 *  src/components/TransactionHistoryTable.jsx: the table of a member's (or
 *  the gym's) purchases with a price total in the footer. Amounts are whole
 *  crowns; the date formatter is the caller's and is a parameter.
 *******************************************************************************/

module TransactionHistoryTable {
  import opened Js
  import opened TableCells

  /** A purchase as the backend lists it; `None` is an absent field. */
  datatype Transaction = Transaction(
    id: Option<int>,
    transactionDate: Option<string>,
    date: Option<string>,
    firstName: Option<string>,
    lastName: Option<string>,
    userId: Option<int>,
    purchaseType: Option<string>,
    itemName: Option<string>,
    amount: Option<int>,
    note: Option<string>)

  /** The keys of `COLUMN_DEFINITIONS`. */
  datatype Column = DateColumn | UserNameColumn | PurchaseTypeColumn | AmountColumn | NoteColumn

  function Header(c: Column): string {
    match c
    case DateColumn => "Datum/čas"
    case UserNameColumn => "Jméno uživatele"
    case PurchaseTypeColumn => "Položka"
    case AmountColumn => "Cena"
    case NoteColumn => "Popis (poznámka)"
  }

  const DEFAULT_COLUMNS: seq<Column> := [DateColumn, UserNameColumn, PurchaseTypeColumn, AmountColumn]

  const NO_DATA_TEXT: string := "Žádné transakce v tomto období."

  /** `${v} Kč` for an amount that may be absent (printed `undefined`). */
  function PriceText(amount: Option<int>): string {
    (if amount.Some? then IntToString(amount.value) else "undefined") + " Kč"
  }

  /** `render(tx, formatDate)` of one column. */
  function RenderCell(c: Column, tx: Transaction, formatDate: Option<string> -> string): Cell {
    match c
    case DateColumn => Text(formatDate(StrOr(tx.transactionDate, tx.date)))
    case UserNameColumn => UserNameCell(tx.firstName, tx.lastName, tx.userId)
    case PurchaseTypeColumn => Text(FirstTruthyOrDash([tx.purchaseType, tx.itemName]))
    case AmountColumn => Text(PriceText(tx.amount))
    case NoteColumn => Text(FirstTruthyOrDash([tx.note]))
  }

  /** `tx.amount || 0`. */
  function AmountOrZero(tx: Transaction): int {
    IntOrZero(tx.amount)
  }

  /** `transactions.reduce((acc, tx) => acc + (tx.amount || 0), 0)`. */
  function TotalPrice(txs: seq<Transaction>): int
    decreases |txs|
  {
    if txs == [] then 0 else TotalPrice(txs[..|txs| - 1]) + AmountOrZero(txs[|txs| - 1])
  }

  /** The total over two lists one after the other is the sum of their
      totals. */
  lemma {:induction false} TotalPriceAppend(a: seq<Transaction>, b: seq<Transaction>)
    ensures TotalPrice(a + b) == TotalPrice(a) + TotalPrice(b)
    decreases |b|
  {
    if b != [] {
      var ab := a + b;
      assert ab[..|ab| - 1] == a + b[..|b| - 1];
      assert ab[|ab| - 1] == b[|b| - 1];
      assert TotalPrice(ab) == TotalPrice(a + b[..|b| - 1]) + AmountOrZero(b[|b| - 1]);
      TotalPriceAppend(a, b[..|b| - 1]);
      assert TotalPrice(b) == TotalPrice(b[..|b| - 1]) + AmountOrZero(b[|b| - 1]);
    } else {
      assert a + b == a;
    }
  }

  /** A missing or zero amount adds nothing, so dropping such transactions
      keeps the total; a single transaction contributes its amount. */
  lemma TotalPriceOfOne(tx: Transaction)
    ensures TotalPrice([tx]) == (if tx.amount.Some? then tx.amount.value else 0)
  {
    assert [tx][..0] == [];
  }

  /** With non-negative amounts the total bounds every single amount. */
  lemma {:induction false} TotalPriceBoundsEach(txs: seq<Transaction>, i: nat)
    requires i < |txs|
    requires forall k :: 0 <= k < |txs| ==> AmountOrZero(txs[k]) >= 0
    ensures 0 <= AmountOrZero(txs[i]) <= TotalPrice(txs)
    decreases |txs|
  {
    TotalPriceNonNegative(txs[..|txs| - 1]);
    if i < |txs| - 1 {
      TotalPriceBoundsEach(txs[..|txs| - 1], i);
    }
  }

  lemma {:induction false} TotalPriceNonNegative(txs: seq<Transaction>)
    requires forall k :: 0 <= k < |txs| ==> AmountOrZero(txs[k]) >= 0
    ensures TotalPrice(txs) >= 0
    decreases |txs|
  {
    if txs != [] {
      TotalPriceNonNegative(txs[..|txs| - 1]);
    }
  }

  /** The footer: `Celkem` spanning `labelSpan` cells, then the total. */
  datatype Footer = Footer(labelSpan: int, total: string)

  datatype View =
    | NoData(text: string)
    | Table(headers: seq<string>, rows: seq<seq<Cell>>, footer: Option<Footer>)

  /** `TransactionHistoryTable({transactions, formatDate, columns,
      showTotal})`; `None` for `columns` or `showTotal` is an omitted prop,
      which takes its default. */
  function Render(txs: seq<Transaction>, formatDate: Option<string> -> string,
                  columns: Option<seq<Column>>, showTotal: Option<bool>): (v: View)
    ensures |txs| == 0 <==> v == NoData(NO_DATA_TEXT)
    ensures v.Table? ==> |v.rows| == |txs| && |v.headers| == |columns.GetOr(DEFAULT_COLUMNS)|
    ensures v.Table? ==> forall i :: 0 <= i < |txs| ==> |v.rows[i]| == |columns.GetOr(DEFAULT_COLUMNS)|
  {
    var cols := columns.GetOr(DEFAULT_COLUMNS);
    if |txs| == 0 then NoData(NO_DATA_TEXT)
    else
      Table(seq(|cols|, j requires 0 <= j < |cols| => Header(cols[j])),
            seq(|txs|, i requires 0 <= i < |txs| =>
              seq(|cols|, j requires 0 <= j < |cols| => RenderCell(cols[j], txs[i], formatDate))),
            if showTotal.GetOr(true) && AmountColumn in cols
            then Some(Footer(|cols| - 1, IntToString(TotalPrice(txs)) + " Kč"))
            else None)
  }

  /** Cell `(i, j)` is column `j` rendered for transaction `i`, and the
      header row names the columns in order. */
  lemma GridCells(txs: seq<Transaction>, formatDate: Option<string> -> string,
                  columns: Option<seq<Column>>, showTotal: Option<bool>, i: nat, j: nat)
    requires i < |txs| && j < |columns.GetOr(DEFAULT_COLUMNS)|
    ensures var v := Render(txs, formatDate, columns, showTotal);
            var cols := columns.GetOr(DEFAULT_COLUMNS);
            && v.Table?
            && v.headers[j] == Header(cols[j])
            && v.rows[i][j] == RenderCell(cols[j], txs[i], formatDate)
  {
  }

  /** The footer appears exactly when totals are on and the price column is
      shown; it then fills the table's width (label cells plus the total
      cell equal the number of columns) and carries the sum of the amounts. */
  lemma FooterRule(txs: seq<Transaction>, formatDate: Option<string> -> string,
                   columns: Option<seq<Column>>, showTotal: Option<bool>)
    requires |txs| > 0
    ensures var v := Render(txs, formatDate, columns, showTotal);
            var cols := columns.GetOr(DEFAULT_COLUMNS);
            && (v.footer.Some? <==> showTotal != Some(false) && AmountColumn in cols)
            && (v.footer.Some? ==> v.footer.value.labelSpan + 1 == |v.headers|)
            && (v.footer.Some? ==> v.footer.value.total == IntToString(TotalPrice(txs)) + " Kč")
  {
  }

  /** With every prop defaulted, a non-empty table has the four default
      columns and a footer whose label spans three of them. */
  lemma DefaultsShowTotal(txs: seq<Transaction>, formatDate: Option<string> -> string)
    requires |txs| > 0
    ensures var v := Render(txs, formatDate, None, None);
            && v.headers == ["Datum/čas", "Jméno uživatele", "Položka", "Cena"]
            && v.footer.Some? && v.footer.value.labelSpan == 3
  {
  }

  /** The item cell is the purchase type, else the item name, else `-`; the
      note cell is the note or `-`. Neither is ever blank. */
  lemma TextFallbacks(tx: Transaction, formatDate: Option<string> -> string)
    ensures var item := RenderCell(PurchaseTypeColumn, tx, formatDate);
            && item.Text? && item.s != ""
            && (StrTruthy(tx.purchaseType) ==> item.s == tx.purchaseType.value)
            && (!StrTruthy(tx.purchaseType) && StrTruthy(tx.itemName) ==> item.s == tx.itemName.value)
            && (!StrTruthy(tx.purchaseType) && !StrTruthy(tx.itemName) ==> item.s == "-")
    ensures var note := RenderCell(NoteColumn, tx, formatDate);
            && note.Text? && note.s == (if StrTruthy(tx.note) then tx.note.value else "-")
  {
    var c := [tx.purchaseType, tx.itemName];
    var r := FirstTruthyOrDash(c);
    if !StrTruthy(tx.purchaseType) && StrTruthy(tx.itemName) {
      assert StrTruthy(c[1]);
      var k :| 0 <= k < |c| && c[k] == Some(r) && forall j :: 0 <= j < k ==> !StrTruthy(c[j]);
      assert k != 0;
    }
    if StrTruthy(tx.purchaseType) {
      assert StrTruthy(c[0]);
    }
    var n := [tx.note];
    if StrTruthy(tx.note) {
      assert StrTruthy(n[0]);
    }
  }
}
