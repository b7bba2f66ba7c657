/*******************************************************************************
 *  What the two history tables (src/components/TransactionHistoryTable.jsx
 *  and src/components/EntryHistoryTable.jsx) put into a cell, and the
 *  user-name rule both of them share.
 *******************************************************************************/

module TableCells {
  import opened Js

  /** The content React renders in a `<td>`: text, a number, or nothing (for
      `undefined`). */
  datatype Cell = Text(s: string) | Number(n: int) | Empty

  /** `row.firstName && row.lastName ? `${firstName} ${lastName}` : id`. */
  function UserNameCell(firstName: Option<string>, lastName: Option<string>, id: Option<int>): (c: Cell)
    ensures StrTruthy(firstName) && StrTruthy(lastName) ==> c == Text(firstName.value + " " + lastName.value)
    ensures !(StrTruthy(firstName) && StrTruthy(lastName)) ==> c == (if id.Some? then Number(id.value) else Empty)
  {
    if StrTruthy(firstName) && StrTruthy(lastName) then Text(firstName.value + " " + lastName.value)
    else if id.Some? then Number(id.value)
    else Empty
  }

  /** A full name cell is the first name, one space, and the last name: the
      two names can be read back by splitting at the first space whenever the
      first name has none. */
  lemma UserNameSplits(firstName: string, lastName: string, id: Option<int>)
    requires firstName != "" && lastName != "" && ' ' !in firstName
    ensures var c := UserNameCell(Some(firstName), Some(lastName), id);
            && c.Text?
            && c.s[..|firstName|] == firstName
            && c.s[|firstName|] == ' '
            && c.s[|firstName| + 1..] == lastName
  {
    var s := firstName + " " + lastName;
    assert s[..|firstName|] == firstName;
    assert s[|firstName| + 1..] == lastName;
  }

  /** `a || b || ... || '-'` on optional texts: the first truthy candidate,
      or `-` when there is none; never empty. */
  function FirstTruthyOrDash(candidates: seq<Option<string>>): (r: string)
    ensures r != ""
    ensures (forall i :: 0 <= i < |candidates| ==> !StrTruthy(candidates[i])) ==> r == "-"
    ensures (exists i :: 0 <= i < |candidates| && StrTruthy(candidates[i])) ==>
              exists i :: 0 <= i < |candidates| && candidates[i] == Some(r)
                          && forall j :: 0 <= j < i ==> !StrTruthy(candidates[j])
    decreases |candidates|
  {
    if candidates == [] then "-"
    else if StrTruthy(candidates[0]) then candidates[0].value
    else
      var r := FirstTruthyOrDash(candidates[1..]);
      assert forall i :: 1 <= i < |candidates| ==> candidates[i] == candidates[1..][i - 1];
      if exists i :: 0 <= i < |candidates| && StrTruthy(candidates[i]) then
        var i :| 0 <= i < |candidates| && StrTruthy(candidates[i]);
        assert StrTruthy(candidates[1..][i - 1]);
        var k :| 0 <= k < |candidates[1..]| && candidates[1..][k] == Some(r)
                 && forall j :: 0 <= j < k ==> !StrTruthy(candidates[1..][j]);
        assert candidates[k + 1] == Some(r);
        assert forall j :: 0 <= j < k + 1 ==> !StrTruthy(candidates[j]) by {
          forall j | 0 <= j < k + 1 ensures !StrTruthy(candidates[j]) {
            if j > 0 { assert candidates[j] == candidates[1..][j - 1]; }
          }
        }
        r
      else r
  }
}
