/*******************************************************************************
 *  src/hooks/useOneTimeEntries.js: loading a member's one-time entries (or
 *  every entry definition when no member is given) and counting the unused
 *  ones. The request's outcome is a parameter.
 *******************************************************************************/

module UseOneTimeEntries {
  import opened Js
  import opened Effects

  /** A one-time entry record; only its `isUsed` flag matters here (the
      definitions listed by `/one-time-entries` have none, which reads as
      `undefined`, i.e. `JNull`). */
  datatype OneTimeEntry = OneTimeEntry(id: int, isUsed: Json)

  /** `entries.filter(entry => !entry.isUsed)`. */
  function Unused(entries: seq<OneTimeEntry>): (r: seq<OneTimeEntry>)
    ensures |r| <= |entries|
    ensures forall e :: e in r <==> e in entries && !Truthy(e.isUsed)
    ensures |r| == |entries| <==> forall i :: 0 <= i < |entries| ==> !Truthy(entries[i].isUsed)
    decreases |entries|
  {
    if entries == [] then []
    else
      var rest := Unused(entries[1..]);
      assert forall i :: 1 <= i < |entries| ==> entries[i] == entries[1..][i - 1];
      if Truthy(entries[0].isUsed) then rest else [entries[0]] + rest
  }

  /** The number of unused entries. */
  function CountUnused(entries: seq<OneTimeEntry>): (n: nat)
    ensures n <= |entries|
  {
    |Unused(entries)|
  }

  /** Counting distributes over concatenation, so the count of a list is the
      number of its positions whose entry is unused. */
  lemma {:induction false} CountUnusedAppend(a: seq<OneTimeEntry>, b: seq<OneTimeEntry>)
    ensures CountUnused(a + b) == CountUnused(a) + CountUnused(b)
    decreases |a|
  {
    if a == [] {
      assert a + b == b;
    } else {
      assert (a + b)[1..] == a[1..] + b;
      assert (a + b)[0] == a[0];
      CountUnusedAppend(a[1..], b);
    }
  }

  /** The hook's state. */
  datatype HookState = HookState(entries: seq<OneTimeEntry>, oneTimeCount: nat, loading: bool, error: string)

  const Initial: HookState := HookState([], 0, false, "")

  const LOAD_ERROR: string := "Nepodařilo se načíst jednorázové vstupy"

  /** The endpoint: a member's entries for a truthy `userId`, every entry
      definition otherwise. */
  function EntriesUrl(userId: Option<Id>): (url: string)
    ensures userId.Some? && IdTruthy(userId.value) ==> url == "/user-one-time-entries/user/" + IdText(userId.value)
    ensures !(userId.Some? && IdTruthy(userId.value)) ==> url == "/one-time-entries"
  {
    if userId.Some? && IdTruthy(userId.value) then "/user-one-time-entries/user/" + IdText(userId.value)
    else "/one-time-entries"
  }

  /** One run of the effect: the request sent, the state while it is in
      flight, and the state afterwards. `response` is `None` for a failed
      request and `Some(None)` for a response whose `data` is `null`. */
  datatype Fetch = Fetch(request: Request, during: HookState, state: HookState)

  function FetchOneTimeEntries(userId: Option<Id>, state: HookState,
                               response: Option<Option<seq<OneTimeEntry>>>): (f: Fetch)
    ensures f.request == GetRequest(EntriesUrl(userId), map[])
    ensures f.during == state.(loading := true, error := "")
    ensures !f.state.loading
    ensures response.None? ==> f.state == state.(loading := false, error := LOAD_ERROR)
    ensures response.Some? ==> f.state.error == ""
                               && f.state.entries == response.value.GetOr([])
                               && f.state.oneTimeCount == CountUnused(f.state.entries)
  {
    var request := GetRequest(EntriesUrl(userId), map[]);
    var during := state.(loading := true, error := "");
    match response
    case None => Fetch(request, during, during.(loading := false, error := LOAD_ERROR))
    case Some(data) =>
      var entries := data.GetOr([]);
      Fetch(request, during, HookState(entries, CountUnused(entries), false, ""))
  }

  /** A successful load counts every unused entry and nothing else: the
      count equals the length exactly when none is used, and a `null` list
      counts zero. */
  lemma FetchCounts(userId: Option<Id>, state: HookState, data: Option<seq<OneTimeEntry>>)
    ensures var s := FetchOneTimeEntries(userId, state, Some(data)).state;
            && s.oneTimeCount <= |s.entries|
            && (s.oneTimeCount == |s.entries| <==> forall i :: 0 <= i < |s.entries| ==> !Truthy(s.entries[i].isUsed))
            && (data.None? ==> s.entries == [] && s.oneTimeCount == 0)
  {
  }
}
