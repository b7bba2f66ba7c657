/*******************************************************************************
 *  src/pages/EntryStatusPage.jsx: the kiosk page that keeps the last entry
 *  status pushed by the backend and decides what to show. The STOMP
 *  subscription is not modelled; each message body arrives already run
 *  through `JSON.parse`, with `None` for a body that fails to parse.
 *******************************************************************************/

module EntryStatusPage {
  import opened Js

  /** The three state hooks of the page. */
  datatype PageState = PageState(status: Json, remainingEntries: Json, expiryDate: Json)

  /** All three start as `null`. */
  const Initial: PageState := PageState(JNull, JNull, JNull)

  /** `data.key ?? null`; `None` when reading the key throws, which is the
      case exactly for `data === null`. */
  function FieldOrNull(data: Json, key: string): Option<Json> {
    if data == JNull then None else Some(OrNull(Field(data, key)))
  }

  /** The subscription handler for one message. A body that fails to parse,
      or parses to `null` (whose property read throws), is caught and leaves
      the state as it was; any other value sets each field to its property
      or to `null` when absent (a number or string has none). */
  function OnMessage(state: PageState, parsed: Option<Json>): (next: PageState)
    ensures parsed.None? || parsed == Some(JNull) ==> next == state
    ensures parsed.Some? && parsed.value.JObj? ==>
              var f := parsed.value.fields;
              && next.status == (if "status" in f then f["status"] else JNull)
              && next.remainingEntries == (if "remainingEntries" in f then f["remainingEntries"] else JNull)
              && next.expiryDate == (if "expiryDate" in f then f["expiryDate"] else JNull)
    ensures parsed.Some? && parsed.value != JNull && !parsed.value.JObj? ==> next == Initial
  {
    match parsed
    case None => state
    case Some(data) =>
      if data == JNull then state
      else PageState(FieldOrNull(data, "status").value,
                     FieldOrNull(data, "remainingEntries").value,
                     FieldOrNull(data, "expiryDate").value)
  }

  /** What the page shows for a state. */
  datatype View = View(welcome: bool, remaining: Option<Json>, expired: Option<Json>, loading: bool)

  function Show(s: PageState): (v: View)
    ensures v.welcome <==> s.status == JStr("OK")
    ensures v.remaining.Some? <==> s.remainingEntries != JNull
    ensures v.expired.Some? <==> s.expiryDate != JNull
    ensures v.loading <==> s.status == JNull && s.remainingEntries == JNull && s.expiryDate == JNull
  {
    View(s.status == JStr("OK"),
         if s.remainingEntries != JNull then Some(s.remainingEntries) else None,
         if s.expiryDate != JNull then Some(s.expiryDate) else None,
         s.status == JNull && s.remainingEntries == JNull && s.expiryDate == JNull)
  }

  /** A message that parses to a non-null value replaces the whole state, so
      what was shown before it has no influence, and receiving it again
      changes nothing. */
  lemma MessageReplacesState(a: PageState, b: PageState, data: Json)
    requires data != JNull
    ensures OnMessage(a, Some(data)) == OnMessage(b, Some(data))
    ensures OnMessage(OnMessage(a, Some(data)), Some(data)) == OnMessage(a, Some(data))
  {
  }

  /** The loading text is on exactly until a message carrying some non-null
      status, remaining count or expiry date has been received: after any
      message it is on iff the last accepted one carried none of them. */
  lemma LoadingUntilData(state: PageState, data: Json)
    requires data.JObj?
    ensures Show(OnMessage(state, Some(data))).loading
            <==> (forall k :: k in {"status", "remainingEntries", "expiryDate"} && k in data.fields ==> data.fields[k] == JNull)
  {
  }

  /** The page starts in the loading view. */
  lemma InitiallyLoading()
    ensures Show(Initial) == View(false, None, None, true)
  {
  }
}
