/*******************************************************************************
 *  `chargeOneTimeEntry` of src/utils/oneTimeEntryUtils.js: the request that
 *  charges one-time entries to a registered member or to an unregistered
 *  card, and the backend's reading of that request.
 *******************************************************************************/

module OneTimeEntryUtils {
  import opened Js
  import opened Calendar
  import opened Effects
  import IsoDates

  /** Entry-type identifiers shared with the backend. */
  const STANDARD_ENTRY_ID: int := 1
  const STUDENT_ENTRY_ID: int := 2
  const MANUAL_ENTRY_ID: int := 3

  /** The user id that marks a charge to a card not linked to any member. */
  const UNREGISTERED_USER_ID: int := -1

  const REGISTERED_URL: string := "/user-one-time-entries"
  const UNREGISTERED_URL: string := "/user-one-time-entries/unregistered"

  /** The three entry types are distinct. */
  lemma EntryIdsDistinct()
    ensures STANDARD_ENTRY_ID != STUDENT_ENTRY_ID
    ensures STUDENT_ENTRY_ID != MANUAL_ENTRY_ID
    ensures STANDARD_ENTRY_ID != MANUAL_ENTRY_ID
    ensures [STANDARD_ENTRY_ID, STUDENT_ENTRY_ID, MANUAL_ENTRY_ID] == [1, 2, 3]
  {
  }

  /** The JSON payload of a charge, built from its pieces: the four fixed
      fields, `customPrice` only for a manual entry and `cardNumber` only for
      an unregistered card with a card number given. */
  function ChargePayload(userID: int, oneTimeEntryID: int, cardNumber: Option<string>,
                         customPrice: int, purchaseDate: string): (f: map<string, Json>)
    ensures {"userID", "oneTimeEntryID", "purchaseDate", "isUsed"} <= f.Keys
    ensures f.Keys <= {"userID", "oneTimeEntryID", "purchaseDate", "isUsed", "customPrice", "cardNumber"}
    ensures f["userID"] == JNum(userID)
    ensures f["oneTimeEntryID"] == JNum(oneTimeEntryID)
    ensures f["isUsed"] == JBool(false)
    ensures f["purchaseDate"] == JStr(purchaseDate)
    ensures "customPrice" in f <==> oneTimeEntryID == MANUAL_ENTRY_ID
    ensures "customPrice" in f ==> f["customPrice"] == JNum(customPrice)
    ensures "cardNumber" in f <==> userID == UNREGISTERED_USER_ID && cardNumber.Some?
    ensures "cardNumber" in f ==> f["cardNumber"] == JStr(cardNumber.value)
  {
    var fixed := map["userID" := JNum(userID), "oneTimeEntryID" := JNum(oneTimeEntryID),
                     "purchaseDate" := JStr(purchaseDate), "isUsed" := JBool(false)];
    var priced := if oneTimeEntryID == MANUAL_ENTRY_ID then fixed["customPrice" := JNum(customPrice)] else fixed;
    if userID == UNREGISTERED_USER_ID && cardNumber.Some? then priced["cardNumber" := JStr(cardNumber.value)] else priced
  }

  /** `chargeOneTimeEntry(userID, oneTimeEntryID, count, cardNumber,
      customPrice)` with the clock reading `now`: the single POST it awaits,
      dated with the calendar day of `now`. A rejected request propagates to
      the caller unchanged. */
  function ChargeOneTimeEntry(userID: int, oneTimeEntryID: int, count: int,
                              cardNumber: Option<string>, customPrice: int, now: Instant): (r: Request)
    ensures r.verb == Post
    ensures r.url == (if userID == UNREGISTERED_USER_ID then UNREGISTERED_URL else REGISTERED_URL)
    ensures r.params == map["count" := JNum(count)]
    ensures r.body == JObj(ChargePayload(userID, oneTimeEntryID, cardNumber, customPrice,
                                         IsoDates.DatePart(IsoDates.IsoString(now))))
  {
    var purchaseDate := IsoDates.DatePart(IsoDates.IsoString(now));
    var url := if userID == UNREGISTERED_USER_ID then UNREGISTERED_URL else REGISTERED_URL;
    PostRequest(url, JObj(ChargePayload(userID, oneTimeEntryID, cardNumber, customPrice, purchaseDate)),
                map["count" := JNum(count)])
  }

  /** The call with every optional argument left out: the backend reads it
      as one entry of today's date, with no card number, and a price of 0
      only for a manual entry. */
  function ChargeWithDefaults(userID: int, oneTimeEntryID: int, now: Instant): (r: Request)
    ensures ReadCharge(r) == Some(Charge(userID == UNREGISTERED_USER_ID, userID, oneTimeEntryID, 1,
                                         IsoDates.DatePart(IsoDates.IsoString(now)), None,
                                         if oneTimeEntryID == MANUAL_ENTRY_ID then Some(0) else None))
  {
    ChargeRoundTrip(userID, oneTimeEntryID, 1, None, 0, now);
    ChargeOneTimeEntry(userID, oneTimeEntryID, 1, None, 0, now)
  }

  // ---------------------------------------------------------------------------
  // The backend's view of a charge
  // ---------------------------------------------------------------------------

  /** What a charge request asks the backend to record. */
  datatype Charge = Charge(
    unregistered: bool,
    userID: int,
    entryTypeID: int,
    count: int,
    purchaseDate: string,
    cardNumber: Option<string>,
    unitPrice: Option<int>)

  function NumField(f: map<string, Json>, key: string): Option<int> {
    if key in f && f[key].JNum? then Some(f[key].n) else None
  }

  function StrField(f: map<string, Json>, key: string): Option<string> {
    if key in f && f[key].JStr? then Some(f[key].s) else None
  }

  /** Reads a one-time-entry charge out of a request, or `None` if the
      request is not one. */
  function ReadCharge(r: Request): Option<Charge> {
    if r.verb != Post || !r.body.JObj? || !(r.url == REGISTERED_URL || r.url == UNREGISTERED_URL) then None
    else
      var f := r.body.fields;
      match (NumField(f, "userID"), NumField(f, "oneTimeEntryID"), StrField(f, "purchaseDate"), NumField(r.params, "count"))
      case (Some(u), Some(e), Some(d), Some(c)) =>
        if "isUsed" in f && f["isUsed"] == JBool(false) then
          Some(Charge(r.url == UNREGISTERED_URL, u, e, c, d, StrField(f, "cardNumber"), NumField(f, "customPrice")))
        else None
      case _ => None
  }

  /** Every request `chargeOneTimeEntry` sends is read back as the charge it
      was built from: routed to the unregistered endpoint exactly for the
      user id -1, carrying the card number only there and the custom price
      only for manual entries. */
  lemma ChargeRoundTrip(userID: int, oneTimeEntryID: int, count: int,
                        cardNumber: Option<string>, customPrice: int, now: Instant)
    ensures ReadCharge(ChargeOneTimeEntry(userID, oneTimeEntryID, count, cardNumber, customPrice, now))
            == Some(Charge(
                 userID == UNREGISTERED_USER_ID,
                 userID, oneTimeEntryID, count,
                 IsoDates.DatePart(IsoDates.IsoString(now)),
                 if userID == UNREGISTERED_USER_ID then cardNumber else None,
                 if oneTimeEntryID == MANUAL_ENTRY_ID then Some(customPrice) else None))
  {
  }

  /** The purchase date is the ISO calendar date of the clock reading. */
  lemma PurchaseDateIsIsoDate(userID: int, oneTimeEntryID: int, count: int,
                              cardNumber: Option<string>, customPrice: int, now: Instant)
    ensures ChargeOneTimeEntry(userID, oneTimeEntryID, count, cardNumber, customPrice, now).body.fields["purchaseDate"]
            == JStr(IsoDates.IsoDate(now.date))
  {
    IsoDates.DatePartOfIsoString(now);
  }
}
