/*******************************************************************************
 *  src/pages/ChargeOneTimeEntry.jsx and src/pages/ChargeOneTimeEntryStudent.jsx:
 *  once `UserIdentifier` reports a member, charge one standard (or student)
 *  entry to them and return to the home page. The two pages differ in the
 *  entry type, the way the purchase date is written and the toast texts.
 *******************************************************************************/

module ChargeOneTimeEntryPages {
  import opened Js
  import opened Calendar
  import opened Effects
  import DateUtils
  import IsoDates
  import OneTimeEntryUtils
  import UserIdentifier

  datatype Page = StandardPage | StudentPage

  function EntryId(p: Page): int {
    match p
    case StandardPage => OneTimeEntryUtils.STANDARD_ENTRY_ID
    case StudentPage => OneTimeEntryUtils.STUDENT_ENTRY_ID
  }

  /** The standard page writes `DD.MM.YYYY HH:mm`, the student page the date
      part of the ISO timestamp. */
  function PurchaseDate(p: Page, now: Instant): string {
    match p
    case StandardPage => DateUtils.FormatDate(Some(now))
    case StudentPage => IsoDates.DatePart(IsoDates.IsoString(now))
  }

  function SuccessText(p: Page): string {
    match p
    case StandardPage => "Jednorázový vstup úspěšně dobit."
    case StudentPage => "Studentský vstup úspěšně dobit."
  }

  function FailureText(p: Page): string {
    match p
    case StandardPage => "Nepodařilo se dobít jednorázový vstup."
    case StudentPage => "Nepodařilo se dobít studentský vstup."
  }

  /** The POST of one entry for `userId` at clock reading `now`. For a
      four-digit year its purchase date reads back as the current minute on
      the standard page and as the current day on the student page. */
  function ChargeRequest(p: Page, userId: Json, now: Instant): (r: Request)
    ensures r.verb == Post && r.body.JObj? && "purchaseDate" in r.body.fields && r.body.fields["purchaseDate"].JStr?
    ensures 1000 <= now.date.year <= 9999 && p == StandardPage ==>
              DateUtils.ParseDisplayDate(r.body.fields["purchaseDate"].s) == Some(At(now.date, now.hour, now.minute))
    ensures 1000 <= now.date.year <= 9999 && p == StudentPage ==>
              IsoDates.ParseIsoDate(r.body.fields["purchaseDate"].s) == Some(now.date)
  {
    var r := PostRequest("/user-one-time-entries",
                         JObj(map["userID" := userId, "oneTimeEntryID" := JNum(EntryId(p)),
                                  "purchaseDate" := JStr(PurchaseDate(p, now)), "isUsed" := JBool(false)]),
                         map["count" := JNum(1)]);
    if 1000 <= now.date.year <= 9999 then
      DateUtils.FormatDateRoundTrip(now);
      IsoDates.DatePartOfIsoString(now);
      IsoDates.IsoDateRoundTrip(now.date);
      r
    else r
  }

  /** The effect on `[userId]` at clock reading `now`, the POST succeeding or
      not as `succeeded` says. A falsy id (the initial `null` included) does
      nothing; otherwise one POST, one toast, and home in every case. */
  function ChargeEffect(p: Page, userId: Json, now: Instant, succeeded: bool): (effects: seq<Effect>)
    ensures !Truthy(userId) <==> effects == []
    ensures Truthy(userId) ==> (&& |effects| == 3
                               && effects[0] == Send(ChargeRequest(p, userId, now))
                               && effects[1].Toast?
                               && (effects[1].level == Success <==> succeeded)
                               && effects[2] == Navigate("/"))
  {
    if !Truthy(userId) then []
    else
      [Send(ChargeRequest(p, userId, now)),
       if succeeded then Toast(Success, SuccessText(p)) else Toast(Error, FailureText(p)),
       Navigate("/")]
  }

  /** The request carries count 1, the member's id exactly as handed
      over, the page's entry type and `isUsed` false, and nothing else. */
  lemma ChargeRequestFields(p: Page, userId: Json, now: Instant)
    ensures var q := ChargeRequest(p, userId, now);
            && q.verb == Post && q.url == OneTimeEntryUtils.REGISTERED_URL
            && q.params == map["count" := JNum(1)]
            && q.body.fields.Keys == {"userID", "oneTimeEntryID", "purchaseDate", "isUsed"}
            && q.body.fields["userID"] == userId
            && q.body.fields["oneTimeEntryID"] == JNum(if p == StandardPage then 1 else 2)
            && q.body.fields["isUsed"] == JBool(false)
  {
  }

  /** A charge sends exactly one request, that POST, whatever its outcome. */
  lemma OneChargePerMember(p: Page, userId: Json, now: Instant, succeeded: bool)
    requires Truthy(userId)
    ensures var effects := ChargeEffect(p, userId, now, succeeded);
            && Requests(effects) == [ChargeRequest(p, userId, now)]
            && PostCount(effects) == 1
  {
    var effects := ChargeEffect(p, userId, now, succeeded);
    var q := ChargeRequest(p, userId, now);
    assert q.verb == Post;
    assert effects == [Send(q), effects[1], Navigate("/")];
    LogOfThree(Send(q), effects[1], Navigate("/"));
    LogOfOne(Send(q));
    LogOfOne(effects[1]);
    LogOfOne(Navigate("/"));
  }

  /** The page fed by `UserIdentifier`: whenever the lookup hands over an id,
      that very id is charged. */
  lemma IdentifiedMemberIsCharged(p: Page, card: UserIdentifier.State, response: Option<Json>,
                                  now: Instant, succeeded: bool)
    requires card.cardNumber != ""
    requires UserIdentifier.Classify(response).Found?
    ensures var id := UserIdentifier.Classify(response).userID;
            && Callbacks(UserIdentifier.Submit(card, response).effects) == [id]
            && ChargeEffect(p, id, now, succeeded)[0].request.body.fields["userID"] == id
  {
    UserIdentifier.CallbackExactlyWhenFound(card, response);
  }

  /** For a numeric member id other than -1 the student page sends exactly
      the request `chargeOneTimeEntry(userId, STUDENT_ENTRY_ID)` would,
      whereas the standard page writes its purchase date differently. */
  lemma StudentPageAgreesWithUtility(n: int, now: Instant)
    requires n != 0 && n != OneTimeEntryUtils.UNREGISTERED_USER_ID
    ensures ChargeRequest(StudentPage, JNum(n), now)
            == OneTimeEntryUtils.ChargeWithDefaults(n, OneTimeEntryUtils.STUDENT_ENTRY_ID, now)
    ensures 1000 <= now.date.year <= 9999 ==>
              ChargeRequest(StandardPage, JNum(n), now).body.fields["purchaseDate"]
              != OneTimeEntryUtils.ChargeWithDefaults(n, OneTimeEntryUtils.STANDARD_ENTRY_ID, now).body.fields["purchaseDate"]
  {
    var q := OneTimeEntryUtils.ChargeWithDefaults(n, OneTimeEntryUtils.STUDENT_ENTRY_ID, now);
    assert q.body.fields.Keys == {"userID", "oneTimeEntryID", "purchaseDate", "isUsed"};
    if 1000 <= now.date.year <= 9999 {
      DateUtils.FormatDateRoundTrip(now);
      IsoDates.DatePartOfIsoString(now);
      IsoDates.IsoDateRoundTrip(now.date);
    }
  }
}
