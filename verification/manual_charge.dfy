/*******************************************************************************
 *  src/pages/ManualCharge.jsx: charging member 1 a subscription with an end
 *  date picked by hand. The clock reading and the outcome of the POST are
 *  parameters; the member's data comes from `useChargeSubscription`.
 *******************************************************************************/

module ManualCharge {
  import opened Js
  import opened Calendar
  import opened Effects
  import IsoDates

  const USER_ID: int := 1

  /** The subscription definition used for hand-picked periods. */
  const MANUAL_SUBSCRIPTION_ID: int := 6

  const END_DATE_REQUIRED: string := "Zadejte datum konce."
  const CHARGED: string := "Předplatné úspěšně dobito."
  const CHARGE_FAILED: string := "Nepodařilo se provést dobití."

  /** The POST that charges member 1 the manual subscription from today to
      the typed end date: for a year of at most four digits the start date
      reads back as today's date. */
  function ChargeRequest(customEndDate: string, now: Instant): (r: Request)
    ensures r.verb == Post && r.url == "/user-subscriptions" && r.params == map[]
    ensures r.body.JObj?
    ensures r.body.fields.Keys == {"userID", "subscriptionID", "startDate", "endDate", "isActive", "customEndDate"}
    ensures r.body.fields["userID"] == JNum(USER_ID) && r.body.fields["subscriptionID"] == JNum(MANUAL_SUBSCRIPTION_ID)
    ensures r.body.fields["isActive"] == JBool(true)
    ensures r.body.fields["endDate"] == r.body.fields["customEndDate"] == JStr(customEndDate)
    ensures r.body.fields["startDate"].JStr?
    ensures 0 <= now.date.year <= 9999 ==> IsoDates.ParseIsoDate(r.body.fields["startDate"].s) == Some(now.date)
  {
    var r := PostRequest("/user-subscriptions",
                         JObj(map["userID" := JNum(USER_ID), "subscriptionID" := JNum(MANUAL_SUBSCRIPTION_ID),
                                  "startDate" := JStr(IsoDates.SlicePrefix(IsoDates.IsoString(now), 10)),
                                  "endDate" := JStr(customEndDate), "isActive" := JBool(true),
                                  "customEndDate" := JStr(customEndDate)]),
                         map[]);
    if 0 <= now.date.year <= 9999 then
      IsoDates.SliceTenOfIsoString(now);
      IsoDates.IsoDateRoundTrip(now.date);
      r
    else r
  }

  /** `handleConfirm()` with the end date typed so far, at clock reading
      `now`. */
  function Confirm(customEndDate: string, now: Instant, succeeded: bool): (effects: seq<Effect>)
    ensures customEndDate == "" ==> effects == [Toast(Warning, END_DATE_REQUIRED)]
    ensures customEndDate != "" ==> (&& |effects| == 2
                                     && effects[0] == Send(ChargeRequest(customEndDate, now))
                                     && effects[1].Toast?
                                     && (effects[1].level == Success <==> succeeded))
  {
    if customEndDate == "" then [Toast(Warning, END_DATE_REQUIRED)]
    else [Send(ChargeRequest(customEndDate, now)),
          if succeeded then Toast(Success, CHARGED) else Toast(Error, CHARGE_FAILED)]
  }

  /** Nothing is posted without an end date; with one, exactly one POST. */
  lemma OnePostWithEndDate(customEndDate: string, now: Instant, succeeded: bool)
    ensures var effects := Confirm(customEndDate, now, succeeded);
            && (customEndDate == "" <==> Requests(effects) == [])
            && (customEndDate != "" ==> Requests(effects) == [ChargeRequest(customEndDate, now)])
  {
    var effects := Confirm(customEndDate, now, succeeded);
    if customEndDate == "" {
      LogOfOne(effects[0]);
    } else {
      assert effects == [effects[0], effects[1]];
      LogOfTwo(effects[0], effects[1]);
      LogOfOne(effects[0]);
      LogOfOne(effects[1]);
    }
  }

  /** The POST charges member 1 the active subscription 6 from today's ISO
      date to the typed date, which is also sent as the custom end date. */
  lemma ChargeBody(customEndDate: string, now: Instant)
    requires 0 <= now.date.year <= 9999
    ensures var body := ChargeRequest(customEndDate, now).body.fields;
            && body["userID"] == JNum(1) && body["subscriptionID"] == JNum(6)
            && body["isActive"] == JBool(true)
            && body["endDate"] == JStr(customEndDate) && body["customEndDate"] == body["endDate"]
            && body["startDate"] == JStr(IsoDates.IsoDate(now.date))
            && IsoDates.ParseIsoDate(body["startDate"].s) == Some(now.date)
  {
    IsoDates.SliceTenOfIsoString(now);
    IsoDates.IsoDateRoundTrip(now.date);
  }

  /** The `error` effect: a toast for a non-empty load error of the hook. */
  function ErrorToasts(error: string): (effects: seq<Effect>)
    ensures error == "" <==> effects == []
    ensures error != "" ==> effects == [Toast(Error, error)]
  {
    if error != "" then [Toast(Error, error)] else []
  }
}
