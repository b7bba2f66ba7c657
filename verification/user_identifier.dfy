/*******************************************************************************
 *  src/components/UserIdentifier.jsx: the modal that looks a member up by
 *  the number of their card and hands the member's id to its parent. The
 *  server's reply (or the failure of the request) is a parameter.
 *******************************************************************************/

module UserIdentifier {
  import opened Js
  import opened Effects

  datatype State = State(cardNumber: string, loading: bool)

  const Initial: State := State("", false)

  const EMPTY_CARD_WARNING: string := "Nejdříve zadejte číslo karty."
  const UNKNOWN_REPLY: string := "Neznámá odpověď serveru."
  const LOOKUP_ERROR: string := "Chyba při hledání uživatele."

  /** The four ways a lookup can end. */
  datatype Reply =
    | Warned(warning: Json)
    | Found(userID: Json)
    | Unknown
    | Failed

  /** How `handleSubmit` reads `response.data`; `None` is a rejected request.
      Reading a property of a `null` body throws, which the `catch` turns
      into the same error as a failed request. A truthy `warning` wins over
      any `userID`; a falsy `userID` (absent, `0`, `""`) is not a member. */
  function Classify(response: Option<Json>): (r: Reply)
    ensures response.None? || response == Some(JNull) ==> r == Failed
    ensures r.Warned? ==> Truthy(r.warning)
    ensures r.Found? ==> Truthy(r.userID)
    ensures response.Some? && response.value.JObj? ==>
              var f := response.value.fields;
              && ("warning" in f && Truthy(f["warning"]) ==> r == Warned(f["warning"]))
              && ((!("warning" in f && Truthy(f["warning"])) && "userID" in f && Truthy(f["userID"]))
                    ==> r == Found(f["userID"]))
              && ((!("warning" in f && Truthy(f["warning"])) && !("userID" in f && Truthy(f["userID"])))
                    ==> r == Unknown)
    ensures response.Some? && response.value != JNull && !response.value.JObj? ==> r == Unknown
  {
    match response
    case None => Failed
    case Some(data) =>
      if data == JNull then Failed
      else
        var warning := OrNull(Field(data, "warning"));
        var userID := OrNull(Field(data, "userID"));
        if Truthy(warning) then Warned(warning)
        else if Truthy(userID) then Found(userID)
        else Unknown
  }

  /** What a toast shows for a warning value: a string as it is, a number in
      decimal, `true` as nothing. */
  function WarningText(v: Json): string {
    match v
    case JStr(s) => s
    case JNum(n) => IntToString(n)
    case _ => ""
  }

  /** The effects after the request, by reply. */
  function ReplyEffects(r: Reply): (effects: seq<Effect>)
    ensures |effects| == 1
  {
    match r
    case Warned(w) => [Toast(Warning, WarningText(w))]
    case Found(id) => [Callback(id)]
    case Unknown => [Toast(Error, UNKNOWN_REPLY)]
    case Failed => [Toast(Error, LOOKUP_ERROR)]
  }

  /** One call of `handleSubmit`: the effects in order, the state while the
      request is in flight (`None` when none is sent) and the state after. */
  datatype Submission = Submission(effects: seq<Effect>, during: Option<State>, state: State)

  function LookupRequest(cardNumber: string): Request {
    GetRequest("/users/byCardNumber/" + cardNumber, map[])
  }

  function Submit(s: State, response: Option<Json>): (r: Submission)
    ensures s.cardNumber == "" ==> r == Submission([Toast(Warning, EMPTY_CARD_WARNING)], None, s)
    ensures s.cardNumber != "" ==> (&& |r.effects| == 2
                                   && r.effects[0] == Send(LookupRequest(s.cardNumber))
                                   && r.during == Some(s.(loading := true))
                                   && r.state == s.(loading := false)
                                   && r.effects[1..] == ReplyEffects(Classify(response)))
  {
    if s.cardNumber == "" then Submission([Toast(Warning, EMPTY_CARD_WARNING)], None, s)
    else
      Submission([Send(LookupRequest(s.cardNumber))] + ReplyEffects(Classify(response)),
                 Some(s.(loading := true)), s.(loading := false))
  }

  /** The parent hears of a member exactly when the card was non-empty, the
      request succeeded, the reply had no truthy warning and a truthy
      `userID`; it then hears of that id exactly once, and nothing else is
      shown. */
  lemma CallbackExactlyWhenFound(s: State, response: Option<Json>)
    ensures var r := Submit(s, response);
            && (|Callbacks(r.effects)| <= 1)
            && (Callbacks(r.effects) != [] <==>
                  s.cardNumber != "" && Classify(response).Found?)
            && (Classify(response).Found? && s.cardNumber != "" ==>
                  Callbacks(r.effects) == [Classify(response).userID]
                  && ToastLevels(r.effects) == [])
  {
    var r := Submit(s, response);
    if s.cardNumber != "" {
      assert r.effects == [r.effects[0], r.effects[1]];
      LogOfTwo(r.effects[0], r.effects[1]);
      LogOfOne(r.effects[0]);
      LogOfOne(r.effects[1]);
    } else {
      LogOfOne(r.effects[0]);
    }
  }

  /** A reply carrying both a warning and an id is a warning: the id is not
      passed on. */
  lemma WarningWins(data: map<string, Json>)
    requires "warning" in data && Truthy(data["warning"])
    ensures Classify(Some(JObj(data))) == Warned(data["warning"])
  {
  }

  /** An object reply is a found member exactly when it has no truthy
      warning and a truthy `userID`, and the id found is that `userID`. */
  lemma FoundIff(data: map<string, Json>)
    ensures Classify(Some(JObj(data))).Found? <==>
              !("warning" in data && Truthy(data["warning"])) && "userID" in data && Truthy(data["userID"])
    ensures Classify(Some(JObj(data))).Found? ==> Classify(Some(JObj(data))).userID == data["userID"]
  {
  }

  /** For a non-empty card and an object reply with no truthy warning, the
      parent hears of the reply's own `userID` exactly once when it is
      truthy, and hears nothing otherwise. */
  lemma CallbackCarriesReplyId(s: State, data: map<string, Json>)
    requires s.cardNumber != ""
    requires !("warning" in data && Truthy(data["warning"]))
    ensures "userID" in data && Truthy(data["userID"]) ==>
              Callbacks(Submit(s, Some(JObj(data))).effects) == [data["userID"]]
    ensures !("userID" in data && Truthy(data["userID"])) ==>
              Callbacks(Submit(s, Some(JObj(data))).effects) == []
  {
    CallbackExactlyWhenFound(s, Some(JObj(data)));
  }

  /** A reply whose id is `0`, with no warning, is an unknown reply. */
  lemma ZeroIdIsUnknown(data: map<string, Json>)
    requires "userID" in data && data["userID"] == JNum(0)
    requires !("warning" in data && Truthy(data["warning"]))
    ensures Classify(Some(JObj(data))) == Unknown
  {
  }

  /** An empty card sends nothing and leaves the state alone; otherwise
      exactly one GET is sent and loading is switched off again whatever the
      reply. */
  lemma SubmitRequests(s: State, response: Option<Json>)
    ensures var r := Submit(s, response);
            && (s.cardNumber == "" ==> Requests(r.effects) == [] && r.state == s)
            && (s.cardNumber != "" ==> Requests(r.effects) == [LookupRequest(s.cardNumber)] && !r.state.loading)
  {
    var r := Submit(s, response);
    if s.cardNumber != "" {
      assert r.effects == [r.effects[0], r.effects[1]];
      LogOfTwo(r.effects[0], r.effects[1]);
      LogOfOne(r.effects[0]);
      LogOfOne(r.effects[1]);
    } else {
      LogOfOne(r.effects[0]);
    }
  }
}
