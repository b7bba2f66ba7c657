/*******************************************************************************
 *  src/components/UploadUserCard.jsx: linking a card number to a member.
 *  The outcome of the POST is a parameter.
 *******************************************************************************/

module UploadUserCard {
  import opened Js
  import opened Effects

  datatype State = State(cardNumber: string, loading: bool)

  const Initial: State := State("", false)

  const EMPTY_CARD_WARNING: string := "Nejdříve zadejte číslo karty."
  const ASSIGNED: string := "Karta úspěšně přiřazena!"
  const FAILURE_PREFIX: string := "Nepodařilo se přiřadit kartu: "

  /** How the POST ended: success, or a rejection carrying the server's
      `error` text (if the response has one) and the error's own message. */
  datatype Outcome = Assigned | Rejected(serverError: Option<string>, message: string)

  /** `error.response?.data?.error || error.message`. */
  function Reason(serverError: Option<string>, message: string): (r: string)
    ensures StrTruthy(serverError) ==> r == serverError.value
    ensures !StrTruthy(serverError) ==> r == message
  {
    if StrTruthy(serverError) then serverError.value else message
  }

  function AssignRequest(userId: Id, cardNumber: string): Request {
    PostRequest("/users/" + IdText(userId) + "/assignCard", JObj(map["cardNumber" := JStr(cardNumber)]), map[])
  }

  datatype Assignment = Assignment(effects: seq<Effect>, during: Option<State>, state: State)

  /** `handleAssign()` for member `userId`. */
  function Assign(userId: Id, s: State, outcome: Outcome): (r: Assignment)
    ensures s.cardNumber == "" ==> r == Assignment([Toast(Warning, EMPTY_CARD_WARNING)], None, s)
    ensures s.cardNumber != "" ==> (&& |r.effects| == 2
                                   && r.effects[0] == Send(AssignRequest(userId, s.cardNumber))
                                   && r.during == Some(s.(loading := true))
                                   && !r.state.loading)
  {
    if s.cardNumber == "" then Assignment([Toast(Warning, EMPTY_CARD_WARNING)], None, s)
    else
      var request := Send(AssignRequest(userId, s.cardNumber));
      match outcome
      case Assigned => Assignment([request, Toast(Success, ASSIGNED)], Some(s.(loading := true)), State("", false))
      case Rejected(serverError, message) =>
        Assignment([request, Toast(Error, FAILURE_PREFIX + Reason(serverError, message))],
                   Some(s.(loading := true)), s.(loading := false))
  }

  /** The typed card number is cleared exactly when it was sent and
      accepted; a rejection keeps it for another try and says why. */
  lemma ClearedOnlyOnSuccess(userId: Id, s: State, outcome: Outcome)
    requires s.cardNumber != ""
    ensures var r := Assign(userId, s, outcome);
            && (r.state.cardNumber == "" <==> outcome.Assigned?)
            && (outcome.Rejected? ==> r.state.cardNumber == s.cardNumber)
            && (outcome.Rejected? ==>
                  r.effects[1] == Toast(Error, FAILURE_PREFIX + Reason(outcome.serverError, outcome.message)))
            && (r.effects[1].level == Success <==> outcome.Assigned?)
  {
  }

  /** The request goes to the member's own endpoint with the card number as
      the only body field. */
  lemma AssignBody(userId: Id, s: State, outcome: Outcome)
    requires s.cardNumber != ""
    ensures var q := Assign(userId, s, outcome).effects[0].request;
            && q.verb == Post
            && q.url == "/users/" + IdText(userId) + "/assignCard"
            && q.body.fields.Keys == {"cardNumber"}
            && q.body.fields["cardNumber"] == JStr(s.cardNumber)
            && Requests(Assign(userId, s, outcome).effects) == [q]
  {
    var r := Assign(userId, s, outcome);
    assert r.effects == [r.effects[0], r.effects[1]];
    LogOfTwo(r.effects[0], r.effects[1]);
    LogOfOne(r.effects[0]);
    LogOfOne(r.effects[1]);
  }
}
