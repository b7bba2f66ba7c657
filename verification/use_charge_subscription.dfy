/*******************************************************************************
 *  src/hooks/useChargeSubscription.js: the five parallel loads behind the
 *  top-up page and what is derived from them (whether the member has an
 *  active subscription, the latest one, the unused one-time entries, and
 *  the labelled subscription plans). The outcome of the loads is a
 *  parameter.
 *******************************************************************************/

module UseChargeSubscription {
  import opened Js
  import opened Effects
  import opened SubscriptionUtils
  import UseOneTimeEntries

  /** A subscription plan as `/subscriptions` lists it. */
  datatype PlanDefinition = PlanDefinition(subscriptionID: int, subscriptionType: string,
                                           durationMonths: int, price: Option<int>)

  /** A plan as the page offers it: the definition and its `label`. */
  datatype Plan = Plan(subscriptionID: int, subscriptionType: string,
                       durationMonths: int, price: Option<int>, labelText: string)

  /** A one-time entry definition as `/one-time-entries` lists it. */
  datatype EntryDefinition = EntryDefinition(oneTimeEntryID: int, price: Option<int>)

  /** `${price}` where the price may be `null`. */
  function PriceText(price: Option<int>): string {
    if price.Some? then IntToString(price.value) else "null"
  }

  /** `${subscriptionType} (${durationMonths} měs.) - ${price} Kč`. */
  function PlanLabel(d: PlanDefinition): string {
    d.subscriptionType + " (" + IntToString(d.durationMonths) + " měs.) - " + PriceText(d.price) + " Kč"
  }

  /** The `map` building the plan list: same order, same length, each plan
      carrying its definition's fields and label. */
  function Plans(defs: seq<PlanDefinition>): (plans: seq<Plan>)
    ensures |plans| == |defs|
    ensures forall i :: 0 <= i < |defs| ==>
              plans[i] == Plan(defs[i].subscriptionID, defs[i].subscriptionType,
                               defs[i].durationMonths, defs[i].price, PlanLabel(defs[i]))
  {
    seq(|defs|, i requires 0 <= i < |defs| =>
      Plan(defs[i].subscriptionID, defs[i].subscriptionType, defs[i].durationMonths,
           defs[i].price, PlanLabel(defs[i])))
  }

  lemma PriceTextInjective(a: Option<int>, b: Option<int>)
    requires PriceText(a) == PriceText(b)
    ensures a == b
  {
    if a.Some? {
      SignOfText(a.value);
    }
    if b.Some? {
      SignOfText(b.value);
    }
    if a.Some? && b.Some? {
      IntToStringInjective(a.value, b.value);
    }
  }

  /** Two plans of the same type and duration have the same label only if
      they have the same price: the label shows the price faithfully. */
  lemma PlanLabelShowsPrice(a: PlanDefinition, b: PlanDefinition)
    requires a.subscriptionType == b.subscriptionType && a.durationMonths == b.durationMonths
    requires PlanLabel(a) == PlanLabel(b)
    ensures a.price == b.price
  {
    var prefix := a.subscriptionType + " (" + IntToString(a.durationMonths) + " měs.) - ";
    var la := PlanLabel(a);
    assert la == prefix + PriceText(a.price) + " Kč";
    assert PlanLabel(b) == prefix + PriceText(b.price) + " Kč";
    assert la[|prefix|..|la| - 3] == PriceText(a.price);
    assert la[|prefix|..|la| - 3] == PriceText(b.price);
    PriceTextInjective(a.price, b.price);
  }

  /** The bodies of the five responses; `None` is a `null` body. */
  datatype Responses = Responses(
    user: Json,
    userSubscriptions: Option<seq<Subscription>>,
    userOneTimeEntries: Option<seq<UseOneTimeEntries.OneTimeEntry>>,
    subscriptionPlans: Option<seq<PlanDefinition>>,
    oneTimeDefinitions: Option<seq<EntryDefinition>>)

  datatype HookState = HookState(
    user: Json,
    hasActiveSubscription: bool,
    latestSubscription: Option<Subscription>,
    oneTimeCount: nat,
    subscriptionPlans: seq<Plan>,
    allOneTimeEntries: seq<EntryDefinition>,
    loading: bool,
    error: string)

  const Initial: HookState := HookState(JNull, false, None, 0, [], [], false, "")

  const LOAD_ERROR: string := "Nepodařilo se načíst potřebná data pro dobíjení."

  /** The five GETs, all sent before any of them is awaited: the member,
      their subscriptions and their one-time entries, then the two price
      lists shared by every member. */
  function Loads(userId: Id): (rs: seq<Request>)
    ensures |rs| == 5
    ensures forall i :: 0 <= i < 5 ==> rs[i].verb == Get && rs[i].params == map[]
    ensures rs[0].url == "/users/" + IdText(userId)
    ensures rs[1].url == "/user-subscriptions/user/" + IdText(userId)
    ensures rs[2].url == "/user-one-time-entries/user/" + IdText(userId)
    ensures rs[3].url == "/subscriptions" && rs[4].url == "/one-time-entries"
  {
    [GetRequest("/users/" + IdText(userId), map[]),
     GetRequest("/user-subscriptions/user/" + IdText(userId), map[]),
     GetRequest("/user-one-time-entries/user/" + IdText(userId), map[]),
     GetRequest("/subscriptions", map[]),
     GetRequest("/one-time-entries", map[])]
  }

  /** The two price lists are the same for every member, while each of the
      three member requests names its member: members with different id
      texts get different requests. */
  lemma LoadsPerMember(a: Id, b: Id)
    ensures Loads(a)[3..] == Loads(b)[3..]
    ensures IdText(a) != IdText(b) ==> forall i :: 0 <= i < 3 ==> Loads(a)[i] != Loads(b)[i]
  {
    if IdText(a) != IdText(b) {
      var prefixes := ["/users/", "/user-subscriptions/user/", "/user-one-time-entries/user/"];
      forall i | 0 <= i < 3 ensures Loads(a)[i] != Loads(b)[i] {
        if Loads(a)[i] == Loads(b)[i] {
          AppendCancel(prefixes[i], IdText(a), IdText(b));
        }
      }
    }
  }

  /** Equal texts with equal prefixes have equal rests. */
  lemma AppendCancel(p: string, x: string, y: string)
    requires p + x == p + y
    ensures x == y
  {
    assert x == (p + x)[|p|..];
    assert y == (p + y)[|p|..];
  }

  /** One run of the effect for `userId`: the requests, the state while they
      are in flight and the state afterwards. `outcome` is `None` when any of
      the five requests fails. */
  datatype Fetch = Fetch(requests: seq<Request>, during: HookState, state: HookState)

  function FetchAllData(userId: Option<Id>, state: HookState, outcome: Option<Responses>): (f: Fetch)
    ensures !(userId.Some? && IdTruthy(userId.value)) ==> f == Fetch([], state, state)
    ensures userId.Some? && IdTruthy(userId.value) ==>
              && f.requests == Loads(userId.value)
              && f.during == state.(loading := true, error := "")
              && !f.state.loading
    ensures userId.Some? && IdTruthy(userId.value) && outcome.None? ==>
              f.state == state.(loading := false, error := LOAD_ERROR)
  {
    if !(userId.Some? && IdTruthy(userId.value)) then Fetch([], state, state)
    else
      var during := state.(loading := true, error := "");
      match outcome
      case None => Fetch(Loads(userId.value), during, during.(loading := false, error := LOAD_ERROR))
      case Some(r) =>
        var subs := r.userSubscriptions.GetOr([]);
        Fetch(Loads(userId.value), during,
              HookState(r.user,
                        GetActiveSubscription(subs).Some?,
                        GetLatestSubscription(subs),
                        UseOneTimeEntries.CountUnused(r.userOneTimeEntries.GetOr([])),
                        Plans(r.subscriptionPlans.GetOr([])),
                        r.oneTimeDefinitions.GetOr([]),
                        false, ""))
  }

  /** After a successful load: the member has an active subscription exactly
      when one of theirs is flagged active; the latest subscription is one of
      theirs ending no earlier than any other (none for a `null` or empty
      list); the one-time count is that of the unused entries; the plans
      keep the order of their definitions; `null` lists read as empty. */
  lemma LoadedDerivations(userId: Id, state: HookState, r: Responses)
    requires IdTruthy(userId)
    ensures var s := FetchAllData(Some(userId), state, Some(r)).state;
            var subs := r.userSubscriptions.GetOr([]);
            && s.error == ""
            && s.user == r.user
            && (s.hasActiveSubscription <==> exists i :: 0 <= i < |subs| && subs[i].isActive)
            && (s.latestSubscription.None? <==> subs == [])
            && (s.latestSubscription.Some? ==> s.latestSubscription.value in subs)
            && (s.latestSubscription.Some? ==>
                  forall j :: 0 <= j < |subs| ==> Calendar.DateLeq(subs[j].endDate, s.latestSubscription.value.endDate))
            && s.oneTimeCount == |UseOneTimeEntries.Unused(r.userOneTimeEntries.GetOr([]))|
            && s.oneTimeCount <= |r.userOneTimeEntries.GetOr([])|
            && |s.subscriptionPlans| == |r.subscriptionPlans.GetOr([])|
            && s.allOneTimeEntries == r.oneTimeDefinitions.GetOr([])
            && (r.userOneTimeEntries.None? ==> s.oneTimeCount == 0)
  {
  }
}
