/*******************************************************************************
 *  src/pages/ChargeSubscription.jsx: the top-up page. Its local state is the
 *  student switch, the chosen plan and entry definition, the number of
 *  one-time entries to add, and the confirmation modal; its effects are the
 *  two POSTs and the toasts. The member id is fixed at 1 in the source.
 *******************************************************************************/

module ChargeSubscriptionPage {
  import opened Js
  import opened Calendar
  import opened Effects
  import DateUtils
  import opened UseChargeSubscription

  const USER_ID: int := 1

  datatype ModalAction = SubscriptionAction | OneTimesAction

  /** The page's state, together with the entry definitions the hook has
      loaded (`allOneTimeEntries`), which the selection effect depends on. */
  datatype PageState = PageState(
    allOneTimeEntries: seq<EntryDefinition>,
    isStudent: bool,
    selectedPlan: Option<Plan>,
    selectedOneTimeEntry: Option<EntryDefinition>,
    oneTimeToAdd: int,
    isModalOpen: bool,
    modalAction: Option<ModalAction>,
    modalPrice: int)

  /** The state on first render: nothing loaded yet, one entry to add,
      nothing chosen, modal closed. */
  const Initial: PageState := PageState([], false, None, None, 1, false, None, 0)

  // ---------------------------------------------------------------------------
  // Counter and price
  // ---------------------------------------------------------------------------

  function Increment(s: PageState): (t: PageState)
    ensures t.oneTimeToAdd == s.oneTimeToAdd + 1
    ensures t == s.(oneTimeToAdd := t.oneTimeToAdd)
  {
    s.(oneTimeToAdd := s.oneTimeToAdd + 1)
  }

  /** `prev > 1 ? prev - 1 : 1`. */
  function Decrement(s: PageState): (t: PageState)
    ensures t.oneTimeToAdd >= 1
    ensures s.oneTimeToAdd > 1 ==> t.oneTimeToAdd == s.oneTimeToAdd - 1
    ensures t == s.(oneTimeToAdd := t.oneTimeToAdd)
  {
    s.(oneTimeToAdd := if s.oneTimeToAdd > 1 then s.oneTimeToAdd - 1 else 1)
  }

  /** Decrementing undoes an increment; incrementing undoes a decrement from
      above 1. */
  lemma CounterSteps(s: PageState)
    ensures Decrement(Increment(s)).oneTimeToAdd == (if s.oneTimeToAdd >= 1 then s.oneTimeToAdd else 1)
    ensures s.oneTimeToAdd > 1 ==> Increment(Decrement(s)) == s
  {
  }

  /** `totalOneTimePrice`: 0 with no definition chosen, otherwise the unit
      price (a `null` price counts 0) times the count. */
  function TotalOneTimePrice(s: PageState): (p: int)
    ensures s.selectedOneTimeEntry.None? ==> p == 0
    ensures s.selectedOneTimeEntry.Some? ==> p == IntOrZero(s.selectedOneTimeEntry.value.price) * s.oneTimeToAdd
  {
    match s.selectedOneTimeEntry
    case None => 0
    case Some(e) => IntOrZero(e.price) * s.oneTimeToAdd
  }

  /** Each added entry adds one unit price to the total. */
  lemma TotalGrowsByUnitPrice(s: PageState)
    ensures TotalOneTimePrice(Increment(s)) == TotalOneTimePrice(s)
              + (if s.selectedOneTimeEntry.Some? then IntOrZero(s.selectedOneTimeEntry.value.price) else 0)
  {
  }

  /** `n` clicks on the plus button. */
  function Clicks(n: nat): (actions: seq<Action>)
    ensures |actions| == n
    ensures forall i :: 0 <= i < n ==> actions[i] == IncrementAction
  {
    seq(n, _ => IncrementAction)
  }

  /** At the initial count of one the total is the unit price (a `null`
      price counting 0), and every click on plus adds that price once more:
      after `n` clicks the total is `n + 1` unit prices. */
  lemma TotalAfterClicks(s: PageState, n: nat)
    requires s.selectedOneTimeEntry.Some? && s.oneTimeToAdd == 1
    ensures Run(s, Clicks(n)).selectedOneTimeEntry == s.selectedOneTimeEntry
    ensures TotalOneTimePrice(Run(s, Clicks(n))) == IntOrZero(s.selectedOneTimeEntry.value.price) * (n + 1)
  {
    RunClicksCounts(s, n);
  }

  /** Clicks on plus only raise the count, by one each. */
  lemma {:induction false} RunClicksCounts(s: PageState, n: nat)
    ensures Run(s, Clicks(n)) == s.(oneTimeToAdd := s.oneTimeToAdd + n)
    decreases n
  {
    if n > 0 {
      assert Clicks(n)[0] == IncrementAction && Clicks(n)[1..] == Clicks(n - 1);
      RunClicksCounts(Increment(s), n - 1);
    }
  }

  /** The effect on `[isStudent, allOneTimeEntries]`: the second definition
      for a student when there are two or more, else the first; nothing
      changes while the list is empty. */
  function SelectEntryDefinition(s: PageState, defs: seq<EntryDefinition>): (t: PageState)
    ensures defs == [] ==> t == s
    ensures defs != [] ==> t == s.(selectedOneTimeEntry := t.selectedOneTimeEntry)
    ensures defs != [] ==> t.selectedOneTimeEntry == Some(defs[if s.isStudent && |defs| > 1 then 1 else 0])
  {
    if |defs| > 0 then
      if s.isStudent && |defs| > 1 then s.(selectedOneTimeEntry := Some(defs[1]))
      else s.(selectedOneTimeEntry := Some(defs[0]))
    else s
  }

  // ---------------------------------------------------------------------------
  // Modal
  // ---------------------------------------------------------------------------

  datatype Step = Step(state: PageState, effects: seq<Effect>)

  /** `handleOpenSubscriptionModal(plan)`. */
  function OpenSubscriptionModal(s: PageState, plan: Option<Plan>): (r: Step)
    ensures plan.None? ==> r == Step(s, [Toast(Warning, "Vyberte předplatné")])
    ensures plan.Some? ==> (r.effects == [] && r.state.isModalOpen
                            && r.state.modalAction == Some(SubscriptionAction)
                            && r.state.selectedPlan == plan
                            && r.state.modalPrice == IntOrZero(plan.value.price)
                            && r.state.oneTimeToAdd == s.oneTimeToAdd)
  {
    match plan
    case None => Step(s, [Toast(Warning, "Vyberte předplatné")])
    case Some(p) =>
      Step(s.(selectedPlan := plan, modalPrice := IntOrZero(p.price),
              modalAction := Some(SubscriptionAction), isModalOpen := true), [])
  }

  /** `handleOpenOneTimeModal()`. */
  function OpenOneTimeModal(s: PageState): (r: Step)
    ensures s.oneTimeToAdd <= 0 ==> r == Step(s, [Toast(Warning, "Zadejte kladný počet vstupů.")])
    ensures s.oneTimeToAdd > 0 ==> (r.effects == [] && r.state.isModalOpen
                                    && r.state.modalAction == Some(OneTimesAction)
                                    && r.state.modalPrice == TotalOneTimePrice(s)
                                    && r.state.oneTimeToAdd == s.oneTimeToAdd)
  {
    if s.oneTimeToAdd <= 0 then Step(s, [Toast(Warning, "Zadejte kladný počet vstupů.")])
    else Step(s.(modalPrice := TotalOneTimePrice(s), modalAction := Some(OneTimesAction), isModalOpen := true), [])
  }

  function Cancel(s: PageState): (t: PageState)
    ensures !t.isModalOpen
    ensures t == s.(isModalOpen := false)
  {
    s.(isModalOpen := false)
  }

  /** `end.setMonth(end.getMonth() + durationMonths)` on a copy of `now`. */
  function SubscriptionEnd(now: Instant, durationMonths: int): (e: Instant)
    ensures e.date == AddMonths(now.date, durationMonths)
    ensures e.hour == now.hour && e.minute == now.minute && e.second == now.second && e.millis == now.millis
  {
    Moment(AddMonths(now.date, durationMonths), now.hour, now.minute, now.second, now.millis)
  }

  /** The POST charging a subscription plan, dated `now`. */
  function SubscriptionRequest(plan: Plan, now: Instant): Request {
    PostRequest("/user-subscriptions",
                JObj(map["userID" := JNum(USER_ID), "subscriptionID" := JNum(plan.subscriptionID),
                         "startDate" := JStr(DateUtils.FormatDate(Some(now))),
                         "endDate" := JStr(DateUtils.FormatDate(Some(SubscriptionEnd(now, plan.durationMonths)))),
                         "isActive" := JBool(true)]),
                map[])
  }

  /** The POST charging `count` one-time entries, dated `now`. */
  function OneTimeRequest(entry: EntryDefinition, count: int, now: Instant): Request {
    PostRequest("/user-one-time-entries",
                JObj(map["userID" := JNum(USER_ID), "oneTimeEntryID" := JNum(entry.oneTimeEntryID),
                         "purchaseDate" := JStr(DateUtils.FormatDate(Some(now))),
                         "isUsed" := JBool(false)]),
                map["count" := JNum(count)])
  }

  /** The subscription branch of `handleConfirm()`: the POST, then a toast
      with the price on success or the error toast. */
  function ConfirmPlanEffects(plan: Plan, price: int, now: Instant, succeeded: bool): (effects: seq<Effect>)
    ensures |effects| == 2 && effects[0] == Send(SubscriptionRequest(plan, now))
    ensures effects[1].Toast? && (effects[1].level == Success <==> succeeded)
  {
    var text := if succeeded then "Předplatné dobito, cena: " + IntToString(price) + " Kč"
                else "Chyba při dobíjení předplatného.";
    [Send(SubscriptionRequest(plan, now)), Toast(if succeeded then Success else Error, text)]
  }

  /** The one-time branch of `handleConfirm()`. */
  function ConfirmEntriesEffects(entry: EntryDefinition, count: int, price: int, now: Instant,
                                 succeeded: bool): (effects: seq<Effect>)
    ensures |effects| == 2 && effects[0] == Send(OneTimeRequest(entry, count, now))
    ensures effects[1].Toast? && (effects[1].level == Success <==> succeeded)
  {
    var text := if succeeded then "Dobito " + IntToString(count) + " vstupů, cena: " + IntToString(price) + " Kč"
                else "Chyba při dobíjení vstupů.";
    [Send(OneTimeRequest(entry, count, now)), Toast(if succeeded then Success else Error, text)]
  }

  /** `handleConfirm()` at time `now`, the awaited POST (if any) succeeding
      or not as `succeeded` says. The modal is closed first whatever
      follows; only a successful one-time charge resets the counter. */
  function Confirm(s: PageState, now: Instant, succeeded: bool): (r: Step)
    ensures !r.state.isModalOpen
    ensures r.state == s.(isModalOpen := false, oneTimeToAdd := r.state.oneTimeToAdd)
    ensures r.state.oneTimeToAdd == s.oneTimeToAdd || r.state.oneTimeToAdd == 1
    ensures r.effects == [] <==> !(s.modalAction == Some(SubscriptionAction) && s.selectedPlan.Some?)
                                 && !(s.modalAction == Some(OneTimesAction) && s.selectedOneTimeEntry.Some?)
  {
    var closed := s.(isModalOpen := false);
    if s.modalAction == Some(SubscriptionAction) && s.selectedPlan.Some? then
      Step(closed, ConfirmPlanEffects(s.selectedPlan.value, s.modalPrice, now, succeeded))
    else if s.modalAction == Some(OneTimesAction) && s.selectedOneTimeEntry.Some? then
      Step(if succeeded then closed.(oneTimeToAdd := 1) else closed,
           ConfirmEntriesEffects(s.selectedOneTimeEntry.value, s.oneTimeToAdd, s.modalPrice, now, succeeded))
    else Step(closed, [])
  }

  /** The subscription POST carries the plan's id, is active, starts at
      `now` and ends `durationMonths` calendar months later (see
      `Calendar.AddMonths` for the day of the month), at the same time of
      day; both dates read back from their `DD.MM.YYYY HH:mm` text. */
  lemma SubscriptionRequestDates(plan: Plan, now: Instant)
    requires 1000 <= now.date.year <= 9999
    requires 1000 <= AddMonths(now.date, plan.durationMonths).year <= 9999
    ensures var req := SubscriptionRequest(plan, now);
            var body := req.body.fields;
            && req.verb == Post && req.url == "/user-subscriptions"
            && body.Keys == {"userID", "subscriptionID", "startDate", "endDate", "isActive"}
            && body["userID"] == JNum(USER_ID)
            && body["subscriptionID"] == JNum(plan.subscriptionID)
            && body["isActive"] == JBool(true)
            && DateUtils.ParseDisplayDate(body["startDate"].s) == Some(At(now.date, now.hour, now.minute))
            && DateUtils.ParseDisplayDate(body["endDate"].s)
               == Some(At(AddMonths(now.date, plan.durationMonths), now.hour, now.minute))
  {
    DateUtils.FormatDateRoundTrip(now);
    DateUtils.FormatDateRoundTrip(SubscriptionEnd(now, plan.durationMonths));
  }

  /** Confirming a chosen plan posts exactly that plan's request and leaves
      the counter alone; the toast is a success exactly when the POST was. */
  lemma ConfirmSubscription(s: PageState, now: Instant, succeeded: bool)
    requires s.modalAction == Some(SubscriptionAction) && s.selectedPlan.Some?
    ensures var r := Confirm(s, now, succeeded);
            && r.effects[0] == Send(SubscriptionRequest(s.selectedPlan.value, now))
            && r.state.oneTimeToAdd == s.oneTimeToAdd
            && (r.effects[1].level == Success <==> succeeded)
  {
  }

  /** Confirming one-time entries posts the current count as the `count`
      parameter and resets the counter to 1 exactly when the POST succeeds. */
  lemma ConfirmOneTimes(s: PageState, now: Instant, succeeded: bool)
    requires s.modalAction == Some(OneTimesAction) && s.selectedOneTimeEntry.Some?
    ensures var r := Confirm(s, now, succeeded);
            && r.effects[0].request == OneTimeRequest(s.selectedOneTimeEntry.value, s.oneTimeToAdd, now)
            && r.effects[0].request.params == map["count" := JNum(s.oneTimeToAdd)]
            && (succeeded ==> r.state.oneTimeToAdd == 1)
            && (!succeeded ==> r.state.oneTimeToAdd == s.oneTimeToAdd)
            && (r.effects[1].level == Success <==> succeeded)
  {
  }

  // ---------------------------------------------------------------------------
  // Reachable states
  // ---------------------------------------------------------------------------

  /** Everything that can happen on the page. */
  datatype Action =
    | IncrementAction
    | DecrementAction
    | SetStudent(student: bool)
    | DefinitionsLoaded(defs: seq<EntryDefinition>)
    | OpenSubscription(plan: Option<Plan>)
    | OpenOneTime
    | ConfirmModal(now: Instant, succeeded: bool)
    | CancelModal

  /** The entry definition the selection effect picks for the current
      student switch and loaded definitions. */
  predicate SelectionSynced(s: PageState) {
    s.allOneTimeEntries != [] ==>
      s.selectedOneTimeEntry == Some(s.allOneTimeEntries[if s.isStudent && |s.allOneTimeEntries| > 1 then 1 else 0])
  }

  /** One user action or load, with the selection effect re-run whenever
      the student switch or the loaded definitions change. The chosen entry
      always follows the switch, and the count never drops below 1. */
  function Apply(s: PageState, a: Action): (t: PageState)
    ensures SelectionSynced(s) ==> SelectionSynced(t)
    ensures a.SetStudent? ==> t.isStudent == a.student && t.allOneTimeEntries == s.allOneTimeEntries
                               && SelectionSynced(t)
    ensures a.DefinitionsLoaded? ==> t.allOneTimeEntries == a.defs && SelectionSynced(t)
    ensures s.oneTimeToAdd >= 1 ==> t.oneTimeToAdd >= 1
  {
    match a
    case IncrementAction => Increment(s)
    case DecrementAction => Decrement(s)
    case SetStudent(b) => SelectEntryDefinition(s.(isStudent := b), s.allOneTimeEntries)
    case DefinitionsLoaded(defs) => SelectEntryDefinition(s.(allOneTimeEntries := defs), defs)
    case OpenSubscription(plan) => OpenSubscriptionModal(s, plan).state
    case OpenOneTime => OpenOneTimeModal(s).state
    case ConfirmModal(now, ok) => Confirm(s, now, ok).state
    case CancelModal => Cancel(s)
  }

  /** A sequence of actions in order: the selection stays in step with the
      switch and the count stays positive throughout. */
  function Run(s: PageState, actions: seq<Action>): (t: PageState)
    ensures SelectionSynced(s) ==> SelectionSynced(t)
    ensures s.oneTimeToAdd >= 1 ==> t.oneTimeToAdd >= 1
    decreases |actions|
  {
    if actions == [] then s else Run(Apply(s, actions[0]), actions[1..])
  }

  /** Every action keeps the count of entries to add at 1 or more. */
  lemma ApplyKeepsCountPositive(s: PageState, a: Action)
    requires s.oneTimeToAdd >= 1
    ensures Apply(s, a).oneTimeToAdd >= 1
  {
  }

  /** From the initial state, whatever the user does, the count stays at 1
      or more; so the warning for a non-positive count can never be shown. */
  lemma {:induction false} CountAlwaysPositive(s: PageState, actions: seq<Action>)
    requires s.oneTimeToAdd >= 1
    ensures Run(s, actions).oneTimeToAdd >= 1
    ensures OpenOneTimeModal(Run(s, actions)).effects == []
    decreases |actions|
  {
    if actions != [] {
      ApplyKeepsCountPositive(s, actions[0]);
      CountAlwaysPositive(Apply(s, actions[0]), actions[1..]);
    }
  }

  /** Ticking the student switch once two or more definitions are loaded
      selects the student definition, and the one-time total follows its
      price; unticking it returns to the standard one. */
  lemma StudentSwitchSelects(s: PageState, b: bool)
    requires |s.allOneTimeEntries| > 1
    ensures var t := Apply(s, SetStudent(b));
            && t.selectedOneTimeEntry == Some(s.allOneTimeEntries[if b then 1 else 0])
            && TotalOneTimePrice(t) == IntOrZero(s.allOneTimeEntries[if b then 1 else 0].price) * s.oneTimeToAdd
  {
  }

  /** From the initial state the selected entry always matches the switch. */
  lemma SelectionSyncedFromStart(actions: seq<Action>)
    ensures SelectionSynced(Run(Initial, actions))
  {
  }

  lemma NoCountWarningFromStart(actions: seq<Action>)
    ensures Run(Initial, actions).oneTimeToAdd >= 1
    ensures OpenOneTimeModal(Run(Initial, actions)).effects == []
  {
    CountAlwaysPositive(Initial, actions);
  }

  /** The `error` effect: an error toast showing a non-empty load error. */
  function ErrorToasts(error: string): (effects: seq<Effect>)
    ensures error == "" <==> effects == []
    ensures error != "" ==> effects == [Toast(Error, error)]
  {
    if error != "" then [Toast(Error, error)] else []
  }
}
