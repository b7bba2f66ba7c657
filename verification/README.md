# Gym front end: a verified model of its rules

The gym administration front end is a React single-page application. Staff
use it to:

- identify members by card number;
- sell one-time entries and subscriptions;
- assign cards and upload profile photos;
- register new members;
- browse the entry and purchase history of the gym (the daily closure) and
  of a single member;
- show the status of the card reader at the entrance.

This project models the deterministic rules behind those screens in Dafny
and proves what they promise. Each rule is modelled as its code is written.

How the model is built:

- **One module per source file.** Each `.dfy` file holds one module. The
  modules follow the source tree: the utilities under `src/utils`, the hooks
  under `src/hooks`, and the pages and components.
- **Shared modules for JavaScript and dates.** Four shared modules carry
  what the source borrows from JavaScript and the browser:
  - `Js`: truthiness, `||`, `??`, `String(n)` and `padStart`.
  - `Calendar`: local dates with `setDate`/`setMonth` normalisation and
    `getDay`.
  - `IsoDates`: `toISOString()` and its `split('T')[0]` and `slice` prefixes.
  - `Effects`: the request and effect log.
- **Requests are a log.** Every HTTP call through the API client becomes a
  `Send(Request)` entry in an effect log. A request records its verb, URL,
  JSON body and query parameters. Toasts, navigation and parent callbacks
  are logged the same way. Whether a request succeeds is a parameter of the
  handler, and so is the body it answers with.
- **Inputs from outside are parameters.** This covers the clock reading
  `now`, the configured backend address, the locale formatter, the Czech
  vocative declension and the outcome of image processing.
- **Handlers are pure functions.** A handler maps the component state to the
  effects it emits and the state afterwards. Where the source shows a
  loading state, the handler also gives the state while the request is in
  flight.

Quirks kept as written:

- `getActiveSubscription` ignores the subscription dates, because its window
  check is commented out.
- `UploadProfilePhoto` leaves `isLoading` on when Upload is pressed before a
  crop is confirmed. The Upload button is disabled while `isLoading` is on,
  so from then on it cannot be used.
- On the member history page the card titled "Poslední vstup" (last entry)
  shows the first row's date, and "První vstup" (first entry) shows the last
  row's.
- The two one-time-entry pages date their purchase differently:
  - the standard page uses `DD.MM.YYYY HH:mm`;
  - the student page and `chargeOneTimeEntry` use the ISO calendar date.
- The closure page's Next button stays enabled for a range that ends today,
  yet pressing it does nothing (see Findings).

## Model

Every source path below is under `gym_managementservice_frontend/src/`.

| member | source | states |
|---|---|---|
| Js.StrOr | gym_managementservice_frontend/src/components/TransactionHistoryTable.jsx:18 | `a \|\| b` on optional texts is `a` when `a` is a non-empty text, otherwise `b` |
| Js.IntOrZero | gym_managementservice_frontend/src/components/TransactionHistoryTable.jsx:83 | `amount \|\| 0` is the amount when present, otherwise 0 |
| Js.NatToString | gym_managementservice_frontend/src/utils/dateUtils.js:14-16 | `String(n)` is a non-empty digit string with one digit exactly below 10, two for 10..99, four for 1000..9999 |
| Js.NatToStringRoundTrip | gym_managementservice_frontend/src/utils/dateUtils.js:14-16 | reading the decimal text of `n` back gives `n` |
| Js.IntToString | gym_managementservice_frontend/src/utils/dateUtils.js:16 | `String(i)` is the decimal text of `\|i\|`, with a leading `-` exactly for negative `i` |
| Js.IntToStringInjective | gym_managementservice_frontend/src/hooks/useChargeSubscription.js:75 | different integers have different texts |
| Js.PadStart | gym_managementservice_frontend/src/utils/dateUtils.js:14 | `padStart(width, fill)` has length `max(\|s\|, width)` |
| Js.PadStartShape | gym_managementservice_frontend/src/utils/dateUtils.js:14 | padding leaves a long enough string alone and otherwise only prepends fill characters, keeping `s` as the suffix |
| Js.Pad2 | gym_managementservice_frontend/src/utils/dateUtils.js:14-18 | `String(n).padStart(2, '0')` has two characters for `n < 100` and at least two in general |
| Js.Pad2RoundTrip | gym_managementservice_frontend/src/utils/dateUtils.js:14-18 | a two-digit field is two digits that read back as `n` |
| Js.ZeroPadValue | gym_managementservice_frontend/src/utils/dateUtils.js:14-18 | zero padding keeps a digit string's value |
| Calendar.DaysInMonth | gym_managementservice_frontend/src/pages/ShowUserHistoryPage.jsx:55 | every month has 28 to 31 days |
| Calendar.NextDayIsSuccessor | gym_managementservice_frontend/src/pages/ClosurePage.jsx:147-149 | `setDate(getDate() + 1)` gives the immediate successor: later, and no valid date lies strictly between |
| Calendar.PrevOfNext | gym_managementservice_frontend/src/pages/ClosurePage.jsx:180-182 | one day back after one day forward is the same date |
| Calendar.NextOfPrev | gym_managementservice_frontend/src/pages/ClosurePage.jsx:147-149 | one day forward after one day back is the same date |
| Calendar.AddDaysAdditive | gym_managementservice_frontend/src/pages/ShowUserHistoryPage.jsx:44-49 | shifting by `a` then `b` days is shifting by `a + b` days, across month and year ends |
| Calendar.AddDaysForward | gym_managementservice_frontend/src/pages/ShowUserHistoryPage.jsx:48-49 | a forward shift never lands on an earlier date |
| Calendar.AddDaysMonotone | gym_managementservice_frontend/src/pages/ShowUserHistoryPage.jsx:48-49 | shifting by fewer days lands no later |
| Calendar.AddDaysWithinMonth | gym_managementservice_frontend/src/pages/ShowUserHistoryPage.jsx:48-49 | inside one month a shift only changes the day of the month |
| Calendar.AddMonths | gym_managementservice_frontend/src/pages/ChargeSubscription.jsx:111-112 | `setMonth(getMonth() + k)` moves to month index `year*12 + month + k`, keeps the day when it exists there, and otherwise overflows into the following month |
| Calendar.Weekday | gym_managementservice_frontend/src/pages/ShowUserHistoryPage.jsx:43 | `getDay()` is in 0..6 |
| Calendar.WeekdayNext | gym_managementservice_frontend/src/pages/ShowUserHistoryPage.jsx:43-45 | the weekday of the next day is one more, modulo 7 |
| Calendar.WeekdayAddDays | gym_managementservice_frontend/src/pages/ShowUserHistoryPage.jsx:43-49 | `k` days later the weekday has advanced by `k` modulo 7 |
| Calendar.WeekdayAnchors | gym_managementservice_frontend/src/pages/ShowUserHistoryPage.jsx:43 | `getDay()` is 4 (Thursday) on 1 January 1970, 1 (Monday) on 1 January 2024 and 2 (Tuesday) on 29 February 2000 |
| IsoDates.SlicePrefix | gym_managementservice_frontend/src/pages/ManualCharge.jsx:41 | `slice(0, n)` is a prefix of length `min(\|s\|, n)` |
| IsoDates.DatePart | gym_managementservice_frontend/src/pages/ChargeOneTimeEntryStudent.jsx:32 | `split('T')[0]` is the longest prefix without a `T`, followed by a `T` when shorter than the text |
| IsoDates.IsoDateRoundTrip | gym_managementservice_frontend/src/utils/oneTimeEntryUtils.js:25 | the ISO calendar date of a four-digit year has ten characters and reads back as the same date |
| IsoDates.DatePartOfIsoString | gym_managementservice_frontend/src/utils/oneTimeEntryUtils.js:25 | `toISOString().split('T')[0]` is the ISO calendar date of the moment |
| IsoDates.SliceTenOfIsoString | gym_managementservice_frontend/src/pages/ManualCharge.jsx:41 | `toISOString().slice(0, 10)` is the ISO calendar date for years 0..9999 |
| IsoDates.IsoMinutesShape | gym_managementservice_frontend/src/pages/ShowUserHistoryPage.jsx:62-65 | `toISOString().slice(0, 16)` is the ISO date, `T`, hours and minutes: 16 characters |
| DateUtils.FormatDate | gym_managementservice_frontend/src/utils/dateUtils.js:11-20 | a falsy value gives `''` and only a falsy value does; a moment gives its `DD.MM.YYYY HH:mm` text |
| DateUtils.DisplayDate | gym_managementservice_frontend/src/utils/dateUtils.js:14-19 | the display text has at least 13 characters |
| DateUtils.FormatDateRoundTrip | gym_managementservice_frontend/src/utils/dateUtils.js:14-19 | for a four-digit year the text has 16 characters and reads back as the same day, hour and minute (one-based month) |
| OneTimeEntryUtils.EntryIdsDistinct | gym_managementservice_frontend/src/utils/oneTimeEntryUtils.js:1-3 | the entry-type ids are 1, 2, 3 and pairwise distinct |
| OneTimeEntryUtils.ChargePayload | gym_managementservice_frontend/src/utils/oneTimeEntryUtils.js:34-43 | the payload always has `userID`, `oneTimeEntryID`, `purchaseDate` and `isUsed: false`; it has `customPrice` iff the entry type is 3, and `cardNumber` iff `userID` is -1 and a card number is given; it has no other keys |
| OneTimeEntryUtils.ChargeOneTimeEntry | gym_managementservice_frontend/src/utils/oneTimeEntryUtils.js:18-47 | one POST whose URL is the unregistered endpoint iff `userID` is -1, with the payload above and `count` as its only parameter |
| OneTimeEntryUtils.ChargeWithDefaults | gym_managementservice_frontend/src/utils/oneTimeEntryUtils.js:21-23 | the call with the optional arguments left out is read by the backend as one entry dated today, with no card number, unregistered iff the id is -1, and priced 0 exactly for a manual entry |
| OneTimeEntryUtils.ChargeRoundTrip | gym_managementservice_frontend/src/utils/oneTimeEntryUtils.js:28-46 | every request the utility sends reads back as the charge it was built from (user, entry type, count, registered or not, price and card where sent) |
| OneTimeEntryUtils.PurchaseDateIsIsoDate | gym_managementservice_frontend/src/utils/oneTimeEntryUtils.js:25 | the purchase date is the ISO calendar date of the clock reading |
| SubscriptionUtils.FirstActiveIndex | gym_managementservice_frontend/src/utils/subscriptionUtils.js:13-17 | the index of the first subscription flagged active, with none before it; none iff no subscription is active |
| SubscriptionUtils.GetActiveSubscription | gym_managementservice_frontend/src/utils/subscriptionUtils.js:11-19 | `null` iff no element is active, including the empty list; otherwise an active element of the list |
| SubscriptionUtils.ActiveIgnoresDates | gym_managementservice_frontend/src/utils/subscriptionUtils.js:14-17 | two lists with the same active flags give the same choice, whatever their dates |
| SubscriptionUtils.LatestIndex | gym_managementservice_frontend/src/utils/subscriptionUtils.js:28-31 | for a non-empty list, the first position whose end date is no earlier than any other |
| SubscriptionUtils.GetLatestSubscription | gym_managementservice_frontend/src/utils/subscriptionUtils.js:26-32 | `null` iff the list is empty; otherwise an element whose end date is the latest |
| SubscriptionUtils.LatestIndexUnique | gym_managementservice_frontend/src/utils/subscriptionUtils.js:28-31 | any position with the latest end date and only earlier end dates before it is the one chosen |
| SubscriptionUtils.LatestAfterAppend | gym_managementservice_frontend/src/utils/subscriptionUtils.js:28-31 | appending a subscription that ends strictly later than all others makes it the latest |
| PhotoUtils.BaseUrl | gym_managementservice_frontend/src/utils/photoUtils.js:15 | the configured backend address when it is non-empty, otherwise `http://localhost:8080` |
| PhotoUtils.Separator | gym_managementservice_frontend/src/utils/photoUtils.js:16 | `&` iff the path already contains `?`, otherwise `?` |
| PhotoUtils.BuildProfilePhotoUrl | gym_managementservice_frontend/src/utils/photoUtils.js:13-18 | `null` iff the path is falsy; otherwise the base and the path, followed by the separator the path calls for |
| PhotoUtils.QualityNameRoundTrip | gym_managementservice_frontend/src/utils/photoUtils.js:1-5 | each quality name reads back as its quality and contains no query separator |
| PhotoUtils.PhotoUrlRoundTrip | gym_managementservice_frontend/src/utils/photoUtils.js:13-18 | a built address splits back into base plus path and the quality it was built with |
| PhotoUtils.DefaultQualityIsHigh | gym_managementservice_frontend/src/utils/photoUtils.js:13 | leaving the quality out builds an address ending in `quality=HIGH` that reads back as the high quality |
| EntryStatusMessage.UpperCase | gym_managementservice_frontend/src/components/EntryStatusMessage.jsx:56 | `toUpperCase` of one character gives one character, or two exactly for `ß` and `ŉ` |
| EntryStatusMessage.UpperCaseIsFinal | gym_managementservice_frontend/src/components/EntryStatusMessage.jsx:56 | every character produced by upper-casing is left alone by a second upper-casing |
| EntryStatusMessage.Capitalize | gym_managementservice_frontend/src/components/EntryStatusMessage.jsx:54-57 | `''` iff the input is empty; otherwise the input with its first character upper-cased and the rest unchanged, one longer at most |
| EntryStatusMessage.CapitalizeKeepsLength | gym_managementservice_frontend/src/components/EntryStatusMessage.jsx:56 | when the first character upper-cases to one character, the length is kept |
| EntryStatusMessage.CapitalizeIdempotent | gym_managementservice_frontend/src/components/EntryStatusMessage.jsx:54-57 | capitalising twice is capitalising once |
| EntryStatusMessage.CapitalizeCzech | gym_managementservice_frontend/src/components/EntryStatusMessage.jsx:56 | a name starting with `ř`, `š`, `č`, `ž` or `á` starts with the capital letter instead, the rest unchanged |
| EntryStatusMessage.Render | gym_managementservice_frontend/src/components/EntryStatusMessage.jsx:5-51 | the idle heading iff there is no message; the greeting name is the capitalised vocative of `firstname \|\| ''` |
| EntryStatusMessage.StatusDecidesContent | gym_managementservice_frontend/src/components/EntryStatusMessage.jsx:19-49 | the expiry date is shown iff the status is `OK_SUBSCRIPTION`, the remaining count iff it is `OK_ONE_TIME_ENTRY`; `NO_VALID_ENTRY` shows neither; any other status shows no content |
| EntryStatusPage.OnMessage | gym_managementservice_frontend/src/pages/EntryStatusPage.jsx:20-27 | an unparsable (or `null`) body leaves the state alone; an object sets each field to its value or `null` |
| EntryStatusPage.Show | gym_managementservice_frontend/src/pages/EntryStatusPage.jsx:40-46 | the welcome heading iff the status is `OK`; the remaining and expiry lines iff non-null; the loading text iff all three are null |
| EntryStatusPage.MessageReplacesState | gym_managementservice_frontend/src/pages/EntryStatusPage.jsx:21-24 | a non-null message replaces the whole state, so receiving it twice is receiving it once |
| EntryStatusPage.LoadingUntilData | gym_managementservice_frontend/src/pages/EntryStatusPage.jsx:45 | after an object message the loading text is shown iff each of the three fields is missing or `null` |
| EntryStatusPage.InitiallyLoading | gym_managementservice_frontend/src/pages/EntryStatusPage.jsx:9-11 | the page starts in the loading view with nothing else shown |
| TableCells.UserNameCell | gym_managementservice_frontend/src/components/TransactionHistoryTable.jsx:27-31 | `firstName lastName` when both are non-empty, otherwise the id (or nothing) |
| TableCells.UserNameSplits | gym_managementservice_frontend/src/components/TransactionHistoryTable.jsx:28-29 | a full-name cell splits back at its space into the two names when the first name has no space |
| TableCells.FirstTruthyOrDash | gym_managementservice_frontend/src/components/TransactionHistoryTable.jsx:40 | the first non-empty candidate, `-` when there is none; never empty |
| TransactionHistoryTable.TotalPriceAppend | gym_managementservice_frontend/src/components/TransactionHistoryTable.jsx:83 | the total of two lists one after the other is the sum of their totals |
| TransactionHistoryTable.TotalPriceOfOne | gym_managementservice_frontend/src/components/TransactionHistoryTable.jsx:83 | one transaction adds its amount, or 0 when the amount is missing |
| TransactionHistoryTable.TotalPriceBoundsEach | gym_managementservice_frontend/src/components/TransactionHistoryTable.jsx:83 | with non-negative amounts the total is at least every single amount |
| TransactionHistoryTable.TotalPriceNonNegative | gym_managementservice_frontend/src/components/TransactionHistoryTable.jsx:83 | with non-negative amounts the total is non-negative |
| TransactionHistoryTable.Render | gym_managementservice_frontend/src/components/TransactionHistoryTable.jsx:73-125 | the no-data text iff the list is empty; otherwise one header per column and one row of that many cells per transaction |
| TransactionHistoryTable.GridCells | gym_managementservice_frontend/src/components/TransactionHistoryTable.jsx:99-107 | cell `(i, j)` is column `j` rendered for transaction `i`, and header `j` is column `j`'s header |
| TransactionHistoryTable.FooterRule | gym_managementservice_frontend/src/components/TransactionHistoryTable.jsx:110-117 | the footer is shown iff totals are on and the amount column is present; its label spans all columns but one and it shows the total |
| TransactionHistoryTable.DefaultsShowTotal | gym_managementservice_frontend/src/components/TransactionHistoryTable.jsx:76-77 | by default the four columns date, user, item and price are shown and the footer is on |
| TransactionHistoryTable.TextFallbacks | gym_managementservice_frontend/src/components/TransactionHistoryTable.jsx:40-58 | the item falls back from purchase type to item name to `-`; the note falls back to `-` |
| EntryHistoryTable.Render | gym_managementservice_frontend/src/components/EntryHistoryTable.jsx:55-103 | the no-data text iff the list is empty; otherwise one header per column and one row of that many cells per entry |
| EntryHistoryTable.GridCells | gym_managementservice_frontend/src/components/EntryHistoryTable.jsx:76-84 | cell `(i, j)` is column `j` rendered for entry `i` |
| EntryHistoryTable.FooterRule | gym_managementservice_frontend/src/components/EntryHistoryTable.jsx:87-95 | the footer is shown iff totals are on, spans every column and counts the entries |
| EntryHistoryTable.DefaultsShowTotal | gym_managementservice_frontend/src/components/EntryHistoryTable.jsx:112-115 | by default the three columns date, user and subscription type are shown and the footer is on |
| EntryHistoryTable.CellFallbacks | gym_managementservice_frontend/src/components/EntryHistoryTable.jsx:18-40 | the date cell formats `entryDate`, else `date`; the subscription type falls back to `-` |
| UseChargeSubscription.Plans | gym_managementservice_frontend/src/hooks/useChargeSubscription.js:70-77 | same length and order as the definitions, each plan carrying its definition and its `type (N měs.) - P Kč` label |
| UseChargeSubscription.PriceTextInjective | gym_managementservice_frontend/src/hooks/useChargeSubscription.js:75 | different prices (or a missing one) print differently |
| UseChargeSubscription.PlanLabelShowsPrice | gym_managementservice_frontend/src/hooks/useChargeSubscription.js:75 | two plans of equal type and duration have equal labels only if their prices agree |
| UseChargeSubscription.Loads | gym_managementservice_frontend/src/hooks/useChargeSubscription.js:45-51 | exactly five GETs without query parameters: the member, their subscriptions and their one-time entries under the member's id, then `/subscriptions` and `/one-time-entries` |
| UseChargeSubscription.LoadsPerMember | gym_managementservice_frontend/src/hooks/useChargeSubscription.js:45-51 | the two price-list requests are the same for every member, and members with different ids get different member requests |
| UseChargeSubscription.FetchAllData | gym_managementservice_frontend/src/hooks/useChargeSubscription.js:32-93 | nothing happens for a falsy id; otherwise the five GETs, loading while in flight and off afterwards, and the fixed error text on any failure |
| UseChargeSubscription.LoadedDerivations | gym_managementservice_frontend/src/hooks/useChargeSubscription.js:57-80 | after a load: active iff some subscription is flagged active; the latest is `null` iff there are none, else one ending no earlier than any other; the count is that of unused entries; `null` lists read as empty |
| UseOneTimeEntries.Unused | gym_managementservice_frontend/src/hooks/useOneTimeEntries.js:34 | the unused entries are exactly the entries with a falsy `isUsed`, no more than the list |
| UseOneTimeEntries.CountUnused | gym_managementservice_frontend/src/hooks/useOneTimeEntries.js:34-35 | the unused count is at most the list length |
| UseOneTimeEntries.CountUnusedAppend | gym_managementservice_frontend/src/hooks/useOneTimeEntries.js:34-35 | counting distributes over concatenation |
| UseOneTimeEntries.EntriesUrl | gym_managementservice_frontend/src/hooks/useOneTimeEntries.js:24-28 | the member's endpoint for a truthy id, otherwise `/one-time-entries` |
| UseOneTimeEntries.FetchOneTimeEntries | gym_managementservice_frontend/src/hooks/useOneTimeEntries.js:16-42 | one GET; loading while in flight and off afterwards; the fixed error text on failure and none on success |
| UseOneTimeEntries.FetchCounts | gym_managementservice_frontend/src/hooks/useOneTimeEntries.js:30-35 | a successful load keeps the list (`null` read as empty) and counts its unused entries |
| ChargeSubscriptionPage.Increment | gym_managementservice_frontend/src/pages/ChargeSubscription.jsx:76 | adds exactly one to the count and changes nothing else |
| ChargeSubscriptionPage.Decrement | gym_managementservice_frontend/src/pages/ChargeSubscription.jsx:77 | never leaves the count below 1, subtracts one above 1, and changes nothing else |
| ChargeSubscriptionPage.CounterSteps | gym_managementservice_frontend/src/pages/ChargeSubscription.jsx:76-77 | decrement undoes increment (from 1 up) and increment undoes decrement above 1 |
| ChargeSubscriptionPage.TotalOneTimePrice | gym_managementservice_frontend/src/pages/ChargeSubscription.jsx:70-73 | 0 while no entry definition is chosen; otherwise the chosen definition's price (a missing price counting 0) times the count |
| ChargeSubscriptionPage.TotalGrowsByUnitPrice | gym_managementservice_frontend/src/pages/ChargeSubscription.jsx:70-76 | each increment adds one unit price to the total |
| ChargeSubscriptionPage.SelectEntryDefinition | gym_managementservice_frontend/src/pages/ChargeSubscription.jsx:59-67 | nothing changes for an empty list; otherwise the second definition is chosen iff student and there are at least two, else the first |
| ChargeSubscriptionPage.OpenSubscriptionModal | gym_managementservice_frontend/src/pages/ChargeSubscription.jsx:80-89 | no plan warns and changes nothing; a plan opens the modal for it at price `price \|\| 0` |
| ChargeSubscriptionPage.OpenOneTimeModal | gym_managementservice_frontend/src/pages/ChargeSubscription.jsx:92-100 | a count of 0 or less warns and changes nothing; otherwise the modal opens at the one-time total |
| ChargeSubscriptionPage.Cancel | gym_managementservice_frontend/src/pages/ChargeSubscription.jsx:157-159 | only closes the modal |
| ChargeSubscriptionPage.SubscriptionEnd | gym_managementservice_frontend/src/pages/ChargeSubscription.jsx:111-112 | the end is the start date plus the plan's months, at the same time of day |
| ChargeSubscriptionPage.ConfirmPlanEffects | gym_managementservice_frontend/src/pages/ChargeSubscription.jsx:107-128 | the plan POST, then a toast that is a success iff the POST succeeded |
| ChargeSubscriptionPage.ConfirmEntriesEffects | gym_managementservice_frontend/src/pages/ChargeSubscription.jsx:131-152 | the entries POST, then a toast that is a success iff the POST succeeded |
| ChargeSubscriptionPage.Confirm | gym_managementservice_frontend/src/pages/ChargeSubscription.jsx:103-154 | always closes the modal; only the count may change otherwise, to its old value or 1; nothing is sent iff the modal's action has no matching selection |
| ChargeSubscriptionPage.SubscriptionRequestDates | gym_managementservice_frontend/src/pages/ChargeSubscription.jsx:109-121 | the subscription POST has exactly member 1, the plan's id, `isActive: true` and two dates that read back as now and now plus the plan's months |
| ChargeSubscriptionPage.ConfirmSubscription | gym_managementservice_frontend/src/pages/ChargeSubscription.jsx:107-128 | confirming a chosen plan sends its POST and leaves the count alone |
| ChargeSubscriptionPage.ConfirmOneTimes | gym_managementservice_frontend/src/pages/ChargeSubscription.jsx:131-152 | confirming entries posts the current count as `count` and resets the count to 1 iff the POST succeeded |
| ChargeSubscriptionPage.ApplyKeepsCountPositive | gym_managementservice_frontend/src/pages/ChargeSubscription.jsx:76-77 | every page action keeps a count of 1 or more at 1 or more |
| ChargeSubscriptionPage.CountAlwaysPositive | gym_managementservice_frontend/src/pages/ChargeSubscription.jsx:44-100 | from a positive count, any sequence of actions keeps it positive, so opening the one-time modal never warns |
| ChargeSubscriptionPage.NoCountWarningFromStart | gym_managementservice_frontend/src/pages/ChargeSubscription.jsx:93-96 | from the initial state the non-positive-count warning can never fire |
| ChargeSubscriptionPage.ErrorToasts | gym_managementservice_frontend/src/pages/ChargeSubscription.jsx:52-56 | nothing for an empty error; otherwise exactly one error toast showing the error text |
| ChargeSubscriptionPage.Apply | gym_managementservice_frontend/src/pages/ChargeSubscription.jsx:58-77 | every action keeps the chosen entry definition in step with the loaded list and the student flag (the second definition iff student and there are two or more), re-selects after a student switch or a load, and keeps the count at 1 or more |
| ChargeSubscriptionPage.Run | gym_managementservice_frontend/src/pages/ChargeSubscription.jsx:58-77 | any sequence of actions keeps the selection in step and the count at 1 or more |
| ChargeSubscriptionPage.RunClicksCounts | gym_managementservice_frontend/src/pages/ChargeSubscription.jsx:76 | `n` clicks on + raise the count by `n` and change nothing else |
| ChargeSubscriptionPage.TotalAfterClicks | gym_managementservice_frontend/src/pages/ChargeSubscription.jsx:70-76 | after `n` clicks on + from a count of 1, the selection is unchanged and the total is the unit price times `n + 1` |
| ChargeSubscriptionPage.StudentSwitchSelects | gym_managementservice_frontend/src/pages/ChargeSubscription.jsx:59-73 | with two or more definitions, switching the student flag selects the second one iff student, and the total follows that definition's price |
| ChargeSubscriptionPage.SelectionSyncedFromStart | gym_managementservice_frontend/src/pages/ChargeSubscription.jsx:59-67 | from the page's initial state the selection always matches the loaded list and the student flag |
| UserIdentifier.Classify | gym_managementservice_frontend/src/components/UserIdentifier.jsx:20-31 | a failed request or `null` body is a failure; for an object body a truthy `warning` is that warning, else a truthy `userID` is a found member with that id, else an unknown reply; any other body is unknown |
| UserIdentifier.ReplyEffects | gym_managementservice_frontend/src/components/UserIdentifier.jsx:22-31 | each reply gives exactly one effect |
| UserIdentifier.Submit | gym_managementservice_frontend/src/components/UserIdentifier.jsx:12-35 | an empty card warns with no request and no loading; otherwise the lookup GET, loading while in flight and off afterwards, then the reply's effect |
| UserIdentifier.CallbackExactlyWhenFound | gym_managementservice_frontend/src/components/UserIdentifier.jsx:24-25 | `onUserFound` is called, once and with the id, iff the card is non-empty and the reply is found |
| UserIdentifier.WarningWins | gym_managementservice_frontend/src/components/UserIdentifier.jsx:22-23 | a truthy warning wins over any id |
| UserIdentifier.FoundIff | gym_managementservice_frontend/src/components/UserIdentifier.jsx:20-25 | an object reply is a found member iff it has no truthy `warning` and a truthy `userID`, and the id found is that `userID` |
| UserIdentifier.CallbackCarriesReplyId | gym_managementservice_frontend/src/components/UserIdentifier.jsx:20-25 | with a non-empty card and no truthy warning, the parent hears the reply's own `userID` once when it is truthy and nothing otherwise |
| UserIdentifier.ZeroIdIsUnknown | gym_managementservice_frontend/src/components/UserIdentifier.jsx:24-27 | with no warning, an id of 0 is an unknown reply |
| UserIdentifier.SubmitRequests | gym_managementservice_frontend/src/components/UserIdentifier.jsx:13-20 | nothing is sent for an empty card; otherwise exactly the lookup for that card |
| UploadUserCard.Reason | gym_managementservice_frontend/src/components/UploadUserCard.jsx:24 | the server's error text when non-empty, otherwise the error message |
| UploadUserCard.Assign | gym_managementservice_frontend/src/components/UploadUserCard.jsx:12-28 | an empty card warns, sends nothing and changes nothing; otherwise the POST followed by one more effect, loading while in flight and off afterwards |
| UploadUserCard.ClearedOnlyOnSuccess | gym_managementservice_frontend/src/components/UploadUserCard.jsx:21-22 | the typed card is cleared iff it was sent and assigned |
| UploadUserCard.AssignBody | gym_managementservice_frontend/src/components/UploadUserCard.jsx:20 | the only request is a POST to `/users/{id}/assignCard` with body `{cardNumber}` |
| ChargeOneTimeEntryPages.ChargeEffect | gym_managementservice_frontend/src/pages/ChargeOneTimeEntry.jsx:27-53 | nothing iff the id is falsy; otherwise the POST, a toast that is a success iff it succeeded, then navigation to `/` |
| ChargeOneTimeEntryPages.ChargeRequest | gym_managementservice_frontend/src/pages/ChargeOneTimeEntry.jsx:33-42 | a POST with a text `purchaseDate` that, for four-digit years, reads back as the current minute on the standard page and as the current day on the student page |
| ChargeOneTimeEntryPages.ChargeRequestFields | gym_managementservice_frontend/src/pages/ChargeOneTimeEntry.jsx:33-42 | a POST to `/user-one-time-entries` with count 1, the id as handed over, the page's entry type and `isUsed: false` |
| ChargeOneTimeEntryPages.OneChargePerMember | gym_managementservice_frontend/src/pages/ChargeOneTimeEntry.jsx:30-49 | a charge sends exactly one request, and it is a POST, whatever its outcome |
| ChargeOneTimeEntryPages.IdentifiedMemberIsCharged | gym_managementservice_frontend/src/pages/ChargeOneTimeEntry.jsx:55 | whenever the card lookup hands over an id, the page charges that id |
| ChargeOneTimeEntryPages.StudentPageAgreesWithUtility | gym_managementservice_frontend/src/pages/ChargeOneTimeEntryStudent.jsx:32-42 | the student page sends what `chargeOneTimeEntry(id, 2)` sends, while the standard page's purchase date differs from it |
| ClosurePage.FormatToLocalDatetime | gym_managementservice_frontend/src/pages/ClosurePage.jsx:41-48 | the `NaN` text iff the date is invalid |
| ClosurePage.ParseLocalDatetime | gym_managementservice_frontend/src/pages/ClosurePage.jsx:147 | a readable field text is 16 characters, `T` at 10 and `:` at 13, with the date, hour and minute read from their places and no seconds; any other length is an invalid date |
| ClosurePage.LocalDatetimeRoundTrip | gym_managementservice_frontend/src/pages/ClosurePage.jsx:41-48 | for a four-digit year the text is `YYYY-MM-DDTHH:MM`, 16 characters, and reads back as the same minute |
| ClosurePage.FetchData | gym_managementservice_frontend/src/pages/ClosurePage.jsx:60-89 | an empty start or end sets the range error and sends nothing; otherwise both range GETs, loading while in flight and off after either outcome, the lists or the load error |
| ClosurePage.Today | gym_managementservice_frontend/src/pages/ClosurePage.jsx:110-119 | always loads the range it sets, which for a four-digit year is 00:00 to 23:59 of today |
| ClosurePage.Yesterday | gym_managementservice_frontend/src/pages/ClosurePage.jsx:124-135 | always loads the range it sets, which for a four-digit year is 00:00 to 23:59 of the day before today |
| ClosurePage.NextDay | gym_managementservice_frontend/src/pages/ClosurePage.jsx:140-168 | without a range it is Today; an unreadable end gives the `NaN` text in both fields and loads it; otherwise nothing happens iff the end is on today or later, and else the day after the end is loaded from 00:00 |
| ClosurePage.PreviousDay | gym_managementservice_frontend/src/pages/ClosurePage.jsx:173-192 | always loads; without a range it is Yesterday; an unreadable start gives the `NaN` text; otherwise the whole day before the start |
| ClosurePage.ShowDayRange | gym_managementservice_frontend/src/pages/ClosurePage.jsx:110-119 | a whole-day range is 00:00 to 23:59 of that day and is loaded |
| ClosurePage.DayButtons | gym_managementservice_frontend/src/pages/ClosurePage.jsx:110-178 | Today shows today 00:00–23:59 and Yesterday the day before; without a range Next is Today and Previous is Yesterday |
| ClosurePage.PreviousThenNext | gym_managementservice_frontend/src/pages/ClosurePage.jsx:140-191 | Previous moves to the whole day before the start, and Next from there returns to the start's day |
| ClosurePage.StartsAfterTodayIff | gym_managementservice_frontend/src/pages/ClosurePage.jsx:147-161 | the day after the end starts after today 23:59:59.999 iff the end is on today or later |
| ClosurePage.WrittenDisabledIff | gym_managementservice_frontend/src/pages/ClosurePage.jsx:207-214 | the written button is disabled iff the end is readable and on a day after today, so it is never disabled where the corrected one is not |
| ClosurePage.NextDisabledIffNoOp | gym_managementservice_frontend/src/pages/ClosurePage.jsx:207-214 | the corrected button is disabled iff pressing Next would change and load nothing |
| ClosurePage.EnabledNextDoesNothing | gym_managementservice_frontend/src/pages/ClosurePage.jsx:147-214 | for a range ending today, the written button is enabled yet Next does nothing |
| ClosurePage.TodayLeavesDeadNextButton | gym_managementservice_frontend/src/pages/ClosurePage.jsx:110-214 | after Today the written Next button is enabled and does nothing |
| ClosurePage.TableDate | gym_managementservice_frontend/src/pages/ClosurePage.jsx:96-104 | a missing date shows the `NaN.NaN.NaN NaN:NaN` text of an invalid date; every text has at least 13 characters |
| ClosurePage.TableDateWithSeconds | gym_managementservice_frontend/src/pages/ClosurePage.jsx:96-104 | a backend timestamp `YYYY-MM-DDTHH:MM:SS` with a four-digit year shows as `formatDate` of its minute, the seconds dropped |
| ClosurePage.TableDateAgreesWithFormatDate | gym_managementservice_frontend/src/pages/ClosurePage.jsx:97-105 | the page's own formatter agrees with `formatDate` on a local timestamp |
| ClosurePage.LoadedTotals | gym_managementservice_frontend/src/pages/ClosurePage.jsx:276-296 | after a load the tables show the loaded lists, the purchase footer their total and the entry footer their count |
| ShowUserHistoryPage.IsoWeekday | gym_managementservice_frontend/src/pages/ShowUserHistoryPage.jsx:43 | `getDay() \|\| 7` is 1..7, 7 exactly on Sunday and `getDay()` otherwise |
| ShowUserHistoryPage.QuickRange | gym_managementservice_frontend/src/pages/ShowUserHistoryPage.jsx:37-56 | there is a range iff the filter is today, week or month |
| ShowUserHistoryPage.ComputeRange | gym_managementservice_frontend/src/pages/ShowUserHistoryPage.jsx:34-66 | empty texts for `all`; the typed range for a custom filter; the ISO minute texts of the quick range otherwise |
| ShowUserHistoryPage.TodayRange | gym_managementservice_frontend/src/pages/ShowUserHistoryPage.jsx:38-41 | today runs from 00:00:00 to 23:59:59 of the current day |
| ShowUserHistoryPage.MondayOfWeek | gym_managementservice_frontend/src/pages/ShowUserHistoryPage.jsx:43-46 | the computed Monday is a Monday and today lies `IsoWeekday - 1` days after it |
| ShowUserHistoryPage.WeekContains | gym_managementservice_frontend/src/pages/ShowUserHistoryPage.jsx:42-51 | the week from Monday to Monday + 6 contains today |
| ShowUserHistoryPage.WeekRange | gym_managementservice_frontend/src/pages/ShowUserHistoryPage.jsx:42-51 | the week starts on a Monday, ends six days later, contains today, and a Sunday is its last day |
| ShowUserHistoryPage.MonthRange | gym_managementservice_frontend/src/pages/ShowUserHistoryPage.jsx:53-55 | the month runs from its first to its last day, which contain today |
| ShowUserHistoryPage.QuickRangeText | gym_managementservice_frontend/src/pages/ShowUserHistoryPage.jsx:62-65 | for four-digit years the range texts are the ISO date, `T` and the hour and minute |
| ShowUserHistoryPage.FetchData | gym_managementservice_frontend/src/pages/ShowUserHistoryPage.jsx:69-96 | loading while in flight and off afterwards; the entries GET first and the purchases GET only after it answered; a failure keeps both lists |
| ShowUserHistoryPage.Capture | gym_managementservice_frontend/src/pages/ShowUserHistoryPage.jsx:78-82 | captured dates are never overwritten; with none held and a non-empty list, the first row's and the last row's dates are captured; nothing else changes |
| ShowUserHistoryPage.HandleFilter | gym_managementservice_frontend/src/pages/ShowUserHistoryPage.jsx:99-105 | the filter and its computed range texts are stored, and the entries request asks for exactly the stored range (the whole history for `all`) |
| ShowUserHistoryPage.HandleRangeFetch | gym_managementservice_frontend/src/pages/ShowUserHistoryPage.jsx:108-111 | switches to the custom filter, keeps the typed range and requests exactly that range; the captured dates stay |
| ShowUserHistoryPage.CaptureRule | gym_managementservice_frontend/src/pages/ShowUserHistoryPage.jsx:77-82 | the first and last entry dates are captured only on an `all` load of a non-empty list while none is held; otherwise they are kept |
| ShowUserHistoryPage.CapturedOnce | gym_managementservice_frontend/src/pages/ShowUserHistoryPage.jsx:78 | a second `all` load keeps the dates the first one captured |
| ShowUserHistoryPage.SummaryCards | gym_managementservice_frontend/src/pages/ShowUserHistoryPage.jsx:119-184 | the cards show the entry count, the amount total, the first row's date under "Poslední vstup" and the last row's under "První vstup", and `-` before any capture |
| ShowUserHistoryPage.Summary | gym_managementservice_frontend/src/pages/ShowUserHistoryPage.jsx:119-124 | four cards: the entry count, the amount total, the captured first-row date under "Poslední vstup" and the last-row date under "První vstup", each `-` when nothing is captured; no value is empty |
| ShowUserHistoryPage.AmountCardAdds | gym_managementservice_frontend/src/pages/ShowUserHistoryPage.jsx:119 | the amount total of more purchases adds their total |
| ShowUserHistoryPage.MountLoadsAll | gym_managementservice_frontend/src/pages/ShowUserHistoryPage.jsx:114-116 | on mount the member's whole history is requested with empty range texts |
| RegistrationForm.EmailShapeIsPattern | gym_managementservice_frontend/src/components/RegistrationForm.jsx:57 | `^\S+@\S+$` accepts a text iff it has no whitespace and an `@` that is neither first nor last |
| RegistrationForm.MatchesEmailPattern | gym_managementservice_frontend/src/components/RegistrationForm.jsx:57 | a one-pass scan answers exactly what the pattern accepts |
| RegistrationForm.EmailExamples | gym_managementservice_frontend/src/components/RegistrationForm.jsx:57 | `a@b` and `a@b@c` match; `@b`, `a@`, `ab` and `a @b` do not |
| RegistrationForm.Validate | gym_managementservice_frontend/src/components/RegistrationForm.jsx:34-70 | each name and the birth date has an error iff it is empty; the e-mail has an error iff it fails the pattern, the required message when empty and the format message otherwise |
| RegistrationForm.Submit | gym_managementservice_frontend/src/components/RegistrationForm.jsx:13-24 | nothing is sent and the message kept while any field fails; otherwise one POST to `/users` and the success message iff it succeeded |
| RegistrationForm.PostedIff | gym_managementservice_frontend/src/components/RegistrationForm.jsx:13-70 | the form is posted iff both names and the birth date are filled and the e-mail has no whitespace and an inner `@`, carrying the values as typed |
| UploadProfilePhoto.FileChange | gym_managementservice_frontend/src/components/UploadProfilePhoto.jsx:36-53 | the crop result is dropped, cropping starts iff a file was chosen, the preview is the chosen file or none |
| UploadProfilePhoto.CropComplete | gym_managementservice_frontend/src/components/UploadProfilePhoto.jsx:208 | the cropper's report sets the crop area and nothing else |
| UploadProfilePhoto.CropConfirm | gym_managementservice_frontend/src/components/UploadProfilePhoto.jsx:103-126 | a no-op without a crop area; a processed image becomes the file to upload and the preview and ends cropping; a failure only toasts |
| UploadProfilePhoto.Upload | gym_managementservice_frontend/src/components/UploadProfilePhoto.jsx:144-182 | no file warns and changes nothing; no processed file warns, sends nothing and leaves `isLoading` on; otherwise the POST and `isLoading` off afterwards |
| UploadProfilePhoto.OnSuccessRule | gym_managementservice_frontend/src/components/UploadProfilePhoto.jsx:160-181 | `onSuccess` is called once iff it was passed and the POST was answered with a body, even one carrying a warning |
| UploadProfilePhoto.UploadBeforeCropSticks | gym_managementservice_frontend/src/components/UploadProfilePhoto.jsx:150-155 | uploading before confirming the crop leaves `isLoading` on with no request |
| UploadProfilePhoto.LoadingStaysOn | gym_managementservice_frontend/src/components/UploadProfilePhoto.jsx:144-240 | once `isLoading` is on, no sequence of user actions turns it off, because the disabled Upload button blocks the only reset |
| UploadProfilePhoto.StuckAfterEarlyUpload | gym_managementservice_frontend/src/components/UploadProfilePhoto.jsx:145-155 | choosing a file and pressing Upload leaves the button disabled for good |
| UploadProfilePhoto.Apply | gym_managementservice_frontend/src/components/UploadProfilePhoto.jsx:144-239 | only an Upload click changes `isLoading`; a click while it is on does nothing; a click while it is off leaves it on iff a file is chosen but not cropped |
| UploadProfilePhoto.Run | gym_managementservice_frontend/src/components/UploadProfilePhoto.jsx:144-239 | no sequence of actions turns `isLoading` off once on, and one without Upload clicks never changes it |
| ManualCharge.Confirm | gym_managementservice_frontend/src/pages/ManualCharge.jsx:34-55 | an empty end date only warns; otherwise the POST, then a toast that is a success iff it succeeded |
| ManualCharge.OnePostWithEndDate | gym_managementservice_frontend/src/pages/ManualCharge.jsx:35-49 | nothing is sent iff the end date is empty; otherwise exactly one POST |
| ManualCharge.ChargeBody | gym_managementservice_frontend/src/pages/ManualCharge.jsx:41-48 | member 1, subscription 6, active, starting on today's ISO date (which reads back as today) and ending on the typed date, sent as the custom end date too |
| ManualCharge.ErrorToasts | gym_managementservice_frontend/src/pages/ManualCharge.jsx:28-32 | a load error is toasted iff it is non-empty |
| ManualCharge.ChargeRequest | gym_managementservice_frontend/src/pages/ManualCharge.jsx:41-48 | a POST to `/user-subscriptions` with exactly member 1, subscription 6, active, the typed end date as both `endDate` and `customEndDate`, and a start date that reads back as today for years 0 to 9999 |

## Left out

- The API client (`src/services/api.js`) is not part of this model. Each call is a logged request, and its outcome is a parameter.
- The STOMP/SockJS connection of the status page is not modelled: connecting, subscribing and deactivating are third-party transport. The page is modelled from the parsed message onward.
- React itself is not modelled: rendering, effect scheduling, memoisation and routing. A handler's `set…` calls are applied as one state update, and toasts, navigation and callbacks are logged effects.
- Plain input setters such as `onChange` for text fields and pickers are not modelled. They only copy a value into state.
- The placeholder `handleDetail` is left out, because it only logs to the console. All `console` output is left out.
- JavaScript `Date` parsing is modelled only for local timestamps `YYYY-MM-DDTHH:MM` and, in the closure tables, `YYYY-MM-DDTHH:MM:SS`. Any other text is an invalid date, so a timestamp with fractional seconds (`…:SS.sss`) shows as the `NaN` text in the model, while a browser would show its minute.
- ClosurePage.TableDate: `None` stands for both a missing and a `null` date. `new Date(null)` is the epoch, so a `null` date would show 1 January 1970 in the source, not the `NaN` text.
- Time zones are not modelled. `toISOString()` is taken in a zone with no offset, so there is no UTC shift, and daylight-saving gaps are left out. Dates are proleptic Gregorian calendar dates. In a zone ahead of UTC, such as Central European time, this hides two effects:
  - The student page (ChargeOneTimeEntryStudent.jsx:32) dates a purchase made between local midnight and the offset (01:00, or 02:00 in summer) as the previous day.
  - The history page's quick-range texts are the UTC reading of the local range bounds, shifted back by the offset.
- Image handling is abstract:
  - The crop, compression and object URLs of the profile photo are not modelled.
  - The result of processing is a parameter.
  - Revoking object URLs is not modelled.
  - The `FormData` field `profilePicture` is represented by the image's name.
- The Czech vocative declension and the `cs-CZ` `toLocaleString` formatter are functions passed in.
- react-hook-form internals and the browser's own `type="email"` check are left out. Only the validation rules the form registers are modelled.
- Money is in whole Kč, as integers. Floating-point amounts are not modelled.
- EntryStatusMessage.UpperCase: upper-casing is modelled for U+0000 to U+017F, which covers the Czech alphabet. Other characters are left unchanged.
- UploadProfilePhoto.WarningText: a warning that is neither text nor a number prints as `""` in the toast.
- UserIdentifier.Classify: like the warning above, a non-text, non-number warning is shown as `""`.
- ChargeSubscriptionPage.SubscriptionRequestDates: read-back is stated only for four-digit years at both ends.
- DateUtils.FormatDateRoundTrip: only for four-digit years, since `String(year)` has another length otherwise.
- ClosurePage.LocalDatetimeRoundTrip: only for four-digit years, because other years are not one fixed width.
- ClosurePage.PreviousThenNext: only for four-digit years, and only for a start no later than today. From a later start, Next refuses to move.
- ClosurePage.NextDisabledIffNoOp: only once a start is set. Without a start, Next falls back to Today.
- ClosurePage.DayButtons: only for four-digit years.
- ShowUserHistoryPage.QuickRangeText: only for years 0 to 9999, where `toISOString` prints four year digits.
- ShowUserHistoryPage.CapturedOnce: assumes the date formatter never returns `""`. `toLocaleString` always prints something, at least `Invalid Date`.
- ManualCharge.ChargeBody: only for years 0 to 9999, for the same reason.
- TransactionHistoryTable.PriceText: `None` stands for both a missing and a `null` amount and prints `undefined Kč`. An amount sent as `null` would print `null Kč` in the source; the model does not tell the two apart.
- UseChargeSubscription.PriceText: `None` stands for both a `null` and a missing price and prints `null`. A price left out of the definition would print `undefined` in the source; the model does not tell the two apart.
- The `ChargeSubscription` page's `SubscriptionSection` and `UserInfoBox` and the rest of its rendering are presentational and are not part of this model.
- Mutation of the input list by `getLatestSubscription` cannot be stated: sequences are values, so the input is unchanged by construction.
- The closure page reads `entriesRes.data` without a `null` check. The model always answers with a list.
- The history page's `eRes.data.length` would throw on a `null` body. The model represents that as a failed response.

## Findings

| source | as written | input that shows it | evidently intended | confidence | as-written member | corrected member |
|---|---|---|---|---|---|---|
| gym_managementservice_frontend/src/pages/ClosurePage.jsx:207-214 | `isNextDisabled` compares the end of the range with today at 23:59:59.999. A `datetime-local` end has no seconds, so an end on today's date (23:59 at most) is never disabled. | Press Today: the end is today 23:59. Next is then enabled, but `handleNextDay` returns without doing anything (lines 158-161). | Disable Next exactly when the range already ends today or later, which is when Next does nothing. | not executed | ClosurePage.TodayLeavesDeadNextButton | ClosurePage.NextDisabledIffNoOp |

