/*******************************************************************************
 *  src/utils/subscriptionUtils.js: picking the active subscription (the
 *  first one flagged active; the date window check is commented out in the
 *  source and therefore absent here too) and the latest one (the first of
 *  those ending last, as a stable descending sort by end date yields it).
 *******************************************************************************/

module SubscriptionUtils {
  import opened Js
  import opened Calendar

  /** A subscription as the backend lists it for a member. */
  datatype Subscription = Subscription(id: int, isActive: bool, startDate: Day, endDate: Day)

  /** The position of the first subscription flagged active. */
  function FirstActiveIndex(subs: seq<Subscription>): (r: Option<nat>)
    ensures r.Some? ==> r.value < |subs| && subs[r.value].isActive
    ensures r.Some? ==> forall j :: 0 <= j < r.value ==> !subs[j].isActive
    ensures r.None? <==> forall j :: 0 <= j < |subs| ==> !subs[j].isActive
    decreases |subs|
  {
    if subs == [] then None
    else if subs[0].isActive then Some(0)
    else match FirstActiveIndex(subs[1..])
         case None => None
         case Some(i) => Some(i + 1)
  }

  /** `getActiveSubscription(subsArray)`: the first subscription whose
      `isActive` is truthy, or `null`. An omitted argument is the empty list. */
  function GetActiveSubscription(subs: seq<Subscription>): (r: Option<Subscription>)
    ensures r.None? <==> forall j :: 0 <= j < |subs| ==> !subs[j].isActive
    ensures r.Some? ==> r.value in subs && r.value.isActive
    ensures r.Some? ==> exists i :: 0 <= i < |subs| && subs[i] == r.value
                                   && forall j :: 0 <= j < i ==> !subs[j].isActive
  {
    match FirstActiveIndex(subs)
    case None => None
    case Some(i) => Some(subs[i])
  }

  /** Whether a subscription is picked depends only on the active flags:
      start and end dates (and the current time) play no part. */
  lemma ActiveIgnoresDates(a: seq<Subscription>, b: seq<Subscription>)
    requires |a| == |b|
    requires forall i :: 0 <= i < |a| ==> a[i].isActive == b[i].isActive
    ensures FirstActiveIndex(a) == FirstActiveIndex(b)
    ensures GetActiveSubscription(a).Some? <==> GetActiveSubscription(b).Some?
  {
  }

  /** The position of the first subscription among those with the latest end
      date. */
  function LatestIndex(subs: seq<Subscription>): (i: nat)
    requires |subs| > 0
    ensures i < |subs|
    ensures forall j :: 0 <= j < |subs| ==> DateLeq(subs[j].endDate, subs[i].endDate)
    ensures forall j :: 0 <= j < i ==> DateBefore(subs[j].endDate, subs[i].endDate)
    decreases |subs|
  {
    if |subs| == 1 then 0
    else
      var k := LatestIndex(subs[1..]) + 1;
      if DateBefore(subs[0].endDate, subs[k].endDate) then k else 0
  }

  /** `getLatestSubscription(subsArray)`: `null` for an empty list, otherwise
      the head of a copy sorted by descending end date. The sort is stable, so
      ties keep their order and the head is the first of the latest-ending;
      the caller's list is never reordered. */
  function GetLatestSubscription(subs: seq<Subscription>): (r: Option<Subscription>)
    ensures r.None? <==> |subs| == 0
    ensures r.Some? ==> r.value in subs
    ensures r.Some? ==> forall j :: 0 <= j < |subs| ==> DateLeq(subs[j].endDate, r.value.endDate)
  {
    if |subs| == 0 then None else Some(subs[LatestIndex(subs)])
  }

  /** The latest subscription is determined by the end dates alone and is the
      unique position that ends no earlier than any other and strictly later
      than every one before it. */
  lemma LatestIndexUnique(subs: seq<Subscription>, i: nat)
    requires i < |subs|
    requires forall j :: 0 <= j < |subs| ==> DateLeq(subs[j].endDate, subs[i].endDate)
    requires forall j :: 0 <= j < i ==> DateBefore(subs[j].endDate, subs[i].endDate)
    ensures LatestIndex(subs) == i
  {
    var k := LatestIndex(subs);
    if k < i {
      assert DateBefore(subs[k].endDate, subs[i].endDate);
      assert DateLeq(subs[i].endDate, subs[k].endDate);
      DateOrderTotal(subs[k].endDate, subs[i].endDate);
    } else if i < k {
      assert DateBefore(subs[i].endDate, subs[k].endDate);
      assert DateLeq(subs[k].endDate, subs[i].endDate);
      DateOrderTotal(subs[i].endDate, subs[k].endDate);
    }
  }

  /** Appending a subscription that ends strictly later than all the others
      makes it the latest; one that ends no later than the current latest
      leaves the choice unchanged. */
  lemma LatestAfterAppend(subs: seq<Subscription>, s: Subscription)
    requires |subs| > 0
    ensures var i := LatestIndex(subs);
            && (DateBefore(subs[i].endDate, s.endDate) ==> LatestIndex(subs + [s]) == |subs|)
            && (DateLeq(s.endDate, subs[i].endDate) ==> LatestIndex(subs + [s]) == i)
  {
    var i := LatestIndex(subs);
    var t := subs + [s];
    if DateBefore(subs[i].endDate, s.endDate) {
      forall j | 0 <= j < |t| ensures DateLeq(t[j].endDate, s.endDate) {
        if j < |subs| { DateLeqTransitive(t[j].endDate, subs[i].endDate, s.endDate); }
      }
      forall j | 0 <= j < |subs| ensures DateBefore(t[j].endDate, s.endDate) {
        DateLeqTransitive(t[j].endDate, subs[i].endDate, s.endDate);
        DateOrderTotal(t[j].endDate, s.endDate);
      }
      LatestIndexUnique(t, |subs|);
    } else if DateLeq(s.endDate, subs[i].endDate) {
      LatestIndexUnique(t, i);
    }
  }
}
