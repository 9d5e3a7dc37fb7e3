/** client/src/lib/subscription.ts: choosing a plan, cancelling it, and the two decisions
    read from a user's plan and end date. Instants are integers; adding a calendar month or
    year is a parameter. */
module Subscription {
  import opened Optional
  import opened Utils

  /** `setMonth(getMonth() + 1)` and `setFullYear(getFullYear() + 1)` on an instant. */
  datatype Calendar = Calendar(addMonth: int -> int, addYear: int -> int)

  /** A calendar whose month and year steps do not go back in time. */
  ghost predicate Forward(cal: Calendar) {
    && (forall t :: cal.addMonth(t) >= t)
    && (forall t :: cal.addYear(t) >= t)
  }

  /** The part of the client's `User` these rules read. */
  datatype Subscriber = Subscriber(subscriptionPlan: string, subscriptionEndDate: Option<int>)

  /** The `Partial<User>` the rules send to `updateUser`. */
  datatype SubscriptionPatch = SubscriptionPatch(subscriptionPlan: Field<string>, subscriptionEndDate: Field<Option<int>>)

  /** The user after `{ ...user, ...patch }`. */
  function Apply(u: Subscriber, patch: SubscriptionPatch): Subscriber {
    Subscriber(patch.subscriptionPlan.Over(u.subscriptionPlan), patch.subscriptionEndDate.Over(u.subscriptionEndDate))
  }

  /** The end of a period of `planId` that starts at `start`. */
  function EndDate(planId: string, start: int, cal: Calendar): (r: int)
    ensures planId == "monthly" ==> r == cal.addMonth(start)
    ensures planId == "yearly" ==> r == cal.addYear(start)
    ensures planId != "monthly" && planId != "yearly" ==> r == start
  {
    if planId == "monthly" then cal.addMonth(start)
    else if planId == "yearly" then cal.addYear(start)
    else start
  }

  /** What `subscribeToPlan` does: reject a plan id missing from the table (nothing is
      written), or send the plan and the end of its first period. */
  datatype Subscribe = InvalidPlanSelected | Update(patch: SubscriptionPatch)

  function SubscribeToPlan(planId: string, now: int, cal: Calendar): (r: Subscribe)
    ensures r.InvalidPlanSelected? <==> planId !in {"free", "monthly", "yearly"}
    ensures r.Update? ==> r.patch == SubscriptionPatch(Set(planId), Set(Some(EndDate(planId, now, cal))))
  {
    if FindPlan(planId).None? then InvalidPlanSelected
    else Update(SubscriptionPatch(Set(planId), Set(Some(EndDate(planId, now, cal)))))
  }

  /** `cancelSubscription`: only the plan changes, to "free". */
  function CancelSubscription(): (r: SubscriptionPatch)
    ensures forall u: Subscriber :: Apply(u, r) == u.(subscriptionPlan := "free")
  {
    SubscriptionPatch(Set("free"), Keep)
  }

  datatype Status = Active | Expired | Canceled

  /** The record `getSubscriptionDetails` returns (the `SubscriptionDetails` interface). */
  datatype Details = Details(plan: Plan, startDate: int, endDate: int, status: Status)

  /** `getSubscriptionDetails` as written: the stored end date is taken as the START of a
      period and one more period is added to get the end. */
  function GetSubscriptionDetails(user: Option<Subscriber>, now: int, cal: Calendar): (r: Option<Details>)
    ensures r.None? <==> user.None? || user.value.subscriptionPlan == "free" || FindPlan(user.value.subscriptionPlan).None?
    ensures r.Some? ==> && r.value.plan.id == user.value.subscriptionPlan
                        && r.value.startDate == user.value.subscriptionEndDate.GetOr(now)
                        && r.value.endDate == EndDate(user.value.subscriptionPlan, r.value.startDate, cal)
                        && (r.value.status == Expired <==> now > r.value.endDate)
                        && r.value.status != Canceled
  {
    if user.None? || user.value.subscriptionPlan == "free" then None
    else
      match FindPlan(user.value.subscriptionPlan)
      case None => None
      case Some(plan) =>
        var startDate := user.value.subscriptionEndDate.GetOr(now);
        var endDate := EndDate(user.value.subscriptionPlan, startDate, cal);
        Some(Details(plan, startDate, endDate, if now > endDate then Expired else Active))
  }

  /** `canUploadPremiumDocument`: a user on a paid plan whose end date, if any, has not
      passed. */
  function CanUploadPremiumDocument(user: Option<Subscriber>, now: int): (r: bool)
    ensures r <==> && user.Some? && user.value.subscriptionPlan != "free"
                   && (user.value.subscriptionEndDate.None? || now <= user.value.subscriptionEndDate.value)
  {
    if user.None? then false
    else if user.value.subscriptionPlan == "free" then false
    else if user.value.subscriptionEndDate.Some? && now > user.value.subscriptionEndDate.value then false
    else true
  }

  /** After subscribing to a paid plan, premium uploads are allowed exactly until the end of
      the first period. */
  lemma SubscribedUploadsUntilEnd(u: Subscriber, planId: string, start: int, now: int, cal: Calendar)
    requires planId in {"monthly", "yearly"}
    ensures var r := SubscribeToPlan(planId, start, cal);
            r.Update? && (CanUploadPremiumDocument(Some(Apply(u, r.patch)), now) <==> now <= EndDate(planId, start, cal))
  {
  }

  /** Cancelling stops premium uploads at once and leaves no details to show. */
  lemma CancelEndsPremium(u: Subscriber, now: int, cal: Calendar)
    ensures !CanUploadPremiumDocument(Some(Apply(u, CancelSubscription())), now)
    ensures GetSubscriptionDetails(Some(Apply(u, CancelSubscription())), now, cal).None?
  {
  }

  /** As written, a monthly subscriber whose stored end date has passed, but by less than a
      month, is reported "active" while premium uploads are refused. */
  lemma AsWrittenDetailsOutliveEndDate(u: Subscriber, now: int, cal: Calendar)
    requires u.subscriptionPlan == "monthly" && u.subscriptionEndDate.Some?
    requires u.subscriptionEndDate.value < now <= cal.addMonth(u.subscriptionEndDate.value)
    ensures GetSubscriptionDetails(Some(u), now, cal).value.status == Active
    ensures !CanUploadPremiumDocument(Some(u), now)
  {
  }

  /** One such input: a stored end at instant 100, a 30-unit month, now 110. */
  lemma AsWrittenCounterexample()
    ensures var cal := Calendar(t => t + 30, t => t + 365);
            var u := Subscriber("monthly", Some(100));
            GetSubscriptionDetails(Some(u), 110, cal).value.status == Active
            && !CanUploadPremiumDocument(Some(u), 110)
  {
    var cal := Calendar(t => t + 30, t => t + 365);
    AsWrittenDetailsOutliveEndDate(Subscriber("monthly", Some(100)), 110, cal);
  }

  /** The corrected details: the period ends at the stored end date, which is the date
      `subscribeToPlan` wrote; only without a stored date does a period run from now. The
      start is kept as the source computes it, so with a stored end date the start and the
      end are the same instant. */
  function CorrectedDetails(user: Option<Subscriber>, now: int, cal: Calendar): (r: Option<Details>)
    ensures r.None? <==> user.None? || user.value.subscriptionPlan == "free" || FindPlan(user.value.subscriptionPlan).None?
    ensures r.Some? && user.value.subscriptionEndDate.Some? ==> r.value.endDate == user.value.subscriptionEndDate.value
                                                                && r.value.startDate == r.value.endDate
    ensures r.Some? ==> (r.value.status == Expired <==> now > r.value.endDate) && r.value.status != Canceled
  {
    if user.None? || user.value.subscriptionPlan == "free" then None
    else
      match FindPlan(user.value.subscriptionPlan)
      case None => None
      case Some(plan) =>
        var endDate := match user.value.subscriptionEndDate
          case Some(end) => end
          case None => EndDate(user.value.subscriptionPlan, now, cal);
        var startDate := user.value.subscriptionEndDate.GetOr(now);
        Some(Details(plan, startDate, endDate, if now > endDate then Expired else Active))
  }

  /** With the corrected details, a subscriber on a known paid plan is shown "active"
      exactly when premium uploads are allowed. */
  lemma DetailsAgreeWithUploads(u: Subscriber, now: int, cal: Calendar)
    requires Forward(cal)
    requires u.subscriptionPlan != "free" && FindPlan(u.subscriptionPlan).Some?
    ensures CorrectedDetails(Some(u), now, cal).value.status == Active <==> CanUploadPremiumDocument(Some(u), now)
  {
    if u.subscriptionEndDate.None? {
      assert cal.addMonth(now) >= now && cal.addYear(now) >= now;
    }
  }
}
