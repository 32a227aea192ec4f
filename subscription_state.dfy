/** How `StoragePlanService` finds a tenant's latest payment-provider
    subscription for a product and classifies it as active, inactive or
    unknown. */
module Subscriptions {
  import opened JsValues
  import opened JsStrings
  import opened JsCollections

  /** `periodEnd` after `new Date(raw).getTime()`: absent (a falsy raw value),
      unparseable (`NaN`), or a point in time in milliseconds. */
  datatype PeriodEnd = NoPeriodEnd | Unparseable | At(millis: int)

  /** A row of the subscriptions table, with the columns the service reads. */
  datatype Subscription = Subscription(
    referenceId: Option<string>,
    creemCustomerId: Option<string>,
    productId: Option<string>,
    status: Option<string>,
    periodEnd: PeriodEnd,
    cancelAtPeriodEnd: bool,
    updatedAt: int)

  /** A row of the users table. */
  datatype AuthUser = AuthUser(id: Option<string>, tenantId: Option<string>, creemCustomerId: Option<string>)

  datatype SubscriptionState = Active | Inactive | Unknown

  const ActiveStatuses: set<string> := {"active", "trialing", "paid"}
  const InactiveStatuses: set<string> := {"canceled", "cancelled", "expired", "past_due", "unpaid"}

  // ---------------------------------------------------------------------------
  // Classification

  /** `subscription.status?.toLowerCase() ?? null`. */
  function LoweredStatus(sub: Subscription): Option<string> {
    if sub.status.Some? then Some(ToLower(sub.status.value)) else None
  }

  /** `status && statuses.has(status)`. */
  predicate StatusIn(sub: Subscription, statuses: set<string>) {
    var status := LoweredStatus(sub);
    status.Some? && status.value != "" && status.value in statuses
  }

  /** The period has a valid end at or before `now`. */
  predicate Expired(sub: Subscription, now: int) {
    sub.periodEnd.At? && sub.periodEnd.millis <= now
  }

  /** Cancelled at period end, with a valid end still in the future. */
  predicate InGracePeriod(sub: Subscription, now: int) {
    sub.cancelAtPeriodEnd && sub.periodEnd.At? && sub.periodEnd.millis > now
  }

  /** `resolveSubscriptionState`, with `Date.now()` passed in as `now`. */
  function ResolveSubscriptionState(sub: Subscription, now: int): SubscriptionState {
    if Expired(sub, now) then Inactive
    else if StatusIn(sub, ActiveStatuses) then Active
    else if InGracePeriod(sub, now) then Active
    else if StatusIn(sub, InactiveStatuses) then Inactive
    else Unknown
  }

  /** The classifier's outcomes, each as a condition on the subscription: an
      expired period always wins, an active status or a grace period grants
      access, and only a recognised inactive status revokes it otherwise. */
  lemma SubscriptionStateCharacterisation(sub: Subscription, now: int)
    ensures Expired(sub, now) ==> ResolveSubscriptionState(sub, now) == Inactive
    ensures ResolveSubscriptionState(sub, now) == Active <==>
      !Expired(sub, now) && (StatusIn(sub, ActiveStatuses) || InGracePeriod(sub, now))
    ensures ResolveSubscriptionState(sub, now) == Inactive <==>
      Expired(sub, now)
      || (!StatusIn(sub, ActiveStatuses) && !InGracePeriod(sub, now) && StatusIn(sub, InactiveStatuses))
    ensures ResolveSubscriptionState(sub, now) == Unknown <==>
      !Expired(sub, now) && !StatusIn(sub, ActiveStatuses) && !InGracePeriod(sub, now)
      && !StatusIn(sub, InactiveStatuses)
  {
  }

  /** Once a valid period end is reached, the subscription is inactive at
      every later time, whatever its status or cancellation flag. */
  lemma ExpiryIsPermanent(sub: Subscription, now: int, later: int)
    requires sub.periodEnd.At? && sub.periodEnd.millis <= now <= later
    ensures ResolveSubscriptionState(sub, later) == Inactive
  {
  }

  /** Without a valid period end, the state depends on the status alone. */
  lemma NoPeriodEndIgnoresClock(sub: Subscription, now: int, now': int)
    requires !sub.periodEnd.At?
    ensures ResolveSubscriptionState(sub, now) == ResolveSubscriptionState(sub, now')
    ensures ResolveSubscriptionState(sub, now) ==
      if StatusIn(sub, ActiveStatuses) then Active
      else if StatusIn(sub, InactiveStatuses) then Inactive
      else Unknown
  {
  }

  /** Status strings are compared case-insensitively: lower-casing the stored
      status never changes the outcome. */
  lemma StatusIsCaseInsensitive(sub: Subscription, now: int)
    requires sub.status.Some?
    ensures ResolveSubscriptionState(sub.(status := Some(ToLower(sub.status.value))), now)
      == ResolveSubscriptionState(sub, now)
  {
    ToLowerIdempotent(sub.status.value);
  }

  /** A subscription cancelled at period end, whose period has not ended,
      still grants access: "canceled" with a future period end is active. */
  lemma CanceledButNotExpiredIsActive(sub: Subscription, now: int)
    requires sub.status == Some("canceled") && sub.cancelAtPeriodEnd
    requires sub.periodEnd.At? && sub.periodEnd.millis > now
    ensures ResolveSubscriptionState(sub, now) == Active
  {
  }

  /** An unrecognised status with no period end is unknown. */
  lemma UnrecognisedStatusIsUnknown(sub: Subscription, now: int)
    requires sub.status == Some("unknown_status") && sub.periodEnd == NoPeriodEnd
    ensures ResolveSubscriptionState(sub, now) == Unknown
  {
    assert ToLower("unknown_status") == "unknown_status";
  }

  // ---------------------------------------------------------------------------
  // Subscription lookup

  /** The ids of `ids` that are strings of positive length, in order. */
  function PresentIds(ids: seq<Option<string>>): (r: seq<string>)
    ensures forall x :: x in r <==> Some(x) in ids && x != ""
  {
    if ids == [] then []
    else
      (if ids[0].Some? && ids[0].value != "" then [ids[0].value] else [])
      + PresentIds(ids[1..])
  }

  predicate BelongsTo(tenantId: string, u: AuthUser) {
    u.tenantId == Some(tenantId)
  }

  /** `users.map((user) => user.id).filter(...)` over the tenant's users. */
  function UserIds(users: seq<AuthUser>, tenantId: string): seq<string> {
    var us := Filter(users, (u: AuthUser) => BelongsTo(tenantId, u));
    PresentIds(seq(|us|, i requires 0 <= i < |us| => us[i].id))
  }

  /** `users.map((user) => user.creemCustomerId).filter(...)` over the tenant's users. */
  function CustomerIds(users: seq<AuthUser>, tenantId: string): seq<string> {
    var us := Filter(users, (u: AuthUser) => BelongsTo(tenantId, u));
    PresentIds(seq(|us|, i requires 0 <= i < |us| => us[i].creemCustomerId))
  }

  /** The columns the query filters on, and the drizzle conditions over them. */
  datatype Column = ReferenceId | CreemCustomerId | ProductId

  datatype Condition =
    | InArray(column: Column, values: seq<string>)
    | Eq(column: Column, value: string)
    | And(left: Condition, right: Condition)
    | Or(operands: seq<Condition>)

  function ColumnValue(row: Subscription, column: Column): Option<string> {
    match column
    case ReferenceId => row.referenceId
    case CreemCustomerId => row.creemCustomerId
    case ProductId => row.productId
  }

  /** Whether the WHERE clause selects the row. A NULL column matches no
      `IN` and no `=`, and the clause has no negation, so SQL's third truth
      value behaves as false. */
  predicate Holds(c: Condition, row: Subscription)
    decreases c
  {
    match c
    case InArray(col, vs) => ColumnValue(row, col).Some? && ColumnValue(row, col).value in vs
    case Eq(col, v) => ColumnValue(row, col) == Some(v)
    case And(l, r) => Holds(l, row) && Holds(r, row)
    case Or(ops) => exists i :: 0 <= i < |ops| && Holds(ops[i], row)
  }

  /** The `conditions` array: one `IN` per non-empty id list. */
  function Conditions(userIds: seq<string>, customerIds: seq<string>): seq<Condition> {
    (if |userIds| > 0 then [InArray(ReferenceId, userIds)] else [])
    + (if |customerIds| > 0 then [InArray(CreemCustomerId, customerIds)] else [])
  }

  /** The WHERE clause exactly as the two branches build it. */
  function WhereClause(userIds: seq<string>, customerIds: seq<string>, productId: string): Condition
    requires |userIds| > 0 || |customerIds| > 0
  {
    var cs := Conditions(userIds, customerIds);
    var where := if |cs| == 1 then cs[0] else And(Or(cs), Eq(ProductId, productId));
    if |cs| == 1 then And(where, Eq(ProductId, productId)) else where
  }

  /** A subscription of one of the tenant's users or customers, for the product. */
  predicate MatchesTenantProduct(row: Subscription, userIds: seq<string>, customerIds: seq<string>, productId: string) {
    ((row.referenceId.Some? && row.referenceId.value in userIds)
     || (row.creemCustomerId.Some? && row.creemCustomerId.value in customerIds))
    && row.productId == Some(productId)
  }

  /** Both branches of the WHERE clause AND the product filter with the id
      matches: the clause is the same symmetric condition whether one or both
      id lists are non-empty. */
  lemma WhereClauseIsSymmetric(userIds: seq<string>, customerIds: seq<string>, productId: string, row: Subscription)
    requires |userIds| > 0 || |customerIds| > 0
    ensures Holds(WhereClause(userIds, customerIds, productId), row)
      <==> MatchesTenantProduct(row, userIds, customerIds, productId)
  {
    var cs := Conditions(userIds, customerIds);
    if |cs| != 1 {
      assert cs == [InArray(ReferenceId, userIds), InArray(CreemCustomerId, customerIds)];
      assert Holds(Or(cs), row) <==> Holds(cs[0], row) || Holds(cs[1], row);
    }
  }

  /** `ORDER BY updatedAt DESC LIMIT 1` over the rows the clause selects; of
      rows updated at the same time, the first in table order. */
  function LatestOf(rows: seq<Subscription>, c: Condition): (r: Option<Subscription>)
    ensures r.None? <==> forall i :: 0 <= i < |rows| ==> !Holds(c, rows[i])
    ensures r.Some? ==> r.value in rows && Holds(c, r.value)
    ensures r.Some? ==> forall i :: 0 <= i < |rows| && Holds(c, rows[i]) ==> rows[i].updatedAt <= r.value.updatedAt
  {
    if rows == [] then None
    else
      var rest := LatestOf(rows[1..], c);
      if !Holds(c, rows[0]) then rest
      else if rest.Some? && rest.value.updatedAt > rows[0].updatedAt then rest
      else Some(rows[0])
  }

  /** `resolveLatestSubscriptionForTenant`, over the users and subscription
      tables. */
  function ResolveLatestSubscription(users: seq<AuthUser>, subscriptions: seq<Subscription>, tenantId: string, productId: string): Option<Subscription> {
    var userIds := UserIds(users, tenantId);
    var customerIds := CustomerIds(users, tenantId);
    if |userIds| == 0 && |customerIds| == 0 then None
    else LatestOf(subscriptions, WhereClause(userIds, customerIds, productId))
  }

  /** The lookup finds nothing for a tenant without user or customer ids;
      otherwise it returns the most recently updated subscription for the
      product that references one of the tenant's users or customers, and
      nothing only when there is no such subscription. */
  lemma LatestSubscriptionProperties(users: seq<AuthUser>, subscriptions: seq<Subscription>, tenantId: string, productId: string)
    ensures var userIds, customerIds := UserIds(users, tenantId), CustomerIds(users, tenantId);
      var r := ResolveLatestSubscription(users, subscriptions, tenantId, productId);
      (|userIds| == 0 && |customerIds| == 0 ==> r.None?)
      && (r.None? <==> forall i :: 0 <= i < |subscriptions| ==>
            !MatchesTenantProduct(subscriptions[i], userIds, customerIds, productId))
      && (r.Some? ==>
            r.value in subscriptions
            && MatchesTenantProduct(r.value, userIds, customerIds, productId)
            && (forall i :: 0 <= i < |subscriptions|
                 && MatchesTenantProduct(subscriptions[i], userIds, customerIds, productId)
                 ==> subscriptions[i].updatedAt <= r.value.updatedAt))
  {
    var userIds, customerIds := UserIds(users, tenantId), CustomerIds(users, tenantId);
    if |userIds| > 0 || |customerIds| > 0 {
      forall row: Subscription {
        WhereClauseIsSymmetric(userIds, customerIds, productId, row);
      }
    }
  }
}
