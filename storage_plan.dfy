/** `StoragePlanService`: which storage plan a tenant has, whether its
    subscription still lets it use that plan, how much storage it may use,
    and assigning a plan to a tenant. */
module StoragePlan {
  import opened JsValues
  import opened JsStrings
  import opened JsCollections
  import opened BizErrors
  import opened PlanCatalog
  import opened Subscriptions

  /** A row of the tenants table, with the columns the service reads or writes. */
  datatype TenantRow = TenantRow(storagePlanId: Option<string>, updatedAt: int)

  /** The database tables the service reads. */
  datatype Database = Database(
    tenants: map<string, TenantRow>,
    users: seq<AuthUser>,
    subscriptions: seq<Subscription>)

  /** What the system settings provide: the catalog inputs and the key of
      the managed storage provider (`getManagedStorageProviderKey()`). */
  datatype SystemSettings = SystemSettings(catalog: CatalogSettings, managedProviderKey: JsOpt<string>)

  // ---------------------------------------------------------------------------
  // Plan ids

  /** `normalizePlanId`: a trimmed non-empty string, or `null`. */
  function NormalizePlanId(planId: JsOpt<string>): Option<string> {
    if !planId.Defined? then None
    else
      var trimmed := Trim(planId.value);
      if |trimmed| > 0 then Some(trimmed) else None
  }

  /** A normalised id is non-empty, has no surrounding whitespace, and is
      the submitted id with only whitespace cut off at either end. */
  lemma NormalizedIdIsTrimmed(planId: JsOpt<string>)
    requires NormalizePlanId(planId).Some?
    ensures var id := NormalizePlanId(planId).value;
      id != [] && !IsWhitespace(id[0]) && !IsWhitespace(id[|id| - 1])
    ensures var s, id := planId.value, NormalizePlanId(planId).value;
      var a := |s| - |TrimStart(s)|;
      a + |id| <= |s| && id == s[a..a + |id|]
      && (forall i :: 0 <= i < a ==> IsWhitespace(s[i]))
      && (forall i :: a + |id| <= i < |s| ==> IsWhitespace(s[i]))
  {
    TrimEnds(planId.value);
    TrimIsSlice(planId.value);
  }

  /** Normalising a normalised id changes nothing. */
  lemma NormalizePlanIdIdempotent(planId: JsOpt<string>)
    ensures NormalizePlanId(FromNullable(NormalizePlanId(planId))) == NormalizePlanId(planId)
  {
    var r := NormalizePlanId(planId);
    if r.Some? {
      var t := Trim(planId.value);
      assert r.value == t;
      TrimIdempotent(planId.value);
      assert Trim(t) == t;
    }
  }

  /** `resolveStoragePlanIdForTenant`: the trimmed stored id, `null` for a
      blank one, and TENANT_NOT_FOUND for a tenant without a row. */
  function ResolveStoragePlanIdForTenant(tenants: map<string, TenantRow>, tenantId: string): Result<Option<string>, BizError> {
    if tenantId !in tenants then Err(TenantNotFound)
    else
      var stored := tenants[tenantId].storagePlanId;
      if stored.None? then Ok(None)
      else
        var planId := Trim(stored.value);
        Ok(if |planId| > 0 then Some(planId) else None)
  }

  /** Reading a tenant's plan id normalises the stored column the same way
      `normalizePlanId` normalises an id being assigned. */
  lemma ResolveIsNormalize(tenants: map<string, TenantRow>, tenantId: string)
    requires tenantId in tenants
    ensures ResolveStoragePlanIdForTenant(tenants, tenantId)
      == Ok(NormalizePlanId(FromNullable(tenants[tenantId].storagePlanId)))
  {
  }

  // ---------------------------------------------------------------------------
  // Plan summaries for a tenant

  /** `getPlanSummaryForTenant`. */
  function PlanSummaryForTenant(db: Database, settings: SystemSettings, tenantId: string): Result<Option<PlanSummary>, BizError> {
    match ResolveStoragePlanIdForTenant(db.tenants, tenantId)
    case Err(e) => Err(e)
    case Ok(planId) =>
      if planId.None? then Ok(None) else Ok(PlanById(settings.catalog, planId.value))
  }

  /** `getActivePlanSummaryForTenant`, with `Date.now()` passed in as `now`. */
  function ActivePlanSummaryForTenant(db: Database, settings: SystemSettings, tenantId: string, now: int): Result<Option<PlanSummary>, BizError> {
    match PlanSummaryForTenant(db, settings, tenantId)
    case Err(e) => Err(e)
    case Ok(plan) =>
      if plan.None? || plan.value.definition.isActive == Defined(false) then Ok(None)
      else
        var productId := if plan.value.payment.Some? then Coalesce(plan.value.payment.value.creemProductId, Null) else Null;
        if !IsTruthyString(productId) then Ok(plan)
        else
          var subscription := ResolveLatestSubscription(db.users, db.subscriptions, tenantId, productId.value);
          if subscription.None? then Ok(plan)
          else if ResolveSubscriptionState(subscription.value, now) == Inactive then Ok(None)
          else Ok(plan)
  }

  /** The product id a plan is sold as, when it has a non-empty one. */
  function ProductIdOf(p: PlanSummary): Option<string> {
    if p.payment.Some? && IsTruthyString(p.payment.value.creemProductId)
    then Some(p.payment.value.creemProductId.value) else None
  }

  /** The access gate: a tenant's plan summary is returned unchanged unless
      the tenant has no row (TENANT_NOT_FOUND), the plan is missing or
      switched off, or the latest subscription for the plan's product is
      inactive; an unknown subscription state does not revoke access. */
  lemma ActivePlanGate(db: Database, settings: SystemSettings, tenantId: string, now: int)
    ensures var r := ActivePlanSummaryForTenant(db, settings, tenantId, now);
      var base := PlanSummaryForTenant(db, settings, tenantId);
      (r.Err? <==> tenantId !in db.tenants)
      && (r.Err? ==> r.error == TenantNotFound)
      && (base.Ok? && (base.value.None? || base.value.value.definition.isActive == Defined(false))
          ==> r == Ok(None))
      && (r.Ok? && r.value.Some? ==> base == r && r.value.value.definition.isActive != Defined(false))
      && (base.Ok? && base.value.Some? && base.value.value.definition.isActive != Defined(false) ==>
          var plan := base.value.value;
          (ProductIdOf(plan).None? ==> r == base)
          && (ProductIdOf(plan).Some? ==>
                var sub := ResolveLatestSubscription(db.users, db.subscriptions, tenantId, ProductIdOf(plan).value);
                r == if sub.Some? && ResolveSubscriptionState(sub.value, now) == Inactive then Ok(None) else base))
  {
  }

  /** What the gate returns for a tenant whose plan is in the catalog: the
      plan summary exactly when it is switched on and its subscription (if
      any) is not inactive. */
  lemma ActivePlanGateOverCatalog(db: Database, settings: SystemSettings, tenantId: string, now: int)
    requires ValidSettings(settings.catalog)
    requires tenantId in db.tenants
    ensures var planId := NormalizePlanId(FromNullable(db.tenants[tenantId].storagePlanId));
      var r := ActivePlanSummaryForTenant(db, settings, tenantId, now);
      r.Ok?
      && (r.value.Some? ==>
            (planId.Some? && PlanById(settings.catalog, planId.value) == r.value
             && r.value.value.definition.isActive == Defined(true)))
  {
    ResolveIsNormalize(db.tenants, tenantId);
    ActivePlanGate(db, settings, tenantId, now);
    var planId := NormalizePlanId(FromNullable(db.tenants[tenantId].storagePlanId));
    var r := ActivePlanSummaryForTenant(db, settings, tenantId, now);
    if r.value.Some? {
      assert planId.Some?;
      PlanByIdWellFormed(settings.catalog, planId.value);
      var p := r.value.value;
      assert p == PlanById(settings.catalog, planId.value).value;
      assert p.definition.isActive != Defined(false) && p.definition.isActive.Defined?;
      assert p.definition.isActive.value;
    }
  }

  // ---------------------------------------------------------------------------
  // Quota

  /** `billingPlanService.getIncludedStorageBytes(...)`: a byte count, or
      `Number.POSITIVE_INFINITY` for plans without a cap. */
  datatype IncludedBytes = Bytes(n: int) | Unlimited

  /** `StorageQuotaSummary`: `null` totals mean "unlimited". */
  datatype QuotaSummary = QuotaSummary(appIncludedBytes: IncludedBytes, storagePlanBytes: Option<int>, totalBytes: Option<int>)

  /** The quota arithmetic of `getQuotaForTenant`, for the tenant's storage
      plan definition if it has one in the catalog. */
  function ComputeQuota(appIncluded: IncludedBytes, storagePlan: Option<PlanDefinition>): QuotaSummary {
    var capacity := if storagePlan.Some? then storagePlan.value.capacityBytes else Undefined;
    var storagePlanBytes := if capacity.Undefined? then Some(0) else if capacity.Null? then None else Some(capacity.value);
    var totalBytes :=
      if appIncluded.Unlimited? || capacity.Null? then None
      else Some(appIncluded.n + (if storagePlanBytes.Some? then storagePlanBytes.value else 0));
    QuotaSummary(appIncluded, storagePlanBytes, totalBytes)
  }

  /** `getQuotaForTenant`: `appIncluded` is what the billing plan service
      reports for the tenant's app plan. */
  function QuotaForTenant(db: Database, settings: SystemSettings, appIncluded: IncludedBytes, tenantId: string): (r: Result<QuotaSummary, BizError>)
    ensures tenantId !in db.tenants ==> r == Err(TenantNotFound)
    ensures tenantId in db.tenants ==> r.Ok?
  {
    match ResolveStoragePlanIdForTenant(db.tenants, tenantId)
    case Err(e) => Err(e)
    case Ok(planId) =>
      var storagePlan := if planId.Some? then Get(Catalog(settings.catalog), planId.value) else None;
      Ok(ComputeQuota(appIncluded, storagePlan))
  }

  /** The quota arithmetic: the total is unlimited exactly when the app plan
      is unlimited or the plan capacity is `null`; otherwise it is the sum,
      with a missing plan counting as 0 bytes. */
  lemma QuotaArithmetic(appIncluded: IncludedBytes, storagePlan: Option<PlanDefinition>)
    ensures var q := ComputeQuota(appIncluded, storagePlan);
      q.appIncludedBytes == appIncluded
      && (q.totalBytes.None? <==>
            appIncluded.Unlimited? || (storagePlan.Some? && storagePlan.value.capacityBytes.Null?))
      && (storagePlan.None? ==> q.storagePlanBytes == Some(0))
      && (storagePlan.Some? && storagePlan.value.capacityBytes.Defined? ==>
            q.storagePlanBytes == Some(storagePlan.value.capacityBytes.value))
      && (q.totalBytes.Some? ==> q.totalBytes.value == appIncluded.n + q.storagePlanBytes.value)
  {
  }

  /** Through the catalog a plan capacity is never `null`, so the total is
      unlimited exactly when the app plan is; otherwise it adds the plan's
      capacity (0 without a plan, or for an id not in the catalog). */
  lemma QuotaThroughCatalog(db: Database, settings: SystemSettings, appIncluded: IncludedBytes, tenantId: string)
    requires ValidSettings(settings.catalog)
    requires tenantId in db.tenants
    ensures var r := QuotaForTenant(db, settings, appIncluded, tenantId);
      var planId := NormalizePlanId(FromNullable(db.tenants[tenantId].storagePlanId));
      r.Ok?
      && (r.value.totalBytes.None? <==> appIncluded.Unlimited?)
      && r.value.storagePlanBytes.Some?
      && (planId.None? || PlanById(settings.catalog, planId.value).None? ==> r.value.storagePlanBytes == Some(0))
      && (planId.Some? && PlanById(settings.catalog, planId.value).Some? ==>
            Defined(r.value.storagePlanBytes.value) == PlanById(settings.catalog, planId.value).value.definition.capacityBytes)
  {
    ResolveIsNormalize(db.tenants, tenantId);
    var planId := NormalizePlanId(FromNullable(db.tenants[tenantId].storagePlanId));
    CatalogWellFormed(settings.catalog);
    if planId.Some? {
      var c := Catalog(settings.catalog);
      var i := IndexOf(c, planId.value);
      if i != -1 {
        assert WellFormed(c[i].0, c[i].1);
      }
    }
  }

  /** Worked cases of the quota: an unlimited app plan makes any total
      unlimited; 5 included bytes plus a 10-byte plan make 15. */
  lemma QuotaExamples(plan: PlanDefinition)
    requires plan.capacityBytes == Defined(10)
    ensures ComputeQuota(Unlimited, Some(plan)).totalBytes.None?
    ensures ComputeQuota(Bytes(5), Some(plan)).totalBytes == Some(15)
    ensures ComputeQuota(Bytes(5), None).totalBytes == Some(5)
  {
  }

  // ---------------------------------------------------------------------------
  // Plan assignment

  /** The checks `assignPlanToTenant` makes before it writes: managed storage
      must be enabled, and a non-null id must name an active catalog plan.
      On success, the id to store. */
  function ValidateAssignment(settings: SystemSettings, planId: JsOpt<string>): Result<Option<string>, BizError> {
    var normalized := NormalizePlanId(planId);
    if !IsTruthyString(settings.managedProviderKey) then Err(BadRequest(ManagedStorageDisabled))
    else if normalized.Some? &&
      (var plan := PlanById(settings.catalog, normalized.value);
       plan.None? || plan.value.definition.isActive == Defined(false))
    then Err(BadRequest(UnknownOrInactivePlan(normalized.value)))
    else Ok(normalized)
  }

  /** Assignment is refused whenever managed storage is disabled, even for a
      valid plan, and clearing the plan is always accepted otherwise. */
  lemma ValidateAssignmentWithoutPlan(settings: SystemSettings, planId: JsOpt<string>)
    ensures !IsTruthyString(settings.managedProviderKey) ==>
      ValidateAssignment(settings, planId) == Err(BadRequest(ManagedStorageDisabled))
    ensures IsTruthyString(settings.managedProviderKey) && NormalizePlanId(planId).None? ==>
      ValidateAssignment(settings, planId) == Ok(None)
  {
  }

  /** With managed storage enabled, a non-null id is accepted exactly when it
      names an active catalog plan, and what is accepted is the normalised id. */
  lemma ValidateAssignmentWithPlan(settings: SystemSettings, planId: JsOpt<string>)
    requires ValidSettings(settings.catalog)
    requires IsTruthyString(settings.managedProviderKey)
    requires NormalizePlanId(planId).Some?
    ensures var id := NormalizePlanId(planId).value;
      var plan := PlanById(settings.catalog, id);
      ValidateAssignment(settings, planId) ==
        if plan.Some? && plan.value.definition.isActive == Defined(true)
        then Ok(Some(id)) else Err(BadRequest(UnknownOrInactivePlan(id)))
  {
    var id := NormalizePlanId(planId).value;
    var plan := PlanById(settings.catalog, id);
    if plan.Some? {
      PlanByIdWellFormed(settings.catalog, id);
      assert plan.value.definition.isActive.Defined?;
      if plan.value.definition.isActive != Defined(false) {
        assert plan.value.definition.isActive.value;
      }
    }
  }

  /** The tenants table, whose `storagePlanId` and `updatedAt` columns
      `persistTenantStoragePlan` updates. */
  class TenantTable {
    var rows: map<string, TenantRow>

    constructor (rows: map<string, TenantRow>)
      ensures this.rows == rows
    {
      this.rows := rows;
    }

    /** `assignPlanToTenant`, with the time of the write passed in as `now`.
        A refused assignment writes nothing; an accepted one updates the
        tenant's row, if there is one, and no other row. */
    method AssignPlanToTenant(settings: SystemSettings, tenantId: string, planId: JsOpt<string>, now: int)
      returns (r: Result<(), BizError>)
      modifies this
      ensures !IsTruthyString(settings.managedProviderKey) ==> r == Err(BadRequest(ManagedStorageDisabled))
      ensures r.Err? <==> ValidateAssignment(settings, planId).Err?
      ensures r.Err? ==> r.error == ValidateAssignment(settings, planId).error && rows == old(rows)
      ensures r.Ok? ==>
        rows == (if tenantId in old(rows)
                 then old(rows)[tenantId := TenantRow(NormalizePlanId(planId), now)]
                 else old(rows))
      ensures forall t :: t != tenantId ==> (t in rows <==> t in old(rows)) && (t in rows ==> rows[t] == old(rows)[t])
    {
      var normalized := NormalizePlanId(planId);
      if !IsTruthyString(settings.managedProviderKey) {
        return Err(BadRequest(ManagedStorageDisabled));
      }
      if normalized.Some? {
        var plan := PlanById(settings.catalog, normalized.value);
        if plan.None? || plan.value.definition.isActive == Defined(false) {
          return Err(BadRequest(UnknownOrInactivePlan(normalized.value)));
        }
      }
      PersistTenantStoragePlan(tenantId, normalized, now);
      r := Ok(());
    }

    /** `persistTenantStoragePlan`: an UPDATE ... WHERE id = tenantId, which
        changes nothing when there is no such row. */
    method PersistTenantStoragePlan(tenantId: string, planId: Option<string>, now: int)
      modifies this
      ensures rows == if tenantId in old(rows) then old(rows)[tenantId := TenantRow(planId, now)] else old(rows)
    {
      if tenantId in rows {
        rows := rows[tenantId := TenantRow(planId, now)];
      }
    }
  }

  /** What an accepted assignment stores is read back unchanged: the next
      `resolveStoragePlanIdForTenant` returns exactly the normalised id. */
  lemma AssignedPlanReadsBack(tenants: map<string, TenantRow>, tenantId: string, planId: JsOpt<string>, now: int)
    requires tenantId in tenants
    ensures ResolveStoragePlanIdForTenant(tenants[tenantId := TenantRow(NormalizePlanId(planId), now)], tenantId)
      == Ok(NormalizePlanId(planId))
  {
    NormalizePlanIdIdempotent(planId);
    ResolveIsNormalize(tenants[tenantId := TenantRow(NormalizePlanId(planId), now)], tenantId);
  }
}
