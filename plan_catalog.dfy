/** The storage-plan catalog of `StoragePlanService`: the default catalog
    merged with the configured overrides, filled with defaults, and the plan
    summaries built from it. */
module PlanCatalog {
  import opened JsValues
  import opened JsCollections

  /** A catalog entry as configured: every field but the name may be missing. */
  datatype PlanEntry = PlanEntry(
    name: string,
    description: JsOpt<string>,
    capacityBytes: JsOpt<int>,
    isActive: JsOpt<bool>)

  /** `StoragePlanDefinition`. `capacityBytes` keeps the type's `null`, which
      the quota treats as "uncapped"; the catalog never produces it. */
  datatype PlanDefinition = PlanDefinition(
    id: string,
    name: string,
    description: JsOpt<string>,
    capacityBytes: JsOpt<int>,
    isActive: JsOpt<bool>)

  /** Pricing attached to a plan; passed through to callers, never read here. */
  datatype Pricing = Pricing(fields: Record<string>)

  /** The payment-provider product a plan is sold as. */
  datatype PaymentInfo = PaymentInfo(creemProductId: JsOpt<string>)

  /** `StoragePlanSummary`: a definition with its pricing and payment info. */
  datatype PlanSummary = PlanSummary(
    definition: PlanDefinition,
    pricing: Option<Pricing>,
    payment: Option<PaymentInfo>)

  /** What the system settings provide, plus the built-in default catalog. */
  datatype CatalogSettings = CatalogSettings(
    defaults: Record<PlanEntry>,     // DEFAULT_STORAGE_PLAN_CATALOG
    overrides: Record<PlanEntry>,    // getStoragePlanCatalog()
    pricing: Record<Pricing>,        // getStoragePlanPricing()
    products: Record<PaymentInfo>)   // getStoragePlanProducts()

  /** Settings whose records are genuine objects (distinct keys). */
  predicate ValidSettings(s: CatalogSettings) {
    IsObject(s.defaults) && IsObject(s.overrides)
  }

  /** The definition stored under `id`, with the `??` defaults applied. */
  function ToDefinition(id: string, e: PlanEntry): PlanDefinition {
    PlanDefinition(
      id,
      e.name,
      Coalesce(e.description, Null),
      Coalesce(e.capacityBytes, Defined(0)),
      Coalesce(e.isActive, Defined(true)))
  }

  /** A catalog entry as `getPlanCatalog` promises it: keyed by its own
      non-empty id, description never undefined, capacity and active flag set. */
  predicate WellFormed(key: string, d: PlanDefinition) {
    key != "" && d.id == key && !d.description.Undefined?
    && d.capacityBytes.Defined? && d.isActive.Defined?
  }

  /** The `reduce` over `Object.entries(merged)`: each entry with a non-empty
      id is assigned into the accumulator, in order. */
  function CatalogFrom(entries: Record<PlanEntry>): Record<PlanDefinition>
  {
    if entries == [] then []
    else
      var acc := CatalogFrom(entries[..|entries| - 1]);
      var (id, e) := entries[|entries| - 1];
      if id == "" then acc else Put(acc, id, ToDefinition(id, e))
  }

  /** The merged catalog: overrides spread over the defaults, then reduced. */
  function Catalog(s: CatalogSettings): Record<PlanDefinition> {
    CatalogFrom(Spread(s.defaults, s.overrides))
  }

  /** `getPlanCatalog`: the accumulator is filled entry by entry. */
  method GetPlanCatalog(s: CatalogSettings) returns (catalog: Record<PlanDefinition>)
    ensures catalog == Catalog(s)
  {
    var merged := Spread(s.defaults, s.overrides);
    var acc: Record<PlanDefinition> := [];
    var i := 0;
    while i < |merged|
      invariant 0 <= i <= |merged|
      invariant acc == CatalogFrom(merged[..i])
    {
      var (id, entry) := merged[i];
      assert merged[..i + 1][..i] == merged[..i];
      if id != "" {
        acc := Put(acc, id, ToDefinition(id, entry));
      }
      i := i + 1;
    }
    assert merged[..i] == merged;
    catalog := acc;
  }

  /** Looking an id up in the reduced record: present exactly when the id is
      non-empty and a key of the input, with the defaults filled in. */
  lemma {:induction false} CatalogFromProperties(entries: Record<PlanEntry>, k: string)
    requires IsObject(entries)
    ensures Get(CatalogFrom(entries), k) ==
      if k == "" || Get(entries, k).None? then None
      else Some(ToDefinition(k, Get(entries, k).value))
  {
    if entries != [] {
      var n := |entries|;
      var init := entries[..n - 1];
      var (id, e) := entries[n - 1];
      assert entries == init + [(id, e)];
      assert IsObject(init);
      CatalogFromProperties(init, k);
      GetAppend(init, id, e, k);
      if id != "" {
        PutProperties(CatalogFrom(init), id, ToDefinition(id, e), k);
        if k == id {
          assert Get(init, k).None?;
        }
      }
    }
  }

  /** The reduced record is an object whose every entry is well formed. */
  lemma {:induction false} CatalogFromWellFormed(entries: Record<PlanEntry>)
    ensures IsObject(CatalogFrom(entries))
    ensures forall i :: 0 <= i < |CatalogFrom(entries)| ==>
      WellFormed(CatalogFrom(entries)[i].0, CatalogFrom(entries)[i].1)
  {
    if entries != [] {
      var n := |entries|;
      var init := entries[..n - 1];
      var (id, e) := entries[n - 1];
      var acc := CatalogFrom(init);
      CatalogFromWellFormed(init);
      if id != "" {
        PutKeepsWellFormed(acc, id, ToDefinition(id, e));
      }
    }
  }

  /** Assigning a well-formed entry keeps a well-formed object well formed. */
  lemma PutKeepsWellFormed(acc: Record<PlanDefinition>, id: string, d: PlanDefinition)
    requires WellFormed(id, d)
    requires IsObject(acc) && forall i :: 0 <= i < |acc| ==> WellFormed(acc[i].0, acc[i].1)
    ensures IsObject(Put(acc, id, d))
    ensures forall i :: 0 <= i < |Put(acc, id, d)| ==> WellFormed(Put(acc, id, d)[i].0, Put(acc, id, d)[i].1)
  {
    PutProperties(acc, id, d, id);
  }

  /** The catalog merge: an override replaces the default with the same id as
      a whole, an empty id is dropped, and every entry is well formed. */
  lemma CatalogLookup(s: CatalogSettings, id: string)
    requires ValidSettings(s)
    ensures Get(Catalog(s), id) ==
      if id == "" then None
      else if Get(s.overrides, id).Some? then Some(ToDefinition(id, Get(s.overrides, id).value))
      else if Get(s.defaults, id).Some? then Some(ToDefinition(id, Get(s.defaults, id).value))
      else None
  {
    SpreadProperties(s.defaults, s.overrides, id);
    CatalogFromProperties(Spread(s.defaults, s.overrides), id);
  }

  /** The merged catalog is an object whose every entry is well formed. */
  lemma CatalogWellFormed(s: CatalogSettings)
    ensures IsObject(Catalog(s))
    ensures forall i :: 0 <= i < |Catalog(s)| ==> WellFormed(Catalog(s)[i].0, Catalog(s)[i].1)
  {
    CatalogFromWellFormed(Spread(s.defaults, s.overrides));
  }

  /** `buildPlanSummary({ ...definition, id }, pricing[id], products[id])`. */
  function BuildPlanSummary(s: CatalogSettings, id: string, d: PlanDefinition): PlanSummary {
    PlanSummary(d.(id := id), Get(s.pricing, id), Get(s.products, id))
  }

  /** `plan.isActive !== false`: an absent flag counts as active. */
  predicate NotDeactivated(p: PlanSummary) {
    p.definition.isActive != Defined(false)
  }

  /** Every catalog entry as a summary, in catalog order. */
  function AllSummaries(s: CatalogSettings, catalog: Record<PlanDefinition>): seq<PlanSummary> {
    seq(|catalog|, i requires 0 <= i < |catalog| => BuildPlanSummary(s, catalog[i].0, catalog[i].1))
  }

  /** `getPlanSummaries`: every catalog entry as a summary, in catalog order,
      without the deactivated ones. */
  function PlanSummaries(s: CatalogSettings): seq<PlanSummary> {
    SummariesIn(s, Catalog(s))
  }

  function SummariesIn(s: CatalogSettings, catalog: Record<PlanDefinition>): seq<PlanSummary> {
    Filter(AllSummaries(s, catalog), NotDeactivated)
  }

  /** `getPlanById`: the catalog entry with its pricing and payment info, or
      `null`; unlike the summaries, deactivated plans are returned too. */
  function PlanById(s: CatalogSettings, planId: string): Option<PlanSummary> {
    LookupIn(s, Catalog(s), planId)
  }

  function LookupIn(s: CatalogSettings, catalog: Record<PlanDefinition>, planId: string): Option<PlanSummary> {
    match Get(catalog, planId)
    case None => None
    case Some(d) => Some(BuildPlanSummary(s, planId, d))
  }

  /** `getPlanById` returns `null` exactly for ids that are not in the
      catalog; otherwise the winning entry with the defaults filled in, with
      its pricing and payment info, and with no active filter applied. */
  lemma PlanByIdProperties(s: CatalogSettings, planId: string)
    requires ValidSettings(s)
    ensures PlanById(s, planId).None? <==>
      planId == "" || (Get(s.overrides, planId).None? && Get(s.defaults, planId).None?)
    ensures PlanById(s, planId).Some? ==>
      var p := PlanById(s, planId).value;
      p.pricing == Get(s.pricing, planId) && p.payment == Get(s.products, planId)
      && var e := if Get(s.overrides, planId).Some? then Get(s.overrides, planId).value
                  else Get(s.defaults, planId).value;
         p.definition == ToDefinition(planId, e)
  {
    CatalogLookup(s, planId);
  }

  /** A plan `getPlanById` returns is well formed and carries the id asked for. */
  lemma PlanByIdWellFormed(s: CatalogSettings, planId: string)
    requires ValidSettings(s)
    requires PlanById(s, planId).Some?
    ensures WellFormed(planId, PlanById(s, planId).value.definition)
  {
    CatalogWellFormed(s);
    var c := Catalog(s);
    var i := IndexOf(c, planId);
    assert WellFormed(c[i].0, c[i].1);
  }

  /** Every plan `getPlanSummaries` lists is active, and is exactly what
      `getPlanById` returns for its id. */
  lemma SummaryIsActivePlan(s: CatalogSettings, p: PlanSummary)
    requires ValidSettings(s)
    requires p in PlanSummaries(s)
    ensures PlanById(s, p.definition.id) == Some(p)
    ensures p.definition.isActive == Defined(true)
  {
    CatalogWellFormed(s);
    SummaryIsActivePlanIn(s, Catalog(s), p);
  }

  lemma SummaryIsActivePlanIn(s: CatalogSettings, c: Record<PlanDefinition>, p: PlanSummary)
    requires IsObject(c) && forall i :: 0 <= i < |c| ==> WellFormed(c[i].0, c[i].1)
    requires p in SummariesIn(s, c)
    ensures LookupIn(s, c, p.definition.id) == Some(p)
    ensures p.definition.isActive == Defined(true)
  {
    var all := AllSummaries(s, c);
    var j :| 0 <= j < |SummariesIn(s, c)| && SummariesIn(s, c)[j] == p;
    assert NotDeactivated(p) && p in all;
    var i :| 0 <= i < |all| && all[i] == p;
    var (key, d) := c[i];
    assert WellFormed(key, d);
    assert IndexOf(c, key) == i;
    assert p.definition.isActive == d.isActive;
    assert d.isActive.Defined? && d.isActive != Defined(false);
    assert d.isActive.value;
  }

  /** Every plan `getPlanById` finds active is listed by `getPlanSummaries`. */
  lemma ActivePlanIsSummary(s: CatalogSettings, planId: string)
    requires PlanById(s, planId).Some?
    requires PlanById(s, planId).value.definition.isActive != Defined(false)
    ensures PlanById(s, planId).value in PlanSummaries(s)
  {
    ActivePlanIsSummaryIn(s, Catalog(s), planId);
  }

  lemma ActivePlanIsSummaryIn(s: CatalogSettings, c: Record<PlanDefinition>, planId: string)
    requires LookupIn(s, c, planId).Some?
    requires LookupIn(s, c, planId).value.definition.isActive != Defined(false)
    ensures LookupIn(s, c, planId).value in SummariesIn(s, c)
  {
    var all := AllSummaries(s, c);
    var i := IndexOf(c, planId);
    assert all[i] == LookupIn(s, c, planId).value;
  }
}
