/** `StorageSettingService`: the storage section of the settings UI schema,
    and the normalisation and managed-storage check `setMany` applies to
    storage settings before they are saved. */
module StorageSetting {
  import opened JsValues
  import opened JsStrings
  import opened JsCollections
  import opened BizErrors
  import opened PlanCatalog
  import opened StoragePlan

  const ProvidersKey := "builder.storage.providers"
  const ActiveProviderKey := "builder.storage.activeProvider"
  const ManagedProviderId := "managed"
  const StorageSectionPrefix := "builder-storage"

  /** The options a setting entry is saved with. */
  datatype EntryOptions = EntryOptions(tenantId: JsOpt<string>)

  /** `SettingEntryInput`. */
  datatype SettingEntry = SettingEntry(key: string, value: JsOpt<string>, options: JsOpt<EntryOptions>)

  /** A provider as `parseStorageProviders` returns it; only its id is read. */
  datatype StorageProvider = StorageProvider(id: string)

  /** A section of the settings UI schema; only its id is read. */
  datatype UiSection = UiSection(id: string, title: string)

  // ---------------------------------------------------------------------------
  // UI schema

  predicate IsStorageSection(section: UiSection) {
    StartsWith(section.id, StorageSectionPrefix)
  }

  /** The section filter of `getUiSchema`. */
  function StorageSections(sections: seq<UiSection>): seq<UiSection> {
    Filter(sections, IsStorageSection)
  }

  /** `getUiSchema` keeps exactly the sections whose id starts with
      `builder-storage`, in their original order. */
  lemma StorageSectionsProperties(sections: seq<UiSection>, before: seq<UiSection>, after: seq<UiSection>)
    ensures forall i :: 0 <= i < |StorageSections(sections)| ==>
      StorageSections(sections)[i] in sections && IsStorageSection(StorageSections(sections)[i])
    ensures forall i :: 0 <= i < |sections| && IsStorageSection(sections[i]) ==> sections[i] in StorageSections(sections)
    ensures StorageSections(before + after) == StorageSections(before) + StorageSections(after)
    ensures StorageSections(StorageSections(sections)) == StorageSections(sections)
  {
    FilterConcat(before, after, IsStorageSection);
    FilterIdempotent(sections, IsStorageSection);
  }

  // ---------------------------------------------------------------------------
  // Reading the submitted entries

  predicate IsProvidersEntry(e: SettingEntry) {
    e.key == ProvidersKey
  }

  predicate IsActiveEntry(e: SettingEntry) {
    e.key == ActiveProviderKey
  }

  /** `String(value ?? '')` of a string-valued entry. */
  function ValueString(v: JsOpt<string>): string {
    if v.Defined? then v.value else ""
  }

  /** The trimmed value of the first active-provider entry, unless blank. */
  function ActiveId(entries: seq<SettingEntry>): (r: Option<string>)
    ensures r.Some? ==> r.value != ""
  {
    var i := FindIndex(entries, IsActiveEntry);
    var activeRaw := if i != -1 then Trim(ValueString(entries[i].value)) else "";
    if |activeRaw| > 0 then Some(activeRaw) else None
  }

  /** `entry.options?.tenantId`. */
  function EntryTenantId(e: SettingEntry): JsOpt<string> {
    if e.options.Defined? then e.options.value.tenantId else Undefined
  }

  predicate CarriesTenant(e: SettingEntry) {
    IsTruthyString(EntryTenantId(e))
  }

  /** `resolveTenantId`: the tenant id of the first entry whose options carry
      a non-empty one; the ambient tenant (`getTenantContext()`) only when no
      entry carries one. */
  function ResolveTenantId(entries: seq<SettingEntry>, ambientTenant: Option<string>): (r: Option<string>)
    ensures (forall i :: 0 <= i < |entries| ==> !CarriesTenant(entries[i])) ==> r == ambientTenant
    ensures !(forall i :: 0 <= i < |entries| ==> !CarriesTenant(entries[i])) ==>
      var k := FindIndex(entries, CarriesTenant);
      0 <= k < |entries| && r == Some(EntryTenantId(entries[k]).value) && r.value != ""
      && forall j :: 0 <= j < k ==> !CarriesTenant(entries[j])
  {
    match Find(entries, CarriesTenant)
    case Some(e) => Some(EntryTenantId(e).value)
    case None => ambientTenant
  }

  // ---------------------------------------------------------------------------
  // Normalisation

  /** The provider `setMany` selects as active: the only provider of the
      submitted providers entry, when no active provider is given. */
  function SoleProvider(entries: seq<SettingEntry>, parseProviders: string -> seq<StorageProvider>): Option<StorageProvider> {
    match Find(entries, IsProvidersEntry)
    case None => None
    case Some(providersEntry) =>
      var providers := parseProviders(ValueString(providersEntry.value));
      if ActiveId(entries).None? && |providers| == 1 then Some(providers[0]) else None
  }

  /** The active-provider entry that selects `provider`, with the options of
      the submitted active entry, if there was one. */
  function NextActiveEntry(entries: seq<SettingEntry>, provider: StorageProvider): SettingEntry {
    var i := FindIndex(entries, IsActiveEntry);
    SettingEntry(ActiveProviderKey, Defined(provider.id), if i != -1 then entries[i].options else Undefined)
  }

  /** `provider` made the active one: the first active entry is replaced in
      place by `NextActiveEntry`, or that entry is appended when there is none. */
  function SelectProvider(entries: seq<SettingEntry>, provider: StorageProvider): seq<SettingEntry> {
    var i := FindIndex(entries, IsActiveEntry);
    var next := NextActiveEntry(entries, provider);
    if i != -1 then entries[i := next] else entries + [next]
  }

  /** The entries `setMany` saves: the sole provider selected, if any. */
  function Normalized(entries: seq<SettingEntry>, parseProviders: string -> seq<StorageProvider>): seq<SettingEntry> {
    match SoleProvider(entries, parseProviders)
    case None => entries
    case Some(provider) => SelectProvider(entries, provider)
  }

  /** Selecting a provider: its id becomes the value of the first active
      entry, which keeps its index and options when it existed and is
      appended otherwise; every other entry keeps its place and value. */
  lemma SelectProviderShape(entries: seq<SettingEntry>, p: StorageProvider)
    ensures var r, i := SelectProvider(entries, p), FindIndex(entries, IsActiveEntry);
      (i != -1 ==>
         |r| == |entries|
         && r[i] == SettingEntry(ActiveProviderKey, Defined(p.id), entries[i].options)
         && (forall j :: 0 <= j < |entries| && j != i ==> r[j] == entries[j]))
      && (i == -1 ==>
         |r| == |entries| + 1
         && r[|entries|] == SettingEntry(ActiveProviderKey, Defined(p.id), Undefined)
         && r[..|entries|] == entries)
      && FindIndex(r, IsActiveEntry) == (if i != -1 then i else |entries|)
  {
    var r, i := SelectProvider(entries, p), FindIndex(entries, IsActiveEntry);
    if i != -1 {
      FindIndexCongruent(r, IsActiveEntry, entries, IsActiveEntry);
    } else {
      FindIndexAppend(entries, NextActiveEntry(entries, p), IsActiveEntry);
    }
  }

  /** After selection the entries name the provider as active, unless its
      id is blank. */
  lemma SelectProviderActiveId(entries: seq<SettingEntry>, p: StorageProvider)
    ensures ActiveId(SelectProvider(entries, p)) == if Trim(p.id) == "" then None else Some(Trim(p.id))
  {
    SelectProviderShape(entries, p);
  }

  /** No sole provider (none or several, an active id given, or no
      providers entry): the entries are saved exactly as submitted. */
  lemma NoAutoSelectKeepsEntries(entries: seq<SettingEntry>, parseProviders: string -> seq<StorageProvider>)
    requires Find(entries, IsProvidersEntry).None?
      || ActiveId(entries).Some?
      || |parseProviders(ValueString(Find(entries, IsProvidersEntry).value.value))| != 1
    ensures Normalized(entries, parseProviders) == entries
  {
  }

  /** After auto-selection the saved entries name the provider as active,
      so normalising them again changes nothing, unless its id is blank. */
  lemma AutoSelectIdempotent(entries: seq<SettingEntry>, parseProviders: string -> seq<StorageProvider>)
    requires SoleProvider(entries, parseProviders).Some?
    requires Trim(SoleProvider(entries, parseProviders).value.id) != ""
    ensures ActiveId(Normalized(entries, parseProviders)) == Some(Trim(SoleProvider(entries, parseProviders).value.id))
    ensures Normalized(Normalized(entries, parseProviders), parseProviders) == Normalized(entries, parseProviders)
  {
    var p := SoleProvider(entries, parseProviders).value;
    var r := SelectProvider(entries, p);
    assert Normalized(entries, parseProviders) == r;
    SelectProviderActiveId(entries, p);
    NoAutoSelectKeepsEntries(r, parseProviders);
  }

  /** The managed-storage check looks only at the active entry as
      submitted: a sole provider whose id is `managed` becomes the active
      provider without any plan check. */
  lemma AutoSelectSkipsManagedCheck(entries: seq<SettingEntry>, parseProviders: string -> seq<StorageProvider>)
    requires SoleProvider(entries, parseProviders) == Some(StorageProvider(ManagedProviderId))
    ensures ActiveId(entries) != Some(ManagedProviderId)
    ensures ActiveId(Normalized(entries, parseProviders)) == Some(ManagedProviderId)
  {
    TrimStartOfTrimmed(ManagedProviderId);
    TrimEndOfTrimmed(ManagedProviderId);
    AutoSelectIdempotent(entries, parseProviders);
  }

  /** `setMany`: normalises the entries and returns what is passed on to the
      settings store, or the error it throws (then nothing is saved).
      `parseProviders` stands for `parseStorageProviders`, `ambientTenant`
      for `getTenantContext()`, and `db`, `settings` and `now` for what the
      plan gate reads. */
  method SetMany(
    entries: seq<SettingEntry>,
    ambientTenant: Option<string>,
    parseProviders: string -> seq<StorageProvider>,
    db: Database, settings: SystemSettings, now: int)
    returns (r: Result<seq<SettingEntry>, BizError>)
    ensures ActiveId(entries) != Some(ManagedProviderId) ==> r == Ok(Normalized(entries, parseProviders))
    ensures ActiveId(entries) == Some(ManagedProviderId) ==>
      var tenantId := ResolveTenantId(entries, ambientTenant);
      r == if tenantId.None? || tenantId.value == "" then Err(TenantNotFound)
           else match ActivePlanSummaryForTenant(db, settings, tenantId.value, now)
                case Err(e) => Err(e)
                case Ok(plan) =>
                  if plan.None? then Err(BadRequest(ManagedSubscriptionInvalid))
                  else Ok(Normalized(entries, parseProviders))
  {
    var normalized := entries;
    var providersEntry := Find(normalized, IsProvidersEntry);
    var activeEntryIndex := FindIndex(normalized, IsActiveEntry);
    var activeEntry := if activeEntryIndex != -1 then Some(normalized[activeEntryIndex]) else None;
    var activeRaw := if activeEntry.Some? then Trim(ValueString(activeEntry.value.value)) else "";
    var activeId := if |activeRaw| > 0 then Some(activeRaw) else None;

    if activeId == Some(ManagedProviderId) {
      var tenantId := ResolveTenantId(normalized, ambientTenant);
      if tenantId.None? || tenantId.value == "" {
        return Err(TenantNotFound);
      }
      var plan := ActivePlanSummaryForTenant(db, settings, tenantId.value, now);
      if plan.Err? {
        return Err(plan.error);
      }
      if plan.value.None? {
        return Err(BadRequest(ManagedSubscriptionInvalid));
      }
    }

    if providersEntry.Some? {
      var providers := parseProviders(ValueString(providersEntry.value.value));
      if activeId.None? && |providers| == 1 {
        var only := providers[0];
        var nextActiveEntry := SettingEntry(
          ActiveProviderKey, Defined(only.id),
          if activeEntry.Some? then activeEntry.value.options else Undefined);
        if activeEntryIndex != -1 {
          normalized := normalized[activeEntryIndex := nextActiveEntry];
        } else {
          normalized := normalized + [nextActiveEntry];
        }
      }
    }
    return Ok(normalized);
  }
}
