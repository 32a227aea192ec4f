# Managed storage plans, storage settings and photo drop upload — a Dafny model

This project models three pieces of the photo-gallery backend and dashboard.

- **`StoragePlanService`** (billing) does five things:
  - It merges the built-in storage-plan catalog with the configured overrides.
  - It lists the active plans and looks a plan up by id.
  - It classifies a payment-provider subscription as active, inactive or unknown.
  - It finds a tenant's latest subscription for a product and gates access to a tenant's plan on it.
  - It computes a tenant's storage quota, and it assigns a plan to a tenant.
- **`StorageSettingService`** (configuration) does three things:
  - It filters the settings UI schema down to the storage sections.
  - It normalises the storage setting entries before they are saved. When exactly one provider is configured and no active provider is given, it selects that provider.
  - When the submitted entries themselves name `managed` as the active provider, it refuses to save them unless the tenant holds an active storage plan. A `managed` provider that is auto-selected as the sole provider skips this check.
- **`PhotoLibraryDropUpload`** (dashboard) covers three things:
  - Which dropped files the photo library accepts.
  - What a drop leads to.
  - The "dragging files" flag that the window-level drag handlers raise and clear.

JavaScript behaviour that the code relies on is modelled explicitly:

- `undefined`, `null` and `??` are covered by `JsValues.JsOpt` and `JsValues.Coalesce`.
- `String.prototype.trim` uses the ECMAScript whitespace set.
- `toLowerCase` is modelled on ASCII letters only.
- `startsWith` and `endsWith` are modelled as string predicates.
- The array methods `filter`, `find` and `findIndex` each have a model.
- Plain objects are modelled as insertion-ordered records with `obj[k]`, `obj[k] = v` and `{ ...a, ...b }`.

Module by module:

| file | module | models |
|---|---|---|
| js_values.dfy | `JsValues` | `Option`, `JsOpt` (undefined / null / value), `??`, `Result` |
| js_strings.dfy | `JsStrings` | `trim`, `toLowerCase`, `startsWith`, `endsWith` |
| js_collections.dfy | `JsCollections` | `filter`, `find`, `findIndex`; objects as records, assignment and spread |
| biz_errors.dfy | `BizErrors` | the business errors thrown (`TENANT_NOT_FOUND`, `COMMON_BAD_REQUEST` and its reasons) |
| plan_catalog.dfy | `PlanCatalog` | `getPlanCatalog`, `buildPlanSummary`, `getPlanSummaries`, `getPlanById` |
| subscription_state.dfy | `Subscriptions` | `resolveSubscriptionState`, the selection logic of `resolveLatestSubscriptionForTenant` |
| storage_plan.dfy | `StoragePlan` | `normalizePlanId`, `resolveStoragePlanIdForTenant`, `getPlanSummaryForTenant`, `getActivePlanSummaryForTenant`, `getQuotaForTenant`, `assignPlanToTenant`, `persistTenantStoragePlan` |
| storage_setting.dfy | `StorageSetting` | the `getUiSchema` section filter, `setMany`, `resolveTenantId` |
| drop_upload.dfy | `DropUpload` | `isAcceptedPhotoAsset`, the drop filter, `hasFileDrag`, the drag handlers |

Some operations change state in the source, and they change state in the model too:

- `getPlanCatalog` fills an accumulator entry by entry. `PlanCatalog.GetPlanCatalog` does the same in a loop, proved equal to the recursive specification `PlanCatalog.Catalog`.
- `setMany` copies the entries into a local array and overwrites or appends the active-provider entry. `StorageSetting.SetMany` is a method that does the same.
- The tenant row written by `assignPlanToTenant` lives in `StoragePlan.TenantTable`, a class with a map field.
- The dragging flag lives in `DropUpload.DropOverlay`, a class with one handler method per listener.

Each handler is specified by the pure transition function `DropUpload.Next`. The properties of event sequences are proved about `DropUpload.Run`.

The other operations are pure: the classifier, the quota arithmetic, plan-id normalisation and the acceptance predicate. They are functions, and lemmas state their properties.

The subscription query builds its WHERE clause in two branches. When only one of {user ids, customer ids} is non-empty, it ANDs the product filter at the query. Otherwise it ANDs it inside `where`. Both branches therefore filter on the product. The model builds the clause exactly as the code does, as a small condition tree. `Subscriptions.WhereClauseIsSymmetric` proves that the clause holds exactly when the row matches the product and one of the ids.

`setMany` auto-selects the sole provider when there is no non-blank active provider id. An active entry whose value trims to the empty string counts as absent. The model follows the code here.

## Model

| member | source | states |
|---|---|---|
| PlanCatalog.GetPlanCatalog | be/apps/core/src/modules/platform/billing/storage-plan.service.ts:241-257 | The accumulator loop over the merged entries computes exactly the catalog `Catalog(s)`. |
| PlanCatalog.CatalogFromProperties | be/apps/core/src/modules/platform/billing/storage-plan.service.ts:244-256 | The reduce gives an entry for `k` exactly when `k` is non-empty and a key of the input, with the `??` defaults (`null` description, capacity 0, active true) applied. |
| PlanCatalog.CatalogFromWellFormed | be/apps/core/src/modules/platform/billing/storage-plan.service.ts:244-256 | Whatever the entries, the reduce yields distinct keys, each entry carrying its own non-empty key as `id`, a non-undefined description, and a set capacity and active flag. |
| PlanCatalog.CatalogLookup | be/apps/core/src/modules/platform/billing/storage-plan.service.ts:243-256 | An override replaces the default with the same id as a whole entry; the empty id is dropped; an id in neither is absent. |
| PlanCatalog.CatalogWellFormed | be/apps/core/src/modules/platform/billing/storage-plan.service.ts:248-254 | Every catalog entry has `id` equal to its key and a non-undefined description. Its capacity and active flag are set, so the capacity is never `null`. |
| PlanCatalog.PlanByIdProperties | be/apps/core/src/modules/platform/billing/storage-plan.service.ts:58-71 | `getPlanById` returns null exactly when the id is empty or in neither the defaults nor the overrides. Otherwise it returns the winning entry's definition with the defaults filled in, plus the pricing and payment stored under that id. |
| PlanCatalog.PlanByIdWellFormed | be/apps/core/src/modules/platform/billing/storage-plan.service.ts:65-70 | A plan found by id carries the requested id, and its capacity and active flag are set. |
| PlanCatalog.SummaryIsActivePlan | be/apps/core/src/modules/platform/billing/storage-plan.service.ts:37-56 | Every listed summary is active, and it is exactly what `getPlanById` returns for its id. |
| PlanCatalog.SummaryIsActivePlanIn | be/apps/core/src/modules/platform/billing/storage-plan.service.ts:44-55 | The same statement over any well-formed catalog record. |
| PlanCatalog.ActivePlanIsSummary | be/apps/core/src/modules/platform/billing/storage-plan.service.ts:55-70 | Conversely, every plan found by id whose `isActive` is not `false` appears among the summaries: the list is exactly the catalog's active plans. |
| PlanCatalog.ActivePlanIsSummaryIn | be/apps/core/src/modules/platform/billing/storage-plan.service.ts:44-55 | The same statement over any catalog record. |
| Subscriptions.SubscriptionStateCharacterisation | be/apps/core/src/modules/platform/billing/storage-plan.service.ts:211-239 | The classifier returns `inactive` when a valid period end is at or before now. It returns `active` iff the period has not expired and the status is active/trialing/paid, or the subscription cancels at a future period end. It returns `inactive` iff the period has expired or, failing both of those, the status is one of the five inactive ones. Every other case is `unknown`. |
| Subscriptions.ExpiryIsPermanent | be/apps/core/src/modules/platform/billing/storage-plan.service.ts:216-222 | Once the period end has passed, the state stays `inactive` at every later time, whatever the status. |
| Subscriptions.NoPeriodEndIgnoresClock | be/apps/core/src/modules/platform/billing/storage-plan.service.ts:217-238 | Without a valid period end, the clock does not matter and the status alone decides. |
| Subscriptions.StatusIsCaseInsensitive | be/apps/core/src/modules/platform/billing/storage-plan.service.ts:215 | Lower-casing the stored status first does not change the state. |
| Subscriptions.CanceledButNotExpiredIsActive | be/apps/core/src/modules/platform/billing/storage-plan.service.ts:229-231 | A `canceled` subscription that cancels at a future period end is still `active`. |
| Subscriptions.UnrecognisedStatusIsUnknown | be/apps/core/src/modules/platform/billing/storage-plan.service.ts:233-238 | An unrecognised status without a period end gives `unknown`. |
| Subscriptions.PresentIds | be/apps/core/src/modules/platform/billing/storage-plan.service.ts:181-184 | The id filter keeps exactly the present, non-empty ids. |
| Subscriptions.WhereClauseIsSymmetric | be/apps/core/src/modules/platform/billing/storage-plan.service.ts:190-204 | The WHERE clause, as both branches build it, holds exactly for rows of the product that reference one of the user ids or one of the customer ids. |
| Subscriptions.LatestOf | be/apps/core/src/modules/platform/billing/storage-plan.service.ts:201-208 | `ORDER BY updatedAt DESC LIMIT 1` finds no row iff none matches. Otherwise it finds a matching row whose `updatedAt` is at least that of every matching row. |
| Subscriptions.LatestSubscriptionProperties | be/apps/core/src/modules/platform/billing/storage-plan.service.ts:174-209 | The lookup returns none for a tenant without user or customer ids. Otherwise it returns none iff no subscription matches the product and an id. When it returns one, that subscription matches and has the latest `updatedAt` among the matches. |
| StoragePlan.NormalizedIdIsTrimmed | be/apps/core/src/modules/platform/billing/storage-plan.service.ts:300-306 | A normalised plan id is non-empty and neither starts nor ends with whitespace. It is the submitted id with only whitespace removed: a contiguous slice with whitespace before and after it. |
| StoragePlan.NormalizePlanIdIdempotent | be/apps/core/src/modules/platform/billing/storage-plan.service.ts:300-306 | Normalising a normalised id changes nothing. |
| StoragePlan.ResolveIsNormalize | be/apps/core/src/modules/platform/billing/storage-plan.service.ts:159-172 | For an existing tenant, the stored plan id reads back trimmed, with a blank or null id read as null: the same rule as `normalizePlanId`. |
| StoragePlan.ActivePlanGate | be/apps/core/src/modules/platform/billing/storage-plan.service.ts:97-127 | The gate fails only with TENANT_NOT_FOUND, and only for a tenant without a row. It gives null for a missing or switched-off plan. A returned plan is the tenant's plan, unchanged. Without a product id the plan is returned. With one, the plan is returned unless the latest matching subscription is `inactive`, so `unknown` keeps access. |
| StoragePlan.ActivePlanGateOverCatalog | be/apps/core/src/modules/platform/billing/storage-plan.service.ts:109-127 | For an existing tenant the gate never fails. What it returns is `getPlanById` of the tenant's normalised plan id, with `isActive` true. |
| StoragePlan.QuotaArithmetic | be/apps/core/src/modules/platform/billing/storage-plan.service.ts:80-94 | The total is null exactly when the app allowance is unlimited or the plan capacity is null. Without a plan, the plan bytes are 0. Otherwise the total is the app allowance plus the plan capacity. |
| StoragePlan.QuotaForTenant | be/apps/core/src/modules/platform/billing/storage-plan.service.ts:73-95 | An unknown tenant makes the quota throw `TENANT_NOT_FOUND` (raised by the plan-id lookup it starts with); for an existing tenant a quota is always returned. |
| StoragePlan.QuotaThroughCatalog | be/apps/core/src/modules/platform/billing/storage-plan.service.ts:73-95 | Through the catalog, the total is null exactly when the app allowance is unlimited. The plan bytes are 0 without a plan or for an id not in the catalog, and otherwise equal the catalog capacity. |
| StoragePlan.QuotaExamples | be/apps/core/src/modules/platform/billing/storage-plan.service.ts:85-88 | An unlimited allowance gives a null total; 5 plus a capacity of 10 gives 15; 5 with no plan gives 5. |
| StoragePlan.ValidateAssignmentWithoutPlan | be/apps/core/src/modules/platform/billing/storage-plan.service.ts:271-290 | Without a managed provider key, assignment is refused whatever the plan id. With one, a null or blank id is accepted as null. |
| StoragePlan.ValidateAssignmentWithPlan | be/apps/core/src/modules/platform/billing/storage-plan.service.ts:280-287 | With managed storage enabled, a non-blank id is accepted, normalised, exactly when it names an own key of the catalog whose plan is active. Otherwise the refusal names the normalised id. |
| StoragePlan.TenantTable.AssignPlanToTenant | be/apps/core/src/modules/platform/billing/storage-plan.service.ts:271-290 | It refuses when managed storage is disabled. It fails exactly when validation fails, and then writes nothing. On success it sets the tenant's row to the normalised id and the write time, if the row exists. No other tenant's row changes. |
| StoragePlan.TenantTable.PersistTenantStoragePlan | be/apps/core/src/modules/platform/billing/storage-plan.service.ts:292-298 | The UPDATE changes exactly the tenant's row, if there is one. |
| StoragePlan.AssignedPlanReadsBack | be/apps/core/src/modules/platform/billing/storage-plan.service.ts:159-172 | After an assignment, resolving the tenant's plan id gives back exactly the normalised id that was stored. |
| StorageSetting.StorageSectionsProperties | be/apps/core/src/modules/configuration/storage-setting/storage-setting.service.ts:29 | `getUiSchema` keeps exactly the sections whose id starts with `builder-storage`, in their original order. Filtering again changes nothing. |
| StorageSetting.ActiveId | be/apps/core/src/modules/configuration/storage-setting/storage-setting.service.ts:46-49 | The active id is never the empty string: a blank value means there is no active id. |
| StorageSetting.ResolveTenantId | be/apps/core/src/modules/configuration/storage-setting/storage-setting.service.ts:85-92 | It returns the non-empty tenant id of the first entry that carries one. The ambient tenant is used only when no entry carries one. |
| StorageSetting.SelectProviderShape | be/apps/core/src/modules/configuration/storage-setting/storage-setting.service.ts:68-78 | Selecting a provider replaces the first active entry at the same index, with the provider id and the entry's options, and the length is unchanged. Without an active entry it appends one with no options, and the length grows by one. All other entries keep their place and value, and the new entry is the first active entry. |
| StorageSetting.SelectProviderActiveId | be/apps/core/src/modules/configuration/storage-setting/storage-setting.service.ts:46-49 | After the selection, the active id read from the entries is the provider's trimmed id, or none when that id is blank. |
| StorageSetting.NoAutoSelectKeepsEntries | be/apps/core/src/modules/configuration/storage-setting/storage-setting.service.ts:64-67 | With no providers entry, a non-blank active id, or a provider count other than one, the saved entries equal the input. |
| StorageSetting.AutoSelectIdempotent | be/apps/core/src/modules/configuration/storage-setting/storage-setting.service.ts:64-80 | An auto-selected provider with a non-blank id becomes the active id, and normalising the saved entries again changes nothing. |
| StorageSetting.AutoSelectSkipsManagedCheck | be/apps/core/src/modules/configuration/storage-setting/storage-setting.service.ts:51-79 | The managed-storage check reads only the submitted active entry. A sole provider with id `managed` is made active without the plan check. |
| StorageSetting.SetMany | be/apps/core/src/modules/configuration/storage-setting/storage-setting.service.ts:43-83 | Unless the active id is `managed`, the result is the normalised entries. If it is `managed`, there are three failures, and nothing is saved on any of them. It fails with TENANT_NOT_FOUND when no tenant id resolves. It passes on the gate's error. It fails with a bad request when the tenant has no active plan summary. Otherwise the normalised entries are saved. |
| DropUpload.AcceptedByMimeType | be/apps/dashboard/src/modules/photos/components/library/PhotoLibraryDropUpload.tsx:23-25 | Every `image/...` type, and `video/quicktime`, is accepted whatever the name. |
| DropUpload.ExtensionRule | be/apps/dashboard/src/modules/photos/components/library/PhotoLibraryDropUpload.tsx:27-28 | For any other type, a file is accepted iff some ending of its name lower-cases to `.heic`, `.heif`, `.hif` or `.mov`. |
| DropUpload.UpperCaseExtensionAccepted | be/apps/dashboard/src/modules/photos/components/library/PhotoLibraryDropUpload.tsx:27-28 | Names ending in `.HEIC` or `.MOV` are accepted with any MIME type. |
| DropUpload.RejectsOtherVideo | be/apps/dashboard/src/modules/photos/components/library/PhotoLibraryDropUpload.tsx:23-29 | `clip.mp4` of type `video/mp4` is refused. |
| DropUpload.AcceptedFiles | be/apps/dashboard/src/modules/photos/components/library/PhotoLibraryDropUpload.tsx:138 | The drop filter keeps every accepted file and nothing else. |
| DropUpload.AcceptedFilesOrder | be/apps/dashboard/src/modules/photos/components/library/PhotoLibraryDropUpload.tsx:138 | The filter keeps the files' relative order, and filtering again changes nothing. |
| DropUpload.DropDecision | be/apps/dashboard/src/modules/photos/components/library/PhotoLibraryDropUpload.tsx:127-155 | A drop is ignored iff it is not a file drag. The confirmation modal opens iff the store is ready and at least one dropped file is accepted. The "unsupported" error shows iff there are dropped files and none is accepted. The modal receives exactly `AcceptedFiles` of the dropped files: every accepted file, in drop order, and nothing else. |
| DropUpload.Next | be/apps/dashboard/src/modules/photos/components/library/PhotoLibraryDropUpload.tsx:102-175 | A file dragenter or dragover sets the flag. Leaving the window, a file drop, dragend, Escape, blur and hiding the document clear it. Every other event leaves it as it was. |
| DropUpload.RunConcat | be/apps/dashboard/src/modules/photos/components/library/PhotoLibraryDropUpload.tsx:157-179 | Handling two event sequences one after the other is handling their concatenation. |
| DropUpload.NoFileDragNeverRaises | be/apps/dashboard/src/modules/photos/components/library/PhotoLibraryDropUpload.tsx:92-106 | Without a file dragenter or dragover, the flag is never raised. |
| DropUpload.LastDecisiveEventWins | be/apps/dashboard/src/modules/photos/components/library/PhotoLibraryDropUpload.tsx:102-175 | The last event that sets or clears the flag decides its value at the end of the sequence. |
| DropUpload.DropOverlay.HandleDragEnter | be/apps/dashboard/src/modules/photos/components/library/PhotoLibraryDropUpload.tsx:102-106 | The handler leaves the flag as `Next` says for a dragenter. |
| DropUpload.DropOverlay.HandleDragLeave | be/apps/dashboard/src/modules/photos/components/library/PhotoLibraryDropUpload.tsx:108-114 | The flag clears only when it was set and the related target is null. |
| DropUpload.DropOverlay.HandleDragOver | be/apps/dashboard/src/modules/photos/components/library/PhotoLibraryDropUpload.tsx:116-125 | The default is prevented iff it is a file drag, and the flag follows `Next`. |
| DropUpload.DropOverlay.HandleDrop | be/apps/dashboard/src/modules/photos/components/library/PhotoLibraryDropUpload.tsx:127-155 | The outcome is `DropDecision`, and a file drop clears the flag. |
| DropUpload.DropOverlay.ResetDraggingState | be/apps/dashboard/src/modules/photos/components/library/PhotoLibraryDropUpload.tsx:98-100 | dragend always clears the flag. |
| DropUpload.DropOverlay.HandleKeyDown | be/apps/dashboard/src/modules/photos/components/library/PhotoLibraryDropUpload.tsx:163-166 | Escape clears the flag; other keys leave it. |
| DropUpload.DropOverlay.HandleBlur | be/apps/dashboard/src/modules/photos/components/library/PhotoLibraryDropUpload.tsx:168-170 | Blur always clears the flag. |
| DropUpload.DropOverlay.HandleVisibilityChange | be/apps/dashboard/src/modules/photos/components/library/PhotoLibraryDropUpload.tsx:172-175 | Hiding the document clears the flag; showing it leaves the flag. |
| JsCollections.SpreadProperties | be/apps/core/src/modules/platform/billing/storage-plan.service.ts:243 | `{ ...defaults, ...overrides }` of two objects: an override key wins whole-entry, the defaults' keys keep their order first, and the keys stay distinct. |
| JsCollections.PutProperties | be/apps/core/src/modules/platform/billing/storage-plan.service.ts:248 | `acc[id] = ...` makes `id` read the new value, leaves every other key and every key position alone, and keeps the keys distinct. |
| JsCollections.FindIndex | be/apps/core/src/modules/configuration/storage-setting/storage-setting.service.ts:46 | `findIndex` is -1 iff no element matches, otherwise the first index that matches. |
| JsStrings.TrimIdempotent | be/apps/core/src/modules/platform/billing/storage-plan.service.ts:304 | Trimming a trimmed string changes nothing. |
| JsStrings.TrimEnds | be/apps/core/src/modules/configuration/storage-setting/storage-setting.service.ts:48 | A trimmed string neither starts nor ends with ECMAScript whitespace. |

## Left out

- The database, the ORM, `Promise.all` and the async control flow are not modelled. The tables are values: tenant rows in a map, users and subscriptions as sequences, in an order that stands for the database's.
- The collaborators are parameters:
  - the system settings (catalog overrides, pricing, products, managed provider key);
  - the billing plan's included bytes;
  - `parseStorageProviders`;
  - the ambient tenant context;
  - the settings store that `setMany` writes to (the model returns the entries it would pass on).
- `Date.now()` and `new Date().toISOString()` are an integer `now`.
- A period end that does not parse is a separate constructor, standing in for `NaN`.
- `DEFAULT_STORAGE_PLAN_CATALOG`: storage-plan.constants.ts is not part of this model. The defaults are a parameter.
- `getOverviewForCurrentTenant`, `updateCurrentTenantPlan` and `updateTenantPlan` only forward to the modelled operations, so they are left out.
- `get`, `getMany`, `delete` and `deleteMany` of `StorageSettingService` only forward to the settings store, so they are left out.
- `createStorageProviderFormSchema`, the rest of the UI schema and the i18n messages are not modelled.
- Pricing and payment records are opaque apart from `creemProductId`. A UI section is only its id and title, and a storage provider is only its id.
- JavaScript objects are modelled as their own string keys in insertion order. The ordering rule for integer-like keys is not modelled, and neither are keys inherited from `Object.prototype`. The next seven lines give what the inherited keys change.
- PlanCatalog.PlanByIdProperties: holds only for ids that are not names of `Object.prototype` members. The source reduces the catalog into a plain `{}` (storage-plan.service.ts:244-256), so `catalog[planId]` at line 65 also finds inherited members such as `constructor`, `toString`, `hasOwnProperty` or `__proto__`. These are truthy, so `getPlanById` returns a summary holding only `id`, `pricing` and `payment`, with `isActive` undefined and, when the products setting is a plain object, no `creemProductId`. The model's catalog has own keys only and returns null for these ids.
- StoragePlan.ValidateAssignmentWithPlan: for those inherited names the source accepts the assignment, because `undefined === false` is false (line 282). The model refuses it as an unknown plan, so "a nonexistent plan is always refused" holds in the model but not in the source.
- StoragePlan.ActivePlanGate: a tenant whose stored plan id is such a name gets that pseudo-plan back from the gate in the source. It has no product id, so no subscription is checked (lines 115-118). The model returns null. As a result `setMany` in the source lets that tenant make `managed` the active provider, where `StorageSetting.SetMany` returns `ManagedSubscriptionInvalid`.
- PlanCatalog.PlanByIdWellFormed: holds only for own keys of the catalog. For an inherited name such as `toString`, the source's `getPlanById` (lines 65-70) returns a plan spread from a function. That plan has no `capacityBytes` and an undefined `isActive`, so "its capacity and active flag are set" fails there.
- PlanCatalog.ActivePlanIsSummary: holds only for own keys of the catalog. A plan found under an inherited name has `isActive` undefined, so it is not switched off. Yet `getPlanSummaries` lists only own keys through `Object.entries` (line 44), so that plan is not among the summaries.
- StoragePlan.ActivePlanGateOverCatalog: holds only for own keys of the catalog. A tenant whose stored plan id is an inherited name such as `toString` gets that plan back from the gate (lines 111-118) with `isActive` undefined, not `true`. The model returns null for that tenant.
- PlanCatalog.CatalogFromWellFormed: a configured plan whose id is `__proto__` replaces the accumulator's prototype instead of becoming an own key. In the source it is then missing from the summaries but still found by `getPlanById`. The model treats it like any other id.
- `toLowerCase` is modelled on ASCII letters only. The non-ASCII characters that lower-case to ASCII letters (the Kelvin sign and the dotted capital I) cannot turn a string into a status or an accepted extension.
- Subscriptions.LatestOf: among rows with equal `updatedAt` the model picks the first, while SQL leaves ties unordered. A NULL `updatedAt` is not modelled.
- Bytes are unbounded integers. JavaScript number precision is not modelled. `Number.POSITIVE_INFINITY` is the `Unlimited` constructor.
- The drop overlay's rendering, the animation, the 180 ms unmount timer, the toast and the modal presentation are not modelled.
- React state and `isDraggingFilesRef` are one field. The delay between a state update and the effect that copies it into the ref is not modelled.
- `preventDefault` in the drop handler and `dropEffect = 'copy'` are not modelled as effects; `HandleDragOver` only returns whether the default is prevented.
- `event.dataTransfer.types` is a sequence of strings. A missing `dataTransfer` is `None`, and then no files are read.
