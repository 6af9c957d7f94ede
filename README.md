# Carnet de santé — pet record store and form validation, in Dafny

A model of the core of *carnet-de-sant-*, a client-side pet health notebook:

- **the pet store** (`usePetStore`, a Pinia store). It holds one optional pet and four lists: vaccines, weight history, health records and food logs. It has three getters: upcoming vaccines, the sorted weight history and the weight range. Its actions add, update and delete records in each list, set the pet, read the latest weight and compute the weight progression. The adds, the deletes and the updates that re-sort keep each list in date order, and the weight actions are meant to keep the pet's `weight` equal to the latest weight record. `updateVaccine` and `updateWeightRecord` are the exceptions (see "## Findings"), and `setPet` stores whatever weight the caller passes;
- **field and form validation** (`validateField`, `validateForm`). A field value is checked against a declarative rule (`required`, `minLength`, `maxLength`, `pattern`, custom `validator`). The result is an ordered list of French error messages. A form is checked key by key against a schema;
- **the form composable** (`useForm`). It holds the edited data and the last errors, and offers `validate` and `reset`.

Modules, one per file:

| file | module | models |
|---|---|---|
| `wrappers.dfy` | `Wrappers` | `Option`, for `undefined`/`null` |
| `lists.dfy` | `Lists` | `findIndex`, `find` and `filter` on arrays, with what they keep |
| `stable_sort.dfy` | `StableSort` | `Array.prototype.sort` with a numeric comparator. It is stable, so it is modelled as a stable insertion sort, and the result is proved to be the only stable sort |
| `pet_types.dfy` | `PetTypes` | the record types and their closed enumerations |
| `pet_state.dfy` | `PetState` | the store's state as a value, the effect of each action on it, and the getters |
| `pet_properties.dfy` | `PetProperties` | what the actions keep, worked scenarios, and the two store findings |
| `pet_store.dfy` | `PetStore` | the store as a class whose actions update its fields in place. Each action is proved to reach the state `PetState` describes |
| `validation.dfy` | `Validation` | the rule checks and messages, `validateField`, `validateForm` and the validity test |
| `validation_properties.dfy` | `ValidationProperties` | properties of validation and worked examples |
| `use_form.dfy` | `UseForm` | the form composable as a class, with the aliasing of its initial data |

Dates:
- Dates stay the strings the records carry. A `Calendar` value stands for the host's date handling. `time(text)` is `new Date(text).getTime()`. `day(t)` identifies the calendar day that `toDateString()` compares.
- The store holds its calendar as a constant.
- `new Date()` in `upcomingVaccines` becomes a `today` parameter.

Weights are `real`. A progression whose first weight is zero is `NonFinite`, because JavaScript would give `Infinity` or `NaN` there.

Scope of the code, as modelled:
- The store keeps a single pet. It does not keep a list of pets, a current-pet identifier, or per-pet partitions.
- Validation keys are plain field names, with no dotted paths.
- A falsy value skips only the length and pattern checks. The custom validator runs on every value.
- `minLength`/`maxLength` measure the untrimmed value, in UTF-16 code units.

## Model

| member | source | states |
|---|---|---|
| `PetState.UpcomingVaccines` | src/stores/pet.ts:23-28 | The result is in ascending `nextDate` order and holds only vaccines due strictly after `today`. It is a sub-multiset of the vaccines and keeps every occurrence of every due vaccine. |
| `PetState.SortedWeightHistory` | src/stores/pet.ts:31-35 | The result is in ascending date order and is a permutation of the history. Records of the same instant keep their relative order (stability). |
| `PetState.MinWeight` | src/stores/pet.ts:43 | `Math.min` of the weights: no weight is below it, and some record has it. |
| `PetState.MaxWeight` | src/stores/pet.ts:44 | `Math.max` of the weights: no weight is above it, and some record has it. |
| `PetState.WeightRange` | src/stores/pet.ts:38-46 | Gives `{0, 0}` without records. Otherwise every weight lies in `[min, max]` and both bounds are weights of records. |
| `PetState.AddVaccine` | src/stores/pet.ts:56-67 | Only the vaccines change. If a vaccine with the same name and date exists, nothing changes. Otherwise the list is date-sorted and is the old list plus the new vaccine. |
| `PetState.AddWeightRecord` | src/stores/pet.ts:81-98 | Only the history and the pet change. A record on an already recorded calendar day changes nothing. Otherwise the history is date-sorted with the record added, and a set pet takes the weight of the last record. |
| `PetState.UpdateWeightRecord` | src/stores/pet.ts:100-113 | As written. An unknown id changes nothing. Otherwise the first record with that id is replaced and the history re-sorted. The pet takes the new weight exactly when the record was last *before* the sort. |
| `PetState.UpdateWeightRecordSynced` | src/stores/pet.ts:100-113 | As intended. Only the history and the pet change, and an unknown id changes nothing. Otherwise the history is date-sorted and is the old one with the first record carrying the id exchanged for the new record. A set pet stays set and takes the weight of the last record after sorting. |
| `PetState.DeleteWeightRecord` | src/stores/pet.ts:115-126 | The history loses exactly the records with the id. If something was removed and records remain, a set pet takes the last weight. With no records left it takes 0. Otherwise nothing changes. |
| `PetState.UpdateVaccineSorted` | src/stores/pet.ts:69-74 | `updateVaccine` as intended. An unknown id changes nothing. Otherwise the vaccines are date-sorted and are the old list with the first matching entry exchanged for the new one. |
| `PetState.UpdateVaccine` | src/stores/pet.ts:69-74 | As written. Only the vaccines change, and an unknown id changes nothing. Otherwise the list is the old one with exactly the first entry carrying the id replaced in place, with no re-sort. |
| `PetState.DeleteVaccine` | src/stores/pet.ts:76-78 | Only the vaccines change. No remaining vaccine has the id. Every other vaccine is kept with its multiplicity and in order, and nothing is added. |
| `PetState.AddHealthRecord` | src/stores/pet.ts:129-132 | Only the health records change. They are date-sorted and are the old list plus the new record. |
| `PetState.UpdateHealthRecord` | src/stores/pet.ts:134-140 | Only the health records change, and an unknown id changes nothing. Otherwise they are date-sorted and are the old list with the first record carrying the id exchanged for the new one. |
| `PetState.DeleteHealthRecord` | src/stores/pet.ts:142-144 | Only the health records change. No remaining record has the id. Every other record is kept with its multiplicity and in order, and nothing is added. |
| `PetState.AddFoodLog` | src/stores/pet.ts:147-150 | Only the food logs change. They are date-sorted and are the old list plus the new log. |
| `PetState.UpdateFoodLog` | src/stores/pet.ts:152-158 | Only the food logs change, and an unknown id changes nothing. Otherwise they are date-sorted and are the old list with the first log carrying the id exchanged for the new one. |
| `PetState.DeleteFoodLog` | src/stores/pet.ts:160-162 | Only the food logs change. No remaining log has the id. Every other log is kept with its multiplicity and in order, and nothing is added. |
| `PetState.Pushed` | src/stores/pet.ts:129-132 | Push then sort, as in `addHealthRecord` and `addFoodLog`. The result is date-sorted, one longer, and the old list plus the new item. |
| `PetState.Replaced` | src/stores/pet.ts:69-74 | `findIndex` then assignment, as in `updateVaccine`. An unknown id leaves the list as it is. Otherwise exactly the first entry with that id is replaced, in place. |
| `PetState.ReplacedSorted` | src/stores/pet.ts:134-140 | Replace then sort, as in `updateHealthRecord` and `updateFoodLog`. An unknown id leaves the list as it is. Otherwise the result is sorted and is the old list with the first entry with that id exchanged. |
| `PetState.Removed` | src/stores/pet.ts:142-144 | Filter by id, as in every delete action. No survivor has the id, and every other item is kept with its multiplicity and in order. The length is unchanged exactly when no item had the id, and then the list is unchanged. |
| `PetState.LatestWeight` | src/stores/pet.ts:165-173 | `None` exactly when there are no records. Otherwise it is the weight of a record dated no earlier than any other. |
| `PetState.WeightProgression` | src/stores/pet.ts:175-186 | `None` exactly when there are fewer than two records. Otherwise it is the percentage change from the weight of an earliest record to that of a latest one. |
| `PetProperties.VaccineActionsKeepInvariant` | src/stores/pet.ts:56-78 | Adding, deleting and (re-sorting) updating vaccines keep every list date-sorted and the pet's weight synchronised. |
| `PetProperties.WeightActionsKeepInvariant` | src/stores/pet.ts:81-126 | Adding, deleting and (as intended) updating weights keep the lists sorted. They also keep the pet's weight equal to the last record's, or 0 without records. |
| `PetProperties.HealthActionsKeepInvariant` | src/stores/pet.ts:129-144 | The health record actions keep the invariant. |
| `PetProperties.FoodActionsKeepInvariant` | src/stores/pet.ts:147-162 | The food log actions keep the invariant. |
| `PetProperties.AddAndDeleteKeepNoDuplicates` | src/stores/pet.ts:56-98 | If no two vaccines share name and date and no two weights share a day, adding and deleting keep it so. |
| `PetProperties.OnlyLastIsLatest` | src/stores/pet.ts:165-173 | In a sorted history with one record per day, the only record dated no earlier than all others is the last. |
| `PetProperties.SyncedWeightIsLatest` | src/stores/pet.ts:90-94 | When the invariant holds with one record per day, `getLatestWeight()` returns the pet's weight. |
| `PetProperties.AddFirstWeight` | src/stores/pet.ts:81-98 | The first weight record becomes the whole history and the pet's weight. |
| `PetProperties.AddSecondWeight` | src/stores/pet.ts:81-98 | Adding a second weight on another day, earlier or later, gives the two in date order. The pet gets the later weight. |
| `PetProperties.WeightScenario` | src/stores/pet.ts:81-98 | 5.0 kg in January and 6.2 kg in March, added in either order: the pet weighs 6.2 and the progression is +24%. |
| `PetProperties.DeleteOnlyWeightScenario` | src/stores/pet.ts:115-126 | Deleting the only weight record resets the pet's weight to 0, and there is no latest weight. |
| `PetProperties.UpdateWeightRecordCanDesync` | src/stores/pet.ts:100-113 | Finding: moving the last record to an earlier date gives the pet a weight that is no longer the latest. |
| `PetProperties.UpdateVaccineCanUnsort` | src/stores/pet.ts:69-74 | Finding: moving a vaccine's date past the next one leaves the list out of date order. |
| `PetStore.Store.constructor` | src/stores/pet.ts:13-19 | No pet and four empty lists. |
| `PetStore.Store.SetPet` | src/stores/pet.ts:51-53 | Only the pet changes. |
| `PetStore.Store.AddVaccine` | src/stores/pet.ts:56-67 | The new state is `PetState.AddVaccine` of the old one. |
| `PetStore.Store.UpdateVaccine` | src/stores/pet.ts:69-74 | Only the vaccines change, to `PetState.Replaced` of the old list (no re-sort). |
| `PetStore.Store.DeleteVaccine` | src/stores/pet.ts:76-78 | Only the vaccines change, to `PetState.Removed` of the old list. |
| `PetStore.Store.AddWeightRecord` | src/stores/pet.ts:81-98 | The new state is `PetState.AddWeightRecord` of the old one. |
| `PetStore.Store.UpdateWeightRecord` | src/stores/pet.ts:100-113 | The new state is `PetState.UpdateWeightRecord` of the old one, i.e. the behaviour as written. |
| `PetStore.Store.DeleteWeightRecord` | src/stores/pet.ts:115-126 | The new state is `PetState.DeleteWeightRecord` of the old one. |
| `PetStore.Store.AddHealthRecord` | src/stores/pet.ts:129-132 | Only the health records change, to `PetState.Pushed` of the old list. |
| `PetStore.Store.UpdateHealthRecord` | src/stores/pet.ts:134-140 | Only the health records change, to `PetState.ReplacedSorted` of the old list. |
| `PetStore.Store.DeleteHealthRecord` | src/stores/pet.ts:142-144 | Only the health records change, to `PetState.Removed` of the old list. |
| `PetStore.Store.AddFoodLog` | src/stores/pet.ts:147-150 | Only the food logs change, to `PetState.Pushed` of the old list. |
| `PetStore.Store.UpdateFoodLog` | src/stores/pet.ts:152-158 | Only the food logs change, to `PetState.ReplacedSorted` of the old list. |
| `PetStore.Store.DeleteFoodLog` | src/stores/pet.ts:160-162 | Only the food logs change, to `PetState.Removed` of the old list. |
| `Lists.IndexWhere` | src/stores/pet.ts:70 | `findIndex`: -1 exactly when no element matches. Otherwise it is the first matching index. |
| `Lists.Find` | src/stores/pet.ts:57-59 | `find`: absent exactly when no element matches. Otherwise it is a matching element of the list. |
| `Lists.Filter` | src/stores/pet.ts:77 | `filter`: no longer than the input, and every kept element satisfies the predicate. |
| `Lists.FilterKeepsAllSatisfying` | src/stores/pet.ts:26 | `filter` keeps every satisfying element with its multiplicity. |
| `Lists.FilterSubMultiset` | src/stores/pet.ts:26 | `filter` adds nothing. |
| `Lists.FilterKeepsOrder` | src/stores/pet.ts:77 | `filter` keeps the input order. |
| `Lists.FilterRemovesNothing` | src/stores/pet.ts:116-120 | The length is unchanged exactly when every element satisfies the predicate, and then the list is unchanged. |
| `StableSort.SortBy` | src/stores/pet.ts:63 | `sort` with an ascending numeric comparator: a sorted permutation of the same length. |
| `StableSort.SortByStableAll` | src/stores/pet.ts:63 | The sort is stable: for each key, the elements with that key keep their relative order. |
| `StableSort.StableSortIsUnique` | src/stores/pet.ts:63 | Any sorted list that keeps the per-key order of the input is the result of `SortBy`, so the model fixes the order that `sort` produces. |
| `StableSort.SortBySortedIsIdentity` | src/stores/pet.ts:88 | Sorting an already sorted list changes nothing. |
| `StableSort.FilterKeepsSorted` | src/stores/pet.ts:117 | Filtering a sorted list keeps it sorted. |
| `Validation.FieldErrors` | src/utils/validation.ts:13-47 | The errors of one field. The list is empty exactly when none of the five checks fails. It holds at most one message per check, so at most five. A failing `required` check is always the first message. |
| `Validation.ValidateField` | src/utils/validation.ts:13-47 | The errors are those of the failing checks: required, then min length, max length, pattern and custom validator. |
| `Validation.Lookup` | src/utils/validation.ts:53 | `formData[key]`. A key the form holds reads its value. A key the form lacks reads as `undefined`, which is falsy. |
| `Validation.ValidateForm` | src/utils/validation.ts:49-59 | Exactly one entry per schema key. Each is the field errors of the form's value for that key, `undefined` when the form lacks it. |
| `Validation.AllEmpty` | src/composables/useForm.ts:13 | True exactly when every error list is empty. |
| `Validation.Utf16Length` | src/utils/validation.ts:22 | `length` lies between the number of characters and twice that. It equals the number of characters exactly when none is beyond U+FFFF. |
| `Validation.TrimStart` | src/utils/validation.ts:17 | Leading white space only is removed: the result is a suffix, everything dropped is white space, and the result starts with a kept character. |
| `Validation.TrimEnd` | src/utils/validation.ts:17 | Trailing white space only is removed: the result is a prefix, everything dropped is white space, and the result ends with a kept character. |
| `Validation.Trim` | src/utils/validation.ts:17 | `String.prototype.trim`. The result is no longer than the value, and it neither starts nor ends with white space. `ValidationProperties.TrimKeepsMiddle` shows it is the value's middle with only white space dropped around it. |
| `Validation.NatToString` | src/utils/validation.ts:23 | A non-empty run of decimal digits, with no leading zero unless the number is zero. |
| `Validation.IntToString` | src/utils/validation.ts:23-28 | Non-empty, starting with `-` exactly for negative numbers, with decimal digits everywhere else. |
| `ValidationProperties.IntToStringRoundTrip` | src/utils/validation.ts:23-28 | The printed limit reads back as the limit: the digits denote `n`, or `-n` after the sign of a negative limit. |
| `ValidationProperties.IntToStringInjective` | src/utils/validation.ts:23-28 | Different limits give different texts, so each length message names its own limit. |
| `ValidationProperties.NatToStringRoundTrip` | src/utils/validation.ts:23 | The printed digits read back as the number, so the limit in a length message is the rule's. |
| `ValidationProperties.NatToStringInjective` | src/utils/validation.ts:28 | Different limits print differently. |
| `ValidationProperties.TrimKeepsMiddle` | src/utils/validation.ts:17 | `trim` returns a contiguous middle part of the value with only white space around it. |
| `ValidationProperties.TrimEmptyIffBlank` | src/utils/validation.ts:17 | A value trims to empty exactly when all its characters are white space. |
| `ValidationProperties.AstralCountsTwice` | src/utils/validation.ts:22 | A character beyond U+FFFF counts twice towards the length. |
| `ValidationProperties.FalsyValueSkipsLengthAndPattern` | src/utils/validation.ts:22-44 | An absent or empty value gets only the required message (if required) and the custom validator's messages. |
| `ValidationProperties.NoRulesNoErrors` | src/utils/validation.ts:13 | The default rule `{}` accepts every value. |
| `ValidationProperties.MinLengthZeroDisabled` | src/utils/validation.ts:22 | `minLength: 0` never fails. |
| `ValidationProperties.EmptyRequiredExample` | src/utils/validation.ts:17-19 | `""` under `{required: true}` gives exactly "Ce champ est requis". |
| `ValidationProperties.TooShortExample` | src/utils/validation.ts:22-24 | `"ab"` under `{minLength: 3}` gives exactly the one message "Doit contenir au moins 3 caractères". |
| `ValidationProperties.WithinBoundsExample` | src/utils/validation.ts:22-29 | `"abc"` under `{minLength: 3, maxLength: 5}` has no errors. |
| `ValidationProperties.BlankMeasuredUntrimmedExample` | src/utils/validation.ts:17-24 | Two spaces under `{required: true, minLength: 3}` fail both checks: `required` trims, `minLength` does not. |
| `ValidationProperties.MissingKeyIsAbsent` | src/utils/validation.ts:53-55 | A schema key missing from the form is validated as `undefined`. |
| `ValidationProperties.UnvalidatedFieldsIgnored` | src/utils/validation.ts:52-56 | Changing a field outside the schema changes no schema key's errors. |
| `UseForm.Fields.Set` | src/composables/useForm.ts:8 | A bound input writes one field of the shared data object. |
| `UseForm.Form.constructor` | src/composables/useForm.ts:8-9 | The form's data is the caller's own `initialData` object, and there are no errors. |
| `UseForm.Form.Copying` | src/composables/useForm.ts:8-9 | As intended: the form starts from a fresh copy of `initialData`, with no errors. |
| `UseForm.Form.Validate` | src/composables/useForm.ts:11-14 | The errors become those of the current data, one entry per schema key. The result is true exactly when every key's errors are empty. |
| `UseForm.Form.Reset` | src/composables/useForm.ts:16-19 | The data becomes a fresh copy of what `initialData` now holds, and the errors are cleared. |
| `UseForm.EditThenReset` | src/composables/useForm.ts:8-19 | Finding: on a form built as written, an edit followed by `reset` leaves the edited value. |
| `UseForm.EditThenResetCopying` | src/composables/useForm.ts:8-19 | On a form that copies its initial data, an edit followed by `reset` restores the original value. |

## Left out

- Persistence (`persist: true`) to the browser's storage is left out. It is a side effect outside the state.
- `console.warn` on a rejected duplicate is left out. It is output only.
- Vue/Pinia reactivity is not modelled.
- Date parsing is a parameter (`Calendar`). Invalid dates (`NaN` times) are not modelled: every time is an integer, so comparisons with `NaN` are not captured.
- The pet object stored by `setPet` is a value in the model. The source mutates the caller's pet object in place when it updates `pet.weight`, and that aliasing is not captured. Record objects inside the lists are values too.
- `upcomingVaccines`, `sortedWeightHistory`, `weightRange`, `getLatestWeight` and `calculateWeightProgression` read the state without changing it. They are modelled once, as functions of `PetState` applied to `Store.Snapshot()`, not repeated as class members.
- Weights are exact reals. Floating-point rounding is not modelled, and neither are `NaN` weights in `Math.min`/`Math.max`.
- PetState.WeightProgression: a zero first weight gives `NonFinite` rather than distinguishing `Infinity`, `-Infinity` and `NaN`.
- Validation takes string values or `undefined`. Non-string values (numbers, objects) and their `toString`/`length` are not modelled.
- A `pattern` is a predicate on the value. The regular expression engine, and the `lastIndex` state of global regular expressions, are not modelled.
- `minLength`/`maxLength` are integers. Non-integer or `NaN` limits are not modelled.
- Validation.IntToString: prints every digit of a limit. A template literal prints limits of 10^21 or more in exponent form (`1e+21`), and that form is not modelled.
- PetState.LatestWeight: states that the result is the weight of *a* latest record. Among records of the same instant it is the earliest-inserted one, because the sort is stable. That choice is fixed by `StableSort.StableSortIsUnique`, but `LatestWeight` itself does not state which one.
- PetState.WeightProgression: states the change from *an* earliest to *a* latest record. Ties are resolved by the stable sort, as for `LatestWeight`.

## Findings

| source | as written | input that shows it | evidently intended | confidence | as-written member | corrected member |
|---|---|---|---|---|---|---|
| src/stores/pet.ts:100-113 | The pet takes the updated record's weight when that record's index *before* re-sorting was the last. | History January 5.0 kg, March 6.2 kg, pet at 6.2. Update the March record to December of the year before at 7.0 kg. The pet weighs 7.0, but the latest record is January at 5.0. | The pet takes the weight of the record that is last after sorting, as `addWeightRecord` and `deleteWeightRecord` do. | high; not executed | `PetProperties.UpdateWeightRecordCanDesync` | `PetProperties.WeightActionsKeepInvariant` |
| src/stores/pet.ts:69-74 | `updateVaccine` replaces the entry in place and does not re-sort. Every other update action re-sorts. | Vaccines dated 2024-01-10 and 2024-02-10. Update the first one's date to 2024-03-10. The list is no longer in date order. | Re-sort by date after the update, as `updateHealthRecord` and `updateFoodLog` do. | medium; not executed | `PetProperties.UpdateVaccineCanUnsort` | `PetProperties.VaccineActionsKeepInvariant` |
| src/composables/useForm.ts:8-19 | `ref(initialData)` makes the form data the caller's own object, so edits are written into `initialData`. `reset` then copies the edited values back. | `initialData` is `{name: "Rex"}`. The user types "Max", then resets. The field still shows "Max". | The form starts from a copy, so `reset` restores the initial values. | medium; not executed | `UseForm.EditThenReset` | `UseForm.EditThenResetCopying` |
