# prompt-generator: a verified model of the form logic

prompt-generator is a React front end. The user picks a modality (image, video or
voice), a target model and a set of descriptive fields, and the form sends them to a
prompt-generation endpoint. Under the rendering there is a small body of sequential
logic, and this project models it in Dafny and proves properties about it:

- **Rule-table validator** (`Validation`, with the tables in `Config`). `validatePromptData`
  turns a form, a modality and a model into an ordered list of messages.
  - Its two `forEach` loops are a `method` with a loop invariant.
  - The method is proved equal to the specification function `ValidationErrors`.
  - The lemmas describe what that function promises: message order, the missing-value
    rule, the duration range check, `formatFieldName` character by character, and
    agreement with `isFieldRequired`.
- **Constant tables** (`Config`, with lemmas in `ConfigShape` and `ConfigFacts`).
  - `MODELS`, `REQUIRED_FIELDS`, `FIELD_DEFINITIONS` and `TEMPLATES` are Dafny constants.
  - The lemmas relate the tables to each other and to the validator. For example, every
    template passes validation for every model of its modality.
- **Storage hook and history store** (`LocalStorage`, `History`).
  - `useLocalStorage` is a class holding the in-memory value and the last copy written to
    storage.
  - `usePromptHistory`'s updaters are pure sequence functions, with lemmas about length,
    order and frame. The hook's operations are methods over the storage cell.
- **Toast queue** (`Toasts`).
  - The module-level counter is a class shared by every queue, and it never issues an id
    twice.
  - A queue appends toasts and removes them by id, and it keeps its ids distinct.
- **Form controllers** (`ImprovedForm` for `ImprovedPromptForm`, `LegacyForm` for the
  older `PromptForm` and its own validator).
  - The edit handlers, template selection and the modality reset are methods.
  - Submission is split into the gate before the request (`BeginSubmit`) and the handling of
    the awaited outcome (`FinishSubmit`), with the payload as a function.
- **History view** (`HistoryView`): the list filter and the relative-date labels of
  `History.jsx`.

Form values are `Str(string)` or `Num(int)`, and an absent key stands for `undefined`.
- JavaScript's truthiness, `||` with a fallback, `toString`, the ECMAScript `trim`
  whitespace set, radix-10 `parseInt` and `slice(0, end)` (including a negative end) are
  written out in `JsValues` and `Seqs`.
- These things are parameters: the clock reading behind history ids, timestamps and date
  differences; the outcome of a storage read; whether a storage write succeeds; and the
  outcome of the network call.

A non-empty whitespace-only duration is reported as required and also fails the range
check, because it is truthy and `parseInt` of it is `NaN` (see
`Validation.BlankDurationReportedTwice`).

## Model

| member | source | states |
|---|---|---|
| Validation.CheckRequired | frontend/src/validation.js:25-29 | The loop over a field list pushes exactly the messages `RequiredErrors` lists: one per missing field, in list order. |
| Validation.ValidateWith | frontend/src/validation.js:15-50 | Against any rule table, the imperative validator returns exactly `ValidationErrors` for that table. |
| Validation.ValidatePromptData | frontend/src/validation.js:15-50 | The exported validator, over the application's `REQUIRED_FIELDS`, returns exactly `ValidationErrors`. |
| Validation.RequiredErrorsAreMessages | frontend/src/validation.js:25-39 | One loop's messages are one "is required" message per missing field, in the order of the list, and none for a present field. |
| Validation.MissingIff | frontend/src/validation.js:26 | A value is missing exactly when it is absent, a string made only of whitespace (the empty string included), or the number 0. |
| Validation.FormatFieldNameAt | frontend/src/validation.js:57-62 | `formatFieldName` keeps the length. It maps each `_` to a space, upper-cases a character that starts a segment and keeps every other character. |
| Validation.FormatFieldNameNoUnderscore | frontend/src/validation.js:57-62 | A formatted field name never contains `_`. |
| Validation.ReportedIffRequiredAndMissing | frontend/src/validation.js:25-83 | A field gets a required-field message exactly when `isFieldRequired` holds for it and its value is missing. |
| Validation.ValidationOrder | frontend/src/validation.js:25-47 | For a known modality, the messages are the missing common fields without a suffix, then the missing model fields with " for <model>", then the duration message exactly when the duration check fails. |
| Validation.ValidationAsMessages | frontend/src/validation.js:25-47 | The validator's output equals the messages of the missing common fields, then those of the missing model fields, then the optional duration message. |
| Validation.UnknownModality | frontend/src/validation.js:18-22 | An unknown modality yields exactly `"Invalid modality: <m>"` and reports no field. |
| Validation.ValidationBound | frontend/src/validation.js:25-47 | At most one message per listed common or model field, plus one. |
| Validation.UnlistedModelAddsNothing | frontend/src/validation.js:32-39 | A model without an entry in the rules adds no model-specific message. |
| Validation.EmptyFormReportsAll | frontend/src/validation.js:25-39 | With an empty form every common field and every field of the model's list is reported, in order. |
| Validation.ParseIntBlank | frontend/src/validation.js:43 | `parseInt` of a whitespace-only string is `NaN`. |
| Validation.BlankDurationReportedTwice | frontend/src/validation.js:42-47 | A non-empty whitespace-only duration is reported as required and also fails the range check. |
| Validation.ZeroDurationReportedOnce | frontend/src/validation.js:42-47 | The number 0 is reported as required, and the range check skips it because it is falsy. |
| Validation.DurationReadsLeadingInteger | frontend/src/validation.js:42-47 | A duration that starts with a printed integer n fails the check exactly when n lies outside [1, 60], whatever text after a non-digit follows it. |
| JsValues.TrimBlank | frontend/src/validation.js:26 | `trim()` gives `""` exactly when every character is ECMAScript whitespace. |
| JsValues.ParseIntToString | frontend/src/validation.js:43 | Radix-10 `parseInt` reads a printed integer back as that integer. |
| JsValues.ParseIntLeading | frontend/src/validation.js:43 | `parseInt` skips leading whitespace and reads the leading integer, stopping at the first non-digit. |
| JsValues.IntToStringInjective | frontend/src/hooks/useToast.js:13 | Different integers print differently. |
| JsValues.OrDefaultSettles | frontend/src/components/ImprovedPromptForm.jsx:64-65 | The `or` fallback yields the stored value or the fallback. It is truthy whenever the fallback is, and once written back to the form, a second fallback changes nothing. |
| ConfigFacts.RuleKeysAreModelValues | frontend/src/config.js:10-56 | Both tables have the same modalities. For each modality, the model keys of the rules are exactly the `value`s of `MODELS`. |
| ConfigFacts.OnlyCameraMotionIsModelSpecific | frontend/src/config.js:30-56 | `camera_motion` for `runway-gen3` is the only model-specific requirement; every other model list is empty. |
| ConfigFacts.RequiredFieldsWellFormed | frontend/src/config.js:30-56 | Each modality's lists have no repetitions, and no model-specific field is also a common one. |
| ConfigFacts.CommonAndModelFieldsDisjoint | frontend/src/config.js:30-56 | No field is both common and specific to a model. |
| ConfigFacts.ReportedFieldsDistinct | frontend/src/validation.js:25-39 | Over well-formed rules, no field is reported twice. |
| ConfigFacts.RequiredFieldsReportDistinct | frontend/src/config.js:30-56 | With the application's table, no field is ever reported twice. |
| ConfigFacts.CommonFieldDefinedRequired | frontend/src/config.js:30-86 | Every common required field has a field definition of that name with `required: true`. |
| ConfigFacts.RequiredUnlisted | frontend/src/config.js:59-86 | Voice `subject` is the one field marked `required: true` that the rule table does not list. |
| ConfigFacts.DurationDefinitionMatchesCheck | frontend/src/config.js:72 | The duration input is a number input whose `min` and `max` are the validator's bounds, 1 and 60. |
| ConfigFacts.NoErrorsWhenFilled | frontend/src/validation.js:15-50 | When every listed field is present and the duration check passes, the validator returns no message. |
| ConfigFacts.TemplatesValidate | frontend/src/config.js:89-170 | Every template's values pass validation for every model of its modality. |
| ConfigFacts.VideoTemplateDurations | frontend/src/config.js:122-145 | The video templates are `cinematic` and `nature`, with numeric durations 10 and 15. |
| ConfigFacts.TemplateKeysNonEmpty | frontend/src/config.js:89-170 | No template key is the empty string, which the selector uses for "no template". |
| ConfigFacts.ModelIdsNonEmpty | frontend/src/config.js:30-56 | No model id is the empty string, which the model select uses for "no model". |
| ConfigFacts.FormatDurationSeconds | frontend/src/validation.js:57-62 | `duration_seconds` formats as `Duration Seconds`. |
| ConfigFacts.FormatCameraMotion | frontend/src/validation.js:57-62 | `camera_motion` formats as `Camera Motion`. |
| ConfigFacts.RunwayMissingDurationAndCamera | frontend/src/validation.js:25-39 | On `runway-gen3`, a form with scene and action but without duration and camera motion gets exactly two messages: the duration one, then the camera motion one with " for runway-gen3". |
| ConfigFacts.OutOfRangeDurationAlone | frontend/src/validation.js:42-47 | With scene and action filled, an out-of-range printed duration on `pika` or `sora` gives the range message alone. |
| ConfigFacts.PrintedDuration | frontend/src/validation.js:41-47 | A printed integer as the duration is present, and it is range-checked as that integer. |
| ConfigFacts.PikaDurationNinety | frontend/src/validation.js:42-47 | The duration `"90"` on `pika` with scene and action given yields only the range message. |
| ConfigFacts.DalleCatNoir | frontend/src/validation.js:15-50 | An image form with subject and style passes on `dalle-3`. |
| LocalStorage.InitialValueUsedUnlessParsed | frontend/src/hooks/useLocalStorage.js:10-18 | The caller's initial value decides the initial state exactly when no stored item was parsed, that is, when the item is absent, empty, unreadable or unparsable. |
| LocalStorage.ResolveComposes | frontend/src/hooks/useLocalStorage.js:22-23 | Two function arguments in a row act as their composition on the current value; a plain value replaces the state whatever the current value is. |
| LocalStorage.StoredCell.constructor | frontend/src/hooks/useLocalStorage.js:10-18 | The hook starts from the load result, and nothing has been written yet. |
| LocalStorage.StoredCell.SetValue | frontend/src/hooks/useLocalStorage.js:20-30 | The new value is in memory whether or not the write succeeds. A successful write leaves memory and storage in sync; a failed one leaves the old stored copy. |
| History.AddEntryFavorites | frontend/src/hooks/useLocalStorage.js:44-52 | A new entry is never a favourite, so after an addition the favourites are exactly those of the older entries that were kept. |
| History.AddEntryNewestFirst | frontend/src/hooks/useLocalStorage.js:51-53 | With a positive cap the new entry comes first, followed by the newest earlier entries, and the length is the smaller of the old length plus one and the cap. |
| History.AddEntryEvictsOldest | frontend/src/hooks/useLocalStorage.js:52 | At the cap, the oldest entry is dropped and the length stays at the cap. |
| History.AddEntryWithinCap | frontend/src/hooks/useLocalStorage.js:52 | A non-negative cap is never exceeded. |
| History.AddToEmpty | frontend/src/hooks/useLocalStorage.js:52 | Adding to an empty history gives the new entry alone. |
| History.AddAllNewestFirst | frontend/src/hooks/useLocalStorage.js:43-57 | A run of additions leaves the newest entries first, ahead of the earlier list, truncated to the cap. |
| History.OldestEvicted | frontend/src/hooks/useLocalStorage.js:52 | After cap + 1 distinct additions to an empty history, the first one is gone and every later one is kept. |
| History.RemoveByIdMembers | frontend/src/hooks/useLocalStorage.js:59-61 | An entry survives removal exactly when its id differs, as many times as it occurred, and an entry with that id does not survive at all. |
| History.RemoveByIdKeepsOrder | frontend/src/hooks/useLocalStorage.js:59-61 | The survivors of a removal keep their order. |
| History.RemoveAbsentId | frontend/src/hooks/useLocalStorage.js:59-61 | Removing an id that no entry carries changes nothing. |
| History.ToggleFavoritesView | frontend/src/hooks/useLocalStorage.js:63-69 | After a toggle, the favourites are the earlier favourites with another id plus the earlier non-favourites with that id, now marked. |
| History.ToggleTwice | frontend/src/hooks/useLocalStorage.js:63-69 | Toggling the same id twice restores the list. |
| History.ToggleKeepsOtherFields | frontend/src/hooks/useLocalStorage.js:63-69 | Toggling changes only `favorite`, and only on the entries with that id. |
| History.ToggleAbsentId | frontend/src/hooks/useLocalStorage.js:63-69 | Toggling an id that no entry carries changes nothing. |
| History.FavoritesView | frontend/src/hooks/useLocalStorage.js:75-77 | The favourites are exactly the favourite entries, as an order-preserving sublist. |
| History.RemoveThenFavorites | frontend/src/hooks/useLocalStorage.js:59-77 | Removing an id and then taking favourites is taking favourites and then removing it. |
| History.HistoryStore.constructor | frontend/src/hooks/useLocalStorage.js:40-41 | The cap defaults to 50 and the key is `prompt-history`. The state starts from the load result, or from `[]`. |
| History.HistoryStore.AddToHistory | frontend/src/hooks/useLocalStorage.js:43-57 | The returned id is `history-<now>` and is the id of the stored new entry. That entry is first and is not a favourite, the cap holds, and a successful write persists the new list. |
| History.HistoryStore.RemoveFromHistory | frontend/src/hooks/useLocalStorage.js:59-61 | The state becomes the list without that id, and a successful write persists it. |
| History.HistoryStore.ToggleFavoriteOf | frontend/src/hooks/useLocalStorage.js:63-69 | The state becomes the toggled list, and a successful write persists it. |
| History.HistoryStore.ClearHistory | frontend/src/hooks/useLocalStorage.js:71-73 | The state becomes `[]`, and a successful write persists it. |
| History.HistoryStore.GetFavorites | frontend/src/hooks/useLocalStorage.js:75-77 | Returns the favourites view of the current state without changing anything (see `History.FavoritesView`). |
| Toasts.ToastIdInjective | frontend/src/hooks/useToast.js:13 | Two counter values give the same toast id exactly when they are equal. |
| Toasts.FirstToastId | frontend/src/hooks/useToast.js:3-13 | The first `Next` on a freshly constructed counter issues `toast-1`. |
| Toasts.ToastCounter.constructor | frontend/src/hooks/useToast.js:3 | The counter starts at 0, and no id has been issued. |
| Toasts.ToastCounter.Next | frontend/src/hooks/useToast.js:13 | The counter is incremented before use. The id is `toast-<new value>` and was never issued before. |
| Toasts.RemoveToastMembers | frontend/src/hooks/useToast.js:21-23 | A toast survives removal exactly when its id differs, as many times as it occurred, and the survivors keep their order. |
| Toasts.RemoveAbsentToast | frontend/src/hooks/useToast.js:21-23 | Removing an id that no toast carries changes nothing. |
| Toasts.RemoveKeepsDistinctIds | frontend/src/hooks/useToast.js:21-23 | Removal keeps the shown ids pairwise distinct. |
| Toasts.ToastQueue.constructor | frontend/src/hooks/useToast.js:10 | A queue starts empty over the shared counter. |
| Toasts.ToastQueue.AddToast | frontend/src/hooks/useToast.js:12-19 | Exactly one toast is appended at the end, with kind `info` and duration 5000 when omitted, and its fresh id is returned. Earlier toasts are unchanged, and ids stay distinct. |
| Toasts.ToastQueue.RemoveToast | frontend/src/hooks/useToast.js:21-23 | The queue keeps exactly the toasts with a different id, in order, and its invariant. |
| Toasts.ToastQueue.ShowSuccess | frontend/src/hooks/useToast.js:25-28 | Appends one `success` toast with a fresh id; an omitted duration becomes 5000. |
| Toasts.ToastQueue.ShowError | frontend/src/hooks/useToast.js:30-33 | Appends one `error` toast with a fresh id; an omitted duration becomes 5000. |
| Toasts.ToastQueue.ShowWarning | frontend/src/hooks/useToast.js:35-38 | Appends one `warning` toast with a fresh id; an omitted duration becomes 5000. |
| Toasts.ToastQueue.ShowInfo | frontend/src/hooks/useToast.js:40-43 | Appends one `info` toast with a fresh id; an omitted duration becomes 5000. |
| Api.HttpFailure | frontend/src/api.js:40-46 | A non-2xx reply whose body parsed as a JSON object throws an `APIError` with the HTTP status. Its message is the body's non-empty `error`, and otherwise exactly `"Request failed"`. |
| Api.TransportFailure | frontend/src/api.js:54-59 | A network or parsing failure throws an `APIError` with status 0. Its message is the error's non-empty message, and otherwise exactly `"Network error"`. |
| ImprovedForm.SendIffValid | frontend/src/components/ImprovedPromptForm.jsx:44-53 | A request goes out exactly when a model is chosen and `validatePromptData` returns no message. |
| ImprovedForm.NoModelRejected | frontend/src/components/ImprovedPromptForm.jsx:44-47 | Without a model the only report is `"Please select a model"`. |
| ImprovedForm.ErrorsJoined | frontend/src/components/ImprovedPromptForm.jsx:49-53 | Validation messages are reported as one text joined with newlines, and a single message is reported unchanged. |
| ImprovedForm.RequestContents | frontend/src/components/ImprovedPromptForm.jsx:58-67 | The request carries the form's modality, the model and the payload. |
| ImprovedForm.PayloadFields | frontend/src/components/ImprovedPromptForm.jsx:61-66 | The payload keeps every form key and adds `modality` (the current one), `goal` (`"user defined"` when falsy) and `subject` (`""` when falsy). |
| ImprovedForm.TemplateThenSubmitSends | frontend/src/components/ImprovedPromptForm.jsx:31-67 | Right after a template is chosen, submitting with any model of the modality sends a request. |
| ImprovedForm.FailureTextCases | frontend/src/components/ImprovedPromptForm.jsx:73-79 | An `APIError` message is shown verbatim; any other failure shows the fixed text. |
| ImprovedForm.ImprovedPromptForm.constructor | frontend/src/components/ImprovedPromptForm.jsx:11-21 | On mount: empty form, no model, no template, result `""`, not loading. |
| ImprovedForm.ImprovedPromptForm.ChangeModality | frontend/src/components/ImprovedPromptForm.jsx:16-21 | A new modality clears the form, model, template and result, and leaves `loading` as it was. |
| ImprovedForm.ImprovedPromptForm.SelectModel | frontend/src/components/ImprovedPromptForm.jsx:199 | Only the model changes. |
| ImprovedForm.ImprovedPromptForm.HandleChange | frontend/src/components/ImprovedPromptForm.jsx:23-29 | One key gets the input's text; every other key and every other state field is kept. |
| ImprovedForm.ImprovedPromptForm.HandleTemplateSelect | frontend/src/components/ImprovedPromptForm.jsx:31-39 | The key is always recorded. A non-empty known key replaces the form wholesale, and any other key keeps it. |
| ImprovedForm.ImprovedPromptForm.BeginSubmit | frontend/src/components/ImprovedPromptForm.jsx:41-67 | The gate is the one `SubmitGate` specifies. A rejection is reported through `onError` and changes nothing; `loading` is set exactly when a request is sent. |
| ImprovedForm.ImprovedPromptForm.FinishSubmit | frontend/src/components/ImprovedPromptForm.jsx:68-82 | A reply sets the result and reports success. A failure reports its text and keeps the result. `loading` is cleared either way. |
| LegacyForm.CheckRequired | frontend/src/components/PromptForm.jsx:38-42 | The loop pushes one raw-named message per falsy field, in list order. |
| LegacyForm.Validate | frontend/src/components/PromptForm.jsx:31-55 | The local validator returns exactly `LegacyValidation` over the shared rule table. |
| LegacyForm.LegacyErrorsAreMessages | frontend/src/components/PromptForm.jsx:38-52 | One loop's messages are one message per falsy field, in list order. |
| LegacyForm.LegacyOrder | frontend/src/components/PromptForm.jsx:38-52 | Raw-named messages: the missing common fields plain, then the missing model fields with " for <model>". |
| LegacyForm.LegacyUnknownModality | frontend/src/components/PromptForm.jsx:34-35 | An unknown modality yields no message. |
| LegacyForm.LegacyMissingImpliesMissing | frontend/src/components/PromptForm.jsx:39 | A value missing for the local check is missing for the shared validator too. |
| LegacyForm.MissingDifference | frontend/src/components/PromptForm.jsx:39 | The two missing-value checks differ exactly on non-empty whitespace-only strings. |
| LegacyForm.LegacyReportedWithin | frontend/src/components/PromptForm.jsx:38-52 | The local report is the shared validator's report with the blank strings dropped. |
| LegacyForm.LegacyNoDurationCheck | frontend/src/components/PromptForm.jsx:31-55 | There is no duration check: one message per reported field. |
| LegacyForm.LegacyModelsHaveRules | frontend/src/components/PromptForm.jsx:5-9 | The component's own model lists cover the same modalities, and each listed model has a rule entry. |
| LegacyForm.LegacySendIffValid | frontend/src/components/PromptForm.jsx:58-68 | A request goes out exactly when a model is chosen and the local validator returns no message. |
| LegacyForm.LegacyPayloadFields | frontend/src/components/PromptForm.jsx:73-82 | The payload keeps the form keys and sets `modality`. It always sets `goal` to `"user defined"`, and sets `subject` to the form's truthy subject or else `""`. |
| LegacyForm.LegacyResultCases | frontend/src/components/PromptForm.jsx:84-86 | A non-empty prompt is shown, otherwise the reply's error field. A thrown call shows `"Failed to generate prompt"`. |
| LegacyForm.PromptForm.constructor | frontend/src/components/PromptForm.jsx:12-21 | On mount: empty form, no model, result `""`, not loading. |
| LegacyForm.PromptForm.ChangeModality | frontend/src/components/PromptForm.jsx:17-21 | A new modality clears the form, model and result, and leaves `loading` as it was. |
| LegacyForm.PromptForm.SelectModel | frontend/src/components/PromptForm.jsx:177 | Only the model changes. |
| LegacyForm.PromptForm.HandleChange | frontend/src/components/PromptForm.jsx:23-28 | Only `form[name]` changes. |
| LegacyForm.PromptForm.BeginSubmit | frontend/src/components/PromptForm.jsx:58-82 | The gate is the one `LegacySubmitGate` specifies, and `loading` is set exactly when a request is sent. |
| LegacyForm.PromptForm.FinishSubmit | frontend/src/components/PromptForm.jsx:84-89 | The result is the one `LegacyResult` selects, and `loading` is cleared either way. |
| HistoryView.FilteredMembers | frontend/src/components/History.jsx:18-23 | An entry is shown exactly when it is in the history and passes both filters; the shown list is an order-preserving sublist. |
| HistoryView.NoFilterShowsAll | frontend/src/components/History.jsx:18-23 | With favourites off and `"all"`, the whole history is shown. |
| HistoryView.FavoritesToggleIsFavorites | frontend/src/components/History.jsx:18-23 | The favourites toggle alone shows the store's favourites view. |
| HistoryView.FiltersCommute | frontend/src/components/History.jsx:18-23 | The favourites and modality filters, applied one after the other in either order, give the combined filter. |
| HistoryView.Bucket | frontend/src/components/History.jsx:29-37 | The five labels partition the differences: under a minute, under an hour, under a day, under a week, and the rest. Each number shown is the floor of the difference in its unit, and it lies in range. |
| HistoryView.FutureIsJustNow | frontend/src/components/History.jsx:33 | A negative difference reads `"Just now"`. |
| HistoryView.LabelNumber | frontend/src/components/History.jsx:29-36 | The number at the start of a relative label reads back as the floor of the difference in its unit. |

## Left out

- `api.js` transport (`fetch`, `response.json`, the base URL, headers) is not modelled. The call is a parameter: a reply with `prompt` and `error`, or a thrown failure. `Api.HttpFailure` and `Api.TransportFailure` give only the failure values the client builds.
- Api.HttpFailure covers only a non-2xx reply whose body parses as a JSON object. The body is parsed before the status is tested, so a non-2xx reply whose body is not JSON (or is JSON `null`) leaves through the transport branch instead: status 0 and the parse error's message, as `Api.TransportFailure` describes.
- Toast.jsx timers (`setTimeout` and `clearTimeout`) are foreign browser calls. Only the rule "auto-close is scheduled exactly when the duration is positive" is kept, as `Toasts.AutoCloses`.
- The result boxes are not modelled. They do clipboard writes, Blob downloads, `JSON.stringify` and file names from `Date.now()`, all of which are browser calls.
- ModernPromptForm.jsx and `ModernHistory.jsx` repeat the modelled logic and are covered by the same models, with two differences that are not modelled. The modern reset leaves the result alone, and its required asterisk follows `field.required` rather than `isFieldRequired`.
- ImprovedApp.jsx, `App.js` and the modality selectors are wiring and rendering. `handleGenerateSuccess` is never wired; such a success only shows a toast, so nothing here claims that a saved history entry records the generating model or inputs.
- `renderField` and all JSX rendering are left out, because they only build markup.
- Keys inherited from `Object.prototype` (a modality named `constructor`, say) are not modelled. The maps hold only their own keys.
- Form values other than strings and integers (booleans, `null`, fractional numbers, arrays) are not modelled. Inputs give strings, and the templates give integers.
- Validation.ToUpper upper-cases ASCII letters only. The field names in the tables are ASCII; full Unicode case mapping is not modelled.
- `parseInt` is modelled on its radix-10 leading-integer subset: whitespace, an optional `+` or `-` sign, then digits. Numbers beyond integers are not modelled.
- JsValues.IntToString prints every integer in full. `String(n)` switches to exponent notation when the absolute value of n is 1e21 or more, which matters only for form values and clock readings of that size.
- HistoryView.FormatDate takes `date.toLocaleDateString()` as a parameter, because it depends on the locale. An invalid timestamp, whose difference is `NaN`, is not modelled.
- History.HistoryStore.AddToHistory: `Date.now()` and `toISOString()` are parameters. Ids can collide within one millisecond, so no uniqueness of history ids is claimed.
- History.HistoryEntry keeps the caller's fields as a nested item. The source spreads them into the entry, where the assigned `id`, `timestamp` and `favorite` win over caller keys of the same name. The model keeps those three as separate fields, so the winner is the same.
- LocalStorage.StoredCell.SetValue applies an updater to the current value. The source applies it to the value captured at the last render, which differs only when two updates happen in one render; no handler here does that.
- LocalStorage.LoadResult stands for `getItem` followed by `JSON.parse`. A stored value of another shape than the state, and an updater that throws, are not modelled.
- LocalStorage.StoredCell.SetValue: a failure of `JSON.stringify` is reported the same way as a failed `setItem`, by `writeOk` being false. The `console.error` logging is left out.
- ImprovedForm.ErrorsJoined states the joined text through `Seqs.Join`, and spells it out only for the single-message case.
