# Citizen-report wizard: a Dafny model of `docker/frontend-app.js`

The front end walks a user through a report: home, photo, description,
location, confirmation and success views. It collects a draft (`reportData`:
photo file, decoded data URL, description, location) and sends it to the
backend. This project models what sits under the page wiring:

- the wizard state as the fields of one class, `Wizard.App`. These are the
  current view, the draft, whether the Leaflet map exists, the marker and the
  markers on the map, the location method, the disabled flags of the four gated
  buttons, the loading indicator and the confirmation modal with its attached
  listeners;
- each handler as a method whose frame (`modifies this`field`) names exactly
  the fields it may change. Its `ensures` state their new values. All methods
  keep one object invariant, `Valid()`, which ties the gated buttons to the draft;
- every asynchronous step split in two: the handler starts it and a second
  method is the callback that completes it. The file reader's `onload`, the
  geolocation callbacks and the settling of `fetch` are the second halves. A
  counter or flag records what is outstanding, and a callback method requires
  that its request was started;
- `escapeHtml` as a pure chain of five global replacements, with the
  properties it guarantees.

Module layout: `Strings` (`startsWith`), `Html` (`escapeHtml`), `Report` (the
draft and the photo checks), `Wizard` (views, messages and the `App` class),
`Scenarios` (a two-report session that shows the finding below).

Modelling choices:

- Environment facts become parameters. Whether `navigator.geolocation` exists
  is a constructor argument. The chosen file, the data URL, the click and fix
  coordinates, the geolocation error code and the outcome of the request are
  method arguments.
- A click on a disabled button is not delivered by the browser. So
  `PressNextPhoto`, `PressNextDescription`, `PressNextLocation` and
  `PressSubmit` do nothing while their button is disabled, and the next buttons
  are the only way forward. On the page each next button sits in its own view
  (lines 43, 48, 55), so it can only be clicked there; the model's `Press*`
  methods can be called from any view and so allow more traces than the page
  does. No proved property relies on which view is showing. The back buttons and "go home" (lines 47, 54, 58,
  63) call `showView` directly, modelled by `ShowView`, with no guard.
- The `setTimeout(initializeMap, 100)` of `showView` is taken as immediate.
  `initializeMap` returns at once when a map exists, so the delay changes
  nothing the model keeps.
- The initial markup is not part of this model. The constructor assumes what
  the code relies on: the three next buttons disabled, submit enabled, loading
  indicator and modal hidden.
- `showConfirmModal` is generic. Every call that has not been resolved keeps
  one entry in `modalSessions`, which stands for its three listener
  registrations. A confirm or cancel click fires the matching listener of every
  open call; each listener detaches its own three, so none are left afterwards.
  The ghost field `confirmed` records each `onConfirm` that ran.

The model follows the code, including where one might expect otherwise:
A confirmed cancel only shows the home view and keeps the draft. A successful
submission keeps the draft. The description gate is `length < 10` on the
untrimmed text. There is no separate submit gate: submitting with no location
throws inside `handleSubmit` before any request. No status code gets special
treatment, and coordinates are not range-checked. Late callbacks are not
guarded: a fix or a file read that completes after `startNewReport` lands in
the new draft, and an ok response that arrives after the user navigated away
still shows the success view.

## Model

| member | source | states |
|---|---|---|
| `Html.EscapeHtml` | docker/frontend-app.js:362-369 | the escaped text contains none of `<`, `>`, `"`, `'` |
| `Html.EscapeHtmlKeepsPlainText` | docker/frontend-app.js:362-369 | a text with none of `&`, `<`, `>`, `"`, `'` is returned unchanged |
| `Html.EscapeHtmlConcat` | docker/frontend-app.js:362-369 | escaping a concatenation is the concatenation of the escaped parts |
| `Html.EscapeHtmlOfChar` | docker/frontend-app.js:362-369 | on one character the chain yields exactly that character's entity; because `&` goes first, the `&` of a later entity is not escaped again |
| `Html.EscapeHtmlIsPerChar` | docker/frontend-app.js:362-369 | the chain of five replacements equals the character-by-character reference `EscapeEach` |
| `Html.UnescapeEscapeHtml` | docker/frontend-app.js:362-369 | decoding the five entities gives back the original text, for every input |
| `Html.EscapeHtmlInjective` | docker/frontend-app.js:362-369 | two different texts never escape to the same text |
| `Html.EscapeChar` | docker/frontend-app.js:364-368 | a character maps to itself exactly when it is not one of the five special characters |
| `Html.ReplaceAll` | docker/frontend-app.js:364-368 | a literal one-character global `replace` whose replacement holds no `$` pattern: every occurrence is replaced, so the length grows by the replacement's length minus one per occurrence |
| `Strings.StartsWith` | docker/frontend-app.js:172 | `s.startsWith(p)` holds exactly when `s` is `p` followed by some text |
| `Html.ReplaceAllConcat` | docker/frontend-app.js:364 | a global one-character `replace` distributes over concatenation |
| `Html.ReplaceAllAbsent` | docker/frontend-app.js:364 | a global `replace` of a character the text does not hold changes nothing |
| `Html.ReplaceAllLeavesOut` | docker/frontend-app.js:364 | after a global `replace`, the replaced character, and any character absent before, is absent unless the replacement holds it |
| `Report.CheckPhoto` | docker/frontend-app.js:167-181 | no file, then a media type not starting with `image/`, then a size over 10485760 bytes reject, in that order; exactly 10 MB is accepted |
| `Wizard.GeolocationErrorMessage` | docker/frontend-app.js:288-300 | the message always starts with the fixed prefix; each of the three error codes adds its own reason; any other code adds nothing |
| `Wizard.ResponseErrorMessage` | docker/frontend-app.js:344-346 | the thrown message is the body's `error` when non-empty, the default text when absent or empty, the parse error when the body is not JSON |
| `Wizard.RemoveLayer` | docker/frontend-app.js:242-244 | removing a marker takes one copy of it off the map and leaves every other layer there (as multisets); removing an absent one changes nothing |
| `Wizard.RemoveLayerRemovesFirst` | docker/frontend-app.js:242-244 | the copy removed is the first one, and the remaining layers keep their order |
| `Wizard.App.constructor` | docker/frontend-app.js:7-25 | the initial state: home view, empty draft, no map or marker, method `auto`, and it satisfies `Valid()` |
| `Wizard.App.ShowView` | docker/frontend-app.js:100-121 | the view becomes the target; entering the location view creates the map if there is none; nothing else changes |
| `Wizard.App.InitializeMap` | docker/frontend-app.js:227-238 | afterwards a map exists; when one existed nothing changes |
| `Wizard.App.MapClick` | docker/frontend-app.js:241-259 | exactly one marker, at the click, is on the map; the location is the click; the next button is enabled; photo and description are kept |
| `Wizard.App.StartNewReport` | docker/frontend-app.js:123-154 | the draft is `{null, null, '', null}`, the three next buttons are disabled, no marker is left on the map, the view is the photo view; map, method and submit button are left alone |
| `Wizard.App.CancelReport` | docker/frontend-app.js:156-164 | only opens a confirmation whose action is "go home"; the draft is not touched |
| `Wizard.App.ShowConfirmModal` | docker/frontend-app.js:372-417 | the modal shows and one more set of three listeners is attached |
| `Wizard.App.ModalConfirm` | docker/frontend-app.js:387-391 | the modal hides, each pending `onConfirm` runs once (so the view becomes home), no listener is left |
| `Wizard.App.ModalCancel` | docker/frontend-app.js:394-397 | the modal hides, no `onConfirm` runs, no listener is left |
| `Wizard.App.ModalOverlayClick` | docker/frontend-app.js:400-404 | a click cancels only when its target is the modal itself; otherwise nothing changes |
| `Wizard.App.HandlePhotoSelect` | docker/frontend-app.js:167-194 | a rejected selection leaves the draft alone; an accepted one sets `photo` at once and starts a read; the next button never changes here |
| `Wizard.App.PhotoDecoded` | docker/frontend-app.js:187-193 | the read's data URL is stored and the photo step's next button is enabled; nothing else in the draft changes |
| `Wizard.App.HandleDescriptionInput` | docker/frontend-app.js:198-207 | the text is stored verbatim; the next button is disabled exactly when the text is shorter than 10 |
| `Wizard.App.SwitchLocationMethod` | docker/frontend-app.js:210-225 | only the method changes, plus creating the map when switching to it; the location is never touched |
| `Wizard.App.GetCurrentLocation` | docker/frontend-app.js:262-274 | unsupported: status says so and nothing else changes; supported: status "locating" and a query starts |
| `Wizard.App.GeolocationSucceeded` | docker/frontend-app.js:275-287 | the location is the fix and the next button is enabled |
| `Wizard.App.GeolocationFailed` | docker/frontend-app.js:288-304 | only the status line changes: location and next button are left alone |
| `Wizard.App.PressNextPhoto` | docker/frontend-app.js:43 | moves to the description view only when enabled, so only with a decoded photo |
| `Wizard.App.PressNextDescription` | docker/frontend-app.js:48 | moves to the location view only when enabled, so only with at least 10 characters |
| `Wizard.App.PressNextLocation` | docker/frontend-app.js:55 | moves to the confirmation view only when enabled, so only with a location |
| `Wizard.App.PressSubmit` | docker/frontend-app.js:59 | a disabled submit does nothing; otherwise `handleSubmit` runs |
| `Wizard.App.HandleSubmit` | docker/frontend-app.js:325-342 | submit disabled and loading shown while the request is out; with no location the attempt fails at once with submit re-enabled and loading hidden |
| `Wizard.App.SubmitSettled` | docker/frontend-app.js:344-358 | loading ends hidden on every path; success shows the success view and keeps submit disabled; a rejection or a non-ok response re-enables submit, keeps the view and reports the message; the draft is never cleared |
| `Wizard.App.SubmitSettledCorrected` | docker/frontend-app.js:352-358 | as `SubmitSettled`, but every settled attempt leaves submit enabled |
| `Scenarios.FillInReport` | docker/frontend-app.js:123-259 | a photo, a description and a map pin lead to the confirmation view with a location, submit untouched |
| `Scenarios.SecondReportIsNeverSent` | docker/frontend-app.js:349-358 | after one accepted report, pressing submit on the next report sends nothing |
| `Scenarios.SecondReportIsSentWhenCorrected` | docker/frontend-app.js:355-357 | with the corrected settle, the next report's request goes out |

## Findings

| source | as written | input that shows it | evidently intended | confidence | as-written member | corrected member |
|---|---|---|---|---|---|---|
| docker/frontend-app.js:349-358 | the success path leaves `btnSubmit.disabled` true, and `startNewReport` (lines 123-154) never clears it | start a report, add photo, description and map pin, submit, get an ok response, press "new report", fill it in again, press submit | every settled attempt leaves submit usable, so a second report of the same page session can be sent | medium, not executed | `Scenarios.SecondReportIsNeverSent` | `Wizard.App.SubmitSettledCorrected` (see `Scenarios.SecondReportIsSentWhenCorrected`) |

## Left out

- `API_URL` resolution from `window.location` (lines 2-4): environment configuration.
- The install prompt and the service-worker registration (lines 65-96): platform I/O.
- `alert`, `console`, `scrollTo`, the style and class toggles, the preview image, the character counter and the textarea's own value: page presentation only.
- The login and take/retake photo buttons (lines 30-41): they only show an alert or open the file picker.
- Leaflet rendering, the tile layer, the default centre and zoom, and the `toFixed(6)` coordinate text: a third-party library and float formatting. Status lines keep the coordinates themselves.
- `populateConfirmationView` (lines 309-322): it writes only page text. When the location is null it throws, but only after `currentView` is set, so no modelled state differs.
- The modal's title and message text (lines 380-381): page text.
- `FileReader` decoding, `FormData` encoding, `fetch` and `response.json()`: the data URL, the request outcome and the parsed error body are arguments. A reader error has no handler in the source, so it changes no state. A JSON body of `null` and a non-string `error` field are not modelled.
- The geolocation service and its timing: the fix or the error code is an argument.
- Wizard.App.HandleDescriptionInput: the length is counted in Unicode scalar values. JavaScript's `length` counts UTF-16 code units, so for text outside the Basic Multilingual Plane the model's threshold is reached later than the browser's.
