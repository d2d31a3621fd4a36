# Clinic admin console: a Dafny model of its page controllers and forms

The console is a browser front end for a clinic's REST service. Staff list,
create and delete patients, and list, create, delete and re-status
appointments. The service owns all data. The console keeps a fetched copy of
each list, filters it on the client, and reloads it after every change. This
project models in Dafny the parts of the console that hold logic:

- the request and response records and the four-value appointment status (`Types`);
- the client-side list filters of the two pages (`Filtering`, `Text`, and the
  filter functions of `PatientsPage` and `AppointmentsPage`);
- the pages' `{list, loading, error}` record and the handlers that change it:
  `load`, `handleSubmit`, `handleDelete`, `handleStatusChange`
  (`ListController`, `PatientsPage`, `AppointmentsPage`);
- the draft held by the two forms: the initial draft, `handleChange`, the
  `editing` sync effect and the reset after submit (`PatientForm`, `AppointmentForm`).

Every remote call is an input, not an action. Its settled outcome is a
`Remote<T>`: either `Ok(body)`, or `Err(message)`, where `message` is the
rejected value's `message` property (`None` when it has none). A handler is a
pure function from the page state and these outcomes to a `Step`. A `Step`
holds the new state and the list of remote calls the handler made, in order.
The "reload only on success" and "exactly two list fetches" properties are
stated about that call list.

Modelling choices:

- `toLowerCase` is ASCII lower-casing: `A`–`Z` map to `a`–`z`, and every other
  character is left alone.
- `includes` is `Text.Contains`. `Text.ContainsIffOccurs` proves it equal to
  "occurs at some offset".
- `e.message || fallback` is `ListController.ErrorText`. A missing or empty
  message gives the fixed fallback text.
- A form's `handleChange` takes one of the form's inputs (a `Field`), not an
  arbitrary `name` string. Each input's `name` attribute is one of the draft's
  keys.
- `Number(value)` is `Text.ToNumber`. It reads `""` as 0, and an optional `-`
  followed by decimal digits as that integer.

The Patients page in the source has only the name/e-mail filter variant. It
never passes an `editing` record to its form, so the edit path exists only in
`PatientForm` itself. A form resets its draft only after `onSubmit` resolved;
`PatientForm.Submit` and `AppointmentForm.Submit` take that as a `resolved`
flag and keep the draft when it is false. The pages' `handleSubmit` catches
every failure, so it always resolves; `PatientsPage.SubmitForm` and
`AppointmentsPage.SubmitForm` pass `true` and prove that the draft is reset
even when the create failed.

## Model

| member | source | states |
|---|---|---|
| `Types.StoredPatient` | src/types/index.ts:2-17 | a stored patient carries the request's five fields unchanged plus the server id |
| `Types.PatientIsRequestPlusId` | src/types/index.ts:10-17 | every patient response is exactly some request plus its id |
| `Types.PatientJson` | src/types/index.ts:2-8 | firstName, lastName and email are always sent; phone and dateOfBirth are sent exactly when they hold a value; no other member is sent |
| `Types.ParseStatus` | src/types/index.ts:25-29 | a string is a status exactly when it is one of the four wire names, and the status read back spells that name |
| `Types.ExactlyFourStatuses` | src/types/index.ts:25-29 | the status type has exactly four values (SCHEDULED, COMPLETED, CANCELLED, NO_SHOW) with distinct names, and each name reads back as its status |
| `Types.StoredAppointment` | src/types/index.ts:19-37 | a stored appointment carries the request's three fields unchanged plus the id and the given status |
| `Types.AppointmentIsRequestPlusIdAndStatus` | src/types/index.ts:31-37 | every appointment response is exactly some request plus an id and a status |
| `Text.Lower` | src/pages/PatientsPage.tsx:59-64 | lower-casing keeps the length and maps each character to its lower-case form |
| `Text.LowerIdempotent` | src/pages/PatientsPage.tsx:59-64 | lower-casing an already lower-cased string changes nothing |
| `Text.ContainsIffOccurs` | src/pages/PatientsPage.tsx:64 | `includes` holds exactly when the searched text occurs at some offset |
| `Text.LowerPreservesContains` | src/pages/PatientsPage.tsx:59-64 | an occurrence stays an occurrence after both sides are lower-cased |
| `Text.ToNumberOfDecimal` | src/components/AppointmentForm.tsx:24 | reading back the decimal spelling of a number, with or without a minus sign, gives that number |
| `Text.LeadingZeroIgnored` | src/components/AppointmentForm.tsx:24 | leading zeros do not change the number read |
| `Filtering.Filter` | src/pages/PatientsPage.tsx:58-66 | the filtered list is a subsequence of the input (nothing added or reordered), holds only accepted elements, and holds every accepted element |
| `Filtering.FilterMultiplicity` | src/pages/PatientsPage.tsx:58-66 | every accepted value is kept as often as it occurs in the list, and no rejected value is kept |
| `Filtering.FilterKeepsAll` | src/pages/PatientsPage.tsx:58-66 | a filter that rejects nothing returns the list unchanged |
| `Filtering.FilterIdempotent` | src/pages/PatientsPage.tsx:58-66 | filtering an already filtered list with the same predicate changes nothing |
| `Filtering.FilterCongruent` | src/pages/PatientsPage.tsx:58-66 | two predicates that agree on the list's elements filter it identically |
| `Filtering.FilterAnd` | src/pages/PatientsPage.tsx:58-66 | filtering by p and then by q equals filtering by p AND q |
| `ListController.ErrorText` | src/pages/PatientsPage.tsx:29 | the banner text is the failure's message unless it is missing or empty, otherwise the fallback; with a non-empty fallback it is never empty |
| `ListController.Banner` | src/pages/PatientsPage.tsx:71 | the banner (the same line is AppointmentsPage.tsx:90) is absent exactly when the error is null or empty, and otherwise shows the error; on a settled page it shows exactly the error |
| `ListController.StartLoad` | src/pages/PatientsPage.tsx:22-24 | a load starts with loading on and the error cleared, and the list kept |
| `ListController.Load` | src/pages/PatientsPage.tsx:22-33 | after a load, loading is off; on success the list is exactly the fetched data and there is no error; on failure the list is unchanged and the error is the message or fallback |
| `ListController.Mutate` | src/pages/PatientsPage.tsx:39-46 | a successful call is followed by a full load; a failed call only sets the error, leaving list and loading unchanged; settledness is preserved |
| `PatientsPage.FilterPatients` | src/pages/PatientsPage.tsx:58-66 | a patient is shown iff lower("first last") includes the lower-cased name filter AND lower(email) includes the lower-cased e-mail filter; the result is a subsequence of the list, and each shown patient appears as often as in the loaded list |
| `PatientsPage.NoFilterShowsAll` | src/pages/PatientsPage.tsx:60-64 | with both filters empty every loaded patient is shown, in order |
| `PatientsPage.FilterIgnoresCase` | src/pages/PatientsPage.tsx:61-64 | filters differing only in letter case show the same patients |
| `PatientsPage.FilterPatientsIdempotent` | src/pages/PatientsPage.tsx:58-66 | re-filtering the shown list with the same filters changes nothing |
| `PatientsPage.FiltersCombineByAnd` | src/pages/PatientsPage.tsx:65 | the name filter followed by the e-mail filter equals both at once |
| `PatientsPage.Load` | src/pages/PatientsPage.tsx:22-33 | one list fetch; the list becomes the fetched data or stays with the error "Failed to load patients" fallback; loading ends off; filters untouched |
| `PatientsPage.HandleSubmit` | src/pages/PatientsPage.tsx:39-46 | the create carries the given request; a reload follows only a successful create; a failed create sets the message or "Failed to save patient" and leaves list and loading alone |
| `PatientsPage.HandleDelete` | src/pages/PatientsPage.tsx:48-55 | the delete carries the given id; a reload follows only a successful delete; a failure sets the message or "Failed to delete patient" and leaves the list alone |
| `PatientsPage.SubmitForm` | src/pages/PatientsPage.tsx:92 | the form's draft is what the create carries, and the form is blanked afterwards even if the create failed |
| `PatientsPage.CreateAfterMountFetchesTwice` | src/pages/PatientsPage.test.tsx:121-128 | mounting and then creating successfully fetches the list exactly twice and creates with the submitted request |
| `PatientsPage.FailedMountShowsError` | src/pages/PatientsPage.test.tsx:131-139 | a failed first load shows its message (or the fallback) in the banner and no rows |
| `PatientsPage.Visible` | src/pages/PatientsPage.tsx:94-98 | while loading no rows are shown; otherwise the rows are the filtered list |
| `PatientsPage.Mount` | src/pages/PatientsPage.tsx:35-37 | mounting fetches the list once; it then holds the fetched patients, or is empty under the message or "Failed to load patients" |
| `PatientsPage.RunStaysSettled` | src/pages/PatientsPage.tsx:22-55 | from a settled page, any sequence of load, submit and delete runs ends with loading off and no blank error |
| `PatientsPage.FromInitialStaysSettled` | src/pages/PatientsPage.tsx:16-18 | starting from the page's initial state, any sequence of handler runs stays settled |
| `PatientsPage.JaneSmithExample` | src/pages/PatientsPage.test.tsx:141-159 | on the test's two patients, "Jane" with "smith" keeps only Jane Smith |
| `AppointmentsPage.StatusOptionsAreStatuses` | src/pages/AppointmentsPage.tsx:108-114 | the status selector offers five options: All (the empty filter, which restricts nothing) first, then the four status names once each, in declaration order |
| `AppointmentsPage.FilterAppointments` | src/pages/AppointmentsPage.tsx:80-85 | an appointment is shown iff lower(reason) includes the lower-cased reason filter AND (the status filter is empty or equals its status name exactly); the result is a subsequence of the list, and each shown appointment appears as often as in the loaded list |
| `AppointmentsPage.NoFilterShowsAll` | src/pages/AppointmentsPage.tsx:81-83 | with empty reason and status filters every loaded appointment is shown, in order |
| `AppointmentsPage.ReasonFilterIgnoresCase` | src/pages/AppointmentsPage.tsx:82 | reason filters differing only in letter case show the same appointments |
| `AppointmentsPage.FilterAppointmentsIdempotent` | src/pages/AppointmentsPage.tsx:80-85 | re-filtering the shown list with the same filters changes nothing |
| `AppointmentsPage.FiltersCombineByAnd` | src/pages/AppointmentsPage.tsx:84 | the status filter followed by the reason filter equals both at once |
| `AppointmentsPage.ClearingReasonRestores` | src/pages/AppointmentsPage.test.tsx:190-212 | with the reason cleared every loaded appointment matching the status filter is shown, and any reason filter shows a subsequence of that |
| `AppointmentsPage.StatusFilterSelectsStatus` | src/pages/AppointmentsPage.tsx:83 | selecting a status name shows exactly the appointments in that status |
| `AppointmentsPage.UnknownStatusShowsNothing` | src/pages/AppointmentsPage.tsx:83 | a non-empty status filter that spells no status shows nothing (the comparison is exact) |
| `AppointmentsPage.Visible` | src/pages/AppointmentsPage.tsx:119-127 | while loading no rows are shown; otherwise the rows are the filtered list |
| `AppointmentsPage.Mount` | src/pages/AppointmentsPage.tsx:49-51 | mounting fetches the list once; it then holds the fetched appointments, or is empty under the message or "Failed to load appointments" |
| `AppointmentsPage.Load` | src/pages/AppointmentsPage.tsx:36-47 | one list fetch; the list becomes the fetched data or stays with the "Failed to load appointments" fallback; loading ends off |
| `AppointmentsPage.HandleSubmit` | src/pages/AppointmentsPage.tsx:53-60 | the create carries the given request; a reload follows only a successful create; a failure sets the message or "Failed to create appointment" and leaves list and loading alone |
| `AppointmentsPage.HandleDelete` | src/pages/AppointmentsPage.tsx:62-69 | the delete carries the given id; a reload follows only success; a failure sets the message or "Failed to delete appointment" |
| `AppointmentsPage.HandleStatusChange` | src/pages/AppointmentsPage.tsx:71-78 | the update carries exactly the given id and status; a reload follows only success; a failure sets the message or "Failed to update status" and leaves the list alone |
| `AppointmentsPage.SubmitForm` | src/pages/AppointmentsPage.tsx:117 | the form's draft is what the create carries, and the form returns to patient 0 with empty texts even if the create failed |
| `AppointmentsPage.CreateAfterMountFetchesTwice` | src/pages/AppointmentsPage.test.tsx:145-152 | mounting and then creating successfully fetches the list exactly twice |
| `AppointmentsPage.FailedMountShowsError` | src/pages/AppointmentsPage.test.tsx:155-163 | a failed first load shows its message (or the fallback) in the banner and no rows |
| `AppointmentsPage.VisitCompletedExample` | src/pages/AppointmentsPage.test.tsx:165-188 | on the test's three appointments, "visit" with COMPLETED keeps only the follow-up visit |
| `PatientForm.BlankDraft` | src/components/PatientForm.tsx:11-15 | the initial draft sends empty firstName, lastName and email and no phone or dateOfBirth |
| `PatientForm.FieldKeyInJson` | src/types/index.ts:2-8 | an input's key is sent exactly when the input holds a value, and carries that value |
| `PatientForm.HandleChange` | src/components/PatientForm.tsx:24-27 | the named input takes the typed value; every other input keeps its value |
| `PatientForm.DraftDeterminedByFields` | src/components/PatientForm.tsx:24-27 | a draft is determined by the values of its five inputs |
| `PatientForm.LastEditWins` | src/components/PatientForm.tsx:24-27 | after any run of change events each input holds the last value typed into it, or its earlier value if untouched |
| `PatientForm.SyncEditing` | src/components/PatientForm.tsx:17-22 | with a record being edited the draft is exactly its five fields (adding back its id gives the record); with none the draft is left as is |
| `PatientForm.Submit` | src/components/PatientForm.tsx:29-33 | the draft is handed over unchanged; once `onSubmit` resolved it is blanked when not editing and kept when editing; when `onSubmit` rejects it is kept |
| `PatientForm.RequiredOnlyCreate` | src/components/PatientForm.tsx:11-32 | a create where only required inputs were typed into sends exactly firstName, lastName and email, each the last value typed |
| `PatientForm.CreateBobJohnson` | src/pages/PatientsPage.test.tsx:122-126 | typing Bob, Johnson and bob@example.com and submitting sends exactly those three fields |
| `AppointmentForm.Initial` | src/components/AppointmentForm.tsx:14-18 | the initial draft is patient `defaultPatientId` (0 when absent) with empty date-time and reason |
| `AppointmentForm.HandleChange` | src/components/AppointmentForm.tsx:20-26 | the patient id input stores the number read from the text, the others the raw text; every other input keeps its value |
| `AppointmentForm.DraftDeterminedByFields` | src/components/AppointmentForm.tsx:20-26 | a draft is determined by the values of its three inputs |
| `AppointmentForm.PatientIdTypedBack` | src/components/AppointmentForm.tsx:24 | typing a number's decimal spelling into the patient id stores that number |
| `AppointmentForm.TypingAfterInitialZero` | src/components/AppointmentForm.tsx:24 | typing digits after the initial 0 stores the typed number |
| `AppointmentForm.Submit` | src/components/AppointmentForm.tsx:28-36 | the draft is handed over unchanged; once `onSubmit` resolved the form returns to its initial draft; when `onSubmit` rejects the draft is kept |
| `AppointmentForm.CreateForPatientThree` | src/pages/AppointmentsPage.test.tsx:133-150 | typing 3, a date-time and a reason and submitting sends exactly that request and resets the form |

## Left out

- The HTTP layer (`src/api/http.ts`, `src/api/patients.ts`, `src/api/appointments.ts`) is not modelled. Each call appears only as its settled outcome (`Remote<T>`) and as an entry in a handler's call list.
- Overlapping handlers are not modelled. Each handler is one atomic transition, so the race in which an older `load` response overwrites a newer one cannot be expressed. Neither can a failed mutation arriving while a load is in flight.
- Rendering is not modelled: list tables, date formatting, status labels, layout and routes (`AppointmentList.tsx`, `PatientList.tsx`, `Layout.tsx`, `router.tsx`). Only the rows handed to the list and the banner text are modelled, as the pages' `Visible` and `ListController.Banner`.
- The filter inputs' `onChange` setters are not modelled as handlers. They only assign the filter text in the page state.
- Text.Lower: covers ASCII letters only; JavaScript's full Unicode case mapping is not modelled.
- Text.ToNumber: models `Number(value)` only for "" and optionally signed decimal digit strings. Other text (fractions, exponents, surrounding blanks, or anything JavaScript would turn into NaN) reads as 0 here, because the model's numbers are integers. Digit strings above 2^53 read exactly here, while JavaScript rounds them to the nearest double (`Number("9007199254740993")` is 9007199254740992), so `Text.ToNumberOfDecimal` and `AppointmentForm.PatientIdTypedBack` hold here for every integer but in JavaScript only up to 2^53.
- PatientForm.HandleChange: takes one of the five inputs rather than an arbitrary `name`. With an unknown name, JavaScript would add an extra key to the draft. No input of the form has such a name.
- Browser form validation (`required`, `type="email"`) is not modelled. Submit is modelled as if the browser let the form through.
- Deleting a patient and then seeing one fewer row depends on what the service returns. The model only proves that the list becomes whatever the reload returns.
- `eslint.config.js` and the test files are not modelled. The tests' scenarios appear as the example lemmas above.
