# CAN onboarding dashboard — a Dafny model

This project models the client-side logic of the Coastal Adjuster Network
onboarding dashboard. The dashboard is a React front end that tracks
insurance-adjuster applicants through a fixed pipeline of statuses. The
model covers its five core components:

- **CANDashboard** holds the applicant list, the overdue count, the active
  tab and whether the application form is open. It derives six overview
  counts and a filtered card list per tab from the list. Dafny: module
  `CANDashboard`, class `Dashboard`.
- **PipelineView** groups applicants into six board columns (stages). The
  interview column takes every status that mentions "interview" plus
  `hired_inactive`. Module `PipelineView`.
- **ApplicantCard** shows one applicant:
  - the status badge, from a fixed table of eleven statuses or a humanised
    fallback label;
  - the overdue flag and the days since the application;
  - at most three specialty badges, plus a "+n more" badge.
  
  Module `ApplicantCard`.
- **AlertBar** shows an all-clear banner, or a warning, urgent or critical
  alert chosen by the overdue count. Module `AlertBar`.
- **ApplicationForm** is a five-step wizard:
  - field edits and the specialty toggle;
  - per-step validation, and Next/Previous navigation;
  - the submission record, whose initial status depends on the licence and
    bond answers.
  
  Module `ApplicationForm`, class `Wizard`.

Shared pieces:

- `Applicants` holds the applicant record and the status filters. Every
  view applies the same three kinds of filter:
  - equality with a status id;
  - `includes('interview')`;
  - the interview column's test.
- `Text` models the JavaScript string operations the components use.
- `Lists` holds order facts about `filter`.

Conventions:

- Times are integers: milliseconds since the Unix epoch.
- The current time is always a parameter (`now`).
- React state that the components update in place is a class with fields.
- Everything the components only compute is a function.

The overview's interview count and the board's interview column differ.
The count uses `status.includes('interview')`
(`src/components/CANDashboard.tsx:97`). The column also takes
`hired_inactive` (`src/components/PipelineView.tsx:68-72`).
`CANDashboard.StatsMatchBoard` proves that the five exact-match counts equal
their columns. It also proves that the interview column is the interview
count plus the number of `hired_inactive` applicants.

## Model

| member | source | states |
|---|---|---|
| Text.ToUpperAscii | src/components/ApplicantCard.tsx:102 | upper-casing maps a-z down by 32, leaves other characters alone, keeps word characters word characters and never yields a lower-case letter |
| Text.ContainsAt | src/components/CANDashboard.tsx:97 | `includes` holds exactly when the substring occurs at some offset |
| Lists.RemoveAll | src/components/ApplicationForm.tsx:94 | filtering out a value removes every copy of it, keeps every copy of every other value, and changes nothing when the value is absent |
| Lists.RemoveAllIsSubsequence | src/components/ApplicationForm.tsx:94 | the filter keeps the remaining entries in their order |
| Lists.RemoveAllAppended | src/components/ApplicationForm.tsx:93-95 | removing a value just appended to a list free of it gives the list back |
| Applicants.Select | src/components/CANDashboard.tsx:94-99 | a status filter keeps an applicant exactly when it is in the list and its status passes the test, and keeps every copy of it, so its length counts the matching entries |
| Applicants.SelectIsSubsequence | src/components/CANDashboard.tsx:225-226 | a status filter keeps the applicants in their original relative order |
| Applicants.NonInterviewStatuses | src/components/ApplicantCard.tsx:43-99 | none of the nine known statuses other than the two interview ones contains "interview" |
| Applicants.ExclusiveSelectionsBound | src/components/CANDashboard.tsx:92-102 | filters by mutually exclusive tests pick at most as many applicants in total as the list holds |
| Applicants.ExclusiveSelectionsCover | src/components/PipelineView.tsx:67-75 | with mutually exclusive tests the total equals the list's length exactly when every applicant passes one test |
| ApplicantCard.StatusTableEntry | src/components/ApplicantCard.tsx:43-99 | the table has an entry for exactly the eleven known statuses, each with its label, style and icon |
| ApplicantCard.GetStatusInfo | src/components/ApplicantCard.tsx:42-106 | a known status gets its table entry; any other gets its humanised label, the grey style and the User icon |
| ApplicantCard.FallbackStyleOnlyForUnknown | src/components/ApplicantCard.tsx:101-105 | the grey style appears exactly for statuses outside the table |
| ApplicantCard.ReplaceUnderscores | src/components/ApplicantCard.tsx:102 | every underscore becomes a space and every other character stays |
| ApplicantCard.CapitalizeWordsAt | src/components/ApplicantCard.tsx:102 | a character is upper-cased exactly when it is a word character not preceded by a word character |
| ApplicantCard.HumanizeIsFallbackLabel | src/components/ApplicantCard.tsx:102 | the two `replace` passes produce the per-character reference label |
| ApplicantCard.FallbackLabelShape | src/components/ApplicantCard.tsx:102 | the fallback label is as long as the status and contains no underscore |
| ApplicantCard.HumanizeIdempotent | src/components/ApplicantCard.tsx:102 | humanising a humanised label leaves it unchanged |
| ApplicantCard.Humanize | src/components/ApplicantCard.tsx:102 | the fallback label is as long as the status; `HumanizeIsFallbackLabel` gives its characters, `FallbackLabelShape` shows it has no underscore |
| ApplicantCard.FallbackLabelExample | src/components/ApplicantCard.tsx:101-105 | `some_unknown_status` reads "Some Unknown Status" and `constructor` reads "Constructor" |
| ApplicantCard.GetStatusInfoAsWritten | src/components/ApplicantCard.tsx:101 | the lookup as written yields no badge exactly for names inherited from `Object.prototype` |
| ApplicantCard.AsWrittenConstructorHasNoBadge | src/components/ApplicantCard.tsx:101-105 | as written, the status `constructor` gets no label or icon; corrected, it gets the grey fallback |
| ApplicantCard.AsWrittenAgreesOffInheritedNames | src/components/ApplicantCard.tsx:101-105 | off the inherited names, the corrected lookup gives the same badge as the written one |
| ApplicantCard.IsOverdue | src/components/ApplicantCard.tsx:111 | overdue exactly when a due date exists and lies strictly before `now` (no contract of its own; `OverdueStaysOverdue` and `RenderCard` state its consequences) |
| ApplicantCard.OverdueStaysOverdue | src/components/ApplicantCard.tsx:111 | an overdue applicant stays overdue as time passes; one with no due date is never overdue |
| ApplicantCard.DaysSinceApplied | src/components/ApplicantCard.tsx:112-114 | the day count is the floor of the elapsed milliseconds over a day's length |
| ApplicantCard.DaysSinceAppliedMonotone | src/components/ApplicantCard.tsx:112-114 | the day count never decreases as time passes |
| ApplicantCard.SpecialtyBadgesFor | src/components/ApplicantCard.tsx:198-211 | no badges for an absent or empty list; otherwise the first `limit` entries in order, and an overflow badge exactly when entries were cut, counting them |
| ApplicantCard.RenderCard | src/components/ApplicantCard.tsx:108-227 | the card is highlighted and carries the Overdue badge exactly when the applicant is overdue; it has a due line exactly when a due date exists, with "(Overdue)" exactly when overdue; it shows three specialties at most |
| PipelineView.StageIndex | src/components/PipelineView.tsx:27-64 | each stage has a column position on the board |
| PipelineView.PipelineStagesListEachStageOnce | src/components/PipelineView.tsx:27-64 | the board lists the six stages, each exactly once |
| PipelineView.StageApplicants | src/components/PipelineView.tsx:67-75 | the interview pipeline holds exactly the applicants whose status mentions "interview" or is `hired_inactive`; any other stage holds exactly those whose status is its id; every matching entry is kept, so the badge counts them |
| PipelineView.StageApplicantsInOrder | src/components/PipelineView.tsx:67-75 | a column keeps its applicants in list order |
| PipelineView.BoardRulesExclusive | src/components/PipelineView.tsx:67-75 | no status belongs to two stages |
| PipelineView.ColumnsDisjoint | src/components/PipelineView.tsx:67-80 | an applicant sits in at most one column |
| PipelineView.BoardTotalBounded | src/components/PipelineView.tsx:79-91 | the column badges add up to at most the number of applicants |
| PipelineView.BoardTotalCoversAll | src/components/PipelineView.tsx:79-91 | the column badges add up to the number of applicants exactly when every status belongs to some stage |
| PipelineView.OffBoardStatus | src/components/PipelineView.tsx:67-75 | `other_roles_review`, `hr_contract_pending` and `rejected` appear in no column |
| PipelineView.RenderColumn | src/components/PipelineView.tsx:79-158 | a column's badge is its number of applicants; the placeholder shows exactly when it is empty; each item shows two specialties at most |
| PipelineView.RenderBoard | src/components/PipelineView.tsx:78-79 | the board has one column per stage, in the fixed stage order |
| AlertBar.AlertSeverity | src/components/AlertBar.tsx:23-27 | critical exactly from 5, urgent exactly from 3 to 4, warning below 3 |
| AlertBar.AlertSeverityMonotone | src/components/AlertBar.tsx:23-27 | a larger count never gets a lower tier |
| AlertBar.AlertClass | src/components/AlertBar.tsx:31-35 | the `alertClasses` table (no contract of its own; `TiersDistinguishable` shows it separates the tiers) |
| AlertBar.AlertIcon | src/components/AlertBar.tsx:37-41 | the `icons` table (no contract of its own; `TiersDistinguishable` shows it separates the tiers and never uses the all-clear icon) |
| AlertBar.TiersDistinguishable | src/components/AlertBar.tsx:31-43 | distinct tiers have distinct classes and icons, and no tier uses the all-clear icon |
| AlertBar.RenderAlertBar | src/components/AlertBar.tsx:11-47 | all clear, with the CheckCircle icon, exactly when the count is 0; otherwise an alert carrying the count and its tier's class and icon |
| AlertBar.BannerMonotone | src/components/AlertBar.tsx:11-29 | the banner only grows more alarming as the count grows, and any overdue applicant raises at least a warning |
| ApplicationForm.WithField | src/components/ApplicationForm.tsx:86-88 | an edit sets the named field to the value and leaves every other field unchanged |
| ApplicationForm.ValidateStep | src/components/ApplicationForm.tsx:99-114 | a step validates exactly when every field required on its screen is non-empty; licence and bond details are required only when claimed, and step 5 or any other number always validates |
| ApplicationForm.EditKeepsOtherSteps | src/components/ApplicationForm.tsx:86-114 | editing a field cannot change whether any other step validates |
| ApplicationForm.ToggleSpecialty | src/components/ApplicationForm.tsx:90-97 | toggling flips whether the specialty is chosen, keeps every copy of every other specialty, appends a new one at the end and removes one without reordering |
| ApplicationForm.ToggleTwiceRestores | src/components/ApplicationForm.tsx:90-97 | toggling an unchosen specialty twice restores the list |
| ApplicationForm.InitialStatus | src/components/ApplicationForm.tsx:133-135 | `compliance_verification` exactly with both a licence and a bond, `other_roles_review` exactly otherwise |
| ApplicationForm.BuildSubmission | src/components/ApplicationForm.tsx:131-137 | the submission carries the form, its initial status and the creation time |
| ApplicationForm.Wizard.constructor | src/components/ApplicationForm.tsx:61-83 | the wizard starts on step 1 with the empty form |
| ApplicationForm.Wizard.HandleInputChange | src/components/ApplicationForm.tsx:86-88 | the field takes the value and the step is kept; every earlier step still validates |
| ApplicationForm.Wizard.HandleSpecialtyToggle | src/components/ApplicationForm.tsx:90-97 | only the specialty list changes, by the toggle |
| ApplicationForm.Wizard.HandleNext | src/components/ApplicationForm.tsx:116-122 | the wizard advances exactly when the current step validates, and the form is unchanged |
| ApplicationForm.Wizard.HandlePrevious | src/components/ApplicationForm.tsx:448-452 | the wizard goes back one step and the form is unchanged |
| ApplicationForm.Wizard.HandleSubmit | src/components/ApplicationForm.tsx:124-139 | the submission is built from the form, and steps 1 to 4 all validate |
| CANDashboard.GetStatusStats | src/components/CANDashboard.tsx:92-102 | no applicant is counted under two headings, so the six counts add up to at most the number of applicants |
| CANDashboard.StatRulesExclusive | src/components/CANDashboard.tsx:94-99 | no status is counted under two headings |
| CANDashboard.StatsMatchBoard | src/components/CANDashboard.tsx:92-102 | the five exact counts equal their board columns; the interview column is the interview count plus the `hired_inactive` applicants |
| CANDashboard.InterviewColumnSplits | src/components/CANDashboard.tsx:97 | the interview-or-hired filter picks the interview filter's applicants plus the `hired_inactive` ones |
| CANDashboard.TabRule | src/components/CANDashboard.tsx:223-287 | every tab except Overview and All has a status filter |
| CANDashboard.TabView | src/components/CANDashboard.tsx:219-295 | the Overview tab shows the board; All lists every applicant in order |
| CANDashboard.TabListsMatchStats | src/components/CANDashboard.tsx:223-295 | each list tab lists exactly the applicants its overview count counts, in list order, as many as the count |
| CANDashboard.OverdueApplicants | src/components/CANDashboard.tsx:85-88 | the overdue filter keeps exactly the applicants overdue at `now`, every copy of each |
| CANDashboard.OverdueCount | src/components/CANDashboard.tsx:85-89 | the overdue count is the number of positions in the list holding an applicant overdue at `now`; so it is at most the number of applicants, and zero exactly when nobody is overdue |
| CANDashboard.OverdueApplicantsInOrder | src/components/CANDashboard.tsx:86-88 | the overdue filter keeps the applicants in list order |
| CANDashboard.NoDueDateNeverOverdue | src/components/CANDashboard.tsx:86-88 | an applicant without a due date is never counted |
| CANDashboard.OverdueCountMonotone | src/components/CANDashboard.tsx:85-89 | the overdue count never falls as time passes |
| CANDashboard.AlertNeverEasesOverTime | src/components/CANDashboard.tsx:129 | the alert bar computed later is at least as alarming |
| CANDashboard.SubmittedStatusPlacement | src/components/ApplicationForm.tsx:133-135 | an applicant on the list whose status was derived at submission sits in the compliance column exactly when the form claimed both a licence and a bond |
| CANDashboard.OtherRolesReviewOffBoard | src/components/ApplicationForm.tsx:133-135 | an applicant submitted without both credentials appears in no column |
| CANDashboard.OtherRolesReviewUncounted | src/components/ApplicationForm.tsx:133-135 | an applicant submitted without both credentials is under no overview count |
| CANDashboard.Dashboard.constructor | src/components/CANDashboard.tsx:30-33 | the dashboard starts on Overview, with the form closed, no applicants and no overdue count |
| CANDashboard.Dashboard.Stats | src/components/CANDashboard.tsx:104 | the displayed counts add up to at most the number of applicants |
| CANDashboard.Dashboard.Mount | src/components/CANDashboard.tsx:36-90 | mounting stores the applicants and their overdue count at `now`, leaving tab and form alone |
| CANDashboard.Dashboard.SetActiveTab | src/components/CANDashboard.tsx:207 | only the active tab changes |
| CANDashboard.Dashboard.OpenApplicationForm | src/components/CANDashboard.tsx:119-120 | only the form opens |
| CANDashboard.Dashboard.CloseApplicationForm | src/components/CANDashboard.tsx:301 | only the form closes |
| CANDashboard.Dashboard.SubmitApplication | src/components/CANDashboard.tsx:302-306 | a submission closes the form and leaves the applicant list unchanged |
| CANDashboard.MockStatsExample | src/components/CANDashboard.tsx:37-80 | the development data count one applicant under each of the first three headings and none under the others |
| CANDashboard.MockOverdueExample | src/components/CANDashboard.tsx:84-89 | on the development data two actions are overdue at 2025-01-24T00:00Z, which is a warning, and one at 2025-01-23T00:00Z |

## Left out

- JSX, CSS layout, the header and descriptive texts, and the form's step indicator are not modelled. The model keeps the counts, lists, status and overdue badges, due lines and specialty badges; the lines below name what else the views show and the model leaves out.
- The card's name, contact lines (e-mail, phone) and "Licensed in" line, and its "Licensed PA" and "Bonded" credential badges (src/components/ApplicantCard.tsx:125-194), are not modelled: each shows a record field as it stands.
- The pipeline item's name, e-mail, licence-state badge, "Licensed" and "Bonded" badges and "Due:" line (src/components/PipelineView.tsx:110-142) are not modelled, for the same reason.
- The wall clock (`new Date()`) is a parameter `now`.
- ISO date strings are parsed to millisecond timestamps ahead of the model. An invalid date string, whose timestamp is `NaN` in JavaScript, is not represented. `toLocaleDateString` formatting is not modelled; a due line carries the raw timestamp.
- `console.log`, `toast` messages, the one-second `setTimeout` in `handleSubmit`, its `isSubmitting` flag and its `try/catch` are left out. They are I/O or timing, and nothing in the model depends on them.
- React's rendering and effect scheduling are not modelled. `Dashboard.Mount` stands for the mount effect, which takes the applicants as a parameter.
- Upper-casing is modelled for ASCII only. This is exact for the fallback label, because `\w` without the `u` flag matches only ASCII word characters.
- The dashboard's "View Overdue" button, the card's menu and its action buttons only log or do nothing. They are not modelled.
- `deployment_region` is carried in the record; no view shows it.
- The form's state, lead-source and specialty pick-lists (`US_STATES`, `LEAD_SOURCES`, `SPECIALTIES`) are not modelled. The model accepts any string for these fields, which is all `handleInputChange` checks.
- A checkbox's `checked` value is modelled as a boolean. The indeterminate state is not modelled.
- ApplicationForm.Wizard.HandleInputChange: requires the field to belong to the step on screen. The form renders a field's input only on its own step (src/components/ApplicationForm.tsx:194, 241, 291, 345, 396).
- ApplicationForm.Wizard.HandleNext: requires a step below 5. The Next button exists only then (src/components/ApplicationForm.tsx:456).
- ApplicationForm.Wizard.HandlePrevious: requires a step above 1. The Previous button is disabled on step 1 (src/components/ApplicationForm.tsx:451).
- ApplicationForm.Wizard.HandleSpecialtyToggle and ApplicationForm.Wizard.HandleSubmit: require step 5. Their buttons appear only there (src/components/ApplicationForm.tsx:396-466).
- The table labels are not compared with the fallback labels. "Hired (Inactive)" and "Active - Not Deployed", for example, differ from the humanised status; this is stated only through the table itself.

## Findings

| source | as written | input that shows it | evidently intended | confidence | as-written member | corrected member |
|---|---|---|---|---|---|---|
| src/components/ApplicantCard.tsx:101 | `statusMap[status]`, falling back only when it is falsy, indexes a plain object, so a name inherited from `Object.prototype` finds a truthy non-entry and the fallback is skipped; the badge has no label and no icon, and rendering the undefined icon fails | an applicant whose status is `constructor` (likewise `toString`, `__proto__`, …) | only the table's own entries are used; any other status gets the humanised grey fallback ("Constructor") | high, not executed | ApplicantCard.GetStatusInfoAsWritten, ApplicantCard.AsWrittenConstructorHasNoBadge | ApplicantCard.GetStatusInfo, ApplicantCard.AsWrittenAgreesOffInheritedNames |
