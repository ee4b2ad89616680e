# Scholarship eligibility and scheme applications, modelled in Dafny

This project models two parts of a citizen-services web portal.

- **Education assistance** (`education-assistance.js`). A student submits a scholarship
  application with a grade percentage, an annual family income and mark sheets.
  - An eligibility engine tests seven ordered scholarship tiers. It records whether the
    student is eligible, the names of the suggested scholarships and, when not eligible,
    a reason.
  - The application is stored with status "Under Review" when eligible and "Not Eligible"
    otherwise.
  - The user's list shows only their own applications, each with a CSS status class
    derived from its status. Details and mark sheets are looked up by application id.
- **Dashboard schemes** (`fix_dashboard.js`). A logged-in user applies for a government
  scheme at most once. The dashboard summarises the user's scheme applications per status,
  with a badge per status and the total.

Modules:

- `Collections` (`collections.dfy`): the array scans the core relies on. `Filter` is
  `Array.prototype.filter`, `FindFirst` is `Array.prototype.find` (as an index), and
  `Count` counts matches.
- `Text` (`text.dfy`): `toLowerCase` and `replace` with a one-character string pattern,
  which replaces only the first occurrence.
- `Eligibility` (`eligibility.dfy`):
  - the tier table: `Fires`, `SetsEligible`, `Labels`;
  - the reference definition `Evaluate`;
  - the engine as written, `CalculateEligibility`, a method proved equal to `Evaluate`;
  - the properties of the verdict.
- `EducationAssistance` (`education_assistance.dfy`):
  - the stored scholarship list as a class, with `Submit`;
  - the owner filter, the lookup by id and the mark-sheet lookup;
  - the status class.
- `FixDashboard` (`fix_dashboard.dfy`):
  - the scheme-application list as a class, with `ApplyForScheme`, specified by the pure
    `Apply`/`After`;
  - the status tally: the method `CountStatuses`, specified by `Tally`;
  - the badge mapping and the dashboard summary.

Clock-derived values (the `'SA' + Date.now()` and `'APP' + Date.now()` ids and the ISO
timestamps) are passed in as parameters. The logged-in user is an `Option<User>`, or the
phone number when the source reads `currentUser.phone` without a check.

A 40% grade with an income of ₹1,00,000 is eligible through the need-based tier
(`education-assistance.js`, line 65), with the need-based and below-poverty-line
suggestions; `Eligibility.LowGradeLowIncome` states this verdict.

## Model

| member | source | states |
|---|---|---|
| Eligibility.Evaluate | education-assistance.js:44-105 | The reference verdict: a reason is given exactly when not eligible, and at most six scholarships are suggested. The lemmas below state the rest of what it gives. |
| Eligibility.CalculateEligibility | education-assistance.js:44-105 | Running the seven tier tests in order, and choosing the reason by priority, yields exactly the verdict `Evaluate` specifies. |
| Eligibility.EligibleIff | education-assistance.js:55-92 | Eligible exactly when grade ≥ 85, income ≤ 250000, grade ≥ 75 with income ≤ 500000, grade ≥ 60 with income ≤ 200000, or grade ≥ 50 with income ≤ 800000. |
| Eligibility.EligibleIffSuggestions | education-assistance.js:55-92 | The verdict is eligible if and only if at least one scholarship is suggested. |
| Eligibility.NothingPushed | education-assistance.js:55-84 | The first six tiers push no label exactly when none of their threshold tests passes. |
| Eligibility.PushedOnlyWhenFired | education-assistance.js:55-90 | A scholarship label is pushed only by its own tier, and only when that tier's test passes; so the first six tiers never push the general label. |
| Eligibility.SuggestedBelowGrows | education-assistance.js:55-84 | Later tiers only append: the labels pushed by earlier tiers stay, in place, at the front. |
| Eligibility.GeneralOnlyAlone | education-assistance.js:87-92 | The general scholarship is suggested only as the sole suggestion. It is suggested exactly when 50 ≤ grade < 85, 250000 < income ≤ 800000, and grade < 75 or income > 500000. |
| Eligibility.FiredBelowExact | education-assistance.js:55-84 | The tiers that fired are listed in strictly increasing order, and they are exactly the tiers whose tests pass. |
| Eligibility.LabelsOfAt | education-assistance.js:57-90 | Naming a list of tiers gives, position by position, each tier's label. |
| Eligibility.SuggestedBelowByTier | education-assistance.js:55-84 | The labels pushed by the first n tiers are the labels of the tiers among them that fired, in order. |
| Eligibility.SuggestionsByTier | education-assistance.js:55-92 | The suggestions are the labels of the suggested tiers. |
| Eligibility.LabelsDistinct | education-assistance.js:57-90 | The seven scholarship labels are pairwise different. |
| Eligibility.SuggestionsInTierOrder | education-assistance.js:55-92 | The suggestions are the labels of strictly increasing tiers: a subsequence of the tier list in evaluation order, with at most six entries. |
| Eligibility.SuggestionsDistinct | education-assistance.js:55-92 | No scholarship is suggested twice. |
| Eligibility.TopPerformerFollowsMerit | education-assistance.js:55-62 | When the top-performer scholarship is suggested, the merit scholarship comes first and the top-performer one second. |
| Eligibility.BelowPovertyLineFollowsNeedBased | education-assistance.js:65-72 | The below-poverty-line scholarship is always immediately preceded by the need-based one. |
| Eligibility.ReasonWhenNotEligible | education-assistance.js:94-102 | The reason is empty exactly when eligible. A non-eligible applicant has grade < 50 or income > 800000. The reason is the grade reason exactly when grade < 50, and the combined-criteria reason is never chosen. |
| Eligibility.MonotoneInGrade | education-assistance.js:55-92 | Raising the grade never loses eligibility. |
| Eligibility.MonotoneInIncome | education-assistance.js:55-92 | Lowering the income never loses eligibility. |
| Eligibility.TopStudentLowIncome | education-assistance.js:44-105 | Grade 90 with income 100000 is eligible for all six non-general scholarships, in tier order. |
| Eligibility.LowGradeLowIncome | education-assistance.js:65-72 | Grade 40 with income 100000 is eligible for the need-based and below-poverty-line scholarships. |
| Eligibility.IncomeOverThreshold | education-assistance.js:94-99 | Grade 55 with income 900000 is not eligible, and the income reason is given. |
| Eligibility.OnlyGeneral | education-assistance.js:87-92 | Grade 55 with income 700000 gets only the general scholarship. |
| Eligibility.LowGradeHighIncome | education-assistance.js:94-97 | Grade 40 with income 900000 is not eligible, and the grade reason takes priority. |
| EducationAssistance.SubmissionStatus | education-assistance.js:144 | The stored status is "Under Review" exactly when eligible, and "Not Eligible" exactly when not. |
| EducationAssistance.ScholarshipStore.constructor | education-assistance.js:148 | The store holds the applications read from storage. |
| EducationAssistance.ScholarshipStore.Submit | education-assistance.js:131-150 | The new record carries the given fields, the verdict `Evaluate` gives for its grade and income, and the status that verdict implies. It is appended after all earlier records, which are unchanged. |
| EducationAssistance.SubmitKeepsAssessed | education-assistance.js:131-150 | When every stored record's verdict and status match its own grade and income, appending a submitted record keeps that so. |
| EducationAssistance.UserApplications | education-assistance.js:12 | An application is listed exactly when it is stored and belongs to the user. |
| EducationAssistance.UserApplicationsInOrder | education-assistance.js:12 | The listing takes, at strictly increasing stored positions, exactly the positions of the user's applications. |
| EducationAssistance.SubmitThenList | education-assistance.js:12 | After a submission, the submitter's listing gains the new record at its end. Every other user's listing is unchanged. |
| EducationAssistance.FindApplication | education-assistance.js:205-212 | Returns not-found exactly when no stored application has the id. Otherwise returns the first stored application with that id. |
| EducationAssistance.SubmitThenFind | education-assistance.js:205-212 | After a submission, looking up its id gives the new record, unless an earlier record already has that id. In that case it gives the earlier record. |
| EducationAssistance.MarkSheetsOf | education-assistance.js:239-246 | No mark sheets are shown exactly when the application is not found or has an empty mark-sheet list. Otherwise that application's mark sheets are shown. |
| EducationAssistance.StatusClass | education-assistance.js:25 | With the ASCII lower-casing, the class is the prefix "status-" followed by as many characters as the status has. |
| EducationAssistance.StatusClassAt | education-assistance.js:25 | The class is "status-" followed by the status, lower-cased, with a dash at the first space. Position by position, so no upper-case letter remains after the prefix. |
| EducationAssistance.StatusClassSpaces | education-assistance.js:25 | Only the first space becomes a dash: the class keeps every later space. |
| EducationAssistance.StatusClassOfOneWord | education-assistance.js:25 | A status without spaces is only lower-cased after "status-", as for "Pending". |
| EducationAssistance.StatusClassOfTwoWords | education-assistance.js:225 | A two-word status gives "status-" followed by its lower-cased words joined by a dash, as for "Under Review" and "Not Eligible". |
| Text.LowerChar | education-assistance.js:25 | The ASCII lower-casing of one character leaves no upper-case ASCII letter and maps a character to a space exactly when it is a space. |
| Text.ToLower | education-assistance.js:25 | The ASCII lower-casing that stands for `toLowerCase` keeps the length of the string. |
| Text.ToLowerAt | education-assistance.js:25 | The ASCII lower-casing that stands for `toLowerCase` keeps the length and works position by position. |
| Text.ToLowerMatches | fix_dashboard.js:135-136 | Comparing the lower-cased status with a lower-case word is the same as comparing ignoring case. |
| Text.ReplaceFirst | education-assistance.js:25 | `replace` with a one-character pattern and a one-character replacement keeps the length, and leaves a string without the pattern unchanged. |
| Text.ReplaceFirstAt | education-assistance.js:25 | `replace` of a one-character pattern keeps the length and changes only the first occurrence. |
| Text.ReplaceFirstOccurrences | education-assistance.js:25 | `replace` removes exactly one occurrence of the pattern when there is any. |
| Collections.Filter | fix_dashboard.js:117 | The filtered list is no longer than the original, and every kept element satisfies the test. |
| Collections.FilterMembers | fix_dashboard.js:117 | An element is kept exactly when it is in the list and satisfies the test. |
| Collections.FindFirst | fix_dashboard.js:71 | `find` returns the first position whose element satisfies the test, or nothing when none does. |
| Collections.FindFirstAppend | fix_dashboard.js:71 | Appending never changes an earlier match. Otherwise the appended element is found if it matches. |
| FixDashboard.SchemeName | fix_dashboard.js:78-85 | The recorded name is that of the first scheme with the id, or "Unknown" when no scheme has it. |
| FixDashboard.Apply | fix_dashboard.js:64-91 | Not logged in: nothing happens. Already applied for the same scheme: nothing happens. Otherwise a "Pending" record with the user's phone, the scheme id, its name and the given id and timestamp is submitted. |
| FixDashboard.After | fix_dashboard.js:90 | The stored list after an attempt: the old list, followed by the new record exactly when one was submitted. |
| FixDashboard.SchemeApplicationStore.constructor | fix_dashboard.js:70 | The store holds the applications read from storage. |
| FixDashboard.SchemeApplicationStore.ApplyForScheme | fix_dashboard.js:64-91 | The outcome is the one `Apply` specifies, and the stored list becomes the one `After` gives for that outcome. |
| FixDashboard.ApplyAppendsAtMostOne | fix_dashboard.js:90 | An attempt keeps every earlier record in place and adds at most one. |
| FixDashboard.PairCountAfterApply | fix_dashboard.js:71-90 | After an attempt by a logged-in user there is one record for that user and scheme if there were none, and the earlier number (at least one) otherwise. |
| FixDashboard.OtherPairsUnchanged | fix_dashboard.js:71-90 | An attempt does not change the number of records of any other user and scheme pair. |
| FixDashboard.ApplyTwice | fix_dashboard.js:71-76 | Applying a second time for the same scheme is refused as already applied, and leaves the list as the first attempt left it. |
| FixDashboard.ApplyKeepsNoDuplicatePairs | fix_dashboard.js:71-90 | An attempt keeps the list free of two records for the same user and scheme. |
| FixDashboard.CountStatuses | fix_dashboard.js:128-131 | The loop's status-count object equals the tally `Tally` specifies. |
| FixDashboard.Tally | fix_dashboard.js:128-131 | The reference tally: no more keys than applications, and no key exactly when there is no application. |
| FixDashboard.TallyKeys | fix_dashboard.js:128-133 | The listed keys are exactly the keys of the counts, and every count is positive. |
| FixDashboard.TallyOrderDistinct | fix_dashboard.js:128-133 | No status is listed twice. |
| FixDashboard.TallyCounts | fix_dashboard.js:128-131 | Every status is counted exactly as often as it occurs. |
| FixDashboard.TallyExact | fix_dashboard.js:128-133 | The keys are exactly the statuses present, each listed once, with its number of occurrences as a positive count. |
| FixDashboard.FirstSeenAppend | fix_dashboard.js:129-130 | Appending an application never moves where a status first occurs. A status is first seen at the new position only when it is new and the appended status. |
| FixDashboard.FirstSeenUntallied | fix_dashboard.js:128-131 | A status that is not a key does not occur. |
| FixDashboard.FirstSeenKept | fix_dashboard.js:129-130 | Appending an application keeps the first occurrence of every status that already occurred. |
| FixDashboard.TallyOrderFirstSeen | fix_dashboard.js:128-133 | Statuses are listed in the order in which they first occur among the applications. |
| FixDashboard.SumUnaffected | fix_dashboard.js:128-131 | Changing the count of a status that is not listed leaves the sum of the listed counts unchanged. |
| FixDashboard.SumBump | fix_dashboard.js:130 | Incrementing the count of a status listed once raises the sum of the listed counts by one. |
| FixDashboard.TallySum | fix_dashboard.js:128-147 | The counts add up to the number of applications, which is the total shown. |
| FixDashboard.BadgeClass | fix_dashboard.js:134-136 | The badge is resolved exactly for "accepted" and in-progress exactly for "rejected", in any letter case, and pending for every other status. |
| FixDashboard.Rows | fix_dashboard.js:133-143 | One row per listed status, in order, showing the status, its badge and its count. |
| FixDashboard.UserSummary | fix_dashboard.js:115-149 | The reference summary: the empty state exactly when no application is the user's; otherwise a positive total equal to the number of the user's applications. |
| FixDashboard.DisplayUserSchemeApplications | fix_dashboard.js:115-149 | The empty-state message is shown exactly when the user has no scheme application. Otherwise the summary has the status rows and the total of the user's applications. |
| FixDashboard.SummaryRowsExact | fix_dashboard.js:128-143 | Every row shows a status that occurs among the user's applications, with its positive number of occurrences and its badge. No status has two rows. |
| FixDashboard.SummaryRowsCover | fix_dashboard.js:128-147 | Every status among the user's applications has a row, and the tallied counts add up to the number of the user's applications. |
| FixDashboard.SummaryTotal | fix_dashboard.js:128-147 | In the summary shown, the counts of the status rows add up to the total of the user's applications. |
| FixDashboard.RowCountSumOfRows | fix_dashboard.js:133-143 | The counts shown in the rows add up to the sum of the tallied counts over the listed statuses. |

## Left out

- Rendering is not modelled: the DOM and HTML templates, alerts, modals, the mark-sheet
  preview (lines 189-203) and `showOfficialTab`. The model keeps the data they show:
  listings, verdicts, status classes, badge classes, counts and totals.
- Reading mark sheets with `FileReader` into base64 data URLs, and the promise plumbing
  around it, are not modelled. A mark sheet is a value with the data URL as a string.
  The failure branch of reading files (lines 182-185) is not modelled.
- `localStorage` and JSON (de)serialisation are not modelled: the stored lists are the
  fields of the two store classes. The `storage` event handler is left out as well.
- `logActivity`, the Google Sheets sync calls and console logging are not modelled. They
  are foreign calls with no effect on the stored records.
- `Date.now()`, `new Date().toISOString()` and `toLocale*String` are not modelled. Ids
  and timestamps are parameters, and date display is the presentation layer.
- `sanitizeHTML` is not modelled; it only affects rendering.
- CalculateEligibility: `parseFloat` and NaN are not modelled. Grade and income are
  already numbers (`real`). A NaN input fails every comparison, but the other input
  still decides: a NaN grade with income 100000 is eligible (line 65), and grade 40 with
  a NaN income gets the grade reason (lines 95-96). The combined-criteria reason, which
  the model proves unreachable for numbers, comes out only when both inputs are NaN,
  when the grade is NaN and 250000 < income ≤ 800000, or when the income is NaN and
  50 ≤ grade < 85.
- Text.LowerChar, Text.ToLower, Text.ToLowerAt, EducationAssistance.StatusClass: only
  ASCII letters are lower-cased. JavaScript's `toLowerCase` applies the full Unicode case
  mapping, which also maps non-ASCII letters, can lengthen a string ('İ', U+0130, becomes
  two code units) and depends on context (a final 'Σ' becomes 'ς'). The length and
  position-by-position contracts hold of the ASCII model only.
- SchemeName: the loose `s.id == schemeId` comparison is modelled as string equality;
  type coercion between numbers and strings is not modelled.
- FixDashboard.Tally: keys are ordered by first occurrence. JavaScript objects list
  integer-like keys first, in numeric order, and a status such as `"__proto__"` would
  not become an own key. Statuses are assumed not to be names of `Object.prototype`
  properties: for a status such as "constructor" or "toString", line 130 would compute
  `(inherited function || 0) + 1`, a string and not 1.
- Unique application ids are not enforced, because the source does not enforce them: the
  lookup returns the first match, as `find` does.
- The submit handler and the scholarship listing read `currentUser.phone` without
  checking that a user is logged in. The model takes the phone number as a parameter.
