# Customer portal dashboard: verified model of its local state logic

The customer portal is a React dashboard. It keeps its data in component
state and works on mock data, with no server behind it. This project models,
in Dafny, the pieces of that state logic that can be stated precisely, and
proves what they promise:

- **User management.** The custom-role table: add with validation,
  delete by id, and a one-flag update of the 6-area × {read, write}
  permission matrix. The same update applies to the draft role. The
  invite/remove-user handlers, which never touch the user list. The badge
  and icon maps and the statistic cards. The page is the class
  `UserManagementPage.Page`; its handlers are methods over the fields
  `customRoles`, `newRole`, `newUser`, `isAddRoleOpen` and `isAddUserOpen`.
- **Forgot password.** The request → verify → success flow is the class
  `ForgotPasswordPage.ResetFlow`. It covers the code sent with a two-minute
  expiry, the resend counter and the ordered guard chain of the verify form.
  The clock and the random draw behind the code are parameters. The two
  `setTimeout` callbacks are the explicit methods `SendTimerFires` and
  `ResetTimerFires`.
- **Knowledge base.** The case-insensitive name search, delete by id, the
  file-type extraction, and the upload ticker. The ticker is the method
  `Tick` of `KnowledgeBasePage.Page`: each call is one firing of the 200 ms
  interval. It advances the progress by 10 and, after 100, prepends one
  pending document per uploaded file.
- **Email review queue.** The status/intent filter and the status badge.
- **First-time setup.** The submit guard chain.
- **Dashboard widgets.** Three widgets are covered:
  - The unanswered-questions panel. Its in-place stable sort by descending
    count is an insertion sort on an `array`. The panel also has the top-10
    view, the expand control and the date-range caption.
  - The enquiry-trends chart: a series lookup with fallback, the peak value,
    the axis labels and the description.
  - The KPI/metric card "is positive" colouring rule.

Shared pieces live in `seqs.dfy` and `text.dfy`. `Seqs.Filter` is
`Array.prototype.filter`. Its results are characterised as order-preserving
subsequences that keep exactly the accepted elements, counted with
multiplicity (`Seqs.FilterUnique` says that this determines the result).
`Text` holds the JavaScript string operations the pages use:
- `toLowerCase`/`toUpperCase`;
- `includes` and `startsWith`;
- decimal rendering of integers, with its inverse `ParseNat`.

Toasts become `Notice` or outcome values returned by the handlers.

## Model

| member | source | states |
|---|---|---|
| UserManagementPage.NoPermissions | src/pages/UserManagement.tsx:41-52 | the draft role starts with all twelve permission flags off |
| UserManagementPage.SetPermission | src/pages/UserManagement.tsx:264-275 | the nested spread sets the chosen flag of the chosen area to the value and leaves the other eleven flags as they were |
| UserManagementPage.PermissionsExtensional | src/pages/UserManagement.tsx:41-52 | two permission matrices that agree on all twelve flags are equal |
| UserManagementPage.SetPermissionSameValue | src/pages/UserManagement.tsx:264-275 | writing a flag's current value back leaves the matrix unchanged |
| UserManagementPage.SetPermissionOverwrites | src/pages/UserManagement.tsx:264-275 | two writes to the same flag equal the last write alone |
| UserManagementPage.AppendRole | src/pages/UserManagement.tsx:211-217 | exactly one role is appended: earlier roles unchanged in front, the new role carries id length+1, the draft's name, description and permissions, and userCount 0 |
| UserManagementPage.DeleteRole | src/pages/UserManagement.tsx:239-240 | the result is an order-preserving subsequence with no role of that id, and every other role is kept as often as it occurred |
| UserManagementPage.DeleteAbsentRole | src/pages/UserManagement.tsx:239-240 | deleting an id no role carries returns the table unchanged |
| UserManagementPage.DeleteRoleIdempotent | src/pages/UserManagement.tsx:239-240 | deleting the same id twice equals deleting it once |
| UserManagementPage.UpdateRolePermission | src/pages/UserManagement.tsx:247-262 | same length and order; roles with another id are identical; on matching roles id, name, description and userCount are kept and only the chosen flag changes |
| UserManagementPage.UpdateDraftPermission | src/pages/UserManagement.tsx:264-275 | the draft keeps its name and description; only the chosen flag of the chosen area takes the value |
| UserManagementPage.AppendKeepsNumbering | src/pages/UserManagement.tsx:212 | on a table numbered 1..n, appending keeps the numbering and the new id is fresh |
| UserManagementPage.DeleteFirstRole | src/pages/UserManagement.tsx:240 | deleting id 1 from a table numbered 1..n removes exactly the first role |
| UserManagementPage.DeleteThenAddDuplicatesId | src/pages/UserManagement.tsx:211-240 | ids can collide: in a table numbered 1..n (n >= 2), deleting role 1 and adding a role gives the new role id n, which the last old role already has |
| UserManagementPage.RoleBadgeVariant | src/pages/UserManagement.tsx:175-186 | "admin" gets default, "editor" secondary, and exactly every other role outline |
| UserManagementPage.StatusBadgeVariant | src/pages/UserManagement.tsx:188-199 | "active" gets default, "invited" secondary, and exactly every other status outline |
| UserManagementPage.RoleIconFor | src/pages/UserManagement.tsx:162-173 | shield for admin, edit for editor, eye for viewer, and the users icon exactly for all other roles |
| UserManagementPage.StatsOf | src/pages/UserManagement.tsx:296-338 | total users and role count are the list lengths; active is the count of "active" users and pending invites the count of "invited" users; active + invited never exceeds the total |
| UserManagementPage.Page.constructor | src/pages/UserManagement.tsx:33-118 | both dialogs closed, empty drafts (user role "viewer"), the seeded users and roles |
| UserManagementPage.Page.Stats | src/pages/UserManagement.tsx:296-338 | the four cards computed from the current state: the user count, the "active" and "invited" counts and the role count; active plus invited never exceeds the users |
| UserManagementPage.Page.SetAddUserOpen | src/pages/UserManagement.tsx:33 | the invite dialog flag takes the new value, nothing else changes |
| UserManagementPage.Page.SetAddRoleOpen | src/pages/UserManagement.tsx:34 | the role dialog flag takes the new value, nothing else changes |
| UserManagementPage.Page.EditNewUser | src/pages/UserManagement.tsx:35-40 | the user draft is replaced by the typed values, nothing else changes |
| UserManagementPage.Page.EditNewRole | src/pages/UserManagement.tsx:41-44 | the draft role's name and description change, its permissions do not |
| UserManagementPage.Page.AddUser | src/pages/UserManagement.tsx:129-146 | with an empty email, first or last name: "missing information" and no change; otherwise the draft resets to empty fields with role "viewer" and the dialog closes; the user list never changes |
| UserManagementPage.Page.DeleteUser | src/pages/UserManagement.tsx:148-153 | only announces the removal: no state changes, the user list included |
| UserManagementPage.Page.AddRole | src/pages/UserManagement.tsx:201-237 | an empty draft name changes nothing; otherwise the table becomes AppendRole of the old table and draft, the draft resets to empty with no permissions and the dialog closes |
| UserManagementPage.Page.DeleteRoleById | src/pages/UserManagement.tsx:239-245 | the table becomes DeleteRole of the old table |
| UserManagementPage.Page.SetRolePermission | src/pages/UserManagement.tsx:247-262 | the table becomes UpdateRolePermission of the old table |
| UserManagementPage.Page.SetNewRolePermission | src/pages/UserManagement.tsx:264-275 | the draft becomes UpdateDraftPermission of the old draft |
| ForgotPasswordPage.TimeRemaining | src/pages/ForgotPassword.tsx:25-29 | 0 without an expiry; otherwise the whole seconds left rounded up: 0 exactly when expired, else (r-1)*1000 < expiresAt-now <= r*1000 |
| ForgotPasswordPage.TimeRemainingAtSend | src/pages/ForgotPassword.tsx:25-35 | computed at the moment of sending, the time remaining is 120 |
| ForgotPasswordPage.TimeRemainingAtMost120 | src/pages/ForgotPassword.tsx:25-35 | computed at any later moment, it is at most 120 |
| ForgotPasswordPage.CheckReset | src/pages/ForgotPassword.tsx:54-74 | the guards run in source order (no code, expired, wrong code, short password, mismatch) and the first failure is the outcome, each guard's outcome stated for the case where it is the first to fail; accepted iff all pass |
| ForgotPasswordPage.OnlyLatestCodeAccepted | src/pages/ForgotPassword.tsx:62 | a code other than the stored one is never accepted |
| ForgotPasswordPage.CodeFor | src/pages/ForgotPassword.tsx:33 | the code for a draw in [100000, 999999] is six decimal digits with a non-zero first digit, and it reads back as the draw |
| ForgotPasswordPage.LeadingDigitNonZero | src/pages/ForgotPassword.tsx:33 | the decimal rendering of a positive number does not start with '0' |
| ForgotPasswordPage.ResetFlow.constructor | src/pages/ForgotPassword.tsx:11-19 | request step, empty fields, no code or expiry, not loading, zero resends |
| ForgotPasswordPage.ResetFlow.EditForm | src/pages/ForgotPassword.tsx:12-17 | the typed email, code and passwords are stored, nothing else changes |
| ForgotPasswordPage.ResetFlow.SendCode | src/pages/ForgotPassword.tsx:31-39 | stores the code for the draw, expiry now + 120000 ms, time remaining 120, resends + 1, step verify |
| ForgotPasswordPage.ResetFlow.HandleRequest | src/pages/ForgotPassword.tsx:41-52 | an empty email only prompts, with no code and no step change; otherwise loading starts and the 800 ms timer is armed |
| ForgotPasswordPage.ResetFlow.SendTimerFires | src/pages/ForgotPassword.tsx:48-51 | loading ends and the code is sent: step verify, new code, expiry now + 120 s with 120 seconds remaining, resends + 1, the "code sent" notice; the step never moves back |
| ForgotPasswordPage.ResetFlow.HandleVerify | src/pages/ForgotPassword.tsx:54-81 | the outcome is CheckReset of the current state; the step stays verify; only an accepted submission starts loading and arms the reset timer; since the time remaining is the value captured at the last send, "Code expired" is never reported |
| ForgotPasswordPage.ResetFlow.ResetTimerFires | src/pages/ForgotPassword.tsx:76-80 | loading ends and the step becomes success |
| ForgotPasswordPage.ResetFlow.HandleResend | src/pages/ForgotPassword.tsx:83-85 | a new code replaces the old one and the expiry is renewed to now + 120 s, resends + 1, the "code sent" notice; every code other than the new one is rejected |
| KnowledgeBasePage.SearchDocuments | src/pages/KnowledgeBase.tsx:77-79 | an order-preserving subsequence keeping exactly the documents whose lower-cased name includes the lower-cased term, each as often as it occurred |
| KnowledgeBasePage.EmptySearchShowsAll | src/pages/KnowledgeBase.tsx:77-79 | an empty term shows every document, in order |
| KnowledgeBasePage.DeleteDocument | src/pages/KnowledgeBase.tsx:119-121 | an order-preserving subsequence with no document of that id, every other document kept as often as it occurred |
| KnowledgeBasePage.DeleteDocumentIdempotent | src/pages/KnowledgeBase.tsx:119-121 | deleting the same id twice equals deleting it once |
| KnowledgeBasePage.AfterLastDot | src/pages/KnowledgeBase.tsx:102 | the result is a dot-free suffix of the name, preceded by a '.' whenever it is shorter than the name |
| KnowledgeBasePage.AfterLastDotOfSplit | src/pages/KnowledgeBase.tsx:102 | for stem + "." + ext with a dot-free ext, the last segment is exactly ext |
| KnowledgeBasePage.AfterLastDotNoDot | src/pages/KnowledgeBase.tsx:102 | a dot-free name is its own last segment |
| KnowledgeBasePage.FileType | src/pages/KnowledgeBase.tsx:102 | the type is never empty and never contains '.'; it is "FILE" or as long as the non-empty text after the last dot |
| KnowledgeBasePage.FileTypeCases | src/pages/KnowledgeBase.tsx:102 | the type is the upper-cased extension; a dot-free name gives the whole name upper-cased; a name ending in '.' or an empty name gives "FILE" |
| KnowledgeBasePage.NewDocuments | src/pages/KnowledgeBase.tsx:96-103 | one document per file in file order, each pending, named after its file, typed by FileType, dated today, with id now + index |
| KnowledgeBasePage.Advance | src/pages/KnowledgeBase.tsx:90-114 | one tick keeps the progress a multiple of 10 in [0, 100]; it resets to 0 exactly when the progress had reached 100, and otherwise grows |
| KnowledgeBasePage.ProgressAfterTicks | src/pages/KnowledgeBase.tsx:86-114 | after k <= 10 ticks the progress is 10k |
| KnowledgeBasePage.UploadCompletesOnEleventhTick | src/pages/KnowledgeBase.tsx:89-114 | the progress stays below 100 for fewer than ten ticks, is 100 after ten and back to 0 after the eleventh |
| KnowledgeBasePage.Page.constructor | src/pages/KnowledgeBase.tsx:37-75 | the four seeded documents, empty search, no upload |
| KnowledgeBasePage.SeedTypesFollowNames | src/pages/KnowledgeBase.tsx:42-75 | every seeded document's type is the one an upload of a file with its name would get |
| KnowledgeBasePage.FileTypeOfSplit | src/pages/KnowledgeBase.tsx:102 | a name "stem.ext" with a non-empty, dot-free ext is typed as ext upper-cased |
| KnowledgeBasePage.Page.FilteredDocuments | src/pages/KnowledgeBase.tsx:77-79 | the shown list is a subsequence of the documents that keeps every document matching the current term, each as often as it occurs, and no other |
| KnowledgeBasePage.Page.SetSearchTerm | src/pages/KnowledgeBase.tsx:37 | the term is stored, nothing else changes |
| KnowledgeBasePage.Page.FileUpload | src/pages/KnowledgeBase.tsx:81-87 | no files: no change; otherwise the upload starts at 0 % with those files; progress stays a multiple of 10 in [0, 100] |
| KnowledgeBasePage.Page.Tick | src/pages/KnowledgeBase.tsx:89-116 | below 100 the progress rises by 10 and the documents are unchanged; at 100 the upload ends, progress returns to 0 and the new pending documents are prepended to the unchanged old ones |
| KnowledgeBasePage.Page.DeleteDocumentById | src/pages/KnowledgeBase.tsx:119-125 | the documents become DeleteDocument of the old documents |
| EmailAIResponsesPage.StatusMatches | src/pages/EmailAIResponses.tsx:193 | "all" and the empty selection match every email; any other match is no longer than the status |
| EmailAIResponsesPage.StatusMatchesMeaning | src/pages/EmailAIResponses.tsx:193 | a selection other than "all" matches exactly when some window of the status, lower-cased, reads as the selection |
| EmailAIResponsesPage.IntentMatches | src/pages/EmailAIResponses.tsx:194 | "all" matches every email, an email always matches its own intent, and a selection other than "all" matches no other intent |
| EmailAIResponsesPage.FilterEmails | src/pages/EmailAIResponses.tsx:192-196 | an order-preserving subsequence keeping exactly the emails matching both filters, each as often as it occurred |
| EmailAIResponsesPage.FilterEmailsMembership | src/pages/EmailAIResponses.tsx:192-196 | an email is listed iff it is in the list and matches status and intent |
| EmailAIResponsesPage.AllFiltersListEverything | src/pages/EmailAIResponses.tsx:192-196 | with both filters "all" the whole list is shown, in order |
| EmailAIResponsesPage.CombinedFilterIsIntersection | src/pages/EmailAIResponses.tsx:193-195 | filtering by status and then by intent gives exactly the combined filter's result |
| EmailAIResponsesPage.PendingReviewIncludesPending | src/pages/EmailAIResponses.tsx:193 | the lower-cased "Pending Review" includes "pending" |
| EmailAIResponsesPage.PendingReviewExcludes | src/pages/EmailAIResponses.tsx:193 | the lower-cased "Pending Review" includes neither "approved" nor "sent" |
| EmailAIResponsesPage.PendingSelectsPendingReview | src/pages/EmailAIResponses.tsx:241-244 | the "pending" filter value selects a "Pending Review" email; "approved" and "sent" do not |
| EmailAIResponsesPage.IntentIsExact | src/pages/EmailAIResponses.tsx:194 | an intent filter other than "all" selects only that exact intent |
| EmailAIResponsesPage.StatusBadge | src/pages/EmailAIResponses.tsx:85-105 | a badge exactly for the four known statuses, secondary only for "Pending Review" and outline only for "Edited" |
| EmailAIResponsesPage.StatusBadgeColoursDistinct | src/pages/EmailAIResponses.tsx:93-98 | the four known statuses have four different colours |
| FirstTimeSetupPage.ValidateSetup | src/pages/FirstTimeSetup.tsx:21-46 | completed iff all fields are set, the password has >= 8 characters and equals the confirmation; missing fields are reported first, then a short password, then a mismatch |
| FirstTimeSetupPage.MissingFieldIgnoresPassword | src/pages/FirstTimeSetup.tsx:23-26 | while a field is empty the passwords do not affect the outcome |
| FirstTimeSetupPage.ShortMatchingPasswordIsWeak | src/pages/FirstTimeSetup.tsx:27-34 | a short password equal to its confirmation is reported weak, not mismatched |
| UnansweredQuestionsChart.SortedByCount | src/components/dashboard/UnansweredQuestionsChart.tsx:40 | the sorted list has as many entries as the input |
| UnansweredQuestionsChart.SortedIsPermutation | src/components/dashboard/UnansweredQuestionsChart.tsx:40 | the sorted list is a permutation of the questions |
| UnansweredQuestionsChart.SortedIsDescending | src/components/dashboard/UnansweredQuestionsChart.tsx:40 | counts never increase along the sorted list |
| UnansweredQuestionsChart.SortedIsStable | src/components/dashboard/UnansweredQuestionsChart.tsx:40 | for every count, the questions with that count appear in their original order |
| UnansweredQuestionsChart.SortByCountDescending | src/components/dashboard/UnansweredQuestionsChart.tsx:40 | sorting the array in place leaves exactly the stable descending order of its old contents |
| UnansweredQuestionsChart.InsertAt | src/components/dashboard/UnansweredQuestionsChart.tsx:40 | one insertion step places a[i] before the first later entry whose count does not exceed it, leaving the prefix alone |
| UnansweredQuestionsChart.Displayed | src/components/dashboard/UnansweredQuestionsChart.tsx:41 | expanded: the whole sorted list; collapsed: its first min(10, n) entries; always a prefix |
| UnansweredQuestionsChart.CollapsedShowsTopCounts | src/components/dashboard/UnansweredQuestionsChart.tsx:40-41 | no question hidden by the collapsed view has a higher count than one it shows |
| UnansweredQuestionsChart.ShowToggle | src/components/dashboard/UnansweredQuestionsChart.tsx:107 | the control appears exactly when there are more than ten questions, that is, exactly when the collapsed view hides some of them |
| UnansweredQuestionsChart.NoToggleSameView | src/components/dashboard/UnansweredQuestionsChart.tsx:107 | without the control both views are the whole list |
| UnansweredQuestionsChart.DateRangeText | src/components/dashboard/UnansweredQuestionsChart.tsx:54-62 | the four known ranges get their captions, and exactly every other value gets "Selected period" |
| UnansweredQuestionsChart.Panel.constructor | src/components/dashboard/UnansweredQuestionsChart.tsx:18 | the panel starts collapsed |
| UnansweredQuestionsChart.Panel.Toggle | src/components/dashboard/UnansweredQuestionsChart.tsx:112 | the button flips the expanded flag |
| UnansweredQuestionsChart.Panel.Render | src/components/dashboard/UnansweredQuestionsChart.tsx:40-41 | the rows shown are the view of the stably sorted list, in non-increasing count order and drawn from the questions; the control shows iff there are more than ten questions |
| EnquiryTrendsChart.DataForRange | src/components/dashboard/EnquiryTrendsChart.tsx:9-18 | a known range gives its own series, any other the "30d" series; never empty; seven points exactly for "7d" |
| EnquiryTrendsChart.CustomIsThirtyDays | src/components/dashboard/EnquiryTrendsChart.tsx:13-15 | "custom" shows the same series as "30d" |
| EnquiryTrendsChart.UnknownRangeFallsBack | src/components/dashboard/EnquiryTrendsChart.tsx:17 | every range outside the table shows the "30d" series |
| EnquiryTrendsChart.MaxValue | src/components/dashboard/EnquiryTrendsChart.tsx:21 | at least every element of the series and equal to one of them |
| EnquiryTrendsChart.AxisLabel | src/components/dashboard/EnquiryTrendsChart.tsx:40-42 | a "1d" label ends in ":00", a "7d" label is a day name, any other starts with 'W' |
| EnquiryTrendsChart.AxisLabelMeaning | src/components/dashboard/EnquiryTrendsChart.tsx:40-42 | the "1d" label reads back as hour 2i followed by ":00", the "7d" label is the i-th day name, any other is "W" followed by i+1 |
| EnquiryTrendsChart.AxisLabelsDistinct | src/components/dashboard/EnquiryTrendsChart.tsx:40-42 | no two bars of a chart share a label |
| EnquiryTrendsChart.DescriptionGranularity | src/components/dashboard/EnquiryTrendsChart.tsx:28 | hourly exactly for "1d", daily exactly for "7d", weekly for everything else |
| KpiCard.IsPositive | src/components/dashboard/KpiCard.tsx:16 | positive iff (trend is up) differs from (change starts with '-'); up without '-' and down with '-' are positive |
| KpiCard.OnlyFirstCharacterMatters | src/components/dashboard/KpiCard.tsx:16 | two non-empty changes with the same first character colour the same |
| KpiCard.EmptyChange | src/components/dashboard/KpiCard.tsx:16 | an empty change is positive for up and not for down |
| MetricCard.IsPositive | src/components/dashboard/MetricCard.tsx:16 | positive iff (trend is up) differs from (change starts with '-'); the mixed cases are not positive |
| MetricCard.SameRuleAsKpiCard | src/components/dashboard/MetricCard.tsx:16 | for every trend and change, the metric card agrees with the KPI card |
| Text.Lower | src/pages/KnowledgeBase.tsx:78 | same length, each character lower-cased (ASCII letters) |
| Text.Upper | src/pages/KnowledgeBase.tsx:102 | same length, each character upper-cased (ASCII letters) |
| Text.NatToString | src/pages/ForgotPassword.tsx:33 | a non-empty string of decimal digits |
| Text.ParseNatToString | src/pages/ForgotPassword.tsx:33 | reading the decimal rendering back gives the number |

## Left out

- Toasts, redirects and `document.title` are not performed. Each handler instead returns the message it would show, as a `Notice` or outcome value. FirstTimeSetup's 1.2 s delay and redirect to `/dashboard` are reduced to the `ProfileCompleted` outcome.
- Timers are not modelled as time. Each `setTimeout`/`setInterval` callback is a method the caller invokes. Clearing the upload interval is the `Tick` that ends the upload; the model has no ticks after it.
- `Date.now`, `new Date()` and `Math.random` are parameters: `now`, `today`, and `draw` in [100000, 999999]. The upload ids use one `now` for the whole batch. The source reads the clock once per file, normally within the same millisecond.
- ForgotPasswordPage.ResetFlow.SendCode: the time remaining is stored as 120, the value at the moment of sending. The source computes it during the next render, which yields 120 unless a second or more has passed; `TimeRemainingAtMost120` bounds it at any later moment.
- `Lower` and `Upper` map only the ASCII letters. JavaScript's `toLowerCase`/`toUpperCase` also map other Unicode letters, and may change a string's length.
- Strings are sequences of characters. JavaScript measures `password.length` in UTF-16 code units, so astral characters count twice there.
- The upload's size label (`toFixed(1)` of megabytes) is given with each file: floating-point formatting is not modelled.
- Concurrent uploads are not modelled: `FileUpload` requires that no upload runs, as the disabled file input ensures.
- The permission-update handlers receive the area and flag as strings in the source. The model takes them as the `Area` and `Flag` enumerations, which is what the six module keys and the two switches produce. Arbitrary key strings are not modelled.
- Lookups such as `data[range]` and `variants[status]` also find inherited object keys (`"constructor"`, for example). The model treats any key outside the literal tables as absent.
- `handleResendInvite`, `formatTimestamp`, the email draft dialog and all chart geometry (bar heights) are not modelled. They are a toast, locale formatting, an edit toggle and floating-point layout.
- The mock question list is not included: `Panel.Render` takes the questions as input.
- The other pages, the layout, the routing and the development scripts are not part of this model. They hold no state logic of their own.
