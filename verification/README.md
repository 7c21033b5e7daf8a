# CRM intake, permission and client-state rules in Dafny

This project models the decision logic of a small call-centre CRM. The backend is a Flask API over PostgreSQL, and the frontend is a set of React screens. The model covers:

- **Contact-list upload** (`upload_csv`). It detects the phone and name columns, filters files by extension, and de-duplicates phones within a file. It then deals new contacts round-robin to the callers, skipping phones already stored. It keeps the per-file and per-request counts.
- **Backend mutation rules.**
  - Who may edit a record or a task, and which fields each role may change.
  - How marking a visit 'confirmed' appends a certified-office-assistant row and an admission.
  - Role-name normalisation.
  - The `visits_done` statistic.
  - The database-URL fallback and scheme rewrite.
  - The static/API catch-all route.
- **The caller dashboard's reminder alarms.**
  - The queue is replaced on each poll, and its head is shown.
  - A dismissed entry is removed by id, and the popup hides on a stale length.
  - The popup's trigger-type selectors and its two identical button handlers.
  - The beep loop stops for good once it is stopped.
  - The reminder dialog's request builder.
- **Record editing on the caller dashboard.** The WhatsApp number formatter, the response classify/submit pair of the edit form, and the local merge of a saved edit.
- **Task screens.**
  - JavaScript `parseInt` and the clamped progress input.
  - The overdue predicate and the overrides it drives: displayed status, colour, icon.
  - The status-to-progress map, the completed-task filter, the local merge, the admin-only assignee column and the create-form guard.
- **The progress dashboard.** Totals, the daily target of 100 responses per caller, the targets-met count and the standing labels.
- **Routing.**
  - Role-to-home redirects and route guards.
  - Login, logout and restoring the session from storage.
  - The admin dashboard's ordered substring tab selection.
- **The schema verification script's check** of the `records` table.

Some conventions apply throughout:

- Records, tasks, users and queue entries are immutable datatypes, and the store is a set of maps.
- Every endpoint is a pure function from the store, the caller's id and the request body to an HTTP status and the new store.
- Times are integers. Ids are naturals. Roles, record visit states and task statuses are strings, so the model can say what happens to any other value.
- A JSON key that may be missing from a body is a `Field` (`Absent | Present(v)`). A nullable column is an `Option`.
- The client's network calls become a boolean parameter that says whether the request succeeded.

Each file holds one module:

| File | Module | What it holds |
|---|---|---|
| `wrappers.dfy` | `Wrappers` | `Option`, `Result`, `Field` |
| `text.dfy` | `Text` | Python `str.strip` and JavaScript `trim` whitespace sets; ASCII lower-casing; substring and prefix tests |
| `upload.dfy` | `Upload` | the upload endpoint |
| `backend.dfy` | `Backend` | the other backend rules |
| `reminder_queue.dfy` | `ReminderQueue` | the queue row and its two trigger types |
| `caller_dashboard.dfy` | `CallerDashboard` | the caller dashboard |
| `alarm_popup.dfy` | `AlarmPopup` | the alarm popup |
| `reminder_modal.dfy` | `ReminderModal` | the reminder dialog |
| `js_number.dfy` | `JsNumber` | JavaScript `parseInt` |
| `task_views.dfy` | `TaskViews` | the three task screens |
| `progress_dashboard.dfy` | `ProgressDashboard` | the progress dashboard |
| `routing.dfy` | `Routing` | `App.js` and the admin tabs |
| `schema_check.dfy` | `SchemaCheck` | the schema verification script |

## Model

| member | source | states |
|---|---|---|
| Upload.FindColumn | backend/app.py:346-352 | None exactly when no candidate accepts any header. Otherwise it is the original header of the first match in candidate-major, column-minor order. A header is accepted when its stripped lower-case form contains the lower-cased candidate, or is contained in it. |
| Upload.FirstMatchUnique | backend/app.py:348-351 | The first match is unique, so the priority order alone determines the header returned. |
| Upload.BlankHeaderAlwaysMatches | backend/app.py:347-350 | A header that is blank after strip is contained in every candidate, so `find_column` returns some header whenever the file has one. That header may itself be blank, and the endpoint may then find no usable column (see Upload.EmptyFirstHeaderHidesColumns). |
| Upload.FirstCandidateWins | backend/app.py:348-351 | Once the first candidate accepts some header, the header returned is one the first candidate accepts, even if an earlier column fits a later candidate. |
| Upload.DetectColumn | backend/app.py:364-377 | A column is detected exactly when `find_column` returns a header other than the empty string, since `if not phone_col` and `if name_col` treat '' like None. The detected column is that header. |
| Upload.EmptyFirstHeaderHidesColumns | backend/app.py:346-372 | When the first header is the empty string, it is the first match of every candidate list. So neither a phone nor a name column is detected, whatever the other headers are. |
| Upload.LastSegmentShape | backend/app.py:334 | `split('.')[-1]` contains no '.', is a suffix of the name, and is preceded by '.' whenever it is shorter than the name. |
| Upload.DotlessNameTreatedAsExtension | backend/app.py:333-335 | A file name without a '.' passes the extension test exactly when 'x.' + name does, so a file called "csv" is accepted. |
| Upload.ShortCsvRowYieldsNonePhone | backend/app.py:381 | As written, a CSV row missing its phone cell yields the phone "None" (see Findings). |
| Upload.ShortRowHasEmptyPhone | backend/app.py:411-413 | With the corrected reading, a missing phone cell yields '', which de-duplication drops. |
| Upload.DedupFacts | backend/app.py:379-387 | The kept phones are the input's phones minus ''. They are non-empty and pairwise distinct. |
| Upload.DedupMembers | backend/app.py:379-387 | Only input entries are kept, and the first entry of every non-empty phone is among them. |
| Upload.DedupPhones | backend/app.py:379-387 | The `seen_phones` loop keeps exactly the first occurrence of each non-empty phone, in input order. Its phones are pairwise distinct and non-empty, and its result equals the de-duplication used by the rest of the model. |
| Upload.ReadEntries | backend/app.py:364-387 | None exactly when no phone column is detected, which includes a phone header that is the empty string. |
| Upload.ReadEntriesFacts | backend/app.py:379-420 | The entries read are one per non-empty phone of the rows, each taken from the first row carrying that phone. Nothing else is read, and the phones are pairwise distinct. |
| Upload.RouteOf | backend/app.py:333-355 | A file is refused exactly when its extension is not allowed. It goes to the CSV reader exactly when its extension is '.csv', and every other allowed extension goes to pandas. |
| Upload.Classify | backend/app.py:328-441 | A file is skipped exactly when its name is empty. A file that is ready to assign holds at least one entry. |
| Upload.ClassifyEarlyExits | backend/app.py:333-433 | A disallowed extension gives 'Invalid file type'. A file aborts the request exactly when its extension is '.csv' and its bytes cannot be read as CSV. For an Excel extension, missing pandas and a pandas error each give their own error entry. |
| Upload.ClassifyParsedTable | backend/app.py:362-441 | For a parsed table, no detected phone column gives 'No phone column found', and no entries gives 'No valid records found'. Otherwise the file is ready with the entries read. |
| Upload.RoundRobin | backend/app.py:445-466 | The outcomes follow the round-robin rule. |
| Upload.RoundRobinUnique | backend/app.py:445-466 | The round-robin rule fixes every outcome, so any outcomes that follow it are these. |
| Upload.AssignOutcomes | backend/app.py:448-466 | Entry i is skipped exactly when its phone is already stored, counting phones added earlier in the same request. Otherwise it goes to `callers[i mod n]`, where the index also counts skipped entries. Afterwards the stored phones are the old ones plus the file's. |
| Upload.CreatedPlusSkipped | backend/app.py:445-467 | Every entry is counted once: records added plus duplicates skipped equals the number of entries. |
| Upload.CreatedFromSafe | backend/app.py:452-466 | If each added entry goes to a listed caller and its phone was stored neither before nor by an earlier entry, then the created records have new, pairwise distinct phones. Those phones are among the stored ones. |
| Upload.AssignFile | backend/app.py:444-467 | The whole per-file step obeys the round-robin rule. Added plus skipped equals found. Created phones are new and distinct, and the stored set grows by the file's phones. |
| Upload.ProcessFile | backend/app.py:328-478 | An empty filename is ignored, and an unreadable '.csv' file aborts the request. Each refusal gives its error entry, creates nothing and stores nothing. A ready file succeeds: it reports its entry count, creates the records of its round-robin outcomes, counts the skipped ones, and stores its phones. The created records are new, distinct and assigned to callers. The step is the reference step Upload.FileStepOf. |
| Upload.FileStepFits | backend/app.py:328-478 | A file's reference step crashes exactly when the file aborts, and is ignored exactly when its name is empty. A reported result fits the file, and its added count is the number of records created. The stored phones only grow, and the created records are new, distinct and assigned to listed callers. |
| Upload.ProcessFiles | backend/app.py:328-478 | The `for file in files` loop gives exactly the reference run Upload.RunFiles. That run takes the files in order, and reads each against the phones stored by the files before it (the session autoflushes before each lookup). It crashes exactly when the reference run does. Otherwise the results, the created records and the skipped total are the run's own. |
| Upload.RunStaysCrashed | backend/app.py:494-496 | Once a file has crashed the request, no later file brings it back: the exception ends the whole upload. |
| Upload.RunCrash | backend/app.py:328-441 | The run over the first n files crashes exactly when one of them aborts. |
| Upload.TallyNext | backend/app.py:444-476 | Adding a fitting step that does not crash keeps the tally right. There is one fitting result per named file, and the totals are the sums over the results. The created records stay new, distinct and assigned to callers. |
| Upload.RunTally | backend/app.py:328-478 | A run that does not crash has one fitting result per named file, in order. Its totals are the sums over those results, and its created records are new, distinct and assigned to callers. |
| Upload.RunFilesFacts | backend/app.py:328-478 | The reference run over all files crashes exactly when some file aborts. Otherwise it has one fitting result per named file, and its totals are the sums over the results. Its stored phones include the old ones, and its created records are new, distinct and assigned to callers. |
| Upload.SucceededPlusFailed | backend/app.py:488-489 | `files_processed + files_failed` equals the number of file results. |
| Upload.UploadFiles | backend/app.py:304-497 | Non-admins get 403; no files gives 400; no callers gives 400. Otherwise the answer is 500 exactly when some file aborts, that is, exactly when the reference run crashes. When the upload succeeds, its results, created records and skipped total are those of the reference run. Result k fits the k-th named file, and the counts and totals are those of the results. Every created record has a new, distinct phone and a caller id from the caller list. |
| Backend.UpdateRecord | backend/app.py:536-560 | An unknown record gives 404, even when the token's user is gone. 500 happens exactly when the record exists but the user does not. 403 exactly when a caller edits a record not assigned to them, and 200 exactly when the user and record exist and that check passes. On 200, only name, response and notes change, each only if present, plus the time stamp. On any other status nothing changes. |
| Backend.UpdateRecordIdempotent | backend/app.py:550-557 | Sending the same record update twice leaves the store as sending it once. |
| Backend.UpdateRecordKeepsVisitAndOwner | backend/app.py:550-557 | Visit state, visit author, phone and assigned caller never change through a record update, even if the body carries `visit` or `caller_id`. |
| Backend.CustomRoleMayEditAnyRecord | backend/app.py:545-546 | Any role other than 'caller' passes the ownership check on every existing record. |
| Backend.UpdateTask | backend/app.py:1240-1271 | An unknown task gives 404, even when the token's user is gone. 500 happens exactly when the task exists but the user does not. 403 exactly when a non-admin is not the assignee. On 200, status and progress are written if present; title, description, assignee and deadline only for an admin. Only that task changes. |
| Backend.NonAdminChangesOnlyStatusAndProgress | backend/app.py:1254-1266 | For a non-admin, every task field other than status, progress and the time stamp is unchanged, whatever the body holds. |
| Backend.UpdateTaskIsLocal | backend/app.py:1240-1271 | A task update leaves other tasks, the records and the admissions unchanged. |
| Backend.MarkVisit | backend/app.py:632-675 | The checks run in the source's order. An unknown user gives 500, because `user.role` is read on None. A non-admin gives 403, before the record lookup. A missing record then gives 404, and 200 is given exactly for an admin and an existing record. With `visit` in the body, the record's visit and `visit_by` are set. 'confirmed' appends exactly one certified row and one 'confirmed' admission for that record and user. The certified row copies the record's phone, name, caller name and response. Any other value appends nothing. Apart from visit, `visit_by` and the time stamp, the record is unchanged. |
| Backend.ConfirmTwiceAddsTwoAdmissions | backend/app.py:652-673 | Confirming an already confirmed record appends a second certified row and admission. |
| Backend.VisitsDoneCountsVisitedRecords | backend/app.py:966-967 | visited + confirmed equals the number of records whose visit is 'visited' or 'confirmed'. |
| Backend.NormalizeRoleIdempotent | backend/app.py:1456 | Stripping and lower-casing a role name twice gives the same result as once. |
| Backend.CreateRole | backend/app.py:1445-1465 | 200 exactly for an admin whose normalised name is non-empty and held by no user. The reply echoes the normalised name. Every other outcome is 400, 403 or 500 with no name. |
| Backend.CreatedRoleIsTakenOnceUsed | backend/app.py:1461-1463 | Once some user holds a role, a request whose normalised name is that role gets 400 and no role, whatever spacing or capitals it uses. |
| Backend.RewriteSchemeIdempotent | backend/app.py:24-26 | The rewritten URL never starts with 'postgres://', so rewriting again changes nothing. |
| Backend.DatabaseUrl | backend/app.py:20-26 | Startup fails exactly when both variables are unset or empty. Otherwise the first non-empty one, rewritten, is used, and it never carries the legacy scheme. |
| Backend.ServeStatic | backend/app.py:1710-1730 | 'api/' paths are unknown endpoints. Paths containing '.' are files, served when present and 404 otherwise. All other paths are unknown routes. The four cases cover every path and exclude each other. |
| Backend.ApiPathsNeverServeFiles | backend/app.py:1716-1718 | An 'api/' path answers 404 whatever the build folder holds. |
| ReminderQueue.TriggerNameRoundTrip | backend/add_reminder_tables.py:30 | The two trigger types and their column values convert into each other losslessly, in both directions. |
| ReminderQueue.ParseTrigger | backend/add_reminder_tables.py:30 | A column value reads back as a trigger type exactly when it is one of the two values the CHECK constraint allows. |
| CallerDashboard.ApplyPoll | frontend/src/components/CallerDashboard.js:69-91 | A positive count replaces the queue and raises the popup. A zero count or a failed request leaves queue and flag unchanged. |
| CallerDashboard.Without | frontend/src/components/CallerDashboard.js:94 | The remaining entries are exactly the entries whose `queue_id` differs from the argument. |
| CallerDashboard.WithoutKeepsOrder | frontend/src/components/CallerDashboard.js:94 | The filter distributes over concatenation, so the entries kept stay in order. |
| CallerDashboard.Dismiss | frontend/src/components/CallerDashboard.js:93-100 | The queue loses the entries with the id. The popup stays up only if it was up and the pre-update queue held more than one entry. |
| CallerDashboard.ShownAlarm | frontend/src/components/CallerDashboard.js:610-622 | An alarm is shown exactly when the flag is up and the queue is non-empty, and it is the head of the queue. |
| CallerDashboard.DismissShownAdvances | frontend/src/components/CallerDashboard.js:93-100 | Dismissing the shown alarm, with distinct queue ids, leaves the tail. The next alarm is `queue[1]`, or none when it was the last. |
| CallerDashboard.StaleLengthHidesRemainingAlarm | frontend/src/components/CallerDashboard.js:97-99 | Dismissing an id absent from a one-entry queue still hides the popup, leaving an entry queued with nothing shown. |
| CallerDashboard.StripPhoneFormatting | frontend/src/components/CallerDashboard.js:123 | The result holds no white space, '-', '(' or ')'. It keeps every other character of the input and adds none. |
| CallerDashboard.StripAppend | frontend/src/components/CallerDashboard.js:123 | Stripping two strings joined gives their stripped forms joined, so the kept characters stay in order. |
| CallerDashboard.StripSingle | frontend/src/components/CallerDashboard.js:123 | A single character is dropped exactly when it is white space, '-', '(' or ')'. |
| CallerDashboard.WhatsAppNumber | frontend/src/components/CallerDashboard.js:121-130 | The number holds no formatting characters. '91' is prepended exactly when the stripped number does not start with '+' or '91' and has length 10. |
| CallerDashboard.WhatsAppNumberIdempotent | frontend/src/components/CallerDashboard.js:123-130 | Formatting a formatted number again changes nothing. |
| CallerDashboard.StripClean | frontend/src/components/CallerDashboard.js:123 | A number free of spaces, dashes and parentheses comes out of the stripping step unchanged. |
| CallerDashboard.InitialType | frontend/src/components/CallerDashboard.js:182-189 | The control starts empty exactly for a ''/null response, and on 'other' exactly for a response outside the three fixed answers. |
| CallerDashboard.FinalResponse | frontend/src/components/CallerDashboard.js:196-205 | 'other' sends the free text and an unset control sends ''. Each fixed type sends one of 'Positive', 'Negative' and 'Not Picked'. |
| CallerDashboard.ResponseRoundTrip | frontend/src/components/CallerDashboard.js:182-205 | Classifying a stored response and submitting the classification returns it. This holds for 'Positive', 'Negative', 'Not Picked', free text, '' and null (which becomes ''). |
| CallerDashboard.UntouchedPayload | frontend/src/components/CallerDashboard.js:176-210 | Saving an untouched form sends name, response and notes as stored, with null read as ''. |
| CallerDashboard.ApplyRecordUpdate | frontend/src/components/CallerDashboard.js:154-168 | After a successful save, rows with the id take the update fields over their old values, and every other row is unchanged. After a failed save, nothing changes. |
| CallerDashboard.LocalMergeMatchesServer | frontend/src/components/CallerDashboard.js:156-161 | A row that mirrored the server's name, response and notes still mirrors them after a successful save. |
| AlarmPopup.PopupView | frontend/src/components/ReminderAlarmPopup.js:106-136 | Message, label, colour, hover colour, handler and note each take the advance branch exactly for '17h_before'. Any other value takes the exact-time branch. |
| AlarmPopup.ViewFollowsTriggerType | frontend/src/components/ReminderAlarmPopup.js:236 | For the two stored trigger types, the whole view, including the button's handler, follows the type. |
| AlarmPopup.OkButtonEffects | frontend/src/components/ReminderAlarmPopup.js:72-87 | Audio is stopped exactly when it started, and always before the dismissal is posted. The dismissal is always posted. `onDismiss` is called exactly when the post succeeded, and then last. |
| AlarmPopup.HandlersAgree | frontend/src/components/ReminderAlarmPopup.js:72-104 | `handleOkButton` and `handleStopAlarm` have identical effects. |
| AlarmPopup.Deliver | frontend/src/components/ReminderAlarmPopup.js:72-104 | Effects that contain no `onDismiss` call, as after a failed dismiss POST, leave the dashboard's queue and popup flag as they were. |
| AlarmPopup.ClickAdvancesQueue | frontend/src/components/ReminderAlarmPopup.js:236 | For either trigger type, pressing the shown alarm's button moves the dashboard to the queue's tail when the post succeeds, and changes nothing when it fails. |
| AlarmPopup.Step | frontend/src/components/ReminderAlarmPopup.js:15-57 | A step adds a beep only when a timer fires with the flag up. The flag never comes back up, and stop lowers it. |
| AlarmPopup.NoBeepAfterStop | frontend/src/components/ReminderAlarmPopup.js:15-16 | Once the flag is down, no sequence of timer firings or stops produces another beep. |
| AlarmPopup.BeepsWhilePlaying | frontend/src/components/ReminderAlarmPopup.js:43-48 | Until stopped, the alarm beeps once at start and once per timer firing. |
| ReminderModal.BuildRequest | frontend/src/components/ReminderModal.js:12-25 | No request when the date or time is empty. Otherwise the body carries the record id and date + 'T' + time + ':00'. |
| ReminderModal.Submit | frontend/src/components/ReminderModal.js:9-36 | A missing field only raises an alert. Otherwise loading goes on and the request is sent. On success there are six steps: the success alert, then `onSuccess`, then `onClose`. On failure there are four steps, with the failure alert third. Loading is reset last on both paths. |
| ReminderModal.ScheduledDateTimeRoundTrip | frontend/src/components/ReminderModal.js:20 | For a date without 'T', splitting the sent timestamp at its first 'T' and dropping ':00' gives back the date and time entered. |
| JsNumber.ParseInt | frontend/src/components/CustomDashboard.js:327-328 | NaN exactly when no digit of the chosen base follows the leading white space and one optional sign. After a '0x' or '0X' prefix the base is 16; otherwise it is 10. A number is read only from text that holds a digit. |
| JsNumber.ParseShowRoundTrip | frontend/src/components/CustomDashboard.js:327-328 | `parseInt` of an integer's decimal rendering is that integer. |
| TaskViews.IsOverdue | frontend/src/components/TaskManager.js:151-153 | A task without a deadline, or a completed task, is never overdue. Any other task is overdue exactly when its deadline is before now. |
| TaskViews.DisplayedStatus | frontend/src/components/TaskManager.js:250-253 | The task manager shows 'overdue' for an overdue task, and the stored status otherwise. A completed task always shows 'completed'. |
| TaskViews.StatusColor | frontend/src/components/TaskManager.js:142-149 | completed, in_progress and overdue get three distinct colours. Every other value is grey. |
| TaskViews.CallerStatusColor | frontend/src/components/CallerTasks.js:56-63 | completed is green and in_progress orange. Every other value, pending and overdue included, is grey. |
| TaskViews.StatusIcon | frontend/src/components/CustomDashboard.js:100-107 | The warning, check and cycle icons belong exactly to overdue, completed and in_progress. Every other status gets the clipboard. |
| TaskViews.ColorMapsDifferOnlyOnOverdue | frontend/src/components/CallerTasks.js:56-63 | The caller task list's colour map agrees with the task manager's on every status except 'overdue'. |
| TaskViews.OverdueBadgeIsRed | frontend/src/components/TaskManager.js:151-153 | Overdue requires a deadline before now and a status other than completed. An overdue task's badge is red, and a completed task's badge is green. |
| TaskViews.TaskIcon | frontend/src/components/CustomDashboard.js:109-111 | An overdue task shows the overdue icon regardless of its status. Otherwise it shows its status icon. |
| TaskViews.VisibleTasks | frontend/src/components/CustomDashboard.js:292 | The listed tasks are exactly those not completed. |
| TaskViews.VisibleTasksAppend | frontend/src/components/CustomDashboard.js:292 | Filtering two lists joined gives their filtered lists joined, so the listed tasks keep their order. |
| TaskViews.VisibleTasksSingle | frontend/src/components/CustomDashboard.js:292 | One task is listed on its own exactly when it is not completed. |
| TaskViews.ProgressInput | frontend/src/components/CustomDashboard.js:326-329 | Progress sent lies in 0..100. The status is 'in_progress' exactly when `parseInt` gives a positive number, else 'pending'. Unparsable input sends 0 and 'pending'. |
| TaskViews.ProgressInputConsistent | frontend/src/components/CustomDashboard.js:327-328 | The status sent is 'in_progress' exactly when the progress sent is positive. |
| TaskViews.ProgressInputOfNumber | frontend/src/components/CustomDashboard.js:327-328 | A typed integer n sends clamp(n, 0, 100), with status decided on the unclamped n: 150 sends 100 'in_progress', and -5 sends 0 'pending'. |
| TaskViews.CompletedTaskLeavesTheList | frontend/src/components/CustomDashboard.js:70-80 | Once the server accepts the complete button's body, the task is completed at 100, no longer overdue, and no longer listed. |
| TaskViews.CreateTaskBody | frontend/src/components/CustomDashboard.js:53-60 | An empty deadline is sent as null. Any other deadline is sent as typed. |
| TaskViews.ApplyTaskUpdate | frontend/src/components/TaskManager.js:129-140 | After a successful save, tasks with the id take the present update fields. Every other task is unchanged, and ids and positions are kept. |
| TaskViews.FindUser | frontend/src/components/TaskManager.js:236 | None exactly when no user has the id. Otherwise it is the position of the first user with that id. |
| TaskViews.AssigneeCell | frontend/src/components/TaskManager.js:206-238 | The assignee column exists exactly for admins. It shows the name of the first listed user with the assignee id, or 'Unknown' when there is none or that name is empty. |
| TaskViews.ProgressForStatus | frontend/src/components/CallerTasks.js:44-54 | A status change sends 100 exactly for 'completed', 50 exactly for 'in_progress', and 0 otherwise. |
| TaskViews.StatusProgressAgreesWithProgressInput | frontend/src/components/CallerTasks.js:48 | The progress the caller task list sends reads back through the custom dashboard's input as 'in_progress' exactly for completed or in-progress statuses. |
| TaskViews.CreateCallerTask | frontend/src/components/CallerTasks.js:27-42 | Nothing is sent exactly when the trimmed title is empty, and the form is then untouched. Otherwise only the draft (title, description, deadline) is sent, as typed. Success clears the draft and hides the form, failure keeps both, and loading ends on both paths. |
| TaskViews.BlankTitleNotSent | frontend/src/components/CallerTasks.js:29 | A title of white space alone is never sent. |
| ProgressDashboard.TotalResponsesAppend | frontend/src/components/ProgressDashboard.js:40 | The total of two lists of rows joined is the sum of their totals, so the total does not depend on how the rows are grouped. |
| ProgressDashboard.TotalResponsesBounds | frontend/src/components/ProgressDashboard.js:40 | Every caller's count is at most the total. The total is 0 exactly when no caller logged a response. |
| ProgressDashboard.TotalTarget | frontend/src/components/ProgressDashboard.js:41 | The target is 0 exactly when there are no callers, and it is always a multiple of 100. |
| ProgressDashboard.Percent | frontend/src/components/ProgressDashboard.js:42 | The percentage is non-negative, and the percentage times the base is 100 times the part. |
| ProgressDashboard.OverallPercentage | frontend/src/components/ProgressDashboard.js:40-42 | The percentage is 0 with no callers. Otherwise it times the target (100 per caller) equals the total responses times 100. |
| ProgressDashboard.StandingOf | frontend/src/components/ProgressDashboard.js:120-126 | 'Target Met' exactly from 100 responses, 'On Track' exactly for 75-99, and 'Behind' exactly below 75. |
| ProgressDashboard.TargetsMetCountsLabels | frontend/src/components/ProgressDashboard.js:74 | The Targets Met card equals the number of rows labelled 'Target Met'. |
| ProgressDashboard.TargetsMet | frontend/src/components/ProgressDashboard.js:74 | The Targets Met card never exceeds the number of callers. |
| ProgressDashboard.NoTargetsMet | frontend/src/components/ProgressDashboard.js:74 | The Targets Met card is 0 exactly when no caller reached 100 responses. |
| ProgressDashboard.AllMetAllCounted | frontend/src/components/ProgressDashboard.js:74 | When every caller has at least 100 responses, the Targets Met card shows the number of callers. |
| ProgressDashboard.TotalCoversTargetsMet | frontend/src/components/ProgressDashboard.js:40-74 | The total responses are at least 100 times the targets met. |
| ProgressDashboard.AllTargetsMetMeansFullProgress | frontend/src/components/ProgressDashboard.js:42 | When every caller met the target, the overall percentage is at least 100. |
| ProgressDashboard.ActiveTasksAreOpenTasks | frontend/src/components/ProgressDashboard.js:183 | For counts over one task list, total minus completed is the number of tasks not completed. |
| Routing.Restore | frontend/src/App.js:14-22 | The user is restored exactly when a non-empty token and user data are both stored. |
| Routing.Login | frontend/src/App.js:24-30 | After a login the user is set, and both the token and the user are stored. |
| Routing.Logout | frontend/src/App.js:32-36 | After a logout there is no user, and neither key is stored. |
| Routing.ReloadKeepsSession | frontend/src/App.js:24-36 | Restoring after a login with a token yields the logged-in session. Restoring after logout yields no user. |
| Routing.HomeRoute | frontend/src/App.js:50-53 | Admin goes to the admin home and caller to the caller home. Every other role goes to the custom home. |
| Routing.Resolve | frontend/src/App.js:46-104 | The admin, caller and custom dashboards render exactly for their roles, and the task manager for any user. Logged out, every route but the login form redirects to '/login'. Logged in, '/' and '/login' redirect home. |
| Routing.HomeRouteRenders | frontend/src/App.js:58-83 | A user's home route renders without a further redirect. Each user can open exactly one of the three dashboards. |
| Routing.ActiveTab | frontend/src/components/AdminDashboard.js:59-67 | The tab is one of the six names. It is 'dashboard' exactly when no tab name occurs in the path. Otherwise it is the first of upload, progress, visits, users, reports that the path contains. |
| Routing.ExactlyOneActive | frontend/src/components/AdminDashboard.js:82-103 | Exactly one nav item is marked active for every path. |
| SchemaCheck.CheckColumn | verify_database.py:60-68 | A column is missing exactly when its name is absent. It is OK exactly when present with the expected type 'USER-DEFINED' or with one type name containing the other. |
| SchemaCheck.CheckColumns | verify_database.py:58-80 | There is one report per required column, in order. The verdict is true exactly when every required name is present, so type mismatches are only reported. |
| SchemaCheck.VerdictIgnoresTypes | verify_database.py:64-65 | Two column maps with the same names give the same verdict whatever their types: a type mismatch never fails the check. |
| SchemaCheck.VerifyDatabase | verify_database.py:14-86 | A failed schema query gives false. Otherwise the result is true exactly when all eleven required columns of `records` exist. |
| SchemaCheck.ModelTableFailsCheck | verify_database.py:53 | A table holding exactly the backend's `Record` model columns fails the check: `hidden_from_caller` is required but not in the model. |

## Left out

- Flask routing, JWT decoding, SQLAlchemy queries and pagination, password hashing, CSV decoding and pandas/Excel reading are not modelled. A file's parsed header and rows are given as a table, or as one of the read failures.
- Excel cells are taken as the text pandas would produce. Numeric cells rendered with a trailing '.0' are not modelled.
- Upload.UploadFiles: takes the requesting user's role rather than their id, so the 500 for a token whose user was deleted is not modelled on this endpoint. The same applies to the crash when CSV field names are missing, which the model treats as an unreadable CSV.
- Upload.RouteOf: the extension test uses the ASCII lower-casing of Python's `str.lower` only; non-ASCII case mappings are not modelled. The same holds for Upload.FindColumn's header matching.
- Backend.NormalizeRole: lower-cases ASCII letters only, like the rest of the model; non-ASCII case mappings are not modelled.
- Upload.ReadEntries: reads a missing CSV cell as empty, which is the corrected reading (see Findings). The endpoint as written reads it as the text "None"; that reading is Upload.RowEntryAsWritten and is not threaded through the rest of the model.
- Upload.UploadFiles: the response's `message` and `final_distribution` fields are not modelled (backend/app.py:483-493). `message` is a text giving the number of files sent. `final_distribution` maps each caller's name to their record count, read back from the database after the commit.
- Upload.UploadFiles: column widths are not modelled. `phone_number` is `String(20)` and `name` is `String(100)` (backend/app.py:82-83). On PostgreSQL a longer value makes the commit fail, and the whole upload then answers 500 after a rollback (backend/app.py:494-496).
- The database's enum validation at commit time is not modelled: a visit or task status outside its enum, or an unparsable deadline, would fail at commit.
- Backend.UpdateTask: the deadline is taken already parsed (`datetime.fromisoformat`). An empty or null deadline is `Present(None)`.
- Floating-point results are not modelled: conversion and completion rates, finance sums and rounding of percentages. ProgressDashboard.OverallPercentage is exact real arithmetic rather than IEEE doubles.
- Timers, the Web Audio API, 30-second polling intervals and React's render scheduling are not modelled. One poll result, one timer firing and one handler run are each one pure step.
- The reminder evaluator and the queue endpoints (check, list, dismiss) are not in the backend file this model covers. Their answers are parameters, and the 17-hour offset is not modelled.
- Dates and times are integers. Time-zone handling, `new Date` parsing and `toLocaleString` are not modelled.
- JsNumber.ParseInt: returns unbounded integers. The loss of precision of JavaScript numbers above 2^53, and the signed zero of '-0', are not modelled (both read as the same progress here).
- CallerDashboard.WhatsAppNumber: counts length in Unicode code points rather than UTF-16 code units. They differ only for characters outside the Basic Multilingual Plane.
- Routing: serialising the user to `localStorage` with JSON is taken as lossless. The router's own path matching is reduced to the six route patterns.
- The record list's `tab` filter, DELETE of records and tasks, migration, seed and entry-point scripts, and the view-only screens (visit management, user management, reports, finance, supervisor, upload form, login form) are not modelled. They hold no rule beyond fetching and rendering.

## Findings

| source | as written | input that shows it | evidently intended | confidence | as-written member | corrected member |
|---|---|---|---|---|---|---|
| backend/app.py:381 | `str(row.get(phone_col, '')).strip()` turns a missing CSV cell, which `csv.DictReader` fills with None, into the text "None". "None" is non-empty, so it is uploaded as a phone number. | a CSV whose header is `name,phone` and a data row `Asha` with no second field | a missing phone cell is skipped, as the Excel branch does with `dropna` (backend/app.py:411-413) | not executed | Upload.ShortCsvRowYieldsNonePhone | Upload.ShortRowHasEmptyPhone |
