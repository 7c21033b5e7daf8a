/** The task screens' client-side rules: the custom-role dashboard's progress input,
    complete button, list filter and icons; the task manager's overdue display, colour
    map, assignee column and local merge; the caller task list's status-to-progress
    map, colours and create form. */
module TaskViews {
  import opened Wrappers
  import opened Text
  import opened JsNumber
  import Backend

  const Pending: string := "pending"
  const InProgress: string := "in_progress"
  const Completed: string := "completed"
  const Overdue: string := "overdue"

  /** A task as the views hold it. */
  datatype TaskRow = TaskRow(id: nat, title: string, description: Option<string>, assignedTo: nat,
                             deadline: Option<int>, status: string, progress: int)

  // ---------------------------------------------------------------------------
  // Overdue and what it changes on screen
  // ---------------------------------------------------------------------------

  /** `isOverdue`: a deadline exists, it has passed, and the task is not completed. */
  function IsOverdue(deadline: Option<int>, status: string, now: int): (r: bool)
    ensures deadline.None? || status == Completed ==> !r
    ensures deadline.Some? && status != Completed ==> (r <==> deadline.value < now)
  {
    deadline.Some? && deadline.value < now && status != Completed
  }

  /** The status the task manager prints: 'overdue' overrides the stored status. */
  function DisplayedStatus(t: TaskRow, now: int): (r: string)
    ensures r == Overdue <==> IsOverdue(t.deadline, t.status, now) || t.status == Overdue
    ensures r != Overdue ==> r == t.status
    ensures t.status == Completed ==> r == Completed
  {
    if IsOverdue(t.deadline, t.status, now) then Overdue else t.status
  }

  /** A status badge colour. */
  datatype Color = Green | Orange | Red | Grey

  /** `getStatusColor` of the task manager and the custom dashboard. */
  function StatusColor(status: string): (r: Color)
    ensures r == Green <==> status == Completed
    ensures r == Orange <==> status == InProgress
    ensures r == Red <==> status == Overdue
    ensures r == Grey <==> status !in {Completed, InProgress, Overdue}
  {
    if status == Completed then Green
    else if status == InProgress then Orange
    else if status == Overdue then Red
    else Grey
  }

  /** `getStatusColor` of the caller task list, which has no overdue entry. */
  function CallerStatusColor(status: string): (r: Color)
    ensures r == Green <==> status == Completed
    ensures r == Orange <==> status == InProgress
    ensures r == Grey <==> status != Completed && status != InProgress
  {
    if status == Completed then Green
    else if status == InProgress then Orange
    else Grey
  }

  /** The two colour maps differ on 'overdue' alone. */
  lemma ColorMapsDifferOnlyOnOverdue(status: string)
    ensures StatusColor(status) == CallerStatusColor(status) <==> status != Overdue
  {
  }

  /** The badge colour the task manager draws. */
  function BadgeColor(t: TaskRow, now: int): Color {
    StatusColor(DisplayedStatus(t, now))
  }

  /** An overdue task is drawn red whatever its stored status; a completed one is
      always green. */
  lemma OverdueBadgeIsRed(t: TaskRow, now: int)
    ensures IsOverdue(t.deadline, t.status, now) ==> BadgeColor(t, now) == Red
    ensures t.status == Completed ==> BadgeColor(t, now) == Green
  {
  }

  /** A status icon. */
  datatype Icon = CheckIcon | CycleIcon | WarningIcon | ClipboardIcon

  /** `getStatusIcon` of the custom dashboard. */
  function StatusIcon(status: string): (r: Icon)
    ensures r == WarningIcon <==> status == Overdue
    ensures r == CheckIcon <==> status == Completed
    ensures r == CycleIcon <==> status == InProgress
  {
    if status == Completed then CheckIcon
    else if status == InProgress then CycleIcon
    else if status == Overdue then WarningIcon
    else ClipboardIcon
  }

  /** The icon next to a listed task: the overdue icon whenever the task is overdue. */
  function TaskIcon(t: TaskRow, now: int): (r: Icon)
    ensures IsOverdue(t.deadline, t.status, now) ==> r == WarningIcon
    ensures !IsOverdue(t.deadline, t.status, now) ==> r == StatusIcon(t.status)
  {
    StatusIcon(if IsOverdue(t.deadline, t.status, now) then Overdue else t.status)
  }

  // ---------------------------------------------------------------------------
  // Custom-role dashboard
  // ---------------------------------------------------------------------------

  /** The tasks the custom dashboard lists: completed ones are hidden, the order kept. */
  function VisibleTasks(tasks: seq<TaskRow>): (r: seq<TaskRow>)
    ensures forall t :: t in r <==> t in tasks && t.status != Completed
    ensures |r| <= |tasks|
  {
    if |tasks| == 0 then []
    else if tasks[0].status == Completed then VisibleTasks(tasks[1..])
    else [tasks[0]] + VisibleTasks(tasks[1..])
  }

  /** The filter keeps the list order: filtering two lists joined is joining their
      filtered lists. */
  lemma {:induction false} VisibleTasksAppend(a: seq<TaskRow>, b: seq<TaskRow>)
    ensures VisibleTasks(a + b) == VisibleTasks(a) + VisibleTasks(b)
  {
    if |a| > 0 {
      assert (a + b)[0] == a[0];
      assert (a + b)[1..] == a[1..] + b;
      VisibleTasksAppend(a[1..], b);
    } else {
      assert a + b == b;
    }
  }

  /** One task is listed on its own exactly when it is not completed. */
  lemma VisibleTasksSingle(t: TaskRow)
    ensures VisibleTasks([t]) == (if t.status == Completed then [] else [t])
  {
    assert [t][1..] == [];
  }

  function Clamp(n: int): int {
    if n < 0 then 0 else if n > 100 then 100 else n
  }

  /** The body the progress input sends for the text it holds. */
  datatype ProgressPatch = ProgressPatch(progress: int, status: string)

  /** `progress: Math.min(100, Math.max(0, parseInt(v) || 0))` and
      `status: parseInt(v) > 0 ? 'in_progress' : 'pending'`. */
  function ProgressInput(value: string): (r: ProgressPatch)
    ensures 0 <= r.progress <= 100
    ensures r.status == InProgress <==> ParseInt(value).Some? && ParseInt(value).value > 0
    ensures r.status == InProgress || r.status == Pending
    ensures ParseInt(value).None? ==> r == ProgressPatch(0, Pending)
  {
    var parsed := ParseInt(value);
    ProgressPatch(Clamp(parsed.GetOr(0)),
                  if parsed.Some? && parsed.value > 0 then InProgress else Pending)
  }

  /** The status sent agrees with the clamped progress: 'in_progress' exactly when
      the progress sent is positive. */
  lemma ProgressInputConsistent(value: string)
    ensures ProgressInput(value).status == InProgress <==> ProgressInput(value).progress > 0
  {
  }

  /** For a typed integer the input sends the integer clamped to 0..100, and the
      status is decided on the unclamped value: 150 sends 100 'in_progress', -5
      sends 0 'pending'. */
  lemma ProgressInputOfNumber(n: int)
    ensures ProgressInput(Show(n)) == ProgressPatch(Clamp(n), if n > 0 then InProgress else Pending)
  {
    ParseShowRoundTrip(n);
  }

  /** `completeTask`'s body. */
  const CompletePatch: Backend.TaskPatch :=
    Backend.TaskPatch(Present(Completed), Present(100), Absent, Absent, Absent, Absent)

  /** Once the server accepts `completeTask`, the task is completed at 100%, no
      longer overdue and no longer listed by the custom dashboard. */
  lemma CompletedTaskLeavesTheList(db: Backend.Db, userId: nat, taskId: nat, now: int, later: int)
    requires Backend.UpdateTask(db, userId, taskId, CompletePatch, now).status == 200
    ensures var t := Backend.UpdateTask(db, userId, taskId, CompletePatch, now).db.tasks[taskId];
      var row := TaskRow(taskId, t.title, t.description, t.assignedTo, t.deadline, t.status, t.progress);
      && t.status == Completed && t.progress == 100
      && !IsOverdue(t.deadline, t.status, later)
      && VisibleTasks([row]) == []
  {
  }

  /** The body of `createTask`: an empty deadline is sent as null. */
  datatype NewTaskBody = NewTaskBody(title: string, description: string, deadline: Option<string>)

  function CreateTaskBody(title: string, description: string, deadline: string): (r: NewTaskBody)
    ensures r.title == title && r.description == description
    ensures r.deadline.None? <==> deadline == ""
    ensures r.deadline.Some? ==> r.deadline.value == deadline
  {
    NewTaskBody(title, description, if deadline == "" then None else Some(deadline))
  }

  // ---------------------------------------------------------------------------
  // Task manager
  // ---------------------------------------------------------------------------

  /** The keys of an update body; present ones override the row's values. */
  datatype TaskUpdates = TaskUpdates(status: Field<string>, progress: Field<int>, title: Field<string>,
                                     description: Field<Option<string>>, assignedTo: Field<nat>,
                                     deadline: Field<Option<int>>)

  function MergeTask(t: TaskRow, u: TaskUpdates): (r: TaskRow)
    ensures r.id == t.id
    ensures r.status == u.status.Or(t.status) && r.progress == u.progress.Or(t.progress)
    ensures r.title == u.title.Or(t.title) && r.description == u.description.Or(t.description)
    ensures r.assignedTo == u.assignedTo.Or(t.assignedTo) && r.deadline == u.deadline.Or(t.deadline)
  {
    TaskRow(t.id, u.title.Or(t.title), u.description.Or(t.description), u.assignedTo.Or(t.assignedTo),
            u.deadline.Or(t.deadline), u.status.Or(t.status), u.progress.Or(t.progress))
  }

  /** `updateTask`: once the PATCH succeeded, the tasks with the id take the update
      and every other task is kept in place; on failure nothing changes. */
  function ApplyTaskUpdate(tasks: seq<TaskRow>, id: nat, u: TaskUpdates, saved: bool): (r: seq<TaskRow>)
    ensures |r| == |tasks|
    ensures forall i :: 0 <= i < |tasks| ==> r[i].id == tasks[i].id
    ensures forall i :: 0 <= i < |tasks| && (!saved || tasks[i].id != id) ==> r[i] == tasks[i]
    ensures saved ==> forall i :: 0 <= i < |tasks| && tasks[i].id == id ==> r[i] == MergeTask(tasks[i], u)
  {
    seq(|tasks|, i requires 0 <= i < |tasks| =>
      if saved && tasks[i].id == id then MergeTask(tasks[i], u) else tasks[i])
  }

  /** `users.find(u => u.id === id)`: the position of the first user with the id. */
  function FindUser(users: seq<(nat, string)>, id: nat): (r: Option<nat>)
    ensures r.None? <==> forall i :: 0 <= i < |users| ==> users[i].0 != id
    ensures r.Some? ==> r.value < |users| && users[r.value].0 == id
    ensures r.Some? ==> forall i :: 0 <= i < r.value ==> users[i].0 != id
  {
    if |users| == 0 then None
    else if users[0].0 == id then Some(0)
    else match FindUser(users[1..], id)
      case None => None
      case Some(k) => Some(k + 1)
  }

  /** What the assignee column shows for a task: absent unless the viewer is an
      admin; otherwise the name of the first listed user with the task's assignee id,
      or 'Unknown' when there is none or the name is empty. */
  function AssigneeCell(role: string, users: seq<(nat, string)>, t: TaskRow): (r: Option<string>)
    ensures r.Some? <==> role == "admin"
    ensures r.Some? && r.value != "Unknown" ==>
      exists i :: 0 <= i < |users| && users[i] == (t.assignedTo, r.value)
    ensures r.Some? && (forall i :: 0 <= i < |users| ==> users[i].0 != t.assignedTo) ==> r.value == "Unknown"
    ensures role == "admin" ==> forall i ::
      (0 <= i < |users| && users[i].0 == t.assignedTo && forall j :: 0 <= j < i ==> users[j].0 != t.assignedTo) ==>
        r == Some(if users[i].1 == "" then "Unknown" else users[i].1)
  {
    if role != "admin" then None
    else match FindUser(users, t.assignedTo)
      case None => Some("Unknown")
      case Some(i) => Some(if users[i].1 == "" then "Unknown" else users[i].1)
  }

  // ---------------------------------------------------------------------------
  // Caller task list
  // ---------------------------------------------------------------------------

  /** `handleStatusChange`'s progress for the chosen status. */
  function ProgressForStatus(status: string): (r: int)
    ensures r == 100 <==> status == Completed
    ensures r == 50 <==> status == InProgress
    ensures r == 0 <==> status != Completed && status != InProgress
  {
    if status == Completed then 100 else if status == InProgress then 50 else 0
  }

  /** A status chosen in the caller task list and the progress sent with it agree
      with the custom dashboard's reading of a progress value. */
  lemma StatusProgressAgreesWithProgressInput(status: string)
    ensures ProgressInput(Show(ProgressForStatus(status))).status ==
      (if status == Completed || status == InProgress then InProgress else Pending)
  {
    ProgressInputOfNumber(ProgressForStatus(status));
  }

  /** `newTask`: the fields of the task being typed, the body the form posts. */
  datatype TaskDraft = TaskDraft(title: string, description: string, deadline: string)

  /** The new-task form: its draft, whether it is shown, and the loading flag. */
  datatype TaskForm = TaskForm(draft: TaskDraft, shown: bool, loading: bool)

  /** What `handleCreateTask` did: the body sent, if any, and the form afterwards. */
  datatype CreateStep = CreateStep(sent: Option<TaskDraft>, form: TaskForm)

  /** `handleCreateTask`: a title that is blank after trimming sends nothing and
      leaves the form alone; otherwise the draft is sent as typed, a success clears
      the draft and hides the form, and loading ends either way. */
  function CreateCallerTask(form: TaskForm, postOk: bool): (r: CreateStep)
    ensures r.sent.None? <==> JsTrim(form.draft.title) == ""
    ensures r.sent.None? ==> r.form == form
    ensures r.sent.Some? ==> r.sent.value == form.draft && !r.form.loading
    ensures r.sent.Some? && postOk ==> r.form.draft == TaskDraft("", "", "") && !r.form.shown
    ensures r.sent.Some? && !postOk ==> r.form.draft == form.draft && r.form.shown == form.shown
  {
    if JsTrim(form.draft.title) == "" then CreateStep(None, form)
    else if postOk then CreateStep(Some(form.draft), TaskForm(TaskDraft("", "", ""), false, false))
    else CreateStep(Some(form.draft), form.(loading := false))
  }

  /** A title of white space alone is never sent. */
  lemma BlankTitleNotSent(form: TaskForm, postOk: bool)
    requires forall i :: 0 <= i < |form.draft.title| ==> IsJsWhitespace(form.draft.title[i])
    ensures CreateCallerTask(form, postOk).sent.None?
  {
    BlankTrimsToEmpty(form.draft.title);
  }

  lemma {:induction false} BlankTrimsToEmpty(s: string)
    requires forall i :: 0 <= i < |s| ==> IsJsWhitespace(s[i])
    ensures JsTrim(s) == ""
  {
  }
}
