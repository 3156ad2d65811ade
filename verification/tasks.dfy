/**
 * The task lifecycle of `src/controller/TaskController.ts`: submission,
 * verification, the validation and default ordinal of a new task,
 * reordering, and the reset of recurrence when a task is updated.
 */
module Tasks {
  import opened Common
  import opened AuthService
  import opened ResourceSync

  /** The keys of the default statuses; a custom status has no key. */
  datatype StatusKey = NotSet | InProgress | Overdue | InVerification | DoneKey

  datatype TaskType = Single | ByParticipant | PerParticipant

  datatype SubmissionType = FileUpload | SimpleMark

  /** A task row: the fields the lifecycle reads or writes. */
  datatype Task = Task(
    id: int,
    project: int,
    phase: Option<int>,
    statusKey: Option<StatusKey>,
    ordinal: int,
    kind: TaskType,
    submissionType: SubmissionType,
    isRecurring: bool,
    hasFrequency: bool,
    assignee: Option<UserId>,
    verifier: Option<UserId>,
    submissionDate: Option<int>)

  /** A subtask row. */
  datatype Subtask = Subtask(
    id: int,
    task: int,
    title: string,
    description: Option<string>,
    statusKey: Option<StatusKey>,
    ordinal: int,
    assignee: Option<UserId>,
    submissionType: Option<SubmissionType>,
    autoGenerated: bool,
    submissionDate: Option<int>)

  /** `findOne({ where: { id } })` on the task table. */
  function TaskIndex(tasks: seq<Task>, id: int): (k: Option<nat>)
    ensures k.Some? ==> k.value < |tasks| && tasks[k.value].id == id && forall j :: 0 <= j < k.value ==> tasks[j].id != id
    ensures k.None? ==> forall j :: 0 <= j < |tasks| ==> tasks[j].id != id
  {
    FindIndex(tasks, (t: Task) => t.id == id)
  }

  /** Every subtask of task `id` has the DONE status. */
  predicate SubtasksDone(subs: seq<Subtask>, id: int)
  {
    forall j :: 0 <= j < |subs| && subs[j].task == id ==> subs[j].statusKey == Some(DoneKey)
  }

  /** The status a submitted task moves to: verification when it has a verifier. */
  function SubmittedKey(t: Task): StatusKey
  {
    if t.verifier.Some? then InVerification else DoneKey
  }

  /**
   * The folder check of a file submission: the entity's resource must exist
   * and have a corresponding folder, otherwise 404.
   */
  function UploadTarget(rs: seq<Resource>, kind: ResourceType, id: int): Option<Status>
  {
    match EntityIndex(rs, kind, id)
    case None => Some(NotFound)
    case Some(k) => if rs[k].folder.None? then Some(NotFound) else None
  }

  /**
   * `submitTask`: the status and the task table afterwards. `ownerMissing`
   * is an `ownerId` naming no user, `stored` the default keys present in the
   * status table, `now` the clock.
   */
  function SubmitSpec(tasks: seq<Task>, subs: seq<Subtask>, id: int, now: int, ownerMissing: bool, hasFile: bool,
                      rs: seq<Resource>, stored: set<StatusKey>): (Status, seq<Task>)
  {
    match TaskIndex(tasks, id)
    case None => (NotFound, tasks)
    case Some(k) =>
      var t := tasks[k];
      if t.statusKey == Some(DoneKey) || t.statusKey == Some(InVerification) then (BadRequest, tasks)
      else if !SubtasksDone(subs, t.id) then (BadRequest, tasks)
      else if ownerMissing then (NotFound, tasks)
      else if t.submissionType == FileUpload && t.kind == Single && !t.isRecurring && !hasFile then (BadRequest, tasks)
      else if t.submissionType == FileUpload && hasFile && UploadTarget(rs, TaskRes, t.id).Some? then (NotFound, tasks)
      else if SubmittedKey(t) !in stored then (ServerError, tasks)
      else (Ok, tasks[k := t.(statusKey := Some(SubmittedKey(t)), submissionDate := Some(now))])
  }

  /** `verifyTask`: only a task in verification moves to DONE. */
  function VerifySpec(tasks: seq<Task>, id: int, stored: set<StatusKey>): (Status, seq<Task>)
  {
    match TaskIndex(tasks, id)
    case None => (NotFound, tasks)
    case Some(k) =>
      if tasks[k].statusKey != Some(InVerification) then (BadRequest, tasks)
      else if DoneKey !in stored then (ServerError, tasks)
      else (Ok, tasks[k := tasks[k].(statusKey := Some(DoneKey))])
  }

  /** Where a new task goes and its ordinal. */
  datatype Placement = Placement(project: int, phase: Option<int>, ordinal: int)

  /**
   * How the set-up that `createTask` runs after saving the new task ends:
   * the frequency creation and subtask generation complete, one of them
   * throws, or generation never ends. `SubtaskGenerator.CreateTaskSetup`
   * computes it.
   */
  datatype Setup = SetupDone | SetupThrew | SetupRunsForever

  /** What `createTask` reads from its request; ids are 0 when absent and flags are truthiness. */
  datatype NewTask = NewTask(
    phaseParam: int,
    projectParam: int,
    hasTitle: bool,
    isRecurring: bool,
    hasRecurrenceDetails: bool,
    hasStartDate: bool,
    hasEndDate: bool,
    assigneeRejected: bool,
    verifierRejected: bool,
    ordinal: int,
    setup: Setup)

  /** The ordinals of the tasks a new task is numbered among. */
  function ScopeOrdinals(tasks: seq<Task>, project: int, phase: Option<int>): (r: seq<int>)
    ensures forall t :: t in tasks && (if phase.Some? then t.phase == phase else t.project == project) ==> t.ordinal in r
    ensures forall o :: o in r ==> exists t :: t in tasks && t.ordinal == o && (if phase.Some? then t.phase == phase else t.project == project)
  {
    if |tasks| == 0 then []
    else
      var rest := ScopeOrdinals(tasks[1..], project, phase);
      assert forall t :: t in tasks ==> t == tasks[0] || t in tasks[1..];
      if (if phase.Some? then tasks[0].phase == phase else tasks[0].project == project) then [tasks[0].ordinal] + rest else rest
  }

  /**
   * `createTask`: the checks in their order, then the placement of the
   * saved task; `phases` maps each phase id to its project. A phase id that
   * names no phase falls back to the project id. A set-up that throws
   * removes the task again and answers 400; one that never ends leaves the
   * task saved and sends no answer.
   */
  function CreateTaskSpec(tasks: seq<Task>, phases: map<int, int>, projects: set<int>, req: NewTask): (r: (Status, Option<Placement>))
    ensures r.0 in {Created, NoResponse} <==> r.1.Some?
    ensures r.0 in {Created, BadRequest, NotFound, NoResponse}
    ensures r.0 == NoResponse <==> r.1.Some? && req.setup == SetupRunsForever
  {
    if req.phaseParam == 0 && req.projectParam == 0 then (BadRequest, None)
    else if !req.hasTitle then (BadRequest, None)
    else
      var phase := if req.phaseParam != 0 && req.phaseParam in phases then Some(req.phaseParam) else None;
      var project :=
        if phase.Some? then Some(phases[phase.value])
        else if req.projectParam != 0 && req.projectParam in projects then Some(req.projectParam)
        else None;
      if project.None? then (NotFound, None)
      else if req.isRecurring && (!req.hasRecurrenceDetails || !req.hasStartDate || !req.hasEndDate) then (BadRequest, None)
      else if req.assigneeRejected || req.verifierRejected then (BadRequest, None)
      else
        var ordinal := if req.ordinal != 0 then req.ordinal else NextOrdinal(ScopeOrdinals(tasks, project.value, phase));
        match req.setup
        case SetupThrew => (BadRequest, None)
        case SetupRunsForever => (NoResponse, Some(Placement(project.value, phase, ordinal)))
        case SetupDone => (Created, Some(Placement(project.value, phase, ordinal)))
  }

  /** The subtasks of task `id` that `removeTaskAutogeneratedSubtasks` keeps, with every other subtask. */
  function RemoveAutogenerated(subs: seq<Subtask>, id: int): (r: seq<Subtask>)
    ensures forall s :: s in r <==> s in subs && (s.task != id || !s.autoGenerated || s.submissionDate.Some?)
    ensures |r| <= |subs|
  {
    if |subs| == 0 then []
    else
      var rest := RemoveAutogenerated(subs[1..], id);
      assert forall s :: s in subs <==> s == subs[0] || s in subs[1..];
      var s := subs[0];
      if s.task != id || !s.autoGenerated || s.submissionDate.Some? then [s] + rest else rest
  }

  /** The fields of an `updateTask` body that decide whether recurrence is reset. */
  datatype RecurrenceUpdate = RecurrenceUpdate(isRecurring: Option<bool>, hasRecurrenceDetails: bool, kind: Option<TaskType>)

  /**
   * The reset part of `updateTask`: `isRecurring` is written first, then
   * the reset test runs against the written value; a reset drops the
   * task's unsubmitted auto-generated subtasks and its recurrence.
   */
  function UpdateRecurrence(t: Task, subs: seq<Subtask>, u: RecurrenceUpdate): (Task, seq<Subtask>)
  {
    var written := if u.isRecurring.Some? then t.(isRecurring := u.isRecurring.value) else t;
    if (u.isRecurring.Some? && written.isRecurring != u.isRecurring.value) || u.hasRecurrenceDetails || Some(written.kind) != u.kind
    then (written.(isRecurring := false, hasFrequency := false), RemoveAutogenerated(subs, t.id))
    else (written, subs)
  }

  /** Whether a task is in the scope of a reorder request. */
  function InTaskScope(phaseParam: int, projectParam: int): Task -> bool
  {
    (t: Task) => if phaseParam != 0 then t.phase == Some(phaseParam) else t.project == projectParam
  }

  function TaskId(t: Task): int { t.id }

  function WithTaskOrdinal(t: Task, o: int): Task { t.(ordinal := o) }

  /** The task table with its subtasks, as the controller changes them. */
  class TaskTable {
    var tasks: seq<Task>
    var subtasks: seq<Subtask>

    constructor (ts: seq<Task>, ss: seq<Subtask>)
      ensures tasks == ts && subtasks == ss
    {
      tasks := ts;
      subtasks := ss;
    }

    /** `submitTask`. */
    method Submit(id: int, now: int, ownerMissing: bool, hasFile: bool, rs: seq<Resource>, stored: set<StatusKey>)
      returns (status: Status)
      modifies this
      ensures (status, tasks) == SubmitSpec(old(tasks), subtasks, id, now, ownerMissing, hasFile, rs, stored)
      ensures subtasks == old(subtasks)
    {
      var k := TaskIndex(tasks, id);
      if k.None? {
        return NotFound;
      }
      var task := tasks[k.value];
      if task.statusKey == Some(DoneKey) || task.statusKey == Some(InVerification) {
        return BadRequest;
      }
      var i := 0;
      while i < |subtasks|
        invariant 0 <= i <= |subtasks|
        invariant forall j :: 0 <= j < i && subtasks[j].task == task.id ==> subtasks[j].statusKey == Some(DoneKey)
      {
        if subtasks[i].task == task.id && subtasks[i].statusKey != Some(DoneKey) {
          return BadRequest;
        }
        i := i + 1;
      }
      if ownerMissing {
        return NotFound;
      }
      if task.submissionType == FileUpload && task.kind == Single && !task.isRecurring && !hasFile {
        return BadRequest;
      }
      if task.submissionType == FileUpload && hasFile {
        var missing := UploadTarget(rs, TaskRes, task.id);
        if missing.Some? {
          return missing.value;
        }
      }
      var key := if task.verifier.Some? then InVerification else DoneKey;
      if key !in stored {
        return ServerError;
      }
      task := task.(submissionDate := Some(now));
      task := task.(statusKey := Some(key));
      tasks := tasks[k.value := task];
      return Ok;
    }

    /** `verifyTask`. */
    method Verify(id: int, stored: set<StatusKey>) returns (status: Status)
      modifies this
      ensures (status, tasks) == VerifySpec(old(tasks), id, stored)
      ensures subtasks == old(subtasks)
    {
      var k := TaskIndex(tasks, id);
      if k.None? {
        return NotFound;
      }
      if tasks[k.value].statusKey != Some(InVerification) {
        return BadRequest;
      }
      if DoneKey !in stored {
        return ServerError;
      }
      tasks := tasks[k.value := tasks[k.value].(statusKey := Some(DoneKey))];
      return Ok;
    }

    /** `reorderTasks`: ids are 0 when the route lacks them. */
    method ReorderTasks(phaseParam: int, projectParam: int, list: ListField<OrderEntry>) returns (status: Status)
      modifies this
      ensures status == (if (phaseParam == 0 && projectParam == 0) || !list.List? || !EntriesValid(list.items) then BadRequest else Ok)
      ensures status == BadRequest ==> tasks == old(tasks)
      ensures status == Ok ==> (|tasks| == |old(tasks)| &&
        forall i :: 0 <= i < |tasks| ==>
          tasks[i] == Reordered(old(tasks)[i], TaskId, InTaskScope(phaseParam, projectParam), WithTaskOrdinal, list.items))
      ensures subtasks == old(subtasks)
    {
      if (phaseParam == 0 && projectParam == 0) || !list.List? {
        return BadRequest;
      }
      if !EntriesValid(list.items) {
        return BadRequest;
      }
      tasks := Reorder(tasks, TaskId, InTaskScope(phaseParam, projectParam), WithTaskOrdinal, list.items);
      return Ok;
    }
  }

  // ---------------------------------------------------------------------
  // The lifecycle
  // ---------------------------------------------------------------------

  /**
   * A successful submission: the task was neither done nor in
   * verification and all its subtasks were done; afterwards it is in
   * verification when it has a verifier and done otherwise, with the
   * submission date set, and no other task changes.
   */
  lemma SubmitSucceeds(tasks: seq<Task>, subs: seq<Subtask>, id: int, now: int, ownerMissing: bool, hasFile: bool, rs: seq<Resource>, stored: set<StatusKey>)
    requires SubmitSpec(tasks, subs, id, now, ownerMissing, hasFile, rs, stored).0 == Ok
    ensures var k := TaskIndex(tasks, id);
      var out := SubmitSpec(tasks, subs, id, now, ownerMissing, hasFile, rs, stored).1;
      k.Some? &&
      tasks[k.value].statusKey != Some(DoneKey) && tasks[k.value].statusKey != Some(InVerification) &&
      SubtasksDone(subs, id) && !ownerMissing &&
      |out| == |tasks| &&
      out[k.value].statusKey == Some(if tasks[k.value].verifier.Some? then InVerification else DoneKey) &&
      out[k.value].submissionDate == Some(now) &&
      (forall j :: 0 <= j < |tasks| && j != k.value ==> out[j] == tasks[j])
  {
  }

  /** A file-upload single task cannot be submitted without a file. */
  lemma FileRequiredForSingleUpload(tasks: seq<Task>, subs: seq<Subtask>, id: int, now: int, rs: seq<Resource>, stored: set<StatusKey>)
    requires TaskIndex(tasks, id).Some?
    requires var t := tasks[TaskIndex(tasks, id).value];
      t.submissionType == FileUpload && t.kind == Single && !t.isRecurring
    ensures SubmitSpec(tasks, subs, id, now, false, false, rs, stored).0 != Ok
  {
  }

  /** Rewriting the task found by id, keeping its id, keeps it the one found. */
  lemma IndexAfterUpdate(tasks: seq<Task>, id: int, k: nat, t: Task)
    requires TaskIndex(tasks, id) == Some(k) && t.id == id
    ensures TaskIndex(tasks[k := t], id) == Some(k)
  {
    var after := tasks[k := t];
    assert after[k].id == id;
    assert forall j :: 0 <= j < k ==> after[j] == tasks[j];
  }

  /** A task that was submitted cannot be submitted again. */
  lemma NoSecondSubmission(tasks: seq<Task>, subs: seq<Subtask>, id: int, now: int, ownerMissing: bool, hasFile: bool, rs: seq<Resource>, stored: set<StatusKey>,
                           now2: int, ownerMissing2: bool, hasFile2: bool)
    requires SubmitSpec(tasks, subs, id, now, ownerMissing, hasFile, rs, stored).0 == Ok
    ensures var after := SubmitSpec(tasks, subs, id, now, ownerMissing, hasFile, rs, stored).1;
      SubmitSpec(after, subs, id, now2, ownerMissing2, hasFile2, rs, stored) == (BadRequest, after)
  {
    var k := TaskIndex(tasks, id).value;
    var t := tasks[k];
    IndexAfterUpdate(tasks, id, k, t.(statusKey := Some(SubmittedKey(t)), submissionDate := Some(now)));
  }

  /**
   * Verification moves exactly the tasks in verification to DONE (given
   * the DONE status exists); every other status is refused.
   */
  lemma VerifyMeaning(tasks: seq<Task>, id: int, stored: set<StatusKey>)
    ensures var k := TaskIndex(tasks, id);
      var out := VerifySpec(tasks, id, stored);
      (out.0 == Ok <==> k.Some? && tasks[k.value].statusKey == Some(InVerification) && DoneKey in stored) &&
      (out.0 == Ok ==> out.1 == tasks[k.value := tasks[k.value].(statusKey := Some(DoneKey))]) &&
      (out.0 != Ok ==> out.1 == tasks)
  {
  }

  /**
   * The whole lifecycle of a task with a verifier: a submission puts it in
   * verification and a verification then makes it DONE; without a verifier
   * the submission makes it DONE at once and verification is refused.
   */
  lemma {:induction false} SubmitThenVerify(tasks: seq<Task>, subs: seq<Subtask>, id: int, now: int, hasFile: bool, rs: seq<Resource>, stored: set<StatusKey>)
    requires SubmitSpec(tasks, subs, id, now, false, hasFile, rs, stored).0 == Ok
    requires DoneKey in stored
    ensures var after := SubmitSpec(tasks, subs, id, now, false, hasFile, rs, stored).1;
      var k := TaskIndex(tasks, id).value;
      (tasks[k].verifier.Some? ==> VerifySpec(after, id, stored).0 == Ok && VerifySpec(after, id, stored).1[k].statusKey == Some(DoneKey)) &&
      (tasks[k].verifier.None? ==> after[k].statusKey == Some(DoneKey) && VerifySpec(after, id, stored).0 == BadRequest)
  {
    var k := TaskIndex(tasks, id).value;
    var t := tasks[k];
    var submitted := t.(statusKey := Some(SubmittedKey(t)), submissionDate := Some(now));
    IndexAfterUpdate(tasks, id, k, submitted);
    IndexAfterUpdate(tasks[k := submitted], id, k, submitted.(statusKey := Some(DoneKey)));
  }

  /**
   * A new saved task without an explicit ordinal goes after every task of
   * its phase (or of its project when it has no phase), starting at 1.
   */
  lemma DefaultTaskOrdinal(tasks: seq<Task>, phases: map<int, int>, projects: set<int>, req: NewTask)
    requires CreateTaskSpec(tasks, phases, projects, req).1.Some? && req.ordinal == 0
    ensures var p := CreateTaskSpec(tasks, phases, projects, req).1.value;
      p.ordinal >= 1 &&
      forall t :: t in tasks && (if p.phase.Some? then t.phase == p.phase else t.project == p.project) ==> t.ordinal < p.ordinal
  {
  }

  /**
   * `createTask` refuses a request with neither route id or without a
   * title, and answers 404 when neither id names a phase or project.
   */
  lemma CreateTaskRefusals(tasks: seq<Task>, phases: map<int, int>, projects: set<int>, req: NewTask)
    ensures req.phaseParam == 0 && req.projectParam == 0 ==> CreateTaskSpec(tasks, phases, projects, req) == (BadRequest, None)
    ensures !req.hasTitle ==> CreateTaskSpec(tasks, phases, projects, req).0 == BadRequest
    ensures (req.hasTitle && (req.phaseParam != 0 || req.projectParam != 0) &&
      !(req.phaseParam != 0 && req.phaseParam in phases) && !(req.projectParam != 0 && req.projectParam in projects)) ==>
      CreateTaskSpec(tasks, phases, projects, req) == (NotFound, None)
    ensures CreateTaskSpec(tasks, phases, projects, req).0 == Created ==>
      req.hasTitle && (req.isRecurring ==> req.hasRecurrenceDetails && req.hasStartDate && req.hasEndDate) &&
      req.setup == SetupDone
    ensures CreateTaskSpec(tasks, phases, projects, req).1.None? && req.setup == SetupDone ==>
      CreateTaskSpec(tasks, phases, projects, req).0 in {BadRequest, NotFound}
  {
  }

  /**
   * The `isRecurring` comparison in the reset test never fires: the value
   * was written just before, so only recurrence details or a type other
   * than the task's (an omitted type included) reset the recurrence.
   */
  lemma ResetIgnoresRecurringFlag(t: Task, subs: seq<Subtask>, u: RecurrenceUpdate)
    ensures var out := UpdateRecurrence(t, subs, u);
      var reset := u.hasRecurrenceDetails || Some(t.kind) != u.kind;
      (reset ==> !out.0.isRecurring && !out.0.hasFrequency && out.1 == RemoveAutogenerated(subs, t.id)) &&
      (!reset ==> out.1 == subs && out.0.isRecurring == (if u.isRecurring.Some? then u.isRecurring.value else t.isRecurring))
  {
  }

  /** An update that omits the type always drops the recurrence. */
  lemma OmittedTypeResets(t: Task, subs: seq<Subtask>, isRecurring: Option<bool>, details: bool)
    ensures var out := UpdateRecurrence(t, subs, RecurrenceUpdate(isRecurring, details, None));
      !out.0.isRecurring && !out.0.hasFrequency &&
      forall s :: s in out.1 ==> !(s.task == t.id && s.autoGenerated && s.submissionDate.None?)
  {
  }

  /** Dropping auto-generated subtasks twice drops nothing more. */
  lemma {:induction false} RemoveAutogeneratedIdempotent(subs: seq<Subtask>, id: int)
    ensures RemoveAutogenerated(RemoveAutogenerated(subs, id), id) == RemoveAutogenerated(subs, id)
  {
    if |subs| > 0 {
      RemoveAutogeneratedIdempotent(subs[1..], id);
    }
  }
}
