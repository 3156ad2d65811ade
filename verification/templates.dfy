/**
 * Project templates (`src/controller/TemplateController.ts`): template
 * phases and tasks with their ordinals and reorders, the role checks and
 * recurrence of template tasks, and template roles with the tasks they
 * are assigned to or verify.
 */
module Templates {
  import opened Common
  import opened AuthService
  import opened Tasks
  import opened Recurrence
  import opened ProjectRoles

  datatype TemplatePhase = TemplatePhase(id: int, template: int, name: string, description: Option<string>, ordinal: int)

  /** A `TemplateTask` row; `frequency` is its recurrence frequency, if any. */
  datatype TemplateTask = TemplateTask(
    id: int,
    template: int,
    phase: Option<int>,
    title: string,
    description: Option<string>,
    kind: TaskType,
    submissionType: SubmissionType,
    isRecurring: bool,
    frequency: Option<Frequency>,
    assigneeRole: Option<int>,
    verifierRole: Option<int>,
    ordinal: int)

  /** A `TemplateProjectRole` row; task relations are sets of task ids. */
  datatype TemplateRole = TemplateRole(
    template: int,
    name: string,
    description: Option<string>,
    isManaging: bool,
    assignedTasks: set<int>,
    verifyingTasks: set<int>)

  /** `findOne({ where: { id } })` on the template phases. */
  function PhaseIndex(phases: seq<TemplatePhase>, id: int): (k: Option<nat>)
    ensures k.Some? ==> k.value < |phases| && phases[k.value].id == id
    ensures k.None? ==> forall j :: 0 <= j < |phases| ==> phases[j].id != id
  {
    FindIndex(phases, (p: TemplatePhase) => p.id == id)
  }

  /** `findOne({ where: { id, project } })` on the template phases. */
  function PhaseOfTemplate(phases: seq<TemplatePhase>, id: int, template: int): (k: Option<nat>)
    ensures k.Some? ==> k.value < |phases| && phases[k.value].id == id && phases[k.value].template == template
    ensures k.None? ==> forall j :: 0 <= j < |phases| ==> !(phases[j].id == id && phases[j].template == template)
  {
    FindIndex(phases, (p: TemplatePhase) => p.id == id && p.template == template)
  }

  /** `findOne({ where: { id } })` on the template tasks. */
  function TemplateTaskIndex(tasks: seq<TemplateTask>, id: int): (k: Option<nat>)
    ensures k.Some? ==> k.value < |tasks| && tasks[k.value].id == id
    ensures k.None? ==> forall j :: 0 <= j < |tasks| ==> tasks[j].id != id
  {
    FindIndex(tasks, (t: TemplateTask) => t.id == id)
  }

  /** The role exists in the template and, when `managing` is asked for, is a managing role. */
  predicate RoleOfTemplate(roles: map<int, TemplateRole>, id: int, template: int, managing: bool)
  {
    id in roles && roles[id].template == template && (managing ==> roles[id].isManaging)
  }

  function PhaseId(p: TemplatePhase): int { p.id }

  function PhaseOrdinal(p: TemplatePhase): int { p.ordinal }

  function WithPhaseOrdinal(p: TemplatePhase, o: int): TemplatePhase { p.(ordinal := o) }

  function PhaseInTemplate(template: int): TemplatePhase -> bool
  {
    (p: TemplatePhase) => p.template == template
  }

  function TemplateTaskId(t: TemplateTask): int { t.id }

  function TemplateTaskOrdinal(t: TemplateTask): int { t.ordinal }

  function WithTemplateTaskOrdinal(t: TemplateTask, o: int): TemplateTask { t.(ordinal := o) }

  function TaskInTemplate(template: int): TemplateTask -> bool
  {
    (t: TemplateTask) => t.template == template
  }

  function TaskInPhase(phase: int): TemplateTask -> bool
  {
    (t: TemplateTask) => t.phase == Some(phase)
  }

  // ---------------------------------------------------------------------
  // Phases
  // ---------------------------------------------------------------------

  /**
   * `createTemplatePhase`: the template id and a name are required and the
   * template must exist; a given ordinal is used, else the next one.
   */
  function CreatePhaseSpec(templates: set<int>, phases: seq<TemplatePhase>, templateParam: int, name: string,
                           description: Option<string>, ordinal: int, newId: int): (Status, seq<TemplatePhase>)
  {
    if templateParam == 0 || name == "" then (BadRequest, phases)
    else if templateParam !in templates then (NotFound, phases)
    else
      var o := if ordinal != 0 then ordinal else NextOrdinal(OrdinalsWhere(phases, PhaseInTemplate(templateParam), PhaseOrdinal));
      (Created, phases + [TemplatePhase(newId, templateParam, name, description, o)])
  }

  /**
   * A phase is created exactly when the id and name are given and the
   * template exists; it is appended to the template, and without an
   * ordinal it is numbered after every phase of that template.
   */
  lemma CreatePhaseMeaning(templates: set<int>, phases: seq<TemplatePhase>, templateParam: int, name: string,
                           description: Option<string>, ordinal: int, newId: int)
    ensures var (status, after) := CreatePhaseSpec(templates, phases, templateParam, name, description, ordinal, newId);
      (status == Created <==> templateParam != 0 && name != "" && templateParam in templates) &&
      (status != Created ==> after == phases) &&
      (status == Created ==>
        |after| == |phases| + 1 && after[..|phases|] == phases &&
        after[|phases|].template == templateParam && after[|phases|].name == name &&
        (ordinal != 0 ==> after[|phases|].ordinal == ordinal) &&
        (ordinal == 0 ==> forall j :: 0 <= j < |phases| && phases[j].template == templateParam ==> phases[j].ordinal < after[|phases|].ordinal))
  {
    DefaultOrdinal(phases, PhaseInTemplate(templateParam), PhaseOrdinal);
    if templateParam != 0 && name != "" && templateParam in templates {
      var after := CreatePhaseSpec(templates, phases, templateParam, name, description, ordinal, newId).1;
      assert after[..|phases|] == phases;
    }
  }

  // ---------------------------------------------------------------------
  // Tasks
  // ---------------------------------------------------------------------

  /** The body of `createTemplateTask`; ids and the ordinal are 0 when absent. */
  datatype NewTemplateTask = NewTemplateTask(
    title: string,
    description: Option<string>,
    isRecurring: bool,
    submissionType: EnumText<SubmissionType>,
    kind: EnumText<TaskType>,
    recurrenceDetails: Option<FrequencyParams>,
    phaseParam: int,
    assigneeRoleId: int,
    verifierRoleId: int,
    ordinal: int)

  /** The template a new task goes to: the phase's when the phase exists, else the template named. */
  function TargetTemplate(templates: set<int>, phases: seq<TemplatePhase>, templateParam: int, phaseParam: int): Option<int>
  {
    var k := if phaseParam != 0 then PhaseIndex(phases, phaseParam) else None;
    if k.Some? then Some(phases[k.value].template)
    else if templateParam != 0 && templateParam in templates then Some(templateParam)
    else None
  }

  /** The ordinal a new task gets: the given one, else the next among its phase's tasks or its template's. */
  function NewTaskOrdinal(tasks: seq<TemplateTask>, phase: Option<int>, template: int, ordinal: int): int
  {
    if ordinal != 0 then ordinal
    else if phase.Some? then NextOrdinal(OrdinalsWhere(tasks, TaskInPhase(phase.value), TemplateTaskOrdinal))
    else NextOrdinal(OrdinalsWhere(tasks, TaskInTemplate(template), TemplateTaskOrdinal))
  }

  /** The row `createTemplateTask` saves before any frequency: valid enums, found roles and the phase when it exists. */
  function NewTaskRow(phases: seq<TemplatePhase>, tasks: seq<TemplateTask>, template: int, req: NewTemplateTask, newId: int)
    : TemplateTask
  {
    var k := if req.phaseParam != 0 then PhaseIndex(phases, req.phaseParam) else None;
    var phase := if k.Some? then Some(req.phaseParam) else None;
    TemplateTask(
      newId, template, phase, req.title, req.description,
      if req.kind.Valid? then req.kind.value else Single,
      if req.submissionType.Valid? then req.submissionType.value else SimpleMark,
      false, None,
      if req.assigneeRoleId != 0 then Some(req.assigneeRoleId) else None,
      if req.verifierRoleId != 0 then Some(req.verifierRoleId) else None,
      NewTaskOrdinal(tasks, phase, template, req.ordinal))
  }

  /**
   * `createTemplateTask`: a title is required (answered with 404), the
   * template must be found, a recurring task needs recurrence details,
   * the assignee role must belong to the template and the verifier role
   * must belong to it and be managing. A frequency that cannot be built
   * removes the saved task again and answers 400.
   */
  function CreateTemplateTaskSpec(templates: set<int>, phases: seq<TemplatePhase>, tasks: seq<TemplateTask>,
                                  roles: map<int, TemplateRole>, templateParam: int, req: NewTemplateTask,
                                  newId: int): (Status, seq<TemplateTask>)
  {
    if req.title == "" then (NotFound, tasks)
    else
      var template := TargetTemplate(templates, phases, templateParam, req.phaseParam);
      if template.None? then (NotFound, tasks)
      else if req.isRecurring && req.recurrenceDetails.None? then (BadRequest, tasks)
      else if req.assigneeRoleId != 0 && !RoleOfTemplate(roles, req.assigneeRoleId, template.value, false) then (BadRequest, tasks)
      else if req.verifierRoleId != 0 && !RoleOfTemplate(roles, req.verifierRoleId, template.value, true) then (BadRequest, tasks)
      else
        var task := NewTaskRow(phases, tasks, template.value, req, newId);
        if req.isRecurring then
          match CreateFrequency(req.recurrenceDetails.value)
          case Thrown(_) => (BadRequest, tasks)
          case Done(f) => (Created, tasks + [task.(isRecurring := true, frequency := Some(f))])
        else (Created, tasks + [task])
  }

  /** Every task's roles belong to its template, and its verifier role is a managing one. */
  ghost predicate TaskRolesValid(tasks: seq<TemplateTask>, roles: map<int, TemplateRole>)
  {
    forall j :: 0 <= j < |tasks| ==>
      (tasks[j].assigneeRole.Some? ==> RoleOfTemplate(roles, tasks[j].assigneeRole.value, tasks[j].template, false)) &&
      (tasks[j].verifierRole.Some? ==> RoleOfTemplate(roles, tasks[j].verifierRole.value, tasks[j].template, true))
  }

  /**
   * Creation refuses a missing title or template with 404 and the other
   * failed checks with 400, changing nothing; a created task is appended
   * with valid roles, a recurring one with a well-shaped frequency.
   */
  lemma CreateTemplateTaskMeaning(templates: set<int>, phases: seq<TemplatePhase>, tasks: seq<TemplateTask>,
                                  roles: map<int, TemplateRole>, templateParam: int, req: NewTemplateTask, newId: int)
    requires TaskRolesValid(tasks, roles)
    ensures var (status, after) := CreateTemplateTaskSpec(templates, phases, tasks, roles, templateParam, req, newId);
      var template := TargetTemplate(templates, phases, templateParam, req.phaseParam);
      status in {Created, BadRequest, NotFound} &&
      (status != Created ==> after == tasks) &&
      (status == NotFound <==> req.title == "" || template.None?) &&
      (status == Created ==>
        |after| == |tasks| + 1 && after[..|tasks|] == tasks && TaskRolesValid(after, roles) &&
        after[|tasks|].template == template.value && after[|tasks|].title == req.title &&
        (after[|tasks|].isRecurring <==> req.isRecurring) &&
        (after[|tasks|].frequency.Some? <==> req.isRecurring) &&
        (req.isRecurring ==> WellShaped(after[|tasks|].frequency.value)))
  {
    var (status, after) := CreateTemplateTaskSpec(templates, phases, tasks, roles, templateParam, req, newId);
    if status == Created {
      assert after[..|tasks|] == tasks;
      if req.isRecurring {
        CreatedFrequencyShape(req.recurrenceDetails.value);
      }
    }
  }

  /**
   * Without an ordinal a created task is numbered after every task of its
   * phase when it has one, else after every task of its template.
   */
  lemma DefaultTemplateTaskOrdinal(tasks: seq<TemplateTask>, phase: Option<int>, template: int)
    ensures var o := NewTaskOrdinal(tasks, phase, template, 0);
      o >= 1 &&
      (phase.Some? ==> forall j :: 0 <= j < |tasks| && tasks[j].phase == phase ==> tasks[j].ordinal < o) &&
      (phase.None? ==> forall j :: 0 <= j < |tasks| && tasks[j].template == template ==> tasks[j].ordinal < o)
  {
    if phase.Some? {
      DefaultOrdinal(tasks, TaskInPhase(phase.value), TemplateTaskOrdinal);
    } else {
      DefaultOrdinal(tasks, TaskInTemplate(template), TemplateTaskOrdinal);
    }
  }

  /** The body of `updateTemplateTask`; the ordinal is `None` when it is not a number. */
  datatype TemplateTaskPatch = TemplateTaskPatch(
    title: string,
    description: Field<string>,
    submissionType: EnumText<SubmissionType>,
    kind: EnumText<TaskType>,
    isRecurring: Option<bool>,
    phaseId: Field<int>,
    assigneeRoleId: Field<int>,
    verifierRoleId: Field<int>,
    recurrenceDetails: Option<FrequencyParams>,
    ordinal: Option<int>)

  /** A role or phase id field that is present but falsy: `null` or 0. */
  predicate Cleared(f: Field<int>)
  {
    f.NullField? || f == Given(0)
  }

  /** The fields `updateTemplateTask` writes before its checks of roles and phase. */
  function PatchedFields(t: TemplateTask, p: TemplateTaskPatch): (r: TemplateTask)
    ensures r.(kind := t.kind, title := t.title, description := t.description, submissionType := t.submissionType,
               isRecurring := t.isRecurring) == t
    ensures p.kind.Valid? ==> r.kind == p.kind.value
  {
    var t1 := if p.kind.Valid? then t.(kind := p.kind.value) else t;
    var t2 := if p.title != "" then t1.(title := p.title) else t1;
    var t3 := match p.description
      case Missing => t2
      case NullField => t2.(description := None)
      case Given(d) => t2.(description := Some(d));
    var t4 := if p.submissionType.Valid? then t3.(submissionType := p.submissionType.value) else t3;
    if p.isRecurring.Some? then t4.(isRecurring := p.isRecurring.value) else t4
  }

  /** A given, truthy role or phase id that fails its lookup in the task's template. */
  predicate PatchRefused(phases: seq<TemplatePhase>, roles: map<int, TemplateRole>, template: int, p: TemplateTaskPatch)
  {
    (p.assigneeRoleId.Given? && p.assigneeRoleId.value != 0 && !RoleOfTemplate(roles, p.assigneeRoleId.value, template, false)) ||
    (p.verifierRoleId.Given? && p.verifierRoleId.value != 0 && !RoleOfTemplate(roles, p.verifierRoleId.value, template, true)) ||
    (p.phaseId.Given? && p.phaseId.value != 0 && PhaseOfTemplate(phases, p.phaseId.value, template).None?)
  }

  /** The assignee role and phase a patch writes: kept when omitted, cleared when falsy, else the id. */
  function WithRoleAndPhase(t: TemplateTask, p: TemplateTaskPatch): (r: TemplateTask)
    ensures r.(assigneeRole := t.assigneeRole, phase := t.phase) == t
    ensures r.assigneeRole.Some? && r.assigneeRole != t.assigneeRole ==>
      p.assigneeRoleId.Given? && r.assigneeRole.value == p.assigneeRoleId.value && p.assigneeRoleId.value != 0
  {
    var t1 :=
      if p.assigneeRoleId.Missing? then t
      else if Cleared(p.assigneeRoleId) then t.(assigneeRole := None)
      else t.(assigneeRole := Some(p.assigneeRoleId.value));
    if p.phaseId.Missing? then t1
    else if Cleared(p.phaseId) then t1.(phase := None)
    else t1.(phase := Some(p.phaseId.value))
  }

  /**
   * The recurrence and ordinal steps: the reset test runs on the task as
   * already written, so the type comparison fails exactly when the type
   * was omitted; a recurring task with details gets a new frequency, or
   * the handler throws.
   */
  function WithRecurrence(t: TemplateTask, p: TemplateTaskPatch): (r: Outcome<TemplateTask>)
    ensures r.Done? ==> r.value.(isRecurring := t.isRecurring, frequency := t.frequency, ordinal := t.ordinal) == t
  {
    var reset :=
      (p.isRecurring.Some? && t.isRecurring != p.isRecurring.value) || p.recurrenceDetails.Some? ||
      !(p.kind.Valid? && t.kind == p.kind.value);
    var t1 := if reset then t.(isRecurring := false, frequency := None) else t;
    var t2 :=
      if p.isRecurring == Some(true) && p.recurrenceDetails.Some? then
        match CreateFrequency(p.recurrenceDetails.value)
        case Thrown(m) => Thrown(m)
        case Done(f) => Done(t1.(frequency := Some(f), isRecurring := true))
      else Done(t1);
    if t2.Done? && p.ordinal.Some? && p.ordinal.value != 0 then Done(t2.value.(ordinal := p.ordinal.value)) else t2
  }

  /**
   * `updateTemplateTask`: the enum fields must be valid, the task must
   * exist, a given assignee role and verifier role must belong to the
   * task's template (the verifier's must be managing) and a given phase to
   * the template. The verifier role is checked but never written. The
   * recurrence is reset when the type is omitted or details are sent, and
   * rebuilt when the task is recurring and details are sent.
   */
  function UpdateTemplateTaskSpec(phases: seq<TemplatePhase>, tasks: seq<TemplateTask>, roles: map<int, TemplateRole>,
                                  idParam: int, p: TemplateTaskPatch): (Status, seq<TemplateTask>)
  {
    if idParam == 0 || p.kind.Invalid? || p.submissionType.Invalid? then (BadRequest, tasks)
    else
      var k := TemplateTaskIndex(tasks, idParam);
      if k.None? then (NotFound, tasks)
      else
        var t := tasks[k.value];
        if PatchRefused(phases, roles, t.template, p) then (BadRequest, tasks)
        else
          match WithRecurrence(WithRoleAndPhase(PatchedFields(t, p), p), p)
          case Thrown(_) => (ServerError, tasks)
          case Done(t2) => (Created, tasks[k.value := t2])
  }

  /** The fields an accepted patch never writes. */
  lemma EditKeeps(phases: seq<TemplatePhase>, roles: map<int, TemplateRole>, t: TemplateTask, p: TemplateTaskPatch)
    requires !PatchRefused(phases, roles, t.template, p)
    ensures var r := WithRecurrence(WithRoleAndPhase(PatchedFields(t, p), p), p);
      r.Done? ==>
        r.value.id == t.id && r.value.template == t.template && r.value.verifierRole == t.verifierRole &&
        (r.value.assigneeRole.Some? ==>
          r.value.assigneeRole == t.assigneeRole || RoleOfTemplate(roles, r.value.assigneeRole.value, t.template, false))
  {
  }

  /**
   * An update answers 201 or changes nothing; it changes one task, keeps
   * its id, template and verifier role, gives it only an assignee role of
   * its template, and keeps valid roles valid.
   */
  lemma UpdateTemplateTaskMeaning(phases: seq<TemplatePhase>, tasks: seq<TemplateTask>, roles: map<int, TemplateRole>,
                                  idParam: int, p: TemplateTaskPatch)
    requires TaskRolesValid(tasks, roles)
    ensures var (status, after) := UpdateTemplateTaskSpec(phases, tasks, roles, idParam, p);
      status in {Created, BadRequest, NotFound, ServerError} &&
      (status != Created ==> after == tasks) &&
      |after| == |tasks| && TaskRolesValid(after, roles) &&
      (forall j :: 0 <= j < |tasks| && tasks[j].id != idParam ==> after[j] == tasks[j]) &&
      (forall j :: 0 <= j < |tasks| ==>
        after[j].id == tasks[j].id && after[j].template == tasks[j].template && after[j].verifierRole == tasks[j].verifierRole)
  {
    var k := TemplateTaskIndex(tasks, idParam);
    if idParam != 0 && !p.kind.Invalid? && !p.submissionType.Invalid? && k.Some? &&
       !PatchRefused(phases, roles, tasks[k.value].template, p) {
      EditKeeps(phases, roles, tasks[k.value], p);
    }
  }

  /** An update that omits the type drops the recurrence unless it rebuilds one. */
  lemma TemplateOmittedTypeResets(phases: seq<TemplatePhase>, tasks: seq<TemplateTask>, roles: map<int, TemplateRole>,
                                  idParam: int, p: TemplateTaskPatch)
    requires p.kind == NoText && !(p.isRecurring == Some(true) && p.recurrenceDetails.Some?)
    requires UpdateTemplateTaskSpec(phases, tasks, roles, idParam, p).0 == Created
    ensures var k := TemplateTaskIndex(tasks, idParam).value;
      var after := UpdateTemplateTaskSpec(phases, tasks, roles, idParam, p).1;
      !after[k].isRecurring && after[k].frequency.None?
  {
  }

  /**
   * The test of a changed recurring flag runs after the flag is written,
   * so marking a task recurring without details keeps it without a
   * frequency.
   */
  lemma RecurringWithoutFrequency(phases: seq<TemplatePhase>, tasks: seq<TemplateTask>, roles: map<int, TemplateRole>,
                                  idParam: int, p: TemplateTaskPatch)
    requires p.kind.Valid? && p.isRecurring == Some(true) && p.recurrenceDetails.None?
    requires UpdateTemplateTaskSpec(phases, tasks, roles, idParam, p).0 == Created
    requires tasks[TemplateTaskIndex(tasks, idParam).value].frequency.None?
    ensures var k := TemplateTaskIndex(tasks, idParam).value;
      var after := UpdateTemplateTaskSpec(phases, tasks, roles, idParam, p).1;
      after[k].isRecurring && after[k].frequency.None?
  {
  }

  // ---------------------------------------------------------------------
  // Roles
  // ---------------------------------------------------------------------

  /** `updateTemplateRole`: a truthy name, a present description and a present managing flag are applied. */
  function UpdateTemplateRoleSpec(roles: map<int, TemplateRole>, idParam: int, name: string, description: Field<string>,
                                  isManaging: JsonValue): (Status, map<int, TemplateRole>)
  {
    if idParam == 0 then (BadRequest, roles)
    else if idParam !in roles then (NotFound, roles)
    else
      var r := roles[idParam];
      var r1 := if name != "" then r.(name := name) else r;
      var r2 := match description
        case Missing => r1
        case NullField => r1.(description := None)
        case Given(d) => r1.(description := Some(d));
      var r3 :=
        if isManaging.Undefined? then r2
        else if Truthy(isManaging) then r2.(isManaging := true)
        else r2.(isManaging := false, verifyingTasks := {});
      (Ok, roles[idParam := r3])
  }

  /** The ids of the listed tasks that exist in the template. */
  function FoundTemplateTasks(ids: seq<int>, tasks: seq<TemplateTask>, template: int): (r: set<int>)
    ensures forall t :: t in r <==> t in ids && exists j :: 0 <= j < |tasks| && tasks[j].id == t && tasks[j].template == template
  {
    set t | t in ids && exists j :: 0 <= j < |tasks| && tasks[j].id == t && tasks[j].template == template
  }

  /**
   * `updateTemplateRoleTasks`. The exclusion of tasks the role already
   * holds compares entity objects and excludes nothing; verifying tasks
   * may be added only to a managing role.
   */
  function UpdateTemplateRoleTasksSpec(roles: map<int, TemplateRole>, tasks: seq<TemplateTask>, idParam: int,
                                       addTasks: ListField<int>, removeTasks: ListField<int>,
                                       addVerifying: ListField<int>, removeVerifying: ListField<int>): (Status, map<int, TemplateRole>)
  {
    if idParam == 0 then (BadRequest, roles)
    else if idParam !in roles then (NotFound, roles)
    else
      var r := roles[idParam];
      var r1 := if addTasks.List? then r.(assignedTasks := r.assignedTasks + FoundTemplateTasks(addTasks.items, tasks, r.template)) else r;
      var r2 := if removeTasks.List? then r1.(assignedTasks := r1.assignedTasks - Listed(removeTasks.items)) else r1;
      if addVerifying.List? && !r.isManaging then (BadRequest, roles)
      else
        var r3 := if addVerifying.List? then r2.(verifyingTasks := r2.verifyingTasks + FoundTemplateTasks(addVerifying.items, tasks, r.template)) else r2;
        var r4 := if removeVerifying.List? then r3.(verifyingTasks := r3.verifyingTasks - Listed(removeVerifying.items)) else r3;
        (Ok, roles[idParam := r4])
  }

  /** Only managing roles verify tasks. */
  predicate VerifyingOnlyManagingRoles(roles: map<int, TemplateRole>)
  {
    forall id :: id in roles && roles[id].verifyingTasks != {} ==> roles[id].isManaging
  }

  /** Every task a role holds is a task of the role's template. */
  ghost predicate RoleTasksInTemplate(roles: map<int, TemplateRole>, tasks: seq<TemplateTask>)
  {
    forall id, t :: id in roles && (t in roles[id].assignedTasks || t in roles[id].verifyingTasks) ==>
      exists j :: 0 <= j < |tasks| && tasks[j].id == t && tasks[j].template == roles[id].template
  }

  /** Updating a role's tasks keeps verification on managing roles and role tasks inside the template. */
  lemma TemplateRoleTasksKeepInvariants(roles: map<int, TemplateRole>, tasks: seq<TemplateTask>, idParam: int,
                                        addTasks: ListField<int>, removeTasks: ListField<int>,
                                        addVerifying: ListField<int>, removeVerifying: ListField<int>)
    requires VerifyingOnlyManagingRoles(roles) && RoleTasksInTemplate(roles, tasks)
    ensures var out := UpdateTemplateRoleTasksSpec(roles, tasks, idParam, addTasks, removeTasks, addVerifying, removeVerifying).1;
      VerifyingOnlyManagingRoles(out) && RoleTasksInTemplate(out, tasks)
  {
    var (status, out) := UpdateTemplateRoleTasksSpec(roles, tasks, idParam, addTasks, removeTasks, addVerifying, removeVerifying);
    if status == Ok {
      var r, r' := roles[idParam], out[idParam];
      assert r'.template == r.template && (r'.verifyingTasks != {} ==> r.isManaging);
      forall id, t | id in out && (t in out[id].assignedTasks || t in out[id].verifyingTasks)
        ensures exists j :: 0 <= j < |tasks| && tasks[j].id == t && tasks[j].template == out[id].template
      {
        if id == idParam && !(t in r.assignedTasks || t in r.verifyingTasks) {
          assert (addTasks.List? && t in FoundTemplateTasks(addTasks.items, tasks, r.template)) ||
                 (addVerifying.List? && t in FoundTemplateTasks(addVerifying.items, tasks, r.template));
        }
      }
    }
  }

  /** Updating a role's fields keeps verification on managing roles and role tasks inside the template. */
  lemma TemplateRoleUpdateKeepsInvariants(roles: map<int, TemplateRole>, tasks: seq<TemplateTask>, idParam: int,
                                          name: string, description: Field<string>, isManaging: JsonValue)
    requires VerifyingOnlyManagingRoles(roles) && RoleTasksInTemplate(roles, tasks)
    ensures var out := UpdateTemplateRoleSpec(roles, idParam, name, description, isManaging).1;
      VerifyingOnlyManagingRoles(out) && RoleTasksInTemplate(out, tasks)
  {
    var (status, out) := UpdateTemplateRoleSpec(roles, idParam, name, description, isManaging);
    if status == Ok {
      var r, r' := roles[idParam], out[idParam];
      assert r'.template == r.template && r'.assignedTasks == r.assignedTasks && r'.verifyingTasks <= r.verifyingTasks;
    }
  }

  /**
   * The effect of an accepted task update on the role: assigned and
   * verifying tasks gain the listed tasks of the template and lose the
   * listed removals; a non-managing role refuses verifying tasks.
   */
  lemma TemplateRoleTasksEffect(roles: map<int, TemplateRole>, tasks: seq<TemplateTask>, idParam: int,
                                addTasks: ListField<int>, removeTasks: ListField<int>,
                                addVerifying: ListField<int>, removeVerifying: ListField<int>)
    requires idParam != 0 && idParam in roles
    ensures var (status, out) := UpdateTemplateRoleTasksSpec(roles, tasks, idParam, addTasks, removeTasks, addVerifying, removeVerifying);
      var r := roles[idParam];
      (status == BadRequest <==> addVerifying.List? && !r.isManaging) &&
      (status == BadRequest ==> out == roles) &&
      (status == Ok ==>
        (forall t :: t in out[idParam].assignedTasks <==>
          (t in r.assignedTasks || (addTasks.List? && t in FoundTemplateTasks(addTasks.items, tasks, r.template))) &&
          !(removeTasks.List? && t in removeTasks.items)) &&
        (forall t :: t in out[idParam].verifyingTasks <==>
          (t in r.verifyingTasks || (addVerifying.List? && t in FoundTemplateTasks(addVerifying.items, tasks, r.template))) &&
          !(removeVerifying.List? && t in removeVerifying.items)) &&
        forall id :: id in roles && id != idParam ==> id in out && out[id] == roles[id])
  {
  }

  /** Adding a task the role already verifies also assigns it. */
  lemma TemplateVerifyingTaskAlsoAssigned(roles: map<int, TemplateRole>, tasks: seq<TemplateTask>, idParam: int, items: seq<int>, t: int)
    requires idParam != 0 && idParam in roles && t in roles[idParam].verifyingTasks && t in items
    requires exists j :: 0 <= j < |tasks| && tasks[j].id == t && tasks[j].template == roles[idParam].template
    ensures var (status, out) := UpdateTemplateRoleTasksSpec(roles, tasks, idParam, List(items), NoList, NoList, NoList);
      status == Ok && t in out[idParam].assignedTasks && t in out[idParam].verifyingTasks
  {
  }

  /** Making a template role non-managing drops its verifying tasks and keeps its assigned tasks. */
  lemma TemplateRoleUpdateEffect(roles: map<int, TemplateRole>, idParam: int, name: string, description: Field<string>,
                                 isManaging: JsonValue)
    requires idParam != 0 && idParam in roles
    ensures var (status, out) := UpdateTemplateRoleSpec(roles, idParam, name, description, isManaging);
      var r := roles[idParam];
      status == Ok &&
      out[idParam].name == (if name != "" then name else r.name) &&
      out[idParam].isManaging == (if isManaging.Undefined? then r.isManaging else Truthy(isManaging)) &&
      out[idParam].verifyingTasks == (if !isManaging.Undefined? && !Truthy(isManaging) then {} else r.verifyingTasks) &&
      out[idParam].assignedTasks == r.assignedTasks && out[idParam].template == r.template
  {
  }

  // ---------------------------------------------------------------------
  // The template tables
  // ---------------------------------------------------------------------

  /** The template tables the handlers change. */
  class TemplateStore {
    var templates: set<int>
    var phases: seq<TemplatePhase>
    var tasks: seq<TemplateTask>
    var roles: map<int, TemplateRole>

    constructor (ts: set<int>, ps: seq<TemplatePhase>, tks: seq<TemplateTask>, rs: map<int, TemplateRole>)
      ensures templates == ts && phases == ps && tasks == tks && roles == rs
    {
      templates := ts;
      phases := ps;
      tasks := tks;
      roles := rs;
    }

    /** `createTemplatePhase`. */
    method CreatePhase(templateParam: int, name: string, description: Option<string>, ordinal: int, newId: int)
      returns (status: Status)
      modifies this
      ensures (status, phases) == CreatePhaseSpec(templates, old(phases), templateParam, name, description, ordinal, newId)
      ensures templates == old(templates) && tasks == old(tasks) && roles == old(roles)
    {
      if templateParam == 0 || name == "" {
        return BadRequest;
      }
      if templateParam !in templates {
        return NotFound;
      }
      var phase := TemplatePhase(newId, templateParam, name, description, 0);
      if ordinal != 0 {
        phase := phase.(ordinal := ordinal);
      } else {
        phase := phase.(ordinal := NextOrdinal(OrdinalsWhere(phases, PhaseInTemplate(templateParam), PhaseOrdinal)));
      }
      phases := phases + [phase];
      return Created;
    }

    /** `reorderTemplatePhases`: listed phases of the template take their new ordinals. */
    method ReorderPhases(templateParam: int, list: ListField<OrderEntry>) returns (status: Status)
      modifies this
      ensures status == (if templateParam == 0 || !list.List? || !EntriesValid(list.items) then BadRequest else Ok)
      ensures status == BadRequest ==> phases == old(phases)
      ensures status == Ok ==> (|phases| == |old(phases)| &&
        forall i :: 0 <= i < |phases| ==>
          phases[i] == Reordered(old(phases)[i], PhaseId, PhaseInTemplate(templateParam), WithPhaseOrdinal, list.items))
      ensures templates == old(templates) && tasks == old(tasks) && roles == old(roles)
    {
      if templateParam == 0 || !list.List? {
        return BadRequest;
      }
      if !EntriesValid(list.items) {
        return BadRequest;
      }
      phases := Reorder(phases, PhaseId, PhaseInTemplate(templateParam), WithPhaseOrdinal, list.items);
      return Ok;
    }

    /** `reorderTemplateTasks`: listed tasks of the template take their new ordinals. */
    method ReorderTasks(templateParam: int, list: ListField<OrderEntry>) returns (status: Status)
      modifies this
      ensures status == (if templateParam == 0 || !list.List? || !EntriesValid(list.items) then BadRequest else Ok)
      ensures status == BadRequest ==> tasks == old(tasks)
      ensures status == Ok ==> (|tasks| == |old(tasks)| &&
        forall i :: 0 <= i < |tasks| ==>
          tasks[i] == Reordered(old(tasks)[i], TemplateTaskId, TaskInTemplate(templateParam), WithTemplateTaskOrdinal, list.items))
      ensures templates == old(templates) && phases == old(phases) && roles == old(roles)
    {
      if templateParam == 0 || !list.List? {
        return BadRequest;
      }
      if !EntriesValid(list.items) {
        return BadRequest;
      }
      tasks := Reorder(tasks, TemplateTaskId, TaskInTemplate(templateParam), WithTemplateTaskOrdinal, list.items);
      return Ok;
    }

    /** The new row of `createTemplateTask`, its properties set one by one. */
    method BuildTask(template: int, req: NewTemplateTask, newId: int) returns (task: TemplateTask)
      ensures task == NewTaskRow(phases, tasks, template, req, newId)
    {
      var k := if req.phaseParam != 0 then PhaseIndex(phases, req.phaseParam) else None;
      var phase := if k.Some? then Some(req.phaseParam) else None;
      task := TemplateTask(newId, template, phase, req.title, req.description, Single, SimpleMark, false, None, None, None, 0);
      if req.submissionType.Valid? {
        task := task.(submissionType := req.submissionType.value);
      }
      if req.kind.Valid? {
        task := task.(kind := req.kind.value);
      }
      if req.assigneeRoleId != 0 {
        task := task.(assigneeRole := Some(req.assigneeRoleId));
      }
      if req.verifierRoleId != 0 {
        task := task.(verifierRole := Some(req.verifierRoleId));
      }
      task := task.(ordinal := NewTaskOrdinal(tasks, phase, template, req.ordinal));
    }

    /** `createTemplateTask`. */
    method CreateTask(templateParam: int, req: NewTemplateTask, newId: int) returns (status: Status)
      modifies this
      ensures (status, tasks) == CreateTemplateTaskSpec(templates, phases, old(tasks), roles, templateParam, req, newId)
      ensures templates == old(templates) && phases == old(phases) && roles == old(roles)
    {
      if req.title == "" {
        return NotFound;
      }
      var template := TargetTemplate(templates, phases, templateParam, req.phaseParam);
      if template.None? {
        return NotFound;
      }
      if req.isRecurring && req.recurrenceDetails.None? {
        return BadRequest;
      }
      if req.assigneeRoleId != 0 && !RoleOfTemplate(roles, req.assigneeRoleId, template.value, false) {
        return BadRequest;
      }
      if req.verifierRoleId != 0 && !RoleOfTemplate(roles, req.verifierRoleId, template.value, true) {
        return BadRequest;
      }
      var task := BuildTask(template.value, req, newId);
      var saved := tasks + [task];
      if req.isRecurring {
        var frequency := CreateFrequency(req.recurrenceDetails.value);
        if frequency.Thrown? {
          return BadRequest;
        }
        task := task.(isRecurring := true, frequency := Some(frequency.value));
        saved := tasks + [task];
      }
      tasks := saved;
      return Created;
    }

    /** `updateTemplateTask`. */
    method UpdateTask(idParam: int, p: TemplateTaskPatch) returns (status: Status)
      modifies this
      ensures (status, tasks) == UpdateTemplateTaskSpec(phases, old(tasks), roles, idParam, p)
      ensures templates == old(templates) && phases == old(phases) && roles == old(roles)
    {
      if idParam == 0 || p.kind.Invalid? || p.submissionType.Invalid? {
        return BadRequest;
      }
      var k := TemplateTaskIndex(tasks, idParam);
      if k.None? {
        return NotFound;
      }
      var t := tasks[k.value];
      var task := PatchedFields(t, p);
      if PatchRefused(phases, roles, t.template, p) {
        return BadRequest;
      }
      task := WithRoleAndPhase(task, p);
      var edited := WithRecurrence(task, p);
      if edited.Thrown? {
        return ServerError;
      }
      tasks := tasks[k.value := edited.value];
      return Created;
    }

    /** `updateTemplateRole`. */
    method UpdateRole(idParam: int, name: string, description: Field<string>, isManaging: JsonValue) returns (status: Status)
      modifies this
      ensures (status, roles) == UpdateTemplateRoleSpec(old(roles), idParam, name, description, isManaging)
      ensures templates == old(templates) && phases == old(phases) && tasks == old(tasks)
    {
      if idParam == 0 {
        return BadRequest;
      }
      if idParam !in roles {
        return NotFound;
      }
      var role := roles[idParam];
      if name != "" {
        role := role.(name := name);
      }
      if !description.Missing? {
        role := role.(description := if description.Given? then Some(description.value) else None);
      }
      if !isManaging.Undefined? {
        if Truthy(isManaging) {
          role := role.(isManaging := true);
        } else {
          role := role.(verifyingTasks := {}, isManaging := false);
        }
      }
      roles := roles[idParam := role];
      return Ok;
    }

    /** `updateTemplateRoleTasks`. */
    method UpdateRoleTasks(idParam: int, addTasks: ListField<int>, removeTasks: ListField<int>,
                           addVerifying: ListField<int>, removeVerifying: ListField<int>) returns (status: Status)
      modifies this
      ensures (status, roles) == UpdateTemplateRoleTasksSpec(old(roles), tasks, idParam, addTasks, removeTasks, addVerifying, removeVerifying)
      ensures templates == old(templates) && phases == old(phases) && tasks == old(tasks)
    {
      if idParam == 0 {
        return BadRequest;
      }
      if idParam !in roles {
        return NotFound;
      }
      var role := roles[idParam];
      if addTasks.List? {
        role := role.(assignedTasks := role.assignedTasks + FoundTemplateTasks(addTasks.items, tasks, role.template));
      }
      if removeTasks.List? {
        role := role.(assignedTasks := role.assignedTasks - Listed(removeTasks.items));
      }
      if addVerifying.List? {
        var tasksToAdd := FoundTemplateTasks(addVerifying.items, tasks, role.template);
        if !role.isManaging {
          return BadRequest;
        }
        role := role.(verifyingTasks := role.verifyingTasks + tasksToAdd);
      }
      if removeVerifying.List? {
        role := role.(verifyingTasks := role.verifyingTasks - Listed(removeVerifying.items));
      }
      roles := roles[idParam := role];
      return Ok;
    }
  }
}
