/**
 * The route guards of `src/middleware/permissionMiddleware.ts`. A guard
 * either passes the request on (`next()`), answers it with a status, or
 * lets an error thrown by the permission engine escape: the guards other
 * than `authorize` and `authorizeGlobal` have no `try`/`catch`, so their
 * promise is rejected and Express decides what the client sees.
 */
module PermissionMiddleware {
  import opened Common
  import opened AuthService

  /** What a guard does with a request. */
  datatype Gate = Next | Respond(status: Status) | Rejected(message: string)

  /** A route parameter: absent (or the empty string) or a parsed id. */
  type Param = Option<int>

  /**
   * The ids of a JSON request body by key. A key that is absent, null or 0
   * is falsy; every other value is the id it holds.
   */
  type Body = map<string, int>

  /** `req.body[key]` as the walk sees it: 0 for a falsy value. */
  function BodyId(body: Body, key: string): (id: int)
    ensures id != 0 <==> key in body && body[key] != 0
  {
    if key in body then body[key] else 0
  }

  // ---------------------------------------------------------------------
  // castToGlobalPermissionSubject
  // ---------------------------------------------------------------------

  /** The string value of each `GlobalPermissionSubject` member. */
  function SubjectName(s: Subject): string
  {
    match s
    case Projects => "project"
    case Templates => "template"
    case Files => "file"
    case UserGroups => "userGroup"
    case Users => "user"
    case Positions => "position"
    case Everything => "*"
  }

  /** `castToGlobalPermissionSubject`: the member whose value is `value`, if any. */
  function CastToSubject(value: string): (r: Option<Subject>)
    ensures r.Some? ==> SubjectName(r.value) == value
    ensures r.None? ==> forall s: Subject :: SubjectName(s) != value
  {
    if value == "project" then Some(Projects)
    else if value == "template" then Some(Templates)
    else if value == "file" then Some(Files)
    else if value == "userGroup" then Some(UserGroups)
    else if value == "user" then Some(Users)
    else if value == "position" then Some(Positions)
    else if value == "*" then Some(Everything)
    else None
  }

  /** Casting the value of a member gives that member back. */
  lemma CastSubjectName(s: Subject)
    ensures CastToSubject(SubjectName(s)) == Some(s)
  {
    var r := CastToSubject(SubjectName(s));
    assert r.Some?;
    assert SubjectName(r.value) == SubjectName(s);
    match s
    case Projects =>
    case Templates =>
    case Files =>
    case UserGroups =>
    case Users =>
    case Positions =>
    case Everything =>
  }

  // ---------------------------------------------------------------------
  // authorizeFromRequestBody: the walk up the body's ids
  // ---------------------------------------------------------------------

  /** The next level up from `k` and the body key that holds its id. */
  function ParentLevel(k: ResourceType): Option<(ResourceType, string)>
  {
    match k
    case FileRes => Some((SubtaskRes, "subtaskId"))
    case SubtaskRes => Some((TaskRes, "taskId"))
    case TaskRes => Some((ProjectPhase, "projectPhaseId"))
    case ProjectPhase => Some((Project, "projectId"))
    case _ => None
  }

  /** How many levels lie above `k` on the walk. */
  function Depth(k: ResourceType): (d: nat)
    ensures d <= 4
    ensures ParentLevel(k).None? <==> d == 0
  {
    match k
    case FileRes => 4
    case SubtaskRes => 3
    case TaskRes => 2
    case ProjectPhase => 1
    case _ => 0
  }

  /** Each step of the walk goes up exactly one level. */
  lemma ParentIsHigher(k: ResourceType)
    ensures ParentLevel(k).Some? ==> Depth(ParentLevel(k).value.0) == Depth(k) - 1
  {
  }

  /** `mapPermissionToParentType`: create and edit become edit; read and delete stay. */
  function ParentPermission(a: Action): (p: Action)
    ensures p == Edit <==> a == Create || a == Edit
    ensures a == Read || a == Delete ==> p == a
  {
    if a == Create || a == Edit then Edit else a
  }

  /** Where the walk stops: the level, its id (0 when none was found) and the action to check. */
  datatype WalkEnd = WalkEnd(kind: ResourceType, entityId: int, action: Action)

  /** The walk as a function: go up while the current id is falsy and a level is left. */
  function Walk(body: Body, k: ResourceType, id: int, a: Action): WalkEnd
    decreases Depth(k)
  {
    ParentIsHigher(k);
    if id != 0 then WalkEnd(k, id, a)
    else match ParentLevel(k)
      case None => WalkEnd(k, id, a)
      case Some((pk, key)) => Walk(body, pk, BodyId(body, key), ParentPermission(a))
  }

  /**
   * The walk stops at the first level with an id or at a level with no
   * successor; it never goes below where it started; the action is the
   * requested one when it did not move, and its parent mapping otherwise.
   */
  lemma {:induction false} WalkStops(body: Body, k: ResourceType, id: int, a: Action)
    ensures var w := Walk(body, k, id, a);
      (w.entityId != 0 || ParentLevel(w.kind).None?) &&
      Depth(w.kind) <= Depth(k) &&
      (id != 0 ==> w == WalkEnd(k, id, a)) &&
      (id == 0 && ParentLevel(k).Some? ==> w.action == ParentPermission(a))
    decreases Depth(k)
  {
    if id == 0 && ParentLevel(k).Some? {
      var (pk, key) := ParentLevel(k).value;
      WalkStops(body, pk, BodyId(body, key), ParentPermission(a));
      var w := Walk(body, pk, BodyId(body, key), ParentPermission(a));
      assert ParentPermission(ParentPermission(a)) == ParentPermission(a);
      if BodyId(body, key) == 0 && ParentLevel(pk).Some? {
        assert w.action == ParentPermission(ParentPermission(a));
      }
    }
  }

  /** A delete is never escalated by the walk, and a read stays a read. */
  lemma WalkKeepsReadAndDelete(body: Body, k: ResourceType, id: int, a: Action)
    requires a == Read || a == Delete
    ensures Walk(body, k, id, a).action == a
  {
    WalkStops(body, k, id, a);
  }

  /**
   * The `while (!entityId && !stopWhile)` loop of
   * `authorizeFromRequestBody`, starting from `req.body[key]`.
   */
  method WalkUp(body: Body, kind: ResourceType, key: string, required: Action) returns (w: WalkEnd, steps: nat)
    ensures w == Walk(body, kind, BodyId(body, key), required)
    ensures steps <= 5
  {
    var resourceTypeToCheck := kind;
    var entityId := BodyId(body, key);
    var permissionTypeToCheck := required;
    var stopWhile := false;
    steps := 0;
    while entityId == 0 && !stopWhile
      invariant steps + Depth(resourceTypeToCheck) <= 4 || (stopWhile && steps <= 5)
      invariant stopWhile ==> ParentLevel(resourceTypeToCheck).None?
      invariant Walk(body, resourceTypeToCheck, entityId, permissionTypeToCheck) == Walk(body, kind, BodyId(body, key), required)
      decreases Depth(resourceTypeToCheck), !stopWhile
    {
      match resourceTypeToCheck {
        case FileRes =>
          resourceTypeToCheck := SubtaskRes;
          entityId := BodyId(body, "subtaskId");
          permissionTypeToCheck := ParentPermission(permissionTypeToCheck);
        case SubtaskRes =>
          resourceTypeToCheck := TaskRes;
          entityId := BodyId(body, "taskId");
          permissionTypeToCheck := ParentPermission(permissionTypeToCheck);
        case TaskRes =>
          resourceTypeToCheck := ProjectPhase;
          entityId := BodyId(body, "projectPhaseId");
          permissionTypeToCheck := ParentPermission(permissionTypeToCheck);
        case ProjectPhase =>
          resourceTypeToCheck := Project;
          entityId := BodyId(body, "projectId");
          permissionTypeToCheck := ParentPermission(permissionTypeToCheck);
        case _ =>
          stopWhile := true;
      }
      steps := steps + 1;
    }
    w := WalkEnd(resourceTypeToCheck, entityId, permissionTypeToCheck);
  }

  /** The local check a guard ends with: pass, 403, or the engine's error. */
  function LocalGate(s: Store, u: UserId, r: ResourceId, a: Action): (g: Gate)
    ensures g == Next <==> HasLocalPermission(s, u, r, a) == Done(true)
    ensures g == Respond(Forbidden) <==> HasLocalPermission(s, u, r, a) == Done(false)
    ensures g.Rejected? <==> HasLocalPermission(s, u, r, a).Thrown?
  {
    match HasLocalPermission(s, u, r, a)
    case Thrown(m) => Rejected(m)
    case Done(b) => if b then Next else Respond(Forbidden)
  }

  /** The decision after the walk: 400 without an id, 404 without a resource, else the local check. */
  function BodyDecision(s: Store, u: UserId, w: WalkEnd): Gate
  {
    if w.entityId == 0 then Respond(BadRequest)
    else match GetEntityResourceId(s.resources, w.entityId, w.kind)
      case None => Respond(NotFound)
      case Some(r) => if r == 0 then Respond(NotFound) else LocalGate(s, u, r, w.action)
  }

  /** `authorizeFromRequestBody`. */
  method AuthorizeFromRequestBody(s: Store, u: UserId, body: Body, required: Action, kind: ResourceType, key: string)
    returns (g: Gate)
    ensures g == BodyDecision(s, u, Walk(body, kind, BodyId(body, key), required))
  {
    var w, _ := WalkUp(body, kind, key, required);
    g := BodyDecision(s, u, w);
  }

  /**
   * A body guard passes only when the walk found an id whose resource the
   * user may act on with the (possibly mapped) action; with no id at any
   * level it answers 400.
   */
  lemma BodyDecisionMeaning(s: Store, u: UserId, body: Body, required: Action, kind: ResourceType, key: string)
    ensures var w := Walk(body, kind, BodyId(body, key), required);
      var g := BodyDecision(s, u, w);
      (g == Next <==> (w.entityId != 0 &&
        exists r :: r != 0 && GetEntityResourceId(s.resources, w.entityId, w.kind) == Some(r) &&
          HasLocalPermission(s, u, r, w.action) == Done(true))) &&
      (g == Respond(BadRequest) <==> w.entityId == 0) &&
      (w.entityId == 0 ==> ParentLevel(w.kind).None?)
  {
    WalkStops(body, kind, BodyId(body, key), required);
  }

  // ---------------------------------------------------------------------
  // authorizeTaskRead / authorizeSubmission
  // ---------------------------------------------------------------------

  /** The tasks and subtasks a user is linked to. */
  datatype Duties = Duties(tasksAssigned: set<int>, tasksVerifying: set<int>, subtasksAssigned: set<int>)

  /** The fallback of both task guards: 404 without a resource, else the local check for `a`. */
  function FallbackGate(s: Store, u: UserId, kind: ResourceType, id: int, a: Action): Gate
  {
    match GetEntityResourceId(s.resources, id, kind)
    case None => Respond(NotFound)
    case Some(r) => if r == 0 then Respond(NotFound) else LocalGate(s, u, r, a)
  }

  /**
   * `authorizeTaskRead`: the task's assignee or verifier, or the subtask's
   * assignee, passes; everyone else needs local read.
   */
  function AuthorizeTaskRead(s: Store, u: UserId, duties: Duties, kind: ResourceType, param: Param): (g: Gate)
    ensures kind != TaskRes && kind != SubtaskRes ==> g == Respond(BadRequest)
    ensures (kind == TaskRes || kind == SubtaskRes) && param.None? ==> g == Respond(BadRequest)
    ensures (kind == TaskRes || kind == SubtaskRes) && param.Some? && u !in s.users ==> g == Respond(Forbidden)
    ensures (kind == TaskRes || kind == SubtaskRes) && param.Some? && u in s.users ==>
      g == if (kind == TaskRes && (param.value in duties.tasksAssigned || param.value in duties.tasksVerifying)) ||
              (kind == SubtaskRes && param.value in duties.subtasksAssigned)
           then Next
           else FallbackGate(s, u, kind, param.value, Read)
  {
    if kind != TaskRes && kind != SubtaskRes then Respond(BadRequest)
    else if param.None? then Respond(BadRequest)
    else if u !in s.users then Respond(Forbidden)
    else
      var id := param.value;
      var linked := if kind == TaskRes then id in duties.tasksAssigned || id in duties.tasksVerifying
                    else id in duties.subtasksAssigned;
      if linked then Next else FallbackGate(s, u, kind, id, Read)
  }

  /**
   * `authorizeSubmission`: when verifying, the task's verifier passes; when
   * submitting, its assignee; for a subtask, its assignee; everyone else
   * needs local edit.
   */
  function AuthorizeSubmission(s: Store, u: UserId, duties: Duties, kind: ResourceType, param: Param, isVerifying: bool): (g: Gate)
    ensures kind != TaskRes && kind != SubtaskRes ==> g == Respond(BadRequest)
    ensures (kind == TaskRes || kind == SubtaskRes) && param.None? ==> g == Respond(BadRequest)
    ensures (kind == TaskRes || kind == SubtaskRes) && param.Some? && u !in s.users ==> g == Respond(Forbidden)
    ensures (kind == TaskRes || kind == SubtaskRes) && param.Some? && u in s.users ==>
      g == if (kind == TaskRes && isVerifying && param.value in duties.tasksVerifying) ||
              (kind == TaskRes && !isVerifying && param.value in duties.tasksAssigned) ||
              (kind == SubtaskRes && param.value in duties.subtasksAssigned)
           then Next
           else FallbackGate(s, u, kind, param.value, Edit)
  {
    if kind != TaskRes && kind != SubtaskRes then Respond(BadRequest)
    else if param.None? then Respond(BadRequest)
    else if u !in s.users then Respond(Forbidden)
    else
      var id := param.value;
      var linked := if kind == TaskRes then (isVerifying && id in duties.tasksVerifying) || (!isVerifying && id in duties.tasksAssigned)
                    else id in duties.subtasksAssigned;
      if linked then Next else FallbackGate(s, u, kind, id, Edit)
  }

  /**
   * The assignee of a task cannot pass the verification guard on that
   * ground alone: verifying needs the verifier link or local edit.
   */
  lemma AssigneeMayNotVerify(s: Store, u: UserId, duties: Duties, id: int)
    requires u in s.users && id in duties.tasksAssigned && id !in duties.tasksVerifying
    ensures AuthorizeSubmission(s, u, duties, TaskRes, Some(id), true) == FallbackGate(s, u, TaskRes, id, Edit)
    ensures AuthorizeSubmission(s, u, duties, TaskRes, Some(id), false) == Next
  {
  }

  // ---------------------------------------------------------------------
  // authorizeLocal / authorizeFromRequestParameter / authorize / authorizeGlobal
  // ---------------------------------------------------------------------

  /** `authorizeLocal`: without the parameter 403; else 404 without a resource, else the local check. */
  function AuthorizeLocal(s: Store, u: UserId, required: Action, kind: ResourceType, param: Param): (g: Gate)
    ensures param.None? ==> g == Respond(Forbidden)
    ensures param.Some? ==> g == FallbackGate(s, u, kind, param.value, required)
  {
    if param.None? then Respond(Forbidden)
    else FallbackGate(s, u, kind, param.value, required)
  }

  /** `authorizeFromRequestParameter`: the parameter is the resource id itself. */
  function AuthorizeFromRequestParameter(s: Store, u: UserId, required: Action, param: Param): (g: Gate)
    ensures param.None? ==> g == Respond(Forbidden)
    ensures param.Some? ==> g == LocalGate(s, u, param.value, required)
  {
    if param.None? then Respond(Forbidden)
    else LocalGate(s, u, param.value, required)
  }

  /**
   * `authorize`: a global subject alone decides; a resource id is used only
   * without a subject; neither is a 403. Errors are caught and answered 500.
   */
  function Authorize(s: Store, u: UserId, required: Action, resourceId: Option<ResourceId>, subject: Option<Subject>): (g: Gate)
    ensures !g.Rejected?
    ensures g == Next <==>
      (subject.Some? && HasGlobalPermission(s, u, subject.value, required) == Done(true)) ||
      (subject.None? && resourceId.Some? && HasLocalPermission(s, u, resourceId.value, required) == Done(true))
    ensures g == Respond(ServerError) <==>
      (subject.Some? && HasGlobalPermission(s, u, subject.value, required).Thrown?) ||
      (subject.None? && resourceId.Some? && HasLocalPermission(s, u, resourceId.value, required).Thrown?)
    ensures subject.None? && resourceId.None? ==> g == Respond(Forbidden)
  {
    var check :=
      if subject.Some? then HasGlobalPermission(s, u, subject.value, required)
      else if resourceId.Some? then HasLocalPermission(s, u, resourceId.value, required)
      else Done(false);
    match check
    case Thrown(_) => Respond(ServerError)
    case Done(b) => if b then Next else Respond(Forbidden)
  }

  /** `authorizeGlobal`: the global check, 403 when it fails, 500 when it throws. */
  function AuthorizeGlobal(s: Store, u: UserId, required: Action, subject: Subject): (g: Gate)
    ensures g == Next <==> |u| > 0 && u in s.users && GloballyAllowed(s, u, subject, required)
    ensures g == Respond(ServerError) <==> |u| > 0 && u !in s.users
    ensures !g.Rejected?
  {
    match HasGlobalPermission(s, u, subject, required)
    case Thrown(_) => Respond(ServerError)
    case Done(b) => if b then Next else Respond(Forbidden)
  }
}
