/**
 * Project roles (`src/controller/ProjectRoleController.ts`): which users
 * hold a role, the project's managing and participating teams, and the
 * tasks a role is assigned to or verifies.
 *
 * Relations are sets of ids: the source's `includes` tests compare freshly
 * loaded entity objects by identity and never match, and what a save
 * persists of a many-to-many relation is the set of ids.
 */
module ProjectRoles {
  import opened Common
  import opened AuthService

  datatype Role = Role(
    project: int,
    name: string,
    description: Option<string>,
    isManaging: bool,
    users: set<UserId>,
    assignedTasks: set<int>,
    verifyingTasks: set<int>)

  /** A project's two teams. */
  datatype Team = Team(managing: set<UserId>, participants: set<UserId>)

  /** `getProjectId`: the project of a role; `None` for a missing id or role. */
  function ProjectOf(roles: map<int, Role>, roleId: Option<int>): (r: Option<int>)
    ensures r.Some? <==> roleId.Some? && roleId.value in roles
    ensures r.Some? ==> r == Some(roles[roleId.value].project)
  {
    if roleId.None? || roleId.value !in roles then None else Some(roles[roleId.value].project)
  }

  /** The users `find({ where: { id: In(ids) } })` returns. */
  function FoundUsers(ids: seq<UserId>, users: set<UserId>): (r: set<UserId>)
    ensures forall u :: u in r <==> u in ids && u in users
  {
    set u | u in ids && u in users
  }

  /** The tasks of `project` among `ids`; `tasks` maps each task to its project. */
  function FoundTasks(ids: seq<int>, tasks: map<int, int>, project: int): (r: set<int>)
    ensures forall t :: t in r <==> t in ids && t in tasks && tasks[t] == project
  {
    set t | t in ids && t in tasks && tasks[t] == project
  }

  function Listed<T>(ids: seq<T>): set<T>
  {
    set x | x in ids
  }

  /** A managing role's users may not be participants, and a participating role's users may not be managers. */
  predicate Clashes(r: Role, team: Team, ids: seq<UserId>)
  {
    if r.isManaging then exists u :: u in ids && u in team.participants
    else exists u :: u in ids && u in team.managing
  }

  /** Every id of `ids` holds the role. */
  predicate AllHold(ids: seq<UserId>, holders: set<UserId>)
  {
    forall u :: u in ids ==> u in holders
  }

  /** `updateProjectRoleUsers`: the status, the roles and the teams afterwards. */
  function UpdateUsersSpec(roles: map<int, Role>, teams: map<int, Team>, users: set<UserId>, id: Option<int>,
                           add: ListField<UserId>, remove: ListField<UserId>): (Status, map<int, Role>, map<int, Team>)
  {
    if id.None? then (BadRequest, roles, teams)
    else if id.value !in roles then (NotFound, roles, teams)
    else
      var r := roles[id.value];
      if r.project !in teams then (NotFound, roles, teams)
      else
        var team := teams[r.project];
        if add.List? && Clashes(r, team, add.items) then (BadRequest, roles, teams)
        else
          var found := if add.List? then FoundUsers(add.items, users) else {};
          var r1 := r.(users := r.users + found);
          var team1 :=
            if !add.List? then team
            else if r.isManaging then team.(managing := team.managing + found)
            else team.(participants := team.participants + found);
          if remove.List? && !AllHold(remove.items, r1.users) then (BadRequest, roles, teams)
          else
            var r2 := if remove.List? then r1.(users := r1.users - Listed(remove.items)) else r1;
            (Ok, roles[id.value := r2], teams[r.project := team1])
  }

  /** `updateProjectRoleTasks`: the status and the roles afterwards. */
  function UpdateTasksSpec(roles: map<int, Role>, tasks: map<int, int>, id: Option<int>,
                           addTasks: ListField<int>, removeTasks: ListField<int>,
                           addVerifying: ListField<int>, removeVerifying: ListField<int>): (Status, map<int, Role>)
  {
    if id.None? then (BadRequest, roles)
    else if id.value !in roles then (NotFound, roles)
    else
      var r := roles[id.value];
      var r1 := if addTasks.List? then r.(assignedTasks := r.assignedTasks + FoundTasks(addTasks.items, tasks, r.project)) else r;
      var r2 := if removeTasks.List? then r1.(assignedTasks := r1.assignedTasks - Listed(removeTasks.items)) else r1;
      if addVerifying.List? && !r.isManaging then (BadRequest, roles)
      else
        var r3 := if addVerifying.List? then r2.(verifyingTasks := r2.verifyingTasks + FoundTasks(addVerifying.items, tasks, r.project)) else r2;
        var r4 := if removeVerifying.List? then r3.(assignedTasks := r3.verifyingTasks - Listed(removeVerifying.items)) else r3;
        (Ok, roles[id.value := r4])
  }

  /** `updateProjectRole`: a truthy name, a present description and a present managing flag are applied. */
  function UpdateRoleSpec(roles: map<int, Role>, id: Option<int>, name: string, description: Field<string>,
                          isManaging: JsonValue): (Status, map<int, Role>)
  {
    if id.None? then (BadRequest, roles)
    else if id.value !in roles then (NotFound, roles)
    else
      var r := roles[id.value];
      var r1 := if |name| > 0 then r.(name := name) else r;
      var r2 := match description
        case Missing => r1
        case NullField => r1.(description := None)
        case Given(d) => r1.(description := Some(d));
      var r3 :=
        if isManaging.Undefined? then r2
        else if Truthy(isManaging) then r2.(isManaging := true)
        else r2.(isManaging := false, verifyingTasks := {});
      (Ok, roles[id.value := r3])
  }

  /** The role and team tables, as the role handlers change them. */
  class RoleStore {
    var roles: map<int, Role>
    var teams: map<int, Team>

    constructor (rs: map<int, Role>, ts: map<int, Team>)
      ensures roles == rs && teams == ts
    {
      roles := rs;
      teams := ts;
    }

    /** `updateProjectRoleUsers`. */
    method UpdateUsers(users: set<UserId>, id: Option<int>, add: ListField<UserId>, remove: ListField<UserId>)
      returns (status: Status)
      modifies this
      ensures (status, roles, teams) == UpdateUsersSpec(old(roles), old(teams), users, id, add, remove)
    {
      if id.None? {
        return BadRequest;
      }
      if id.value !in roles {
        return NotFound;
      }
      var role := roles[id.value];
      if role.project !in teams {
        return NotFound;
      }
      var project := teams[role.project];
      var usersToAdd := if add.List? then FoundUsers(add.items, users) else {};
      role := role.(users := role.users + usersToAdd);
      if add.List? {
        if role.isManaging {
          if exists u :: u in add.items && u in project.participants {
            return BadRequest;
          }
          project := project.(managing := project.managing + usersToAdd);
        } else {
          if exists u :: u in add.items && u in project.managing {
            return BadRequest;
          }
          project := project.(participants := project.participants + usersToAdd);
        }
      }
      if remove.List? {
        if exists u :: u in remove.items && u !in role.users {
          return BadRequest;
        }
        role := role.(users := role.users - Listed(remove.items));
      }
      roles := roles[id.value := role];
      teams := teams[role.project := project];
      return Ok;
    }

    /** `updateProjectRoleTasks`; `tasks` maps each task to its project. */
    method UpdateTasks(tasks: map<int, int>, id: Option<int>, addTasks: ListField<int>, removeTasks: ListField<int>,
                       addVerifying: ListField<int>, removeVerifying: ListField<int>)
      returns (status: Status)
      modifies this
      ensures (status, roles) == UpdateTasksSpec(old(roles), tasks, id, addTasks, removeTasks, addVerifying, removeVerifying)
      ensures teams == old(teams)
    {
      if id.None? {
        return BadRequest;
      }
      if id.value !in roles {
        return NotFound;
      }
      var role := roles[id.value];
      if addTasks.List? {
        role := role.(assignedTasks := role.assignedTasks + FoundTasks(addTasks.items, tasks, role.project));
      }
      if removeTasks.List? {
        role := role.(assignedTasks := role.assignedTasks - Listed(removeTasks.items));
      }
      if addVerifying.List? {
        var tasksToAdd := FoundTasks(addVerifying.items, tasks, role.project);
        if !role.isManaging {
          return BadRequest;
        }
        role := role.(verifyingTasks := role.verifyingTasks + tasksToAdd);
      }
      if removeVerifying.List? {
        role := role.(assignedTasks := role.verifyingTasks - Listed(removeVerifying.items));
      }
      roles := roles[id.value := role];
      return Ok;
    }

    /** `updateProjectRole`. */
    method Update(id: Option<int>, name: string, description: Field<string>, isManaging: JsonValue)
      returns (status: Status)
      modifies this
      ensures (status, roles) == UpdateRoleSpec(old(roles), id, name, description, isManaging)
      ensures teams == old(teams)
    {
      if id.None? {
        return BadRequest;
      }
      if id.value !in roles {
        return NotFound;
      }
      var role := roles[id.value];
      if |name| > 0 {
        role := role.(name := name);
      }
      match description {
        case Missing =>
        case NullField => role := role.(description := None);
        case Given(d) => role := role.(description := Some(d));
      }
      if !isManaging.Undefined? {
        if Truthy(isManaging) {
          role := role.(isManaging := true);
        } else {
          role := role.(verifyingTasks := {});
          role := role.(isManaging := false);
        }
      }
      roles := roles[id.value := role];
      return Ok;
    }
  }

  // ---------------------------------------------------------------------
  // Invariants and effects
  // ---------------------------------------------------------------------

  /** No user is both managing and participating in a project. */
  predicate TeamsDisjoint(teams: map<int, Team>)
  {
    forall p :: p in teams ==> teams[p].managing !! teams[p].participants
  }

  /**
   * Role assignment keeps the two teams of every project disjoint (for
   * users that exist: only they are added to a team).
   */
  lemma UsersKeepTeamsDisjoint(roles: map<int, Role>, teams: map<int, Team>, users: set<UserId>, id: Option<int>,
                               add: ListField<UserId>, remove: ListField<UserId>)
    requires TeamsDisjoint(teams)
    ensures TeamsDisjoint(UpdateUsersSpec(roles, teams, users, id, add, remove).2)
  {
    var out := UpdateUsersSpec(roles, teams, users, id, add, remove);
    if out.0 == Ok && add.List? {
      var r := roles[id.value];
      var team := teams[r.project];
      var found := FoundUsers(add.items, users);
      assert forall u :: u in found ==> u in add.items;
      if r.isManaging {
        assert forall u :: u in found ==> u !in team.participants;
      } else {
        assert forall u :: u in found ==> u !in team.managing;
      }
    }
  }

  /**
   * A successful assignment: the found users now hold the role and sit in
   * the team of its kind, the removed users no longer hold it, each removed
   * user held it, and no other role or team changes.
   */
  lemma UsersRequestEffect(roles: map<int, Role>, teams: map<int, Team>, users: set<UserId>, id: int,
                           add: ListField<UserId>, remove: ListField<UserId>)
    requires UpdateUsersSpec(roles, teams, users, Some(id), add, remove).0 == Ok
    ensures var out := UpdateUsersSpec(roles, teams, users, Some(id), add, remove);
      var r := roles[id];
      var r2 := out.1[id];
      (forall u :: u in r2.users <==> (u in r.users || (add.List? && u in add.items && u in users)) &&
                                      !(remove.List? && u in remove.items)) &&
      (remove.List? ==> forall u :: u in remove.items ==> u in r.users || (add.List? && u in add.items && u in users)) &&
      (add.List? && r.isManaging ==> forall u :: u in add.items && u in users ==> u in out.2[r.project].managing) &&
      (add.List? && !r.isManaging ==> forall u :: u in add.items && u in users ==> u in out.2[r.project].participants) &&
      (forall k :: k in roles && k != id ==> k in out.1 && out.1[k] == roles[k]) &&
      (forall p :: p in teams && p != r.project ==> p in out.2 && out.2[p] == teams[p])
  {
  }

  /** A non-managing role verifies no task. */
  predicate VerifyingOnlyManaging(roles: map<int, Role>)
  {
    forall k :: k in roles && !roles[k].isManaging ==> roles[k].verifyingTasks == {}
  }

  /** Every task a role is assigned or verifies belongs to the role's project. */
  ghost predicate TasksInProject(roles: map<int, Role>, tasks: map<int, int>)
  {
    forall k, t :: k in roles && (t in roles[k].assignedTasks || t in roles[k].verifyingTasks) ==> t in tasks && tasks[t] == roles[k].project
  }

  /** Task assignment keeps both invariants: verifying tasks only on managing roles, all tasks in the project. */
  lemma TasksKeepInvariants(roles: map<int, Role>, tasks: map<int, int>, id: Option<int>, addTasks: ListField<int>,
                            removeTasks: ListField<int>, addVerifying: ListField<int>, removeVerifying: ListField<int>)
    requires VerifyingOnlyManaging(roles) && TasksInProject(roles, tasks)
    ensures var out := UpdateTasksSpec(roles, tasks, id, addTasks, removeTasks, addVerifying, removeVerifying).1;
      VerifyingOnlyManaging(out) && TasksInProject(out, tasks)
  {
  }

  /** Changing the managing flag keeps verifying tasks on managing roles only. */
  lemma UpdateRoleKeepsVerifyingOnlyManaging(roles: map<int, Role>, id: Option<int>, name: string, description: Field<string>,
                                             isManaging: JsonValue)
    requires VerifyingOnlyManaging(roles)
    ensures VerifyingOnlyManaging(UpdateRoleSpec(roles, id, name, description, isManaging).1)
  {
  }

  /** Adding verifying tasks to a non-managing role is refused and changes nothing. */
  lemma VerifyingNeedsManagingRole(roles: map<int, Role>, tasks: map<int, int>, id: int, addTasks: ListField<int>,
                                   removeTasks: ListField<int>, items: seq<int>, removeVerifying: ListField<int>)
    requires id in roles && !roles[id].isManaging
    ensures UpdateTasksSpec(roles, tasks, Some(id), addTasks, removeTasks, List(items), removeVerifying) == (BadRequest, roles)
  {
  }

  /**
   * `removeVerifyingTasks` replaces the assigned tasks with the remaining
   * verifying tasks and leaves the verifying tasks as they were.
   */
  lemma RemoveVerifyingOverwritesAssigned(roles: map<int, Role>, tasks: map<int, int>, id: int, items: seq<int>)
    requires id in roles
    ensures var out := UpdateTasksSpec(roles, tasks, Some(id), NoList, NoList, NoList, List(items));
      out.0 == Ok &&
      out.1[id].assignedTasks == roles[id].verifyingTasks - Listed(items) &&
      out.1[id].verifyingTasks == roles[id].verifyingTasks
  {
  }

  /**
   * Adding a task the role already verifies also assigns it: the exclusion
   * test compares entity objects, so it never excludes anything.
   */
  lemma VerifyingTaskAlsoAssigned(roles: map<int, Role>, tasks: map<int, int>, id: int, items: seq<int>, t: int)
    requires id in roles && t in roles[id].verifyingTasks && t in items && t in tasks && tasks[t] == roles[id].project
    ensures var out := UpdateTasksSpec(roles, tasks, Some(id), List(items), NoList, NoList, NoList);
      out.0 == Ok && t in out.1[id].assignedTasks && t in out.1[id].verifyingTasks
  {
  }

  /** Making a role non-managing drops its verifying tasks; other fields follow the request. */
  lemma UpdateRoleEffect(roles: map<int, Role>, id: int, name: string, description: Field<string>, isManaging: JsonValue)
    requires id in roles
    ensures var out := UpdateRoleSpec(roles, id := Some(id), name := name, description := description, isManaging := isManaging);
      var r := roles[id];
      var r2 := out.1[id];
      out.0 == Ok &&
      r2.name == (if |name| > 0 then name else r.name) &&
      r2.isManaging == (if isManaging.Undefined? then r.isManaging else Truthy(isManaging)) &&
      r2.verifyingTasks == (if !isManaging.Undefined? && !Truthy(isManaging) then {} else r.verifyingTasks) &&
      r2.users == r.users && r2.assignedTasks == r.assignedTasks && r2.project == r.project
  {
  }
}
