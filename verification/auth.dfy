/**
 * The permission decision engine of `src/service/authService.ts`.
 *
 * The database is a snapshot `Store`: users by id, the resource table and
 * the two grant tables as rows in table order. A lookup that the source
 * does with `find`/`findOne` takes the first matching row.
 */
module AuthService {
  import opened Common

  type UserId = string
  type PositionId = string
  type RoleId = int
  type ResourceId = int
  type FileId = int

  /** Who holds a local grant: a user, a position or a project role. */
  datatype Holder = UserHolder(user: UserId) | PositionHolder(position: PositionId) | RoleHolder(role: RoleId)

  /** Who holds a global grant: a user or a position. */
  datatype Grantee = UserGrantee(user: UserId) | PositionGrantee(position: PositionId)

  /** A `LocalPermission` row. */
  datatype LocalGrant = LocalGrant(holder: Holder, resource: ResourceId, flags: LocalFlags)

  /** A `GlobalPermission` row. */
  datatype GlobalGrant = GlobalGrant(grantee: Grantee, subject: Subject, flags: GlobalFlags)

  /** A user: the position they hold and the project roles they are assigned to. */
  datatype User = User(position: Option<PositionId>, roles: set<RoleId>)

  /**
   * A `Resource` row. Its children are the rows whose `parent` is this
   * row's id; `folder` is the id of its corresponding folder, if any.
   */
  datatype Resource = Resource(id: ResourceId, kind: ResourceType, entityId: int, parent: Option<ResourceId>, folder: Option<FileId>)

  datatype Store = Store(
    users: map<UserId, User>,
    positions: set<PositionId>,
    roles: set<RoleId>,
    resources: seq<Resource>,
    local: seq<LocalGrant>,
    global: seq<GlobalGrant>)

  // ---------------------------------------------------------------------
  // Lookups
  // ---------------------------------------------------------------------

  /** The index of the first element satisfying `p`. */
  function FindIndex<T>(s: seq<T>, p: T -> bool): (r: Option<nat>)
    ensures r.Some? ==> r.value < |s| && p(s[r.value]) && forall j :: 0 <= j < r.value ==> !p(s[j])
    ensures r.None? ==> forall j :: 0 <= j < |s| ==> !p(s[j])
  {
    if |s| == 0 then None
    else if p(s[0]) then Some(0)
    else match FindIndex(s[1..], p)
      case None => None
      case Some(k) => Some(k + 1)
  }

  /** `findOne({ where: { id } })` on the resource table. */
  function FindResource(rs: seq<Resource>, id: ResourceId): (r: Option<Resource>)
    ensures r.Some? ==> r.value in rs && r.value.id == id
    ensures r.None? ==> forall i :: 0 <= i < |rs| ==> rs[i].id != id
  {
    match FindIndex(rs, (x: Resource) => x.id == id)
    case None => None
    case Some(k) => Some(rs[k])
  }

  /** The first local grant of `h` on resource `r`. */
  function GrantOf(local: seq<LocalGrant>, h: Holder, r: ResourceId): (g: Option<LocalFlags>)
    ensures g.Some? <==> exists i :: 0 <= i < |local| && local[i].holder == h && local[i].resource == r
    ensures g.Some? ==> exists i :: 0 <= i < |local| && local[i] == LocalGrant(h, r, g.value)
  {
    match FindIndex(local, (x: LocalGrant) => x.holder == h && x.resource == r)
    case None => None
    case Some(k) => Some(local[k].flags)
  }

  /** The global grants held by `g`, in table order. */
  function GrantsOf(global: seq<GlobalGrant>, g: Grantee): (r: seq<GlobalGrant>)
    ensures forall x :: x in r <==> x in global && x.grantee == g
  {
    if |global| == 0 then []
    else (if global[0].grantee == g then [global[0]] else []) + GrantsOf(global[1..], g)
  }

  // ---------------------------------------------------------------------
  // Pure checks
  // ---------------------------------------------------------------------

  /** `checkLocalPermission`: the grant's flag for `a`, or null when there is no grant. */
  function CheckLocalPermission(g: Option<LocalFlags>, a: Action): (r: TriBool)
    ensures r == True <==> g.Some? && LocalFlag(g.value, a) == True
    ensures r == False <==> g.Some? && LocalFlag(g.value, a) == False
    ensures r == Null <==> g.None? || LocalFlag(g.value, a) == Null
  {
    match g
    case None => Null
    case Some(f) => LocalFlag(f, a)
  }

  /** Whether one global grant allows `a` on `subject` (its own subject or the wildcard). */
  predicate GrantAllows(g: GlobalGrant, subject: Subject, a: Action)
  {
    (g.subject == subject || g.subject == Everything) && GlobalFlag(g.flags, a)
  }

  /** `checkGlobalPermission`: `permissions.some(...)`. */
  function CheckGlobalPermission(grants: seq<GlobalGrant>, subject: Subject, a: Action): (r: bool)
    ensures r <==> exists i :: 0 <= i < |grants| && GrantAllows(grants[i], subject, a)
  {
    if |grants| == 0 then false
    else GrantAllows(grants[0], subject, a) || CheckGlobalPermission(grants[1..], subject, a)
  }

  /** `mapResourceTypeToPermissionSubject`. */
  function MapResourceTypeToSubject(t: ResourceType): (s: Subject)
    ensures s == Projects <==> t in {SubtaskRes, TaskRes, ProjectPhase, Project}
    ensures s == Templates <==> t == Template
    ensures s == Files <==> t == FileRes
    ensures s != Everything
  {
    match t
    case SubtaskRes => Projects
    case TaskRes => Projects
    case ProjectPhase => Projects
    case Project => Projects
    case Template => Templates
    case FileRes => Files
  }

  // ---------------------------------------------------------------------
  // Global permissions
  // ---------------------------------------------------------------------

  /** `getUserGlobalPermissions`: the user's grants followed by their position's. */
  function UserGlobalGrants(s: Store, u: UserId): (r: Outcome<seq<GlobalGrant>>)
    ensures |u| == 0 ==> r == Done([])
    ensures |u| > 0 && u !in s.users ==> r.Thrown?
    ensures |u| > 0 && u in s.users ==> (r.Done? && forall g :: (g in r.value <==> g in s.global && HeldBy(s, u, g)))
  {
    if |u| == 0 then Done([])
    else if u !in s.users then Thrown("User not found")
    else
      var user := s.users[u];
      Done(GrantsOf(s.global, UserGrantee(u)) +
           (match user.position case None => [] case Some(p) => GrantsOf(s.global, PositionGrantee(p))))
  }

  /** The grant is the user's own or their position's. */
  predicate HeldBy(s: Store, u: UserId, g: GlobalGrant)
    requires u in s.users
  {
    g.grantee == UserGrantee(u) ||
    (s.users[u].position.Some? && g.grantee == PositionGrantee(s.users[u].position.value))
  }

  /** Whether the user or their position holds a global grant allowing `a` on `subject`. */
  predicate GloballyAllowed(s: Store, u: UserId, subject: Subject, a: Action)
    requires u in s.users
  {
    exists g :: g in s.global && GrantAllows(g, subject, a) && HeldBy(s, u, g)
  }

  /** `hasGlobalPermission`. */
  function HasGlobalPermission(s: Store, u: UserId, subject: Subject, a: Action): (r: Outcome<bool>)
    ensures |u| == 0 ==> r == Done(false)
    ensures |u| > 0 && u !in s.users ==> r.Thrown?
    ensures |u| > 0 && u in s.users ==> r == Done(GloballyAllowed(s, u, subject, a))
  {
    match UserGlobalGrants(s, u)
    case Thrown(m) => Thrown(m)
    case Done(grants) =>
      var b := CheckGlobalPermission(grants, subject, a);
      if |u| > 0 then
        GlobalAllowedFromGrants(s, u, grants, subject, a);
        Done(b)
      else Done(b)
  }

  lemma GlobalAllowedFromGrants(s: Store, u: UserId, grants: seq<GlobalGrant>, subject: Subject, a: Action)
    requires |u| > 0 && UserGlobalGrants(s, u) == Done(grants)
    ensures u in s.users
    ensures CheckGlobalPermission(grants, subject, a) <==> GloballyAllowed(s, u, subject, a)
  {
    assert u in s.users && forall g :: g in grants <==> g in s.global && HeldBy(s, u, g);
    GrantsAllowIff(s, u, grants, subject, a);
  }

  /** The user's grants allow `a` exactly when one of the grants they hold does. */
  lemma GrantsAllowIff(s: Store, u: UserId, grants: seq<GlobalGrant>, subject: Subject, a: Action)
    requires u in s.users && forall g :: g in grants <==> g in s.global && HeldBy(s, u, g)
    ensures CheckGlobalPermission(grants, subject, a) <==> GloballyAllowed(s, u, subject, a)
  {
    if CheckGlobalPermission(grants, subject, a) {
      var i :| 0 <= i < |grants| && GrantAllows(grants[i], subject, a);
      assert grants[i] in grants;
    }
    if GloballyAllowed(s, u, subject, a) {
      var g :| g in s.global && GrantAllows(g, subject, a) && HeldBy(s, u, g);
      assert g in grants;
      var i :| 0 <= i < |grants| && grants[i] == g;
    }
  }

  /** The value a permission record holds for a decided action. */
  function FromBool(b: bool): TriBool
  {
    if b then True else False
  }

  /** A record whose every entry is null. */
  const NoResults := NoLocalFlags

  /**
   * What `hasGlobalPermissions` returns: every requested action holds the
   * global check's answer; the others stay null.
   */
  function GlobalPermissionsSpec(s: Store, u: UserId, subject: Subject, actions: seq<Action>): Outcome<LocalFlags>
  {
    if |u| == 0 then Done(NoResults)
    else if u !in s.users then Thrown("User not found")
    else Done(LocalFlags(
      if Read in actions then FromBool(GloballyAllowed(s, u, subject, Read)) else Null,
      if Create in actions then FromBool(GloballyAllowed(s, u, subject, Create)) else Null,
      if Edit in actions then FromBool(GloballyAllowed(s, u, subject, Edit)) else Null,
      if Delete in actions then FromBool(GloballyAllowed(s, u, subject, Delete)) else Null))
  }

  /** The record `hasGlobalPermissions` holds after the first `i` requested actions. */
  ghost predicate GlobalSoFar(s: Store, u: UserId, subject: Subject, actions: seq<Action>, i: nat, results: LocalFlags)
    requires u in s.users && i <= |actions|
  {
    forall b :: LocalFlag(results, b) == if b in actions[..i] then FromBool(GloballyAllowed(s, u, subject, b)) else Null
  }

  /** One turn of the `hasGlobalPermissions` loop records the global check for the next action. */
  lemma GlobalTurn(s: Store, u: UserId, grants: seq<GlobalGrant>, subject: Subject, actions: seq<Action>, i: nat, results: LocalFlags)
    requires |u| > 0 && u in s.users && UserGlobalGrants(s, u) == Done(grants)
    requires i < |actions| && GlobalSoFar(s, u, subject, actions, i, results)
    ensures GlobalSoFar(s, u, subject, actions, i + 1,
      SetLocalFlag(results, actions[i], FromBool(CheckGlobalPermission(grants, subject, actions[i]))))
  {
    GlobalAllowedFromGrants(s, u, grants, subject, actions[i]);
    assert actions[..i + 1] == actions[..i] + [actions[i]];
  }

  /** `hasGlobalPermissions`: fills a record in a loop over the requested actions. */
  method HasGlobalPermissions(s: Store, u: UserId, subject: Subject, actions: seq<Action>) returns (out: Outcome<LocalFlags>)
    ensures out == GlobalPermissionsSpec(s, u, subject, actions)
  {
    var results := NoResults;
    if |u| == 0 {
      return Done(results);
    }
    var grants := UserGlobalGrants(s, u);
    if grants.Thrown? {
      return Thrown(grants.message);
    }
    var i := 0;
    while i < |actions|
      invariant 0 <= i <= |actions| && u in s.users
      invariant GlobalSoFar(s, u, subject, actions, i, results)
    {
      var action := actions[i];
      var isAllowed := CheckGlobalPermission(grants.value, subject, action);
      GlobalTurn(s, u, grants.value, subject, actions, i, results);
      results := SetLocalFlag(results, action, FromBool(isAllowed));
      i := i + 1;
    }
    assert actions[..i] == actions;
    out := Done(results);
    assert LocalFlag(results, Read) == LocalFlag(out.value, Read);
  }

  // ---------------------------------------------------------------------
  // Local permissions
  // ---------------------------------------------------------------------

  /** `getEntityResourceId`: the resource standing for an entity, with the corresponding-folder fallback for files. */
  function GetEntityResourceId(rs: seq<Resource>, entityId: int, kind: ResourceType): (r: Option<ResourceId>)
    ensures entityId == 0 ==> r.None?
    ensures entityId != 0 && (exists i :: 0 <= i < |rs| && rs[i].entityId == entityId && rs[i].kind == kind) ==>
      r.Some? && exists i :: 0 <= i < |rs| && rs[i].id == r.value && rs[i].entityId == entityId && rs[i].kind == kind
    ensures entityId != 0 && (forall i :: 0 <= i < |rs| ==> !(rs[i].entityId == entityId && rs[i].kind == kind)) ==>
      (r.Some? <==> kind == FileRes && exists i :: 0 <= i < |rs| && rs[i].folder == Some(entityId)) &&
      (r.Some? ==> exists i :: 0 <= i < |rs| && rs[i].id == r.value && rs[i].folder == Some(entityId))
  {
    if entityId == 0 then None
    else match FindIndex(rs, (x: Resource) => x.entityId == entityId && x.kind == kind)
      case Some(k) => Some(rs[k].id)
      case None =>
        if kind == FileRes then
          match FindIndex(rs, (x: Resource) => x.folder == Some(entityId))
          case Some(k) => Some(rs[k].id)
          case None => None
        else None
  }

  /** `rolePermissions.some(p => checkLocalPermission(p, action))`: some grant of one of `roles` on `r` says true. */
  function SomeRoleAllows(local: seq<LocalGrant>, roles: set<RoleId>, r: ResourceId, a: Action): (b: bool)
    ensures b <==> exists i :: (0 <= i < |local| && local[i].holder.RoleHolder? && local[i].holder.role in roles &&
      local[i].resource == r && LocalFlag(local[i].flags, a) == True)
  {
    if |local| == 0 then false
    else
      var g := local[0];
      (g.holder.RoleHolder? && g.holder.role in roles && g.resource == r && LocalFlag(g.flags, a) == True) ||
      SomeRoleAllows(local[1..], roles, r, a)
  }

  /** Some grant of one of `roles` on `r` says false. */
  function SomeRoleDenies(local: seq<LocalGrant>, roles: set<RoleId>, r: ResourceId, a: Action): (b: bool)
    ensures b <==> exists i :: (0 <= i < |local| && local[i].holder.RoleHolder? && local[i].holder.role in roles &&
      local[i].resource == r && LocalFlag(local[i].flags, a) == False)
  {
    if |local| == 0 then false
    else
      var g := local[0];
      (g.holder.RoleHolder? && g.holder.role in roles && g.resource == r && LocalFlag(g.flags, a) == False) ||
      SomeRoleDenies(local[1..], roles, r, a)
  }

  /** The flag of the user's own grant on `r` (first match), or null. */
  function UserFlag(s: Store, u: UserId, r: ResourceId, a: Action): TriBool
  {
    CheckLocalPermission(GrantOf(s.local, UserHolder(u), r), a)
  }

  /** The flag of the user's position's grant on `r`, or null when the user has no position or no such grant. */
  function PositionFlag(s: Store, u: UserId, r: ResourceId, a: Action): TriBool
    requires u in s.users
  {
    match s.users[u].position
    case None => Null
    case Some(p) => CheckLocalPermission(GrantOf(s.local, PositionHolder(p), r), a)
  }

  /**
   * `hasLocalPermission` as written: a global allow wins; then a position
   * deny, then a user deny, refuse; after that only a role grant on this
   * very resource saying true grants. The parent walk that follows in the
   * source is never reached.
   */
  function HasLocalPermission(s: Store, u: UserId, r: ResourceId, a: Action): (out: Outcome<bool>)
    ensures |u| == 0 ==> out == Done(false)
    ensures |u| > 0 && (u !in s.users || FindResource(s.resources, r).None?) ==> out.Thrown?
  {
    if |u| == 0 then Done(false)
    else if u !in s.users then Thrown("User not found")
    else match FindResource(s.resources, r)
      case None => Thrown("Resource not found")
      case Some(res) =>
        var subject := MapResourceTypeToSubject(res.kind);
        match HasGlobalPermission(s, u, subject, a)
        case Thrown(m) => Thrown(m)
        case Done(hasGlobal) =>
          if hasGlobal then Done(true)
          else
            var positionResult := PositionFlag(s, u, r, a);
            if positionResult == False then Done(false)
            else
              var userResult := UserFlag(s, u, r, a);
              if userResult == False then Done(false)
              else
                var roleResult := SomeRoleAllows(s.local, s.users[u].roles, r, a);
                Done(roleResult)
  }

  /**
   * The decision `HasLocalPermission` reaches for a known user and resource,
   * stated over the grant tables.
   */
  lemma HasLocalPermissionDecision(s: Store, u: UserId, r: ResourceId, a: Action)
    requires |u| > 0 && u in s.users
    requires FindResource(s.resources, r).Some?
    ensures var res := FindResource(s.resources, r).value;
      HasLocalPermission(s, u, r, a) == Done(
        GloballyAllowed(s, u, MapResourceTypeToSubject(res.kind), a) ||
        (PositionFlag(s, u, r, a) != False && UserFlag(s, u, r, a) != False &&
         exists i :: 0 <= i < |s.local| && s.local[i].holder.RoleHolder? && s.local[i].holder.role in s.users[u].roles &&
           s.local[i].resource == r && LocalFlag(s.local[i].flags, a) == True))
  {
  }

  /**
   * What `hasLocalPermissions` decides for one action that is still null:
   * true on a global allow, otherwise `user || position || some(role)`,
   * which is always a boolean.
   */
  function BatchDecision(s: Store, u: UserId, subject: Subject, r: ResourceId, a: Action): (t: TriBool)
    requires u in s.users
    ensures t != Null
    ensures t == True <==> (GloballyAllowed(s, u, subject, a) || UserFlag(s, u, r, a) == True ||
      PositionFlag(s, u, r, a) == True || SomeRoleAllows(s.local, s.users[u].roles, r, a))
  {
    if GloballyAllowed(s, u, subject, a) then True
    else Or(Or(UserFlag(s, u, r, a), PositionFlag(s, u, r, a)), FromBool(SomeRoleAllows(s.local, s.users[u].roles, r, a)))
  }

  /** One entry of the record `hasLocalPermissions` returns. */
  function BatchEntry(s: Store, u: UserId, subject: Subject, r: ResourceId, actions: seq<Action>, past: LocalFlags, a: Action): TriBool
    requires u in s.users
  {
    if a in actions && LocalFlag(past, a) == Null then BatchDecision(s, u, subject, r, a) else LocalFlag(past, a)
  }

  /**
   * What `hasLocalPermissions` returns, starting from the record `past`:
   * each requested action whose entry is null is decided; every other entry
   * is left as it was. Every requested action ends non-null, so the
   * recursion to the parent resource never happens.
   */
  function LocalPermissionsSpec(s: Store, u: UserId, r: ResourceId, actions: seq<Action>, past: LocalFlags): (out: Outcome<LocalFlags>)
    ensures |u| == 0 ==> out == Done(past)
    ensures |u| > 0 && (u !in s.users || FindResource(s.resources, r).None?) ==> out.Thrown?
    ensures |u| > 0 && out.Done? ==> forall a :: a in actions ==> LocalFlag(out.value, a) != Null
    ensures out.Done? ==> forall a :: a !in actions || LocalFlag(past, a) != Null ==> LocalFlag(out.value, a) == LocalFlag(past, a)
  {
    if |u| == 0 then Done(past)
    else if u !in s.users then Thrown("User not found")
    else match FindResource(s.resources, r)
      case None => Thrown("Resource not found")
      case Some(res) =>
        var subject := MapResourceTypeToSubject(res.kind);
        var out := LocalFlags(
          BatchEntry(s, u, subject, r, actions, past, Read),
          BatchEntry(s, u, subject, r, actions, past, Create),
          BatchEntry(s, u, subject, r, actions, past, Edit),
          BatchEntry(s, u, subject, r, actions, past, Delete));
        assert forall a :: LocalFlag(out, a) == BatchEntry(s, u, subject, r, actions, past, a);
        Done(out)
  }

  /** The record `hasLocalPermissions` holds after the first `i` requested actions. */
  ghost predicate LocalSoFar(s: Store, u: UserId, subject: Subject, r: ResourceId, actions: seq<Action>, past: LocalFlags,
                             i: nat, results: LocalFlags)
    requires u in s.users && i <= |actions|
  {
    forall b :: LocalFlag(results, b) ==
      if b in actions[..i] then BatchEntry(s, u, subject, r, actions, past, b) else LocalFlag(past, b)
  }

  /**
   * One turn of the `hasLocalPermissions` loop: an entry already set is
   * kept, a global allow sets it to true, otherwise `user || position ||
   * some(role)` is written.
   */
  lemma LocalTurn(s: Store, u: UserId, subject: Subject, r: ResourceId, actions: seq<Action>, past: LocalFlags,
                  global: LocalFlags, i: nat, results: LocalFlags)
    requires u in s.users && i < |actions| && LocalSoFar(s, u, subject, r, actions, past, i, results)
    requires forall b :: b in actions ==> LocalFlag(global, b) == FromBool(GloballyAllowed(s, u, subject, b))
    ensures var a := actions[i];
      (LocalFlag(results, a) != Null ==> LocalSoFar(s, u, subject, r, actions, past, i + 1, results)) &&
      (LocalFlag(results, a) == Null && LocalFlag(global, a) == True ==>
        LocalSoFar(s, u, subject, r, actions, past, i + 1, SetLocalFlag(results, a, True))) &&
      (LocalFlag(results, a) == Null && LocalFlag(global, a) != True ==>
        LocalSoFar(s, u, subject, r, actions, past, i + 1, SetLocalFlag(results, a,
          Or(Or(UserFlag(s, u, r, a), PositionFlag(s, u, r, a)), FromBool(SomeRoleAllows(s.local, s.users[u].roles, r, a))))))
  {
    assert actions[..i + 1] == actions[..i] + [actions[i]];
  }

  /** `hasLocalPermissions`: the loop over the requested actions. */
  method HasLocalPermissions(s: Store, u: UserId, r: ResourceId, actions: seq<Action>, past: LocalFlags) returns (out: Outcome<LocalFlags>)
    ensures out == LocalPermissionsSpec(s, u, r, actions, past)
  {
    var results := past;
    if |u| == 0 {
      return Done(results);
    }
    if u !in s.users {
      return Thrown("User not found");
    }
    var resource := FindResource(s.resources, r);
    if resource.None? {
      return Thrown("Resource not found");
    }
    var subject := MapResourceTypeToSubject(resource.value.kind);
    var globalPermissions := HasGlobalPermissions(s, u, subject, actions);
    var i := 0;
    while i < |actions|
      invariant 0 <= i <= |actions|
      invariant LocalSoFar(s, u, subject, r, actions, past, i, results)
    {
      var action := actions[i];
      LocalTurn(s, u, subject, r, actions, past, globalPermissions.value, i, results);
      if LocalFlag(results, action) != Null {
        i := i + 1;
        continue;
      }
      if LocalFlag(globalPermissions.value, action) == True {
        results := SetLocalFlag(results, action, True);
        i := i + 1;
        continue;
      }
      var isAllowed := Or(Or(UserFlag(s, u, r, action), PositionFlag(s, u, r, action)),
                          FromBool(SomeRoleAllows(s.local, s.users[u].roles, r, action)));
      results := SetLocalFlag(results, action, isAllowed);
      i := i + 1;
    }
    assert actions[..i] == actions;
    out := Done(results);
    assert forall b :: LocalFlag(results, b) == LocalFlag(LocalPermissionsSpec(s, u, r, actions, past).value, b);
  }

  /** The record `hasLocalPermissions` starts from when no past results are passed. */
  lemma FreshBatchIsBoolean(s: Store, u: UserId, r: ResourceId, actions: seq<Action>, a: Action)
    requires |u| > 0 && u in s.users
    requires FindResource(s.resources, r).Some?
    requires a in actions
    ensures var out := LocalPermissionsSpec(s, u, r, actions, NoResults);
      out.Done? && (LocalFlag(out.value, a) == True <==>
        GloballyAllowed(s, u, MapResourceTypeToSubject(FindResource(s.resources, r).value.kind), a) ||
        UserFlag(s, u, r, a) == True || PositionFlag(s, u, r, a) == True ||
        SomeRoleAllows(s.local, s.users[u].roles, r, a))
  {
    var subject := MapResourceTypeToSubject(FindResource(s.resources, r).value.kind);
    assert LocalFlag(LocalPermissionsSpec(s, u, r, actions, NoResults).value, a) == BatchDecision(s, u, subject, r, a);
  }

  // ---------------------------------------------------------------------
  // The ancestor walk the source evidently aims at
  // ---------------------------------------------------------------------

  /** The action checked on the parent: creating or deleting a child needs edit on the parent. */
  function ParentAction(a: Action): (p: Action)
    ensures a == Create || a == Delete ==> p == Edit
    ensures a == Read || a == Edit ==> p == a
  {
    if a == Create || a == Delete then Edit else a
  }

  /** The roles' combined verdict: true if one says true, else false if one says false, else null. */
  function RoleVerdict(s: Store, u: UserId, r: ResourceId, a: Action): TriBool
    requires u in s.users
  {
    if SomeRoleAllows(s.local, s.users[u].roles, r, a) then True
    else if SomeRoleDenies(s.local, s.users[u].roles, r, a) then False
    else Null
  }

  /**
   * `hasLocalPermission` with its ancestor walk reachable: a denial by the
   * position, the user or the roles refuses, an allowance grants, and when
   * nothing is said about this resource the question moves to its parent,
   * at most `fuel` times.
   */
  function IntendedHasLocalPermission(s: Store, u: UserId, r: ResourceId, a: Action, fuel: nat): (out: Outcome<bool>)
    decreases fuel
  {
    if |u| == 0 then Done(false)
    else if u !in s.users then Thrown("User not found")
    else match FindResource(s.resources, r)
      case None => Thrown("Resource not found")
      case Some(res) =>
        if GloballyAllowed(s, u, MapResourceTypeToSubject(res.kind), a) then Done(true)
        else
          var positionResult := PositionFlag(s, u, r, a);
          var userResult := UserFlag(s, u, r, a);
          var roleResult := RoleVerdict(s, u, r, a);
          if positionResult == False || userResult == False || roleResult == False then Done(false)
          else if positionResult == True || userResult == True || roleResult == True then Done(true)
          else if res.parent.Some? && fuel > 0 then
            IntendedHasLocalPermission(s, u, res.parent.value, ParentAction(a), fuel - 1)
          else Done(false)
  }

  /**
   * In the intended walk a resource on which nothing is said inherits its
   * parent's answer for the parent action.
   */
  lemma IntendedInheritsFromParent(s: Store, u: UserId, r: ResourceId, a: Action, fuel: nat)
    requires |u| > 0 && u in s.users
    requires FindResource(s.resources, r).Some? && FindResource(s.resources, r).value.parent.Some?
    requires !GloballyAllowed(s, u, MapResourceTypeToSubject(FindResource(s.resources, r).value.kind), a)
    requires PositionFlag(s, u, r, a) == Null && UserFlag(s, u, r, a) == Null
    requires forall i :: 0 <= i < |s.local| && s.local[i].holder.RoleHolder? && s.local[i].resource == r ==>
      s.local[i].holder.role !in s.users[u].roles
    ensures IntendedHasLocalPermission(s, u, r, a, fuel + 1) ==
      IntendedHasLocalPermission(s, u, FindResource(s.resources, r).value.parent.value, ParentAction(a), fuel)
  {
    assert !SomeRoleAllows(s.local, s.users[u].roles, r, a);
    assert !SomeRoleDenies(s.local, s.users[u].roles, r, a);
  }

  /**
   * Where the two decisions agree: with no global allow and no denial
   * anywhere on this resource, the shipped check grants only when a role
   * grant on this resource says true, and then the intended one grants too.
   */
  lemma ShippedGrantImpliesIntended(s: Store, u: UserId, r: ResourceId, a: Action, fuel: nat)
    requires HasLocalPermission(s, u, r, a) == Done(true)
    ensures IntendedHasLocalPermission(s, u, r, a, fuel) == Done(true)
  {
    var res := FindResource(s.resources, r).value;
    HasLocalPermissionDecision(s, u, r, a);
    if !GloballyAllowed(s, u, MapResourceTypeToSubject(res.kind), a) {
      assert SomeRoleAllows(s.local, s.users[u].roles, r, a);
      assert RoleVerdict(s, u, r, a) == True;
    }
  }

  /** A sample snapshot: one user with a user grant on resource 2, whose parent is resource 1. */
  function SampleStore(userFlags: LocalFlags, parentGrant: seq<LocalGrant>): Store
  {
    Store(
      map["ann" := User(None, {7})],
      {}, {7},
      [Resource(1, Project, 10, None, None), Resource(2, TaskRes, 20, Some(1), None)],
      [LocalGrant(UserHolder("ann"), 2, userFlags)] + parentGrant,
      [])
  }

  /**
   * A user's own grant saying true does not grant in the shipped check,
   * while the intended walk grants.
   */
  lemma OwnGrantDoesNotGrant()
    ensures var s := SampleStore(LocalFlags(True, Null, Null, Null), []);
      HasLocalPermission(s, "ann", 2, Read) == Done(false) &&
      IntendedHasLocalPermission(s, "ann", 2, Read, 1) == Done(true)
  {
    var s := SampleStore(LocalFlags(True, Null, Null, Null), []);
    assert FindResource(s.resources, 2) == Some(s.resources[1]);
    assert GrantOf(s.local, UserHolder("ann"), 2) == Some(LocalFlags(True, Null, Null, Null));
    assert !SomeRoleAllows(s.local, {7}, 2, Read);
    assert !GloballyAllowed(s, "ann", Projects, Read);
  }

  /**
   * A role grant on the parent is never inherited by the shipped check,
   * while the intended walk reaches it (edit on the parent for a create).
   */
  lemma ParentGrantNotInherited()
    ensures var s := SampleStore(NoLocalFlags, [LocalGrant(RoleHolder(7), 1, LocalFlags(Null, Null, True, Null))]);
      HasLocalPermission(s, "ann", 2, Create) == Done(false) &&
      IntendedHasLocalPermission(s, "ann", 2, Create, 1) == Done(true)
  {
    var s := SampleStore(NoLocalFlags, [LocalGrant(RoleHolder(7), 1, LocalFlags(Null, Null, True, Null))]);
    assert FindResource(s.resources, 2) == Some(s.resources[1]);
    assert FindResource(s.resources, 1) == Some(s.resources[0]);
    assert GrantOf(s.local, UserHolder("ann"), 2) == Some(NoLocalFlags);
    assert GrantOf(s.local, UserHolder("ann"), 1) == None;
    assert !SomeRoleAllows(s.local, {7}, 2, Create);
    assert !SomeRoleDenies(s.local, {7}, 2, Create);
    assert SomeRoleAllows(s.local, {7}, 1, Edit);
    assert !GloballyAllowed(s, "ann", Projects, Create);
    assert !GloballyAllowed(s, "ann", Projects, Edit);
  }

  /**
   * The batch check lets a role allowance through a user's explicit denial,
   * which the single check refuses.
   */
  lemma BatchIgnoresDenial()
    ensures var s := SampleStore(LocalFlags(False, Null, Null, Null), [LocalGrant(RoleHolder(7), 2, LocalFlags(True, Null, Null, Null))]);
      HasLocalPermission(s, "ann", 2, Read) == Done(false) &&
      LocalPermissionsSpec(s, "ann", 2, [Read], NoResults) == Done(LocalFlags(True, Null, Null, Null))
  {
    var s := SampleStore(LocalFlags(False, Null, Null, Null), [LocalGrant(RoleHolder(7), 2, LocalFlags(True, Null, Null, Null))]);
    assert FindResource(s.resources, 2) == Some(s.resources[1]);
    assert GrantOf(s.local, UserHolder("ann"), 2) == Some(LocalFlags(False, Null, Null, Null));
    assert SomeRoleAllows(s.local, {7}, 2, Read) by {
      assert s.local[1].holder == RoleHolder(7);
    }
    assert !GloballyAllowed(s, "ann", Projects, Read);
  }
}
