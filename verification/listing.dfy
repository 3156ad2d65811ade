/**
 * The effective-permission listing of `src/service/permissionService.ts`:
 * every grant is listed together with the entries it implies for the
 * resources below it.
 */
module PermissionService {
  import opened Common
  import opened AuthService

  /** One listed permission: a resource, its entity and type, and four nullable flags. */
  datatype PermissionEntry = PermissionEntry(resourceId: ResourceId, entityId: int, kind: ResourceType, flags: LocalFlags)

  /** A listed global grant: `formatGlobalPermission`. */
  datatype GlobalEntry = GlobalEntry(subject: Subject, flags: GlobalFlags)

  /** The children of resource `id`: the rows whose parent is `id`, in table order. */
  function Children(rs: seq<Resource>, id: ResourceId): (kids: seq<Resource>)
    ensures forall c :: c in kids <==> c in rs && c.parent == Some(id)
  {
    if |rs| == 0 then []
    else (if rs[0].parent == Some(id) then [rs[0]] else []) + Children(rs[1..], id)
  }

  /**
   * The parent links never form a cycle: `rank` strictly decreases from a
   * resource to each of its children.
   */
  ghost predicate Acyclic(rs: seq<Resource>, rank: map<ResourceId, nat>)
  {
    forall i :: 0 <= i < |rs| && rs[i].parent.Some? ==>
      rs[i].id in rank && rs[i].parent.value in rank && rank[rs[i].id] < rank[rs[i].parent.value]
  }

  ghost function Height(rank: map<ResourceId, nat>, id: ResourceId): nat
  {
    if id in rank then rank[id] else 0
  }

  /** The entry derived for `child` from its parent's entry (`resolveForResource`'s `childPerm`). */
  function ChildEntry(parent: PermissionEntry, child: Resource): (e: PermissionEntry)
    ensures e.resourceId == child.id && e.entityId == child.entityId && e.kind == child.kind
    ensures e.flags.canCreate == e.flags.canEdit == parent.flags.canEdit
    ensures e.flags.canRead == True <==> parent.flags.canRead == True || parent.flags.canEdit == True
    ensures e.flags.canDelete == True <==> parent.flags.canDelete == True || parent.flags.canEdit == True
    ensures parent.flags.canRead != True ==> e.flags.canRead == parent.flags.canEdit
    ensures parent.flags.canDelete != True ==> e.flags.canDelete == parent.flags.canEdit
    ensures parent.flags.canEdit == True ==> e.flags == LocalFlags(True, True, True, True)
  {
    var f := parent.flags;
    PermissionEntry(child.id, child.entityId, child.kind,
      LocalFlags(Or(f.canRead, f.canEdit), f.canEdit, f.canEdit, Or(f.canDelete, f.canEdit)))
  }

  /**
   * What `resolveForResource(perm, id)` appends: nothing when resource `id`
   * does not exist; otherwise `perm`, then depth-first the entries derived
   * for each child in turn.
   */
  function Expand(rs: seq<Resource>, ghost rank: map<ResourceId, nat>, perm: PermissionEntry, id: ResourceId): seq<PermissionEntry>
    requires Acyclic(rs, rank)
    decreases Height(rank, id), 1, 0
  {
    if FindResource(rs, id).None? then []
    else [perm] + ExpandChildren(rs, rank, perm, Children(rs, id), id)
  }

  function ExpandChildren(rs: seq<Resource>, ghost rank: map<ResourceId, nat>, perm: PermissionEntry, kids: seq<Resource>, ghost parent: ResourceId): seq<PermissionEntry>
    requires Acyclic(rs, rank)
    requires forall c :: c in kids ==> c in rs && c.parent == Some(parent)
    decreases Height(rank, parent), 0, |kids|
  {
    if |kids| == 0 then []
    else
      var last := kids[|kids| - 1];
      ChildBelowParent(rs, rank, last, parent);
      ExpandChildren(rs, rank, perm, kids[..|kids| - 1], parent) + Expand(rs, rank, ChildEntry(perm, last), last.id)
  }

  lemma ChildBelowParent(rs: seq<Resource>, rank: map<ResourceId, nat>, c: Resource, parent: ResourceId)
    requires Acyclic(rs, rank)
    requires c in rs && c.parent == Some(parent)
    ensures Height(rank, c.id) < Height(rank, parent)
  {
    var i :| 0 <= i < |rs| && rs[i] == c;
  }

  /** The preorder listing of the ids in the subtree of `id`: a reference for `Expand`. */
  function SubtreeIds(rs: seq<Resource>, ghost rank: map<ResourceId, nat>, id: ResourceId): seq<ResourceId>
    requires Acyclic(rs, rank)
    decreases Height(rank, id), 1, 0
  {
    if FindResource(rs, id).None? then []
    else [id] + ChildrenSubtreeIds(rs, rank, Children(rs, id), id)
  }

  function ChildrenSubtreeIds(rs: seq<Resource>, ghost rank: map<ResourceId, nat>, kids: seq<Resource>, ghost parent: ResourceId): seq<ResourceId>
    requires Acyclic(rs, rank)
    requires forall c :: c in kids ==> c in rs && c.parent == Some(parent)
    decreases Height(rank, parent), 0, |kids|
  {
    if |kids| == 0 then []
    else
      var last := kids[|kids| - 1];
      ChildBelowParent(rs, rank, last, parent);
      ChildrenSubtreeIds(rs, rank, kids[..|kids| - 1], parent) + SubtreeIds(rs, rank, last.id)
  }

  function Ids(es: seq<PermissionEntry>): (ids: seq<ResourceId>)
    ensures |ids| == |es|
    ensures forall i :: 0 <= i < |es| ==> ids[i] == es[i].resourceId
  {
    if |es| == 0 then [] else [es[0].resourceId] + Ids(es[1..])
  }

  lemma IdsAppend(a: seq<PermissionEntry>, b: seq<PermissionEntry>)
    ensures Ids(a + b) == Ids(a) + Ids(b)
  {
    var l, r := Ids(a + b), Ids(a) + Ids(b);
    forall i | 0 <= i < |l|
      ensures l[i] == r[i]
    {
      if i < |a| {
        assert (a + b)[i] == a[i];
      } else {
        assert (a + b)[i] == b[i - |a|];
      }
    }
  }

  /**
   * The listing for one starting entry visits exactly the subtree of its
   * resource, in depth-first preorder, whatever the flags: one entry per
   * resource of the subtree.
   */
  lemma {:induction false} ExpandVisitsSubtree(rs: seq<Resource>, rank: map<ResourceId, nat>, perm: PermissionEntry, id: ResourceId)
    requires Acyclic(rs, rank)
    requires perm.resourceId == id
    ensures Ids(Expand(rs, rank, perm, id)) == SubtreeIds(rs, rank, id)
    decreases Height(rank, id), 1, 0
  {
    if FindResource(rs, id).Some? {
      ExpandChildrenVisitSubtrees(rs, rank, perm, Children(rs, id), id);
      IdsAppend([perm], ExpandChildren(rs, rank, perm, Children(rs, id), id));
    }
  }

  lemma {:induction false} ExpandChildrenVisitSubtrees(rs: seq<Resource>, rank: map<ResourceId, nat>, perm: PermissionEntry, kids: seq<Resource>, parent: ResourceId)
    requires Acyclic(rs, rank)
    requires forall c :: c in kids ==> c in rs && c.parent == Some(parent)
    ensures Ids(ExpandChildren(rs, rank, perm, kids, parent)) == ChildrenSubtreeIds(rs, rank, kids, parent)
    decreases Height(rank, parent), 0, |kids|
  {
    if |kids| > 0 {
      var last := kids[|kids| - 1];
      ChildBelowParent(rs, rank, last, parent);
      ExpandVisitsSubtree(rs, rank, ChildEntry(perm, last), last.id);
      ExpandChildrenVisitSubtrees(rs, rank, perm, kids[..|kids| - 1], parent);
      IdsAppend(ExpandChildren(rs, rank, perm, kids[..|kids| - 1], parent), Expand(rs, rank, ChildEntry(perm, last), last.id));
    }
  }

  /** Every entry an expansion derives carries a resource row's own id, entity id and type, and has create equal to edit. */
  predicate Derived(rs: seq<Resource>, e: PermissionEntry)
  {
    Named(rs, e) && e.flags.canCreate == e.flags.canEdit
  }

  /** Some resource row has the entry's id, entity id and type. */
  predicate Named(rs: seq<Resource>, e: PermissionEntry)
  {
    exists i :: 0 <= i < |rs| && RowOf(rs[i], e)
  }

  /** The entry names this row's id, entity id and type. */
  predicate RowOf(r: Resource, e: PermissionEntry)
  {
    r.id == e.resourceId && r.entityId == e.entityId && r.kind == e.kind
  }

  predicate AllTrue(e: PermissionEntry)
  {
    e.flags == LocalFlags(True, True, True, True)
  }

  /** Every entry of `es` is derived, and all-true when `perm` grants edit. */
  predicate DerivedFrom(rs: seq<Resource>, perm: PermissionEntry, es: seq<PermissionEntry>)
  {
    forall k :: 0 <= k < |es| ==> Derived(rs, es[k]) && (perm.flags.canEdit == True ==> AllTrue(es[k]))
  }

  /**
   * The expansion of `perm` starts with `perm` itself when its resource
   * exists; every later entry is derived from a resource row, has create
   * equal to edit, and is all-true when `perm` grants edit.
   */
  lemma {:induction false} ExpandShape(rs: seq<Resource>, rank: map<ResourceId, nat>, perm: PermissionEntry, id: ResourceId)
    requires Acyclic(rs, rank)
    ensures FindResource(rs, id).None? <==> Expand(rs, rank, perm, id) == []
    ensures Expand(rs, rank, perm, id) != [] ==> Expand(rs, rank, perm, id)[0] == perm
    ensures Expand(rs, rank, perm, id) != [] ==> DerivedFrom(rs, perm, Expand(rs, rank, perm, id)[1..])
    decreases Height(rank, id), 1, 0
  {
    if FindResource(rs, id).Some? {
      var kids := Children(rs, id);
      var tail := ExpandChildren(rs, rank, perm, kids, id);
      ExpandChildrenShape(rs, rank, perm, kids, id);
      var out := Expand(rs, rank, perm, id);
      assert out == [perm] + tail;
      assert out[1..] == tail;
    }
  }

  lemma {:induction false} ExpandChildrenShape(rs: seq<Resource>, rank: map<ResourceId, nat>, perm: PermissionEntry, kids: seq<Resource>, parent: ResourceId)
    requires Acyclic(rs, rank)
    requires forall c :: c in kids ==> c in rs && c.parent == Some(parent)
    ensures DerivedFrom(rs, perm, ExpandChildren(rs, rank, perm, kids, parent))
    decreases Height(rank, parent), 0, |kids|
  {
    if |kids| > 0 {
      var last := kids[|kids| - 1];
      ChildBelowParent(rs, rank, last, parent);
      var child := ChildEntry(perm, last);
      var init := ExpandChildren(rs, rank, perm, kids[..|kids| - 1], parent);
      var tail := Expand(rs, rank, child, last.id);
      ExpandShape(rs, rank, child, last.id);
      ExpandChildrenShape(rs, rank, perm, kids[..|kids| - 1], parent);
      assert ExpandChildren(rs, rank, perm, kids, parent) == init + tail;
      var j :| 0 <= j < |rs| && rs[j] == last;
      assert RowOf(rs[j], child);
      forall k | 0 <= k < |init + tail|
        ensures Derived(rs, (init + tail)[k])
        ensures perm.flags.canEdit == True ==> AllTrue((init + tail)[k])
      {
        if k < |init| {
          assert (init + tail)[k] == init[k];
        } else if k == |init| {
          assert (init + tail)[k] == child;
        } else {
          assert (init + tail)[k] == tail[1..][k - |init| - 1];
        }
      }
    }
  }

  lemma ExpandChildrenSnoc(rs: seq<Resource>, rank: map<ResourceId, nat>, perm: PermissionEntry, kids: seq<Resource>, i: nat, parent: ResourceId)
    requires Acyclic(rs, rank)
    requires forall c :: c in kids ==> c in rs && c.parent == Some(parent)
    requires i < |kids|
    ensures ExpandChildren(rs, rank, perm, kids[..i + 1], parent) ==
      ExpandChildren(rs, rank, perm, kids[..i], parent) + Expand(rs, rank, ChildEntry(perm, kids[i]), kids[i].id)
  {
    assert kids[..i + 1][..i] == kids[..i];
  }

  /** What `resolvePermissionsWithHierarchy` returns: each starting entry expanded in turn, duplicates kept. */
  function ResolveSpec(rs: seq<Resource>, ghost rank: map<ResourceId, nat>, perms: seq<PermissionEntry>): seq<PermissionEntry>
    requires Acyclic(rs, rank)
  {
    if |perms| == 0 then []
    else ResolveSpec(rs, rank, perms[..|perms| - 1]) + Expand(rs, rank, perms[|perms| - 1], perms[|perms| - 1].resourceId)
  }

  /** The shared `resolvedPermissions` array that `resolveForResource` pushes to. */
  class Resolver {
    var resolved: seq<PermissionEntry>

    constructor ()
      ensures resolved == []
    {
      resolved := [];
    }

    /** `resolveForResource`: push `perm`, then recurse into every child with its derived entry. */
    method ResolveForResource(rs: seq<Resource>, ghost rank: map<ResourceId, nat>, perm: PermissionEntry, id: ResourceId)
      requires Acyclic(rs, rank)
      modifies this
      ensures resolved == old(resolved) + Expand(rs, rank, perm, id)
      decreases Height(rank, id)
    {
      var resource := FindResource(rs, id);
      if resource.Some? {
        resolved := resolved + [perm];
        ghost var base := resolved;
        var kids := Children(rs, id);
        var i := 0;
        while i < |kids|
          invariant 0 <= i <= |kids|
          invariant resolved == base + ExpandChildren(rs, rank, perm, kids[..i], id)
        {
          ChildBelowParent(rs, rank, kids[i], id);
          ResolveForResource(rs, rank, ChildEntry(perm, kids[i]), kids[i].id);
          ExpandChildrenSnoc(rs, rank, perm, kids, i, id);
          AppendAssoc(base, ExpandChildren(rs, rank, perm, kids[..i], id), Expand(rs, rank, ChildEntry(perm, kids[i]), kids[i].id));
          i := i + 1;
        }
        assert kids[..i] == kids;
        AppendAssoc(old(resolved), [perm], ExpandChildren(rs, rank, perm, kids, id));
      }
    }
  }

  lemma AppendAssoc<T>(a: seq<T>, b: seq<T>, c: seq<T>)
    ensures a + b + c == a + (b + c)
  {
  }

  /** `resolvePermissionsWithHierarchy`: resolve every starting entry into one shared list. */
  method ResolvePermissionsWithHierarchy(rs: seq<Resource>, ghost rank: map<ResourceId, nat>, perms: seq<PermissionEntry>)
    returns (out: seq<PermissionEntry>)
    requires Acyclic(rs, rank)
    ensures out == ResolveSpec(rs, rank, perms)
  {
    var resolver := new Resolver();
    var i := 0;
    while i < |perms|
      invariant 0 <= i <= |perms|
      invariant resolver.resolved == ResolveSpec(rs, rank, perms[..i])
    {
      resolver.ResolveForResource(rs, rank, perms[i], perms[i].resourceId);
      assert perms[..i + 1][..i] == perms[..i];
      i := i + 1;
    }
    assert perms[..i] == perms;
    out := resolver.resolved;
  }

  // ---------------------------------------------------------------------
  // Listings for a user, a position and a project role
  // ---------------------------------------------------------------------

  /** The starting entries for some grants: each grant's resource row and its four flags. */
  function StartEntries(rs: seq<Resource>, grants: seq<LocalGrant>): (es: seq<PermissionEntry>)
    ensures |es| <= |grants|
    ensures NamesRows(rs, es)
    ensures forall g :: g in grants && FindResource(rs, g.resource).Some? ==>
      PermissionEntry(g.resource, FindResource(rs, g.resource).value.entityId, FindResource(rs, g.resource).value.kind, g.flags) in es
  {
    if |grants| == 0 then []
    else
      var rest := StartEntries(rs, grants[1..]);
      assert forall g :: g in grants ==> g == grants[0] || g in grants[1..];
      match FindResource(rs, grants[0].resource)
      case None => rest
      case Some(r) =>
        var e := PermissionEntry(r.id, r.entityId, r.kind, grants[0].flags);
        var j :| 0 <= j < |rs| && rs[j] == r;
        assert RowOf(rs[j], e);
        [e] + rest
  }

  /** The local grants whose holder satisfies `held`, in table order. */
  function GrantsHeld(local: seq<LocalGrant>, held: Holder -> bool): (r: seq<LocalGrant>)
    ensures forall g :: g in r <==> g in local && held(g.holder)
  {
    if |local| == 0 then []
    else (if held(local[0].holder) then [local[0]] else []) + GrantsHeld(local[1..], held)
  }

  /** `formatGlobalPermission`. */
  function FormatGlobal(g: GlobalGrant): GlobalEntry
  {
    GlobalEntry(g.subject, g.flags)
  }

  /** `grants.map(formatGlobalPermission)`. */
  function FormatAll(grants: seq<GlobalGrant>): (r: seq<GlobalEntry>)
    ensures |r| == |grants|
    ensures forall i :: 0 <= i < |grants| ==> r[i] == FormatGlobal(grants[i])
  {
    if |grants| == 0 then [] else [FormatGlobal(grants[0])] + FormatAll(grants[1..])
  }

  /** The formatted global grants held by `g`, in table order. */
  function GlobalEntries(global: seq<GlobalGrant>, g: Grantee): seq<GlobalEntry>
  {
    FormatAll(GrantsOf(global, g))
  }

  /** Every entry of `es` names an existing resource row. */
  predicate NamesRows(rs: seq<Resource>, es: seq<PermissionEntry>)
  {
    forall k :: 0 <= k < |es| ==> Named(rs, es[k])
  }

  lemma NamesRowsAppend(rs: seq<Resource>, a: seq<PermissionEntry>, b: seq<PermissionEntry>)
    requires NamesRows(rs, a) && NamesRows(rs, b)
    ensures NamesRows(rs, a + b)
  {
    forall k | 0 <= k < |a + b|
      ensures Named(rs, (a + b)[k])
    {
      if k < |a| {
        assert (a + b)[k] == a[k];
      } else {
        assert (a + b)[k] == b[k - |a|];
      }
    }
  }

  /** The expansion of an entry that names a resource row names resource rows only. */
  lemma ExpandNamesRows(rs: seq<Resource>, rank: map<ResourceId, nat>, perm: PermissionEntry)
    requires Acyclic(rs, rank)
    requires Named(rs, perm)
    ensures NamesRows(rs, Expand(rs, rank, perm, perm.resourceId))
  {
    ExpandShape(rs, rank, perm, perm.resourceId);
    var b := Expand(rs, rank, perm, perm.resourceId);
    forall k | 0 <= k < |b|
      ensures Named(rs, b[k])
    {
      if k > 0 {
        assert b[k] == b[1..][k - 1];
        assert Derived(rs, b[1..][k - 1]);
      }
    }
  }

  /** Every entry of a resolved listing names an existing resource row. */
  lemma {:induction false} ResolveListsExistingResources(rs: seq<Resource>, rank: map<ResourceId, nat>, perms: seq<PermissionEntry>)
    requires Acyclic(rs, rank)
    requires NamesRows(rs, perms)
    ensures NamesRows(rs, ResolveSpec(rs, rank, perms))
  {
    if |perms| > 0 {
      var init := perms[..|perms| - 1];
      var last := perms[|perms| - 1];
      assert forall k :: 0 <= k < |init| ==> init[k] == perms[k];
      ResolveListsExistingResources(rs, rank, init);
      ExpandNamesRows(rs, rank, last);
      NamesRowsAppend(rs, ResolveSpec(rs, rank, init), Expand(rs, rank, last, last.resourceId));
    }
  }

  /**
   * Every starting entry whose resource exists is listed: the listing of
   * `perms` holds each of them.
   */
  lemma {:induction false} ResolveKeepsStartEntries(rs: seq<Resource>, rank: map<ResourceId, nat>, perms: seq<PermissionEntry>)
    requires Acyclic(rs, rank)
    ensures forall p :: p in perms && FindResource(rs, p.resourceId).Some? ==> p in ResolveSpec(rs, rank, perms)
  {
    if |perms| > 0 {
      var init := perms[..|perms| - 1];
      var last := perms[|perms| - 1];
      ResolveKeepsStartEntries(rs, rank, init);
      ExpandShape(rs, rank, last, last.resourceId);
      assert ResolveSpec(rs, rank, perms) == ResolveSpec(rs, rank, init) + Expand(rs, rank, last, last.resourceId);
      forall p | p in perms && FindResource(rs, p.resourceId).Some?
        ensures p in ResolveSpec(rs, rank, perms)
      {
        if p != last {
          assert p in init;
        }
      }
    }
  }

  /** The reply of `getUserPermissions`. */
  datatype UserPermissions = UserPermissions(
    userLocal: seq<PermissionEntry>,
    positionLocal: seq<PermissionEntry>,
    roleLocal: seq<PermissionEntry>,
    userGlobal: seq<GlobalEntry>,
    positionGlobal: seq<GlobalEntry>)

  /** The reply of `getPositionPermissions`. */
  datatype PositionPermissions = PositionPermissions(local: seq<PermissionEntry>, global: seq<GlobalEntry>)

  /** The starting entries of the grants held by a user, a position and a set of roles. */
  function UserStarts(s: Store, u: UserId): seq<PermissionEntry>
  {
    StartEntries(s.resources, GrantsHeld(s.local, (h: Holder) => h == UserHolder(u)))
  }

  function PositionStarts(s: Store, p: PositionId): seq<PermissionEntry>
  {
    StartEntries(s.resources, GrantsHeld(s.local, (h: Holder) => h == PositionHolder(p)))
  }

  function RoleStarts(s: Store, roles: set<RoleId>): seq<PermissionEntry>
  {
    StartEntries(s.resources, GrantsHeld(s.local, (h: Holder) => h.RoleHolder? && h.role in roles))
  }

  /**
   * `getUserPermissions`: an unknown user throws; otherwise the user's,
   * their position's and their roles' local grants each resolved down the
   * hierarchy, and the user's and their position's global grants.
   */
  method GetUserPermissions(s: Store, ghost rank: map<ResourceId, nat>, u: UserId) returns (out: Outcome<UserPermissions>)
    requires Acyclic(s.resources, rank)
    ensures u !in s.users <==> out.Thrown?
    ensures u in s.users ==> out == Done(UserPermissions(
      ResolveSpec(s.resources, rank, UserStarts(s, u)),
      (match s.users[u].position
       case None => []
       case Some(p) => ResolveSpec(s.resources, rank, PositionStarts(s, p))),
      ResolveSpec(s.resources, rank, RoleStarts(s, s.users[u].roles)),
      GlobalEntries(s.global, UserGrantee(u)),
      (match s.users[u].position
       case None => []
       case Some(p) => GlobalEntries(s.global, PositionGrantee(p)))))
  {
    if u !in s.users {
      return Thrown("User not found");
    }
    var user := s.users[u];
    var userGlobal := GlobalEntries(s.global, UserGrantee(u));
    var positionGlobal: seq<GlobalEntry> := [];
    if user.position.Some? {
      positionGlobal := GlobalEntries(s.global, PositionGrantee(user.position.value));
    }
    var userLocal := ResolvePermissionsWithHierarchy(s.resources, rank, UserStarts(s, u));
    var positionLocal: seq<PermissionEntry> := [];
    if user.position.Some? {
      positionLocal := ResolvePermissionsWithHierarchy(s.resources, rank, PositionStarts(s, user.position.value));
    }
    var roleLocal := ResolvePermissionsWithHierarchy(s.resources, rank, RoleStarts(s, user.roles));
    out := Done(UserPermissions(userLocal, positionLocal, roleLocal, userGlobal, positionGlobal));
  }

  /** `getPositionPermissions`: an unknown position throws; otherwise its resolved local grants and its global grants. */
  method GetPositionPermissions(s: Store, ghost rank: map<ResourceId, nat>, p: PositionId) returns (out: Outcome<PositionPermissions>)
    requires Acyclic(s.resources, rank)
    ensures p !in s.positions <==> out.Thrown?
    ensures p in s.positions ==> out == Done(PositionPermissions(
      ResolveSpec(s.resources, rank, PositionStarts(s, p)),
      GlobalEntries(s.global, PositionGrantee(p))))
  {
    if p !in s.positions {
      return Thrown("Position not found");
    }
    var local := ResolvePermissionsWithHierarchy(s.resources, rank, PositionStarts(s, p));
    out := Done(PositionPermissions(local, GlobalEntries(s.global, PositionGrantee(p))));
  }

  /** `getProjectRolePermissions`: an unknown role lists nothing; otherwise its grants resolved down the hierarchy. */
  method GetProjectRolePermissions(s: Store, ghost rank: map<ResourceId, nat>, role: RoleId) returns (out: seq<PermissionEntry>)
    requires Acyclic(s.resources, rank)
    ensures role !in s.roles ==> out == []
    ensures role in s.roles ==> out == ResolveSpec(s.resources, rank, RoleStarts(s, {role}))
  {
    if role !in s.roles {
      return [];
    }
    out := ResolvePermissionsWithHierarchy(s.resources, rank, RoleStarts(s, {role}));
  }

  /**
   * Every entry of a listing names an existing resource, and every grant
   * the holder has on an existing resource is listed with its own flags.
   */
  lemma ListingIsComplete(s: Store, rank: map<ResourceId, nat>, held: Holder -> bool)
    requires Acyclic(s.resources, rank)
    ensures var out := ResolveSpec(s.resources, rank, StartEntries(s.resources, GrantsHeld(s.local, held)));
      NamesRows(s.resources, out) &&
      forall g :: g in s.local && held(g.holder) && FindResource(s.resources, g.resource).Some? ==>
        exists e :: e in out && e.resourceId == g.resource && e.flags == g.flags
  {
    var starts := StartEntries(s.resources, GrantsHeld(s.local, held));
    ResolveListsExistingResources(s.resources, rank, starts);
    ResolveKeepsStartEntries(s.resources, rank, starts);
    var out := ResolveSpec(s.resources, rank, starts);
    forall g | g in s.local && held(g.holder) && FindResource(s.resources, g.resource).Some?
      ensures exists e :: e in out && e.resourceId == g.resource && e.flags == g.flags
    {
      var r := FindResource(s.resources, g.resource).value;
      var e := PermissionEntry(g.resource, r.entityId, r.kind, g.flags);
      assert e in starts;
      assert e in out;
    }
  }
}
