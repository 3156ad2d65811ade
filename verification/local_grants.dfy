/**
 * The local-permission editing handlers of
 * `src/controller/LocalPermissionController.ts`: `updateUserLocalPermissions`,
 * `updatePositionLocalPermissions` and `updateRolePermissions`.
 *
 * A request names a holder (a user, a position or a project role) and two
 * lists of entries. Removals run first, one entry at a time, and each is
 * saved as soon as it is authorised; the additions are then authorised and
 * applied in memory, and saved together only when every one of them was
 * authorised.
 */
module LocalPermissionController {
  import opened Common
  import opened AuthService

  /** One entry of `addLocalPermissions` or `removeLocalPermissions`. */
  datatype GrantRequest = GrantRequest(resourceId: ResourceId, canCreate: JsonValue, canRead: JsonValue, canEdit: JsonValue, canDelete: JsonValue)

  /** `permissionData[permissionTypeToKeyMap[a]]`. */
  function RequestValue(e: GrantRequest, a: Action): JsonValue
  {
    match a
    case Create => e.canCreate
    case Read => e.canRead
    case Edit => e.canEdit
    case Delete => e.canDelete
  }

  /** A key is selected when its value is neither `undefined` nor `null`. */
  predicate Supplied(v: JsonValue)
  {
    !v.Undefined? && !v.JsonNull?
  }

  /** The actions an entry selects, in the order create, read, edit, delete. */
  function SelectedActions(e: GrantRequest): (acts: seq<Action>)
    ensures forall a :: a in acts <==> Supplied(RequestValue(e, a))
  {
    (if Supplied(e.canCreate) then [Create] else []) +
    (if Supplied(e.canRead) then [Read] else []) +
    (if Supplied(e.canEdit) then [Edit] else []) +
    (if Supplied(e.canDelete) then [Delete] else [])
  }

  /**
   * Whether the caller may change the selected actions of an entry: the
   * record `hasLocalPermissions` returns must hold true for each of them.
   */
  function Authorise(s: Store, caller: UserId, e: GrantRequest): (r: Outcome<bool>)
    ensures r.Thrown? <==> LocalPermissionsSpec(s, caller, e.resourceId, SelectedActions(e), NoResults).Thrown?
    ensures r.Done? ==> (r.value <==> AllHeld(LocalPermissionsSpec(s, caller, e.resourceId, SelectedActions(e), NoResults).value, SelectedActions(e)))
  {
    match LocalPermissionsSpec(s, caller, e.resourceId, SelectedActions(e), NoResults)
    case Thrown(m) => Thrown(m)
    case Done(res) => Done(AllHeld(res, SelectedActions(e)))
  }

  /** A caller with an empty id may not change any action. */
  lemma EmptyCallerRefused(s: Store, e: GrantRequest)
    requires SelectedActions(e) != []
    ensures Authorise(s, "", e) == Done(false)
  {
    var a := SelectedActions(e)[0];
    assert LocalFlag(NoResults, a) == Null;
  }

  /** The first row of `local` held by `h` on resource `r`. */
  function GrantIndex(local: seq<LocalGrant>, h: Holder, r: ResourceId): (k: Option<nat>)
    ensures k.Some? ==> k.value < |local| && local[k.value].holder == h && local[k.value].resource == r
    ensures k.Some? ==> forall j :: 0 <= j < k.value ==> !(local[j].holder == h && local[j].resource == r)
    ensures k.None? ==> forall j :: 0 <= j < |local| ==> !(local[j].holder == h && local[j].resource == r)
  {
    if |local| == 0 then None
    else if local[0].holder == h && local[0].resource == r then Some(0)
    else match GrantIndex(local[1..], h, r)
      case None => None
      case Some(k) => Some(k + 1)
  }

  /** At most one row per (holder, resource). */
  ghost predicate UniqueGrants(local: seq<LocalGrant>)
  {
    forall i, j :: 0 <= i < j < |local| && local[i].holder == local[j].holder ==> local[i].resource != local[j].resource
  }

  /** The selected keys set to null. */
  function ClearFlags(f: LocalFlags, acts: seq<Action>): (r: LocalFlags)
    ensures forall a :: LocalFlag(r, a) == if a in acts then Null else LocalFlag(f, a)
  {
    LocalFlags(
      if Read in acts then Null else f.canRead,
      if Create in acts then Null else f.canCreate,
      if Edit in acts then Null else f.canEdit,
      if Delete in acts then Null else f.canDelete)
  }

  /** The keys whose value is a boolean written; every other key kept. */
  function WriteBooleans(f: LocalFlags, e: GrantRequest): (r: LocalFlags)
    ensures forall a :: LocalFlag(r, a) == if RequestValue(e, a).JsonBool? then FromBool(RequestValue(e, a).b) else LocalFlag(f, a)
  {
    LocalFlags(
      if e.canRead.JsonBool? then FromBool(e.canRead.b) else f.canRead,
      if e.canCreate.JsonBool? then FromBool(e.canCreate.b) else f.canCreate,
      if e.canEdit.JsonBool? then FromBool(e.canEdit.b) else f.canEdit,
      if e.canDelete.JsonBool? then FromBool(e.canDelete.b) else f.canDelete)
  }

  /**
   * One authorised removal entry: the holder's grant on the resource, if
   * any, has the selected keys set to null; a grant left all-null is
   * deleted, any other is saved.
   */
  function RemoveStep(local: seq<LocalGrant>, h: Holder, e: GrantRequest): seq<LocalGrant>
  {
    match GrantIndex(local, h, e.resourceId)
    case None => local
    case Some(k) =>
      var f := ClearFlags(local[k].flags, SelectedActions(e));
      if f == NoLocalFlags then local[..k] + local[k + 1..] else local[k := LocalGrant(h, e.resourceId, f)]
  }

  /**
   * Whether an authorised removal entry deletes the holder's grant: the
   * grant exists and every key is null once the selected ones are cleared.
   */
  predicate Deletes(local: seq<LocalGrant>, h: Holder, e: GrantRequest)
  {
    match GrantIndex(local, h, e.resourceId)
    case None => false
    case Some(k) => ClearFlags(local[k].flags, SelectedActions(e)) == NoLocalFlags
  }

  /**
   * One authorised addition entry, applied in memory: the holder's grant
   * among the first `n` rows (those the removals left of the rows loaded
   * with the holder) is reused, otherwise a new all-null grant is
   * appended; then the boolean values are written.
   */
  function AddStep(cur: seq<LocalGrant>, n: nat, h: Holder, e: GrantRequest): (r: seq<LocalGrant>)
    requires n <= |cur|
    ensures n <= |r|
  {
    match GrantIndex(cur[..n], h, e.resourceId)
    case Some(k) => cur[k := LocalGrant(h, e.resourceId, WriteBooleans(cur[k].flags, e))]
    case None => cur + [LocalGrant(h, e.resourceId, WriteBooleans(NoLocalFlags, e))]
  }

  /**
   * The rows after a phase, the status it stopped with, if it stopped, and
   * `gone`: the resources whose loaded grant the removals deleted. The
   * handler keeps looking entries up in the holder's grants as loaded, so
   * a later entry for such a resource meets the deleted entity, which no
   * longer has a row, instead of a row of the table.
   */
  datatype Phase = Phase(local: seq<LocalGrant>, failure: Option<Status>, gone: set<ResourceId>)

  /**
   * The removal loop: entries in order, each authorised against the table
   * as the earlier removals left it. An error answers 500 and a refusal
   * 403; the removals already done stay. An entry for a resource in `gone`
   * clears and removes the deleted entity again and changes no row.
   */
  function RemovePhase(s: Store, caller: UserId, h: Holder, entries: seq<GrantRequest>, gone: set<ResourceId>): (r: Phase)
    ensures r.failure == None || r.failure == Some(Forbidden) || r.failure == Some(ServerError)
    ensures gone <= r.gone
    decreases |entries|
  {
    if |entries| == 0 then Phase(s.local, None, gone)
    else match Authorise(s, caller, entries[0])
      case Thrown(_) => Phase(s.local, Some(ServerError), gone)
      case Done(ok) =>
        if !ok then Phase(s.local, Some(Forbidden), gone)
        else if entries[0].resourceId in gone then RemovePhase(s, caller, h, entries[1..], gone)
        else
          var more := if Deletes(s.local, h, entries[0]) then gone + {entries[0].resourceId} else gone;
          RemovePhase(s.(local := RemoveStep(s.local, h, entries[0])), caller, h, entries[1..], more)
  }

  /**
   * The addition pass: every entry authorised against the table `s` left
   * by the removals, and applied in memory to `cur`. An entry for a
   * resource in `gone` writes into the deleted entity, which is saved as a
   * new row without holder and so changes no grant.
   */
  function AddPhase(s: Store, caller: UserId, h: Holder, gone: set<ResourceId>, n: nat, entries: seq<GrantRequest>, cur: seq<LocalGrant>): (r: Phase)
    requires n <= |cur|
    ensures r.failure == None || r.failure == Some(Forbidden) || r.failure == Some(ServerError)
    ensures r.gone == gone
    decreases |entries|
  {
    if |entries| == 0 then Phase(cur, None, gone)
    else match Authorise(s, caller, entries[0])
      case Thrown(_) => Phase(cur, Some(ServerError), gone)
      case Done(ok) =>
        if !ok then Phase(cur, Some(Forbidden), gone)
        else if entries[0].resourceId in gone then AddPhase(s, caller, h, gone, n, entries[1..], cur)
        else AddPhase(s, caller, h, gone, n, entries[1..], AddStep(cur, n, h, entries[0]))
  }

  /** The first entry of the removal pass. */
  lemma RemovePhaseStep(s: Store, caller: UserId, h: Holder, entries: seq<GrantRequest>, gone: set<ResourceId>)
    requires |entries| > 0
    ensures var v := Authorise(s, caller, entries[0]);
      var e := entries[0];
      RemovePhase(s, caller, h, entries, gone) ==
        if v.Thrown? then Phase(s.local, Some(ServerError), gone)
        else if !v.value then Phase(s.local, Some(Forbidden), gone)
        else if e.resourceId in gone then RemovePhase(s, caller, h, entries[1..], gone)
        else RemovePhase(s.(local := RemoveStep(s.local, h, e)), caller, h, entries[1..],
                         if Deletes(s.local, h, e) then gone + {e.resourceId} else gone)
  {
  }

  /** The first entry of the addition pass. */
  lemma AddPhaseStep(s: Store, caller: UserId, h: Holder, gone: set<ResourceId>, n: nat, entries: seq<GrantRequest>, cur: seq<LocalGrant>)
    requires n <= |cur| && |entries| > 0
    ensures var v := Authorise(s, caller, entries[0]);
      AddPhase(s, caller, h, gone, n, entries, cur) ==
        if v.Thrown? then Phase(cur, Some(ServerError), gone)
        else if !v.value then Phase(cur, Some(Forbidden), gone)
        else if entries[0].resourceId in gone then AddPhase(s, caller, h, gone, n, entries[1..], cur)
        else AddPhase(s, caller, h, gone, n, entries[1..], AddStep(cur, n, h, entries[0]))
  {
  }

  /** `hasLocalPermissions` for one entry followed by the check that every selected action is held. */
  method AuthoriseEntry(s: Store, caller: UserId, e: GrantRequest) returns (r: Outcome<bool>)
    ensures r == Authorise(s, caller, e)
  {
    var acts := SelectedActions(e);
    var results := HasLocalPermissions(s, caller, e.resourceId, acts, NoResults);
    if results.Thrown? {
      return Thrown(results.message);
    }
    var ok := CheckHeld(results.value, acts);
    return Done(ok);
  }

  /** Whether the holder named by the route exists. */
  predicate HolderExists(s: Store, h: Holder)
  {
    match h
    case UserHolder(u) => u in s.users
    case PositionHolder(p) => p in s.positions
    case RoleHolder(r) => r in s.roles
  }

  /**
   * The body check: the user and role handlers want `addLocalPermissions`
   * to be an array whatever else is sent; the position handler wants some
   * list given and at least one of the two to be an array.
   */
  predicate ListsAccepted(h: Holder, remove: ListField<GrantRequest>, add: ListField<GrantRequest>)
  {
    if h.PositionHolder? then add.List? || remove.List? else add.List?
  }

  /** The success answer: only the user handler answers; the others send nothing. */
  function Success(h: Holder): Status
  {
    if h.UserHolder? then Ok else NoResponse
  }

  /** The answer and the rows left by one request; `target` is `None` when the route id is empty. */
  function UpdateSpec(s: Store, caller: UserId, target: Option<Holder>, remove: ListField<GrantRequest>, add: ListField<GrantRequest>): (Status, seq<LocalGrant>)
  {
    if target.None? then (BadRequest, s.local)
    else
      var h := target.value;
      if !HolderExists(s, h) then (NotFound, s.local)
      else if !ListsAccepted(h, remove, add) then (BadRequest, s.local)
      else
        var removed := if remove.List? then RemovePhase(s, caller, h, remove.items, {}) else Phase(s.local, None, {});
        if removed.failure.Some? then (removed.failure.value, removed.local)
        else if add.List? then
          var added := AddPhase(s.(local := removed.local), caller, h, removed.gone, |removed.local|, add.items, removed.local);
          if added.failure.Some? then (added.failure.value, removed.local) else (Success(h), added.local)
        else (Success(h), removed.local)
  }

  /** The record after the write loop has seen the first `i` selected keys. */
  ghost predicate WrittenSoFar(f: LocalFlags, e: GrantRequest, acts: seq<Action>, i: nat, r: LocalFlags)
    requires i <= |acts|
  {
    forall a :: LocalFlag(r, a) ==
      if a in acts[..i] && RequestValue(e, a).JsonBool? then FromBool(RequestValue(e, a).b) else LocalFlag(f, a)
  }

  /** One turn of the write loop: a boolean value is written, any other leaves the key. */
  lemma WriteTurn(f: LocalFlags, e: GrantRequest, acts: seq<Action>, i: nat, r: LocalFlags)
    requires i < |acts| && WrittenSoFar(f, e, acts, i, r)
    ensures var v := RequestValue(e, acts[i]);
      WrittenSoFar(f, e, acts, i + 1, if v.JsonBool? then SetLocalFlag(r, acts[i], FromBool(v.b)) else r)
  {
    assert acts[..i + 1] == acts[..i] + [acts[i]];
  }

  /** The record after the clearing loop has seen the first `i` selected keys. */
  ghost predicate ClearedSoFar(f: LocalFlags, acts: seq<Action>, i: nat, r: LocalFlags)
    requires i <= |acts|
  {
    forall a :: LocalFlag(r, a) == if a in acts[..i] then Null else LocalFlag(f, a)
  }

  /** One turn of the clearing loop sets the next selected key to null. */
  lemma ClearTurn(f: LocalFlags, acts: seq<Action>, i: nat, r: LocalFlags)
    requires i < |acts| && ClearedSoFar(f, acts, i, r)
    ensures ClearedSoFar(f, acts, i + 1, SetLocalFlag(r, acts[i], Null))
  {
    assert acts[..i + 1] == acts[..i] + [acts[i]];
  }
  /** The clearing loop of a removal: each selected key in turn. */
  method ClearEntry(f: LocalFlags, acts: seq<Action>) returns (r: LocalFlags)
    ensures r == ClearFlags(f, acts)
  {
    r := f;
    var i := 0;
    while i < |acts|
      invariant 0 <= i <= |acts|
      invariant ClearedSoFar(f, acts, i, r)
    {
      ClearTurn(f, acts, i, r);
      r := SetLocalFlag(r, acts[i], Null);
      i := i + 1;
    }
    assert acts[..i] == acts;
    LocalFlagsEqual(r, ClearFlags(f, acts));
  }

  /** The `actionsToAdd.forEach` that writes the boolean values into a grant. */
  method WriteEntry(f: LocalFlags, e: GrantRequest) returns (r: LocalFlags)
    ensures r == WriteBooleans(f, e)
  {
    var acts := SelectedActions(e);
    r := f;
    var i := 0;
    while i < |acts|
      invariant 0 <= i <= |acts|
      invariant WrittenSoFar(f, e, acts, i, r)
    {
      WriteTurn(f, e, acts, i, r);
      var v := RequestValue(e, acts[i]);
      if v.JsonBool? {
        r := SetLocalFlag(r, acts[i], FromBool(v.b));
      }
      i := i + 1;
    }
    assert acts[..i] == acts;
    LocalFlagsEqual(r, WriteBooleans(f, e));
  }

  /** The `LocalPermission` table as the handlers change it. */
  class LocalGrantTable {
    var local: seq<LocalGrant>

    constructor (rows: seq<LocalGrant>)
      ensures local == rows
    {
      local := rows;
    }

    /** The body of the removal loop for one authorised entry; `deleted` tells whether the grant was deleted. */
    method RemoveEntry(h: Holder, e: GrantRequest) returns (deleted: bool)
      modifies this
      ensures local == RemoveStep(old(local), h, e)
      ensures deleted == Deletes(old(local), h, e)
    {
      deleted := false;
      var k := GrantIndex(local, h, e.resourceId);
      if k.Some? {
        var acts := SelectedActions(e);
        var flags := ClearEntry(local[k.value].flags, acts);
        if flags == NoLocalFlags {
          local := local[..k.value] + local[k.value + 1..];
          deleted := true;
        } else {
          local := local[k.value := LocalGrant(h, e.resourceId, flags)];
        }
      }
    }

    /**
     * The removal loop: each entry is authorised against the table as it
     * stands, then removed; `gone` collects the resources whose loaded
     * grant was deleted, and later entries for them change no row.
     */
    method RemovePass(s: Store, caller: UserId, h: Holder, entries: seq<GrantRequest>) returns (failure: Option<Status>, gone: set<ResourceId>)
      requires s.local == local
      modifies this
      ensures failure == RemovePhase(s, caller, h, entries, {}).failure
      ensures local == RemovePhase(s, caller, h, entries, {}).local
      ensures gone == RemovePhase(s, caller, h, entries, {}).gone
    {
      gone := {};
      var i := 0;
      while i < |entries|
        invariant 0 <= i <= |entries|
        invariant RemovePhase(s.(local := local), caller, h, entries[i..], gone) == RemovePhase(s, caller, h, entries, {})
      {
        var e := entries[i];
        var verdict := AuthoriseEntry(s.(local := local), caller, e);
        assert entries[i..][0] == e && entries[i..][1..] == entries[i + 1..];
        RemovePhaseStep(s.(local := local), caller, h, entries[i..], gone);
        if verdict.Thrown? {
          return Some(ServerError), gone;
        }
        if !verdict.value {
          return Some(Forbidden), gone;
        }
        if e.resourceId !in gone {
          var deleted := RemoveEntry(h, e);
          if deleted {
            gone := gone + {e.resourceId};
          }
        }
        i := i + 1;
      }
      return None, gone;
    }

    /**
     * The addition loop: each entry is authorised against `post`, the table
     * after the removals, and written in memory; the table is saved only
     * when every entry passes.
     */
    method AddPass(post: Store, caller: UserId, h: Holder, gone: set<ResourceId>, entries: seq<GrantRequest>) returns (failure: Option<Status>)
      requires post.local == local
      modifies this
      ensures failure == AddPhase(post, caller, h, gone, |post.local|, entries, post.local).failure
      ensures failure.None? ==> local == AddPhase(post, caller, h, gone, |post.local|, entries, post.local).local
      ensures failure.Some? ==> local == old(local)
    {
      var n := |local|;
      var pending := local;
      var i := 0;
      while i < |entries|
        invariant 0 <= i <= |entries|
        invariant n <= |pending| && post.local == local
        invariant AddPhase(post, caller, h, gone, n, entries[i..], pending) == AddPhase(post, caller, h, gone, n, entries, post.local)
      {
        var e := entries[i];
        var verdict := AuthoriseEntry(post, caller, e);
        assert entries[i..][0] == e && entries[i..][1..] == entries[i + 1..];
        AddPhaseStep(post, caller, h, gone, n, entries[i..], pending);
        if verdict.Thrown? {
          return Some(ServerError);
        }
        if !verdict.value {
          return Some(Forbidden);
        }
        if e.resourceId !in gone {
          ghost var before := pending;
          var k := GrantIndex(pending[..n], h, e.resourceId);
          if k.Some? {
            var flags := WriteEntry(pending[k.value].flags, e);
            pending := pending[k.value := LocalGrant(h, e.resourceId, flags)];
          } else {
            var flags := WriteEntry(NoLocalFlags, e);
            pending := pending + [LocalGrant(h, e.resourceId, flags)];
          }
          assert pending == AddStep(before, n, h, e);
        }
        i := i + 1;
      }
      local := pending;
      return None;
    }

    /**
     * `update{User,Position,Role}LocalPermissions`: the guards, the removal
     * loop and the addition pass, leaving the table as `UpdateSpec` says.
     */
    method Update(s: Store, caller: UserId, target: Option<Holder>, remove: ListField<GrantRequest>, add: ListField<GrantRequest>)
      returns (status: Status)
      requires s.local == local
      modifies this
      ensures (status, local) == UpdateSpec(s, caller, target, remove, add)
    {
      if target.None? {
        return BadRequest;
      }
      var h := target.value;
      if !HolderExists(s, h) {
        return NotFound;
      }
      if !ListsAccepted(h, remove, add) {
        return BadRequest;
      }
      var gone: set<ResourceId> := {};
      if remove.List? {
        var failure;
        failure, gone := RemovePass(s, caller, h, remove.items);
        if failure.Some? {
          return failure.value;
        }
      }
      if add.List? {
        var failure := AddPass(s.(local := local), caller, h, gone, add.items);
        if failure.Some? {
          return failure.value;
        }
      }
      status := Success(h);
    }
  }

  // ---------------------------------------------------------------------
  // What one request does to the table
  // ---------------------------------------------------------------------

  /** With one row per (holder, resource), the engine sees that row's flags. */
  lemma GrantOfUnique(local: seq<LocalGrant>, h: Holder, r: ResourceId, f: LocalFlags)
    requires UniqueGrants(local)
    requires LocalGrant(h, r, f) in local
    ensures GrantOf(local, h, r) == Some(f)
  {
    var g := GrantOf(local, h, r);
    var i :| 0 <= i < |local| && local[i] == LocalGrant(h, r, g.value);
    var j :| 0 <= j < |local| && local[j] == LocalGrant(h, r, f);
    assert i == j;
  }

  /** A removal step changes no row of another holder or another resource. */
  lemma RemoveStepKeepsOthers(local: seq<LocalGrant>, h: Holder, e: GrantRequest)
    ensures forall g: LocalGrant :: !(g.holder == h && g.resource == e.resourceId) ==> (g in RemoveStep(local, h, e) <==> g in local)
  {
    match GrantIndex(local, h, e.resourceId)
    case None =>
    case Some(k) =>
      var f := ClearFlags(local[k].flags, SelectedActions(e));
      assert local == local[..k] + [local[k]] + local[k + 1..];
      if f != NoLocalFlags {
        var out := local[k := LocalGrant(h, e.resourceId, f)];
        assert out == local[..k] + [LocalGrant(h, e.resourceId, f)] + local[k + 1..];
      }
  }

  /** Dropping a row keeps one row per (holder, resource) and leaves none for the dropped row's key. */
  lemma DropRowUnique(local: seq<LocalGrant>, k: nat, out: seq<LocalGrant>)
    requires UniqueGrants(local) && k < |local|
    requires out == local[..k] + local[k + 1..]
    ensures UniqueGrants(out)
    ensures forall j :: 0 <= j < |out| ==> !(out[j].holder == local[k].holder && out[j].resource == local[k].resource)
  {
    assert forall j :: 0 <= j < k ==> out[j] == local[j];
    assert forall j :: k <= j < |out| ==> out[j] == local[j + 1];
  }

  /** Replacing a row by one with the same key keeps one row per (holder, resource). */
  lemma ReplaceRowUnique(local: seq<LocalGrant>, k: nat, g: LocalGrant)
    requires UniqueGrants(local) && k < |local|
    requires g.holder == local[k].holder && g.resource == local[k].resource
    ensures UniqueGrants(local[k := g])
  {
  }

  /**
   * A removal step on a table with one row per (holder, resource): no grant
   * means no change; otherwise the engine afterwards sees the grant with
   * the selected keys null, or no grant at all when every key ended null.
   */
  lemma RemoveStepEffect(local: seq<LocalGrant>, h: Holder, e: GrantRequest)
    requires UniqueGrants(local)
    ensures UniqueGrants(RemoveStep(local, h, e))
    ensures GrantOf(local, h, e.resourceId).None? ==> RemoveStep(local, h, e) == local
    ensures GrantOf(local, h, e.resourceId).Some? ==>
      var c := ClearFlags(GrantOf(local, h, e.resourceId).value, SelectedActions(e));
      GrantOf(RemoveStep(local, h, e), h, e.resourceId) == if c == NoLocalFlags then None else Some(c)
  {
    var r := e.resourceId;
    match GrantIndex(local, h, r)
    case None =>
    case Some(k) =>
      GrantOfUnique(local, h, r, local[k].flags);
      var c := ClearFlags(local[k].flags, SelectedActions(e));
      if c == NoLocalFlags {
        DropRowUnique(local, k, local[..k] + local[k + 1..]);
      } else {
        var out := local[k := LocalGrant(h, r, c)];
        ReplaceRowUnique(local, k, LocalGrant(h, r, c));
        assert out[k] == LocalGrant(h, r, c);
        GrantOfUnique(out, h, r, c);
      }
  }

  /** An addition step changes no row of another holder or another resource. */
  lemma AddStepKeepsOthers(cur: seq<LocalGrant>, n: nat, h: Holder, e: GrantRequest)
    requires n <= |cur|
    ensures forall g: LocalGrant :: !(g.holder == h && g.resource == e.resourceId) ==> (g in AddStep(cur, n, h, e) <==> g in cur)
  {
    match GrantIndex(cur[..n], h, e.resourceId)
    case None =>
    case Some(k) =>
      var out := cur[k := LocalGrant(h, e.resourceId, WriteBooleans(cur[k].flags, e))];
      assert cur == cur[..k] + [cur[k]] + cur[k + 1..];
      assert out == cur[..k] + [out[k]] + cur[k + 1..];
  }

  /**
   * The first addition entry for a resource on a table with one row per
   * (holder, resource): the engine afterwards sees the holder's grant, or
   * an all-null one when there was none, with the boolean values written.
   */
  lemma AddStepEffect(cur: seq<LocalGrant>, h: Holder, e: GrantRequest)
    requires UniqueGrants(cur)
    ensures UniqueGrants(AddStep(cur, |cur|, h, e))
    ensures var before := GrantOf(cur, h, e.resourceId);
      GrantOf(AddStep(cur, |cur|, h, e), h, e.resourceId) ==
        Some(WriteBooleans(if before.Some? then before.value else NoLocalFlags, e))
  {
    var r := e.resourceId;
    var out := AddStep(cur, |cur|, h, e);
    assert cur[..|cur|] == cur;
    match GrantIndex(cur, h, r)
    case Some(k) =>
      GrantOfUnique(cur, h, r, cur[k].flags);
      var f := WriteBooleans(cur[k].flags, e);
      assert out == cur[k := LocalGrant(h, r, f)];
      ReplaceRowUnique(cur, k, LocalGrant(h, r, f));
      assert out[k] == LocalGrant(h, r, f);
      GrantOfUnique(out, h, r, f);
    case None =>
      var f := WriteBooleans(NoLocalFlags, e);
      assert out == cur + [LocalGrant(h, r, f)];
      assert out[|cur|] == LocalGrant(h, r, f);
      GrantOfUnique(out, h, r, f);
  }

  /**
   * Two addition entries for a resource the holder has no grant on create
   * two rows: the additions look only at the rows loaded beforehand.
   */
  lemma RepeatedAddDuplicates(h: Holder, e: GrantRequest)
    ensures var once := AddStep([], 0, h, e);
      |AddStep(once, 0, h, e)| == 2 &&
      AddStep(once, 0, h, e)[0].resource == AddStep(once, 0, h, e)[1].resource == e.resourceId &&
      !UniqueGrants(AddStep(once, 0, h, e))
  {
    var once := AddStep([], 0, h, e);
    assert once == [LocalGrant(h, e.resourceId, WriteBooleans(NoLocalFlags, e))];
    var twice := AddStep(once, 0, h, e);
    assert once[..0] == [];
    assert twice == once + once;
  }

  /** A removal pass never touches another holder's rows. */
  lemma {:induction false} RemovePhaseKeepsOthers(s: Store, caller: UserId, h: Holder, entries: seq<GrantRequest>, gone: set<ResourceId>)
    ensures forall g: LocalGrant :: g.holder != h ==> (g in RemovePhase(s, caller, h, entries, gone).local <==> g in s.local)
    decreases |entries|
  {
    if |entries| > 0 && Authorise(s, caller, entries[0]) == Done(true) {
      var e := entries[0];
      if e.resourceId in gone {
        RemovePhaseKeepsOthers(s, caller, h, entries[1..], gone);
      } else {
        RemoveStepKeepsOthers(s.local, h, e);
        RemovePhaseKeepsOthers(s.(local := RemoveStep(s.local, h, e)), caller, h, entries[1..],
                               if Deletes(s.local, h, e) then gone + {e.resourceId} else gone);
      }
    }
  }

  /** An addition pass never touches another holder's rows. */
  lemma {:induction false} AddPhaseKeepsOthers(s: Store, caller: UserId, h: Holder, gone: set<ResourceId>, n: nat, entries: seq<GrantRequest>, cur: seq<LocalGrant>)
    requires n <= |cur|
    ensures forall g: LocalGrant :: g.holder != h ==> (g in AddPhase(s, caller, h, gone, n, entries, cur).local <==> g in cur)
    decreases |entries|
  {
    if |entries| > 0 && Authorise(s, caller, entries[0]) == Done(true) {
      if entries[0].resourceId in gone {
        AddPhaseKeepsOthers(s, caller, h, gone, n, entries[1..], cur);
      } else {
        AddStepKeepsOthers(cur, n, h, entries[0]);
        AddPhaseKeepsOthers(s, caller, h, gone, n, entries[1..], AddStep(cur, n, h, entries[0]));
      }
    }
  }

  /** A request changes only the target holder's grants. */
  lemma UpdateKeepsOtherHolders(s: Store, caller: UserId, h: Holder, remove: ListField<GrantRequest>, add: ListField<GrantRequest>)
    ensures forall g: LocalGrant :: g.holder != h ==> (g in UpdateSpec(s, caller, Some(h), remove, add).1 <==> g in s.local)
  {
    if HolderExists(s, h) && ListsAccepted(h, remove, add) {
      var removed := if remove.List? then RemovePhase(s, caller, h, remove.items, {}) else Phase(s.local, None, {});
      if remove.List? {
        RemovePhaseKeepsOthers(s, caller, h, remove.items, {});
      }
      if removed.failure.None? && add.List? {
        AddPhaseKeepsOthers(s.(local := removed.local), caller, h, removed.gone, |removed.local|, add.items, removed.local);
      }
    }
  }

  /** A table that gains no row of `h` on `r` keeps having no grant of `h` on `r`. */
  lemma NoGrantSurvives(before: seq<LocalGrant>, after: seq<LocalGrant>, h: Holder, r: ResourceId)
    requires GrantOf(before, h, r).None?
    requires forall g: LocalGrant :: g in after && g.holder == h && g.resource == r ==> g in before
    ensures GrantOf(after, h, r).None?
  {
    forall i | 0 <= i < |after|
      ensures !(after[i].holder == h && after[i].resource == r)
    {
      assert after[i] in after;
    }
  }

  /**
   * One removal step for a resource not yet deleted keeps one row per
   * (holder, resource) and leaves no grant of the holder on any deleted
   * resource, the one it may delete included.
   */
  lemma RemoveStepClearsGone(local: seq<LocalGrant>, h: Holder, e: GrantRequest, gone: set<ResourceId>)
    requires UniqueGrants(local) && e.resourceId !in gone
    requires forall r :: r in gone ==> GrantOf(local, h, r).None?
    ensures var out := RemoveStep(local, h, e);
      UniqueGrants(out) &&
      forall r :: r in (if Deletes(local, h, e) then gone + {e.resourceId} else gone) ==> GrantOf(out, h, r).None?
  {
    var out := RemoveStep(local, h, e);
    RemoveStepEffect(local, h, e);
    RemoveStepKeepsOthers(local, h, e);
    if Deletes(local, h, e) {
      var k := GrantIndex(local, h, e.resourceId).value;
      GrantOfUnique(local, h, e.resourceId, local[k].flags);
    }
    forall r | r in gone
      ensures GrantOf(out, h, r).None?
    {
      NoGrantSurvives(local, out, h, r);
    }
  }

  /**
   * The removal pass keeps one row per (holder, resource), and the holder
   * has no grant left on any resource it records as deleted.
   */
  lemma {:induction false} RemovePhaseClearsGone(s: Store, caller: UserId, h: Holder, entries: seq<GrantRequest>, gone: set<ResourceId>)
    requires UniqueGrants(s.local)
    requires forall r :: r in gone ==> GrantOf(s.local, h, r).None?
    ensures var p := RemovePhase(s, caller, h, entries, gone);
      UniqueGrants(p.local) && forall r :: r in p.gone ==> GrantOf(p.local, h, r).None?
    decreases |entries|
  {
    if |entries| > 0 && Authorise(s, caller, entries[0]) == Done(true) {
      var e := entries[0];
      if e.resourceId in gone {
        RemovePhaseClearsGone(s, caller, h, entries[1..], gone);
      } else {
        RemoveStepClearsGone(s.local, h, e, gone);
        RemovePhaseClearsGone(s.(local := RemoveStep(s.local, h, e)), caller, h, entries[1..],
                              if Deletes(s.local, h, e) then gone + {e.resourceId} else gone);
      }
    }
  }

  /** An addition pass writes no grant of the holder on a resource whose grant the removals deleted. */
  lemma {:induction false} AddPhaseSkipsGone(s: Store, caller: UserId, h: Holder, gone: set<ResourceId>, n: nat, entries: seq<GrantRequest>, cur: seq<LocalGrant>)
    requires n <= |cur|
    ensures forall g: LocalGrant :: g.resource in gone ==> (g in AddPhase(s, caller, h, gone, n, entries, cur).local <==> g in cur)
    decreases |entries|
  {
    if |entries| > 0 && Authorise(s, caller, entries[0]) == Done(true) {
      if entries[0].resourceId in gone {
        AddPhaseSkipsGone(s, caller, h, gone, n, entries[1..], cur);
      } else {
        AddStepKeepsOthers(cur, n, h, entries[0]);
        AddPhaseSkipsGone(s, caller, h, gone, n, entries[1..], AddStep(cur, n, h, entries[0]));
      }
    }
  }

  /**
   * On a table with one row per (holder, resource), a successful request
   * leaves the holder no grant on a resource whose grant its removals
   * deleted, whatever its additions say about that resource.
   */
  lemma DeletedGrantStaysDeleted(s: Store, caller: UserId, h: Holder, remove: ListField<GrantRequest>, add: ListField<GrantRequest>, r: ResourceId)
    requires UniqueGrants(s.local) && remove.List?
    requires RemovePhase(s, caller, h, remove.items, {}).failure.None?
    requires r in RemovePhase(s, caller, h, remove.items, {}).gone
    requires UpdateSpec(s, caller, Some(h), remove, add).0 == Success(h)
    ensures GrantOf(UpdateSpec(s, caller, Some(h), remove, add).1, h, r).None?
  {
    var removed := RemovePhase(s, caller, h, remove.items, {});
    RemovePhaseClearsGone(s, caller, h, remove.items, {});
    if add.List? {
      var out := AddPhase(s.(local := removed.local), caller, h, removed.gone, |removed.local|, add.items, removed.local).local;
      AddPhaseSkipsGone(s.(local := removed.local), caller, h, removed.gone, |removed.local|, add.items, removed.local);
      NoGrantSurvives(removed.local, out, h, r);
    }
  }

  /**
   * Removing every key of a grant and granting on the same resource in the
   * same request answers success and leaves the holder with no grant there:
   * the addition writes into the deleted entity.
   */
  lemma ReAddAfterDelete(s: Store, caller: UserId, h: Holder, drop: GrantRequest, grant: GrantRequest)
    requires HolderExists(s, h) && UniqueGrants(s.local)
    requires grant.resourceId == drop.resourceId
    requires Authorise(s, caller, drop) == Done(true) && Deletes(s.local, h, drop)
    requires Authorise(s.(local := RemoveStep(s.local, h, drop)), caller, grant) == Done(true)
    ensures var out := UpdateSpec(s, caller, Some(h), List([drop]), List([grant]));
      out == (Success(h), RemoveStep(s.local, h, drop)) && GrantOf(out.1, h, drop.resourceId).None?
  {
    var removed := RemovePhase(s, caller, h, [drop], {});
    RemovePhaseStep(s, caller, h, [drop], {});
    assert [drop][1..] == [];
    assert removed == Phase(RemoveStep(s.local, h, drop), None, {drop.resourceId});
    var post := s.(local := removed.local);
    AddPhaseStep(post, caller, h, removed.gone, |removed.local|, [grant], removed.local);
    assert [grant][1..] == [];
    DeletedGrantStaysDeleted(s, caller, h, List([drop]), List([grant]), drop.resourceId);
  }

  /** An addition pass with an entry that is not authorised stops with 403 or 500. */
  lemma {:induction false} AddPhaseStops(s: Store, caller: UserId, h: Holder, gone: set<ResourceId>, n: nat, entries: seq<GrantRequest>, cur: seq<LocalGrant>, k: nat)
    requires n <= |cur|
    requires k < |entries| && Authorise(s, caller, entries[k]) != Done(true)
    ensures AddPhase(s, caller, h, gone, n, entries, cur).failure == Some(Forbidden) ||
            AddPhase(s, caller, h, gone, n, entries, cur).failure == Some(ServerError)
    decreases |entries|
  {
    AddPhaseStep(s, caller, h, gone, n, entries, cur);
    if k > 0 && Authorise(s, caller, entries[0]) == Done(true) {
      assert entries[1..][k - 1] == entries[k];
      var next := if entries[0].resourceId in gone then cur else AddStep(cur, n, h, entries[0]);
      AddPhaseStops(s, caller, h, gone, n, entries[1..], next, k - 1);
    }
  }

  /**
   * One addition the caller may not make means none is saved: the answer
   * is 403 or 500 and the table is as the removals left it.
   */
  lemma UnauthorisedAddSavesNothing(s: Store, caller: UserId, h: Holder, remove: ListField<GrantRequest>, add: ListField<GrantRequest>, k: nat)
    requires HolderExists(s, h) && ListsAccepted(h, remove, add)
    requires RemovePhase(s, caller, h, if remove.List? then remove.items else [], {}).failure.None?
    requires add.List? && k < |add.items|
    requires Authorise(s.(local := RemovePhase(s, caller, h, if remove.List? then remove.items else [], {}).local), caller, add.items[k]) != Done(true)
    ensures var out := UpdateSpec(s, caller, Some(h), remove, add);
      (out.0 == Forbidden || out.0 == ServerError) &&
      out.1 == RemovePhase(s, caller, h, if remove.List? then remove.items else [], {}).local
  {
    var removed := RemovePhase(s, caller, h, if remove.List? then remove.items else [], {});
    AddPhaseStops(s.(local := removed.local), caller, h, removed.gone, |removed.local|, add.items, removed.local, k);
  }

  /**
   * The user and role handlers refuse a body whose `addLocalPermissions` is
   * not an array, even for a pure removal; the position handler accepts
   * either list.
   */
  lemma AddListRequired(s: Store, caller: UserId, h: Holder, remove: ListField<GrantRequest>, add: ListField<GrantRequest>)
    requires HolderExists(s, h)
    ensures !h.PositionHolder? && !add.List? ==> UpdateSpec(s, caller, Some(h), remove, add) == (BadRequest, s.local)
    ensures h.PositionHolder? && remove.List? ==> UpdateSpec(s, caller, Some(h), remove, add).0 != BadRequest
  {
  }
}
