/**
 * The global-permission editing handlers of
 * `src/controller/GlobalPermissionsController.ts`: the assigning endpoints
 * `add{User,Position}GlobalPermissions` and the editing endpoints
 * `update{User,Position}GlobalPermissions`.
 */
module GlobalPermissionController {
  import opened Common
  import opened AuthService

  /** One entry of a request list: a subject and four key values. */
  datatype GlobalRequest = GlobalRequest(subject: Subject, canCreate: JsonValue, canRead: JsonValue, canEdit: JsonValue, canDelete: JsonValue)

  function RequestValue(e: GlobalRequest, a: Action): JsonValue
  {
    match a
    case Create => e.canCreate
    case Read => e.canRead
    case Edit => e.canEdit
    case Delete => e.canDelete
  }

  /** The assigning endpoints select every key that is present, null included. */
  function PresentActions(e: GlobalRequest): (acts: seq<Action>)
    ensures forall a :: a in acts <==> !RequestValue(e, a).Undefined?
  {
    (if !e.canRead.Undefined? then [Read] else []) +
    (if !e.canCreate.Undefined? then [Create] else []) +
    (if !e.canEdit.Undefined? then [Edit] else []) +
    (if !e.canDelete.Undefined? then [Delete] else [])
  }

  /** The editing endpoints select the keys that are neither undefined nor null. */
  function SelectedActions(e: GlobalRequest): (acts: seq<Action>)
    ensures forall a :: a in acts <==> !RequestValue(e, a).Undefined? && !RequestValue(e, a).JsonNull?
  {
    (if !e.canCreate.Undefined? && !e.canCreate.JsonNull? then [Create] else []) +
    (if !e.canRead.Undefined? && !e.canRead.JsonNull? then [Read] else []) +
    (if !e.canEdit.Undefined? && !e.canEdit.JsonNull? then [Edit] else []) +
    (if !e.canDelete.Undefined? && !e.canDelete.JsonNull? then [Delete] else [])
  }

  /** Whether the record `hasGlobalPermissions` returns holds true for every action of `acts`. */
  function Authorise(s: Store, caller: UserId, subject: Subject, acts: seq<Action>): (r: Outcome<bool>)
    ensures r.Thrown? <==> GlobalPermissionsSpec(s, caller, subject, acts).Thrown?
    ensures r.Done? ==> (r.value <==> AllHeld(GlobalPermissionsSpec(s, caller, subject, acts).value, acts))
  {
    match GlobalPermissionsSpec(s, caller, subject, acts)
    case Thrown(m) => Thrown(m)
    case Done(res) => Done(AllHeld(res, acts))
  }

  /**
   * What the authorisation decides: an unknown caller makes it throw, an
   * empty caller id is refused every non-empty selection, and a known
   * caller is allowed exactly the actions some global grant of theirs allows.
   */
  lemma AuthoriseMeaning(s: Store, caller: UserId, subject: Subject, acts: seq<Action>)
    ensures |caller| > 0 && caller !in s.users ==> Authorise(s, caller, subject, acts).Thrown?
    ensures |caller| == 0 ==> Authorise(s, caller, subject, acts) == Done(acts == [])
    ensures |caller| > 0 && caller in s.users ==>
      Authorise(s, caller, subject, acts) == Done(forall a :: a in acts ==> GloballyAllowed(s, caller, subject, a))
  {
    if |caller| == 0 && acts != [] {
      assert LocalFlag(NoResults, acts[0]) == Null;
    }
    if |caller| > 0 && caller in s.users {
      var res := GlobalPermissionsSpec(s, caller, subject, acts).value;
      forall a | a in acts
        ensures LocalFlag(res, a) == True <==> GloballyAllowed(s, caller, subject, a)
      {
        assert LocalFlag(res, a) == FromBool(GloballyAllowed(s, caller, subject, a));
      }
    }
  }

  /** The assigning endpoints store `value === true` for every present key. */
  function StoreValues(f: GlobalFlags, e: GlobalRequest): (r: GlobalFlags)
    ensures forall a :: GlobalFlag(r, a) == if RequestValue(e, a).Undefined? then GlobalFlag(f, a) else RequestValue(e, a) == JsonBool(true)
  {
    GlobalFlags(
      if e.canRead.Undefined? then f.canRead else e.canRead == JsonBool(true),
      if e.canCreate.Undefined? then f.canCreate else e.canCreate == JsonBool(true),
      if e.canEdit.Undefined? then f.canEdit else e.canEdit == JsonBool(true),
      if e.canDelete.Undefined? then f.canDelete else e.canDelete == JsonBool(true))
  }

  /** The editing endpoints write only boolean values. */
  function WriteBooleans(f: GlobalFlags, e: GlobalRequest): (r: GlobalFlags)
    ensures forall a :: GlobalFlag(r, a) == if RequestValue(e, a).JsonBool? then RequestValue(e, a).b else GlobalFlag(f, a)
  {
    GlobalFlags(
      if e.canRead.JsonBool? then e.canRead.b else f.canRead,
      if e.canCreate.JsonBool? then e.canCreate.b else f.canCreate,
      if e.canEdit.JsonBool? then e.canEdit.b else f.canEdit,
      if e.canDelete.JsonBool? then e.canDelete.b else f.canDelete)
  }

  /** The selected keys set to false. */
  function ClearFlags(f: GlobalFlags, acts: seq<Action>): (r: GlobalFlags)
    ensures forall a :: GlobalFlag(r, a) == (a !in acts && GlobalFlag(f, a))
  {
    GlobalFlags(
      f.canRead && Read !in acts,
      f.canCreate && Create !in acts,
      f.canEdit && Edit !in acts,
      f.canDelete && Delete !in acts)
  }

  /** The first row of `global` held by `g` for `subject`. */
  function GrantIndex(global: seq<GlobalGrant>, g: Grantee, subject: Subject): (k: Option<nat>)
    ensures k.Some? ==> k.value < |global| && global[k.value].grantee == g && global[k.value].subject == subject
    ensures k.Some? ==> forall j :: 0 <= j < k.value ==> !(global[j].grantee == g && global[j].subject == subject)
    ensures k.None? ==> forall j :: 0 <= j < |global| ==> !(global[j].grantee == g && global[j].subject == subject)
  {
    if |global| == 0 then None
    else if global[0].grantee == g && global[0].subject == subject then Some(0)
    else match GrantIndex(global[1..], g, subject)
      case None => None
      case Some(k) => Some(k + 1)
  }

  /** The flags of the grant `find` returns for `g` and `subject`, if any. */
  function SubjectGrant(global: seq<GlobalGrant>, g: Grantee, subject: Subject): (r: Option<GlobalFlags>)
    ensures r.Some? <==> exists j :: 0 <= j < |global| && global[j].grantee == g && global[j].subject == subject
  {
    match GrantIndex(global, g, subject)
    case None => None
    case Some(k) => Some(global[k].flags)
  }

  /** At most one row per (grantee, subject), as the assigning endpoints intend. */
  ghost predicate UniqueGrants(global: seq<GlobalGrant>)
  {
    forall i, j :: 0 <= i < j < |global| && global[i].grantee == global[j].grantee ==> global[i].subject != global[j].subject
  }

  /** One authorised removal entry: the selected keys set false; a grant left all-false is deleted. */
  function RemoveStep(global: seq<GlobalGrant>, g: Grantee, e: GlobalRequest): seq<GlobalGrant>
  {
    match GrantIndex(global, g, e.subject)
    case None => global
    case Some(k) =>
      var f := ClearFlags(global[k].flags, SelectedActions(e));
      if f == NoGlobalFlags then global[..k] + global[k + 1..] else global[k := GlobalGrant(g, e.subject, f)]
  }

  /** How an endpoint's additions select, write and refuse. */
  datatype AddMode = Assigning | Editing

  function AddActions(mode: AddMode, e: GlobalRequest): seq<Action>
  {
    if mode == Assigning then PresentActions(e) else SelectedActions(e)
  }

  function Write(mode: AddMode, f: GlobalFlags, e: GlobalRequest): GlobalFlags
  {
    if mode == Assigning then StoreValues(f, e) else WriteBooleans(f, e)
  }

  /**
   * The status of a refused addition: the assigning endpoints answer 403;
   * the editing endpoints throw, which their `catch` answers with 500.
   */
  function Refusal(mode: AddMode): Status
  {
    if mode == Assigning then Forbidden else ServerError
  }

  /**
   * Whether an authorised removal entry deletes the grantee's grant: the
   * grant exists and every key is false once the selected ones are cleared.
   */
  predicate Deletes(global: seq<GlobalGrant>, g: Grantee, e: GlobalRequest)
  {
    match GrantIndex(global, g, e.subject)
    case None => false
    case Some(k) => ClearFlags(global[k].flags, SelectedActions(e)) == NoGlobalFlags
  }

  /**
   * One authorised addition entry in memory: the grant among the first `n`
   * rows is reused, otherwise a new all-false grant is appended; then the
   * values are written. The first `n` rows are those loaded with the
   * target that the removals left.
   */
  function AddStep(mode: AddMode, cur: seq<GlobalGrant>, n: nat, g: Grantee, e: GlobalRequest): (r: seq<GlobalGrant>)
    requires n <= |cur|
    ensures n <= |r|
  {
    match GrantIndex(cur[..n], g, e.subject)
    case Some(k) => cur[k := GlobalGrant(g, e.subject, Write(mode, cur[k].flags, e))]
    case None => cur + [GlobalGrant(g, e.subject, Write(mode, NoGlobalFlags, e))]
  }

  /**
   * The rows after a phase, the status it stopped with, if it stopped, and
   * `gone`: the subjects whose loaded grant the removals deleted. The
   * handler keeps looking entries up in the target's grants as loaded, so
   * a later entry for such a subject meets the deleted entity, which no
   * longer has a row, instead of a row of the table.
   */
  datatype Phase = Phase(global: seq<GlobalGrant>, failure: Option<Status>, gone: set<Subject>)

  /**
   * The removal loop: each entry authorised against the rows the earlier
   * removals left. An entry for a subject in `gone` clears and removes the
   * deleted entity again and changes no row.
   */
  function RemovePhase(s: Store, caller: UserId, g: Grantee, entries: seq<GlobalRequest>, gone: set<Subject>): (r: Phase)
    ensures r.failure == None || r.failure == Some(Forbidden) || r.failure == Some(ServerError)
    ensures gone <= r.gone
    decreases |entries|
  {
    if |entries| == 0 then Phase(s.global, None, gone)
    else match Authorise(s, caller, entries[0].subject, SelectedActions(entries[0]))
      case Thrown(_) => Phase(s.global, Some(ServerError), gone)
      case Done(ok) =>
        if !ok then Phase(s.global, Some(Forbidden), gone)
        else if entries[0].subject in gone then RemovePhase(s, caller, g, entries[1..], gone)
        else
          var more := if Deletes(s.global, g, entries[0]) then gone + {entries[0].subject} else gone;
          RemovePhase(s.(global := RemoveStep(s.global, g, entries[0])), caller, g, entries[1..], more)
  }

  /** The first entry of the removal pass. */
  lemma RemovePhaseStep(s: Store, caller: UserId, g: Grantee, entries: seq<GlobalRequest>, gone: set<Subject>)
    requires |entries| > 0
    ensures var v := Authorise(s, caller, entries[0].subject, SelectedActions(entries[0]));
      var e := entries[0];
      RemovePhase(s, caller, g, entries, gone) ==
        if v.Thrown? then Phase(s.global, Some(ServerError), gone)
        else if !v.value then Phase(s.global, Some(Forbidden), gone)
        else if e.subject in gone then RemovePhase(s, caller, g, entries[1..], gone)
        else RemovePhase(s.(global := RemoveStep(s.global, g, e)), caller, g, entries[1..],
                         if Deletes(s.global, g, e) then gone + {e.subject} else gone)
  {
  }

  /**
   * The addition pass: every entry authorised against `s` and applied in
   * memory to `cur`. An entry for a subject in `gone` writes into the
   * deleted entity, which is saved as a new row without grantee and so
   * changes no grant.
   */
  function AddPhase(mode: AddMode, s: Store, caller: UserId, g: Grantee, gone: set<Subject>, n: nat, entries: seq<GlobalRequest>, cur: seq<GlobalGrant>): (r: Phase)
    requires n <= |cur|
    ensures r.failure == None || r.failure == Some(Refusal(mode)) || r.failure == Some(ServerError)
    ensures r.gone == gone
    decreases |entries|
  {
    if |entries| == 0 then Phase(cur, None, gone)
    else match Authorise(s, caller, entries[0].subject, AddActions(mode, entries[0]))
      case Thrown(_) => Phase(cur, Some(ServerError), gone)
      case Done(ok) =>
        if !ok then Phase(cur, Some(Refusal(mode)), gone)
        else if entries[0].subject in gone then AddPhase(mode, s, caller, g, gone, n, entries[1..], cur)
        else AddPhase(mode, s, caller, g, gone, n, entries[1..], AddStep(mode, cur, n, g, entries[0]))
  }

  /** The first entry of the addition pass. */
  lemma AddPhaseStep(mode: AddMode, s: Store, caller: UserId, g: Grantee, gone: set<Subject>, n: nat, entries: seq<GlobalRequest>, cur: seq<GlobalGrant>)
    requires n <= |cur| && |entries| > 0
    ensures var v := Authorise(s, caller, entries[0].subject, AddActions(mode, entries[0]));
      AddPhase(mode, s, caller, g, gone, n, entries, cur) ==
        if v.Thrown? then Phase(cur, Some(ServerError), gone)
        else if !v.value then Phase(cur, Some(Refusal(mode)), gone)
        else if entries[0].subject in gone then AddPhase(mode, s, caller, g, gone, n, entries[1..], cur)
        else AddPhase(mode, s, caller, g, gone, n, entries[1..], AddStep(mode, cur, n, g, entries[0]))
  {
  }

  predicate GranteeExists(s: Store, g: Grantee)
  {
    match g
    case UserGrantee(u) => u in s.users
    case PositionGrantee(p) => p in s.positions
  }

  /**
   * `add{User,Position}GlobalPermissions`: an empty route id is 400, an
   * unknown target 404, a `globalPermissions` that is not an array 500;
   * then every entry is authorised before any is written, and all are
   * saved together.
   */
  function AssignSpec(s: Store, caller: UserId, target: Option<Grantee>, list: ListField<GlobalRequest>): (Status, seq<GlobalGrant>)
  {
    if target.None? then (BadRequest, s.global)
    else if !GranteeExists(s, target.value) then (NotFound, s.global)
    else if !list.List? then (ServerError, s.global)
    else
      var added := AddPhase(Assigning, s, caller, target.value, {}, |s.global|, list.items, s.global);
      if added.failure.Some? then (added.failure.value, s.global) else (Ok, added.global)
  }

  /**
   * `update{User,Position}GlobalPermissions`: removals, then additions. The
   * user endpoint fails with 500 on a list that is not an array and
   * answers 200; the position endpoint skips such a list and sends no
   * answer on success.
   */
  function UpdateSpec(s: Store, caller: UserId, target: Option<Grantee>, remove: ListField<GlobalRequest>, add: ListField<GlobalRequest>): (Status, seq<GlobalGrant>)
  {
    if target.None? then (BadRequest, s.global)
    else
      var g := target.value;
      if !GranteeExists(s, g) then (NotFound, s.global)
      else if g.UserGrantee? && remove.NotAList? then (ServerError, s.global)
      else
        var removed := if remove.List? then RemovePhase(s, caller, g, remove.items, {}) else Phase(s.global, None, {});
        if removed.failure.Some? then (removed.failure.value, removed.global)
        else if g.UserGrantee? && add.NotAList? then (ServerError, removed.global)
        else if add.List? then
          var added := AddPhase(Editing, s.(global := removed.global), caller, g, removed.gone, |removed.global|, add.items, removed.global);
          if added.failure.Some? then (added.failure.value, removed.global)
          else (if g.UserGrantee? then Ok else NoResponse, added.global)
        else (if g.UserGrantee? then Ok else NoResponse, removed.global)
  }

  /** `hasGlobalPermissions` followed by the loop that checks every selected action. */
  method AuthoriseEntry(s: Store, caller: UserId, subject: Subject, acts: seq<Action>) returns (r: Outcome<bool>)
    ensures r == Authorise(s, caller, subject, acts)
  {
    var results := HasGlobalPermissions(s, caller, subject, acts);
    if results.Thrown? {
      return Thrown(results.message);
    }
    var ok := CheckHeld(results.value, acts);
    return Done(ok);
  }

  /** The record after the clearing loop has seen the first `i` selected keys. */
  ghost predicate ClearedSoFar(f: GlobalFlags, acts: seq<Action>, i: nat, r: GlobalFlags)
    requires i <= |acts|
  {
    forall a :: GlobalFlag(r, a) == (a !in acts[..i] && GlobalFlag(f, a))
  }

  /** One turn of the clearing loop sets the next selected key to false. */
  lemma ClearTurn(f: GlobalFlags, acts: seq<Action>, i: nat, r: GlobalFlags)
    requires i < |acts| && ClearedSoFar(f, acts, i, r)
    ensures ClearedSoFar(f, acts, i + 1, SetGlobalFlag(r, acts[i], false))
  {
    assert acts[..i + 1] == acts[..i] + [acts[i]];
  }
  /** The clearing loop of a removal: each selected key in turn. */
  method ClearEntry(f: GlobalFlags, acts: seq<Action>) returns (r: GlobalFlags)
    ensures r == ClearFlags(f, acts)
  {
    r := f;
    var i := 0;
    while i < |acts|
      invariant 0 <= i <= |acts|
      invariant ClearedSoFar(f, acts, i, r)
    {
      ClearTurn(f, acts, i, r);
      r := SetGlobalFlag(r, acts[i], false);
      i := i + 1;
    }
    assert acts[..i] == acts;
    GlobalFlagsEqual(r, ClearFlags(f, acts));
  }


  /** The `GlobalPermission` table as the handlers change it. */
  class GlobalGrantTable {
    var global: seq<GlobalGrant>

    constructor (rows: seq<GlobalGrant>)
      ensures global == rows
    {
      global := rows;
    }

    /** The body of the removal loop for one authorised entry; `deleted` tells whether the grant was deleted. */
    method RemoveEntry(g: Grantee, e: GlobalRequest) returns (deleted: bool)
      modifies this
      ensures global == RemoveStep(old(global), g, e)
      ensures deleted == Deletes(old(global), g, e)
    {
      deleted := false;
      var k := GrantIndex(global, g, e.subject);
      if k.Some? {
        var acts := SelectedActions(e);
        var flags := ClearEntry(global[k.value].flags, acts);
        if !flags.canCreate && !flags.canRead && !flags.canEdit && !flags.canDelete {
          global := global[..k.value] + global[k.value + 1..];
          deleted := true;
        } else {
          global := global[k.value := GlobalGrant(g, e.subject, flags)];
        }
      }
    }

    /**
     * The removal loop: each entry authorised against the current rows and
     * applied; `gone` collects the subjects whose loaded grant was deleted,
     * and later entries for them change no row.
     */
    method RemoveAll(s: Store, caller: UserId, g: Grantee, entries: seq<GlobalRequest>) returns (failure: Option<Status>, gone: set<Subject>)
      requires s.global == global
      modifies this
      ensures var p := RemovePhase(s, caller, g, entries, {}); failure == p.failure && global == p.global && gone == p.gone
    {
      gone := {};
      var i := 0;
      while i < |entries|
        invariant 0 <= i <= |entries|
        invariant RemovePhase(s.(global := global), caller, g, entries[i..], gone) == RemovePhase(s, caller, g, entries, {})
      {
        var e := entries[i];
        var verdict := AuthoriseEntry(s.(global := global), caller, e.subject, SelectedActions(e));
        assert entries[i..][0] == e && entries[i..][1..] == entries[i + 1..];
        RemovePhaseStep(s.(global := global), caller, g, entries[i..], gone);
        if verdict.Thrown? {
          return Some(ServerError), gone;
        }
        if !verdict.value {
          return Some(Forbidden), gone;
        }
        if e.subject !in gone {
          var deleted := RemoveEntry(g, e);
          if deleted {
            gone := gone + {e.subject};
          }
        }
        i := i + 1;
      }
      return None, gone;
    }

    /** The authorise-then-write pass shared by both kinds of endpoint. */
    method AddAll(mode: AddMode, s: Store, caller: UserId, g: Grantee, gone: set<Subject>, entries: seq<GlobalRequest>) returns (failure: Option<Status>)
      requires s.global == global
      modifies this
      ensures var p := AddPhase(mode, s, caller, g, gone, |s.global|, entries, s.global);
        failure == p.failure && global == if p.failure.Some? then old(global) else p.global
    {
      var n := |global|;
      var pending := global;
      var i := 0;
      while i < |entries|
        invariant 0 <= i <= |entries|
        invariant n <= |pending| && global == s.global
        invariant AddPhase(mode, s, caller, g, gone, n, entries[i..], pending) == AddPhase(mode, s, caller, g, gone, n, entries, s.global)
      {
        var e := entries[i];
        var verdict := AuthoriseEntry(s, caller, e.subject, AddActions(mode, e));
        assert entries[i..][0] == e && entries[i..][1..] == entries[i + 1..];
        AddPhaseStep(mode, s, caller, g, gone, n, entries[i..], pending);
        if verdict.Thrown? {
          return Some(ServerError);
        }
        if !verdict.value {
          return Some(Refusal(mode));
        }
        if e.subject !in gone {
          pending := AddStep(mode, pending, n, g, e);
        }
        i := i + 1;
      }
      global := pending;
      return None;
    }

    /** `add{User,Position}GlobalPermissions`. */
    method Assign(s: Store, caller: UserId, target: Option<Grantee>, list: ListField<GlobalRequest>) returns (status: Status)
      requires s.global == global
      modifies this
      ensures (status, global) == AssignSpec(s, caller, target, list)
    {
      if target.None? {
        return BadRequest;
      }
      if !GranteeExists(s, target.value) {
        return NotFound;
      }
      if !list.List? {
        return ServerError;
      }
      var failure := AddAll(Assigning, s, caller, target.value, {}, list.items);
      if failure.Some? {
        return failure.value;
      }
      return Ok;
    }

    /** `update{User,Position}GlobalPermissions`. */
    method Update(s: Store, caller: UserId, target: Option<Grantee>, remove: ListField<GlobalRequest>, add: ListField<GlobalRequest>)
      returns (status: Status)
      requires s.global == global
      modifies this
      ensures (status, global) == UpdateSpec(s, caller, target, remove, add)
    {
      if target.None? {
        return BadRequest;
      }
      var g := target.value;
      if !GranteeExists(s, g) {
        return NotFound;
      }
      if g.UserGrantee? && remove.NotAList? {
        return ServerError;
      }
      var gone: set<Subject> := {};
      if remove.List? {
        var failure;
        failure, gone := RemoveAll(s, caller, g, remove.items);
        if failure.Some? {
          return failure.value;
        }
      }
      if g.UserGrantee? && add.NotAList? {
        return ServerError;
      }
      if add.List? {
        var failure := AddAll(Editing, s.(global := global), caller, g, gone, add.items);
        if failure.Some? {
          return failure.value;
        }
      }
      status := if g.UserGrantee? then Ok else NoResponse;
    }
  }

  // ---------------------------------------------------------------------
  // What one request does to the table
  // ---------------------------------------------------------------------

  /** With one row per (grantee, subject), `find` returns that row. */
  lemma IndexOfUnique(global: seq<GlobalGrant>, k: nat)
    requires UniqueGrants(global) && k < |global|
    ensures GrantIndex(global, global[k].grantee, global[k].subject) == Some(k)
  {
  }

  /** Dropping a row keeps one row per key and leaves none for the dropped row's key. */
  lemma DropRowUnique(global: seq<GlobalGrant>, k: nat, out: seq<GlobalGrant>)
    requires UniqueGrants(global) && k < |global|
    requires out == global[..k] + global[k + 1..]
    ensures UniqueGrants(out)
    ensures forall j :: 0 <= j < |out| ==> !(out[j].grantee == global[k].grantee && out[j].subject == global[k].subject)
  {
    assert forall j :: 0 <= j < k ==> out[j] == global[j];
    assert forall j :: k <= j < |out| ==> out[j] == global[j + 1];
  }

  /**
   * A removal step on a table with one row per (grantee, subject): no grant
   * means no change; otherwise the selected keys are false afterwards, and
   * a grant left with every key false is gone.
   */
  lemma RemoveStepEffect(global: seq<GlobalGrant>, g: Grantee, e: GlobalRequest)
    requires UniqueGrants(global)
    ensures UniqueGrants(RemoveStep(global, g, e))
    ensures SubjectGrant(global, g, e.subject).None? ==> RemoveStep(global, g, e) == global
    ensures SubjectGrant(global, g, e.subject).Some? ==>
      var c := ClearFlags(SubjectGrant(global, g, e.subject).value, SelectedActions(e));
      SubjectGrant(RemoveStep(global, g, e), g, e.subject) == if c == NoGlobalFlags then None else Some(c)
  {
    match GrantIndex(global, g, e.subject)
    case None =>
    case Some(k) =>
      var c := ClearFlags(global[k].flags, SelectedActions(e));
      if c == NoGlobalFlags {
        DropRowUnique(global, k, global[..k] + global[k + 1..]);
      } else {
        var out := global[k := GlobalGrant(g, e.subject, c)];
        assert UniqueGrants(out);
        IndexOfUnique(out, k);
      }
  }

  /**
   * The first addition entry for a subject on a table with one row per
   * (grantee, subject): afterwards `find` returns the grantee's grant, or a
   * new all-false one, with the entry's values written.
   */
  lemma AddStepEffect(mode: AddMode, cur: seq<GlobalGrant>, g: Grantee, e: GlobalRequest)
    requires UniqueGrants(cur)
    ensures UniqueGrants(AddStep(mode, cur, |cur|, g, e))
    ensures var before := SubjectGrant(cur, g, e.subject);
      SubjectGrant(AddStep(mode, cur, |cur|, g, e), g, e.subject) ==
        Some(Write(mode, if before.Some? then before.value else NoGlobalFlags, e))
  {
    var out := AddStep(mode, cur, |cur|, g, e);
    assert cur[..|cur|] == cur;
    match GrantIndex(cur, g, e.subject)
    case Some(k) =>
      assert out == cur[k := GlobalGrant(g, e.subject, Write(mode, cur[k].flags, e))];
      assert UniqueGrants(out);
      IndexOfUnique(out, k);
    case None =>
      assert out == cur + [GlobalGrant(g, e.subject, Write(mode, NoGlobalFlags, e))];
      assert UniqueGrants(out);
      IndexOfUnique(out, |cur|);
  }

  /**
   * Two entries for a subject the grantee holds no grant for create two
   * rows: additions look only at the rows loaded with the target.
   */
  lemma RepeatedAddDuplicates(mode: AddMode, g: Grantee, e: GlobalRequest)
    ensures var once := AddStep(mode, [], 0, g, e);
      |AddStep(mode, once, 0, g, e)| == 2 && !UniqueGrants(AddStep(mode, once, 0, g, e))
  {
    var once := AddStep(mode, [], 0, g, e);
    assert once == [GlobalGrant(g, e.subject, Write(mode, NoGlobalFlags, e))];
    assert once[..0] == [];
    var twice := AddStep(mode, once, 0, g, e);
    assert twice == once + once;
    assert twice[0].grantee == twice[1].grantee && twice[0].subject == twice[1].subject;
  }

  /** A removal step changes no row of another grantee. */
  lemma RemoveStepKeepsOthers(global: seq<GlobalGrant>, g: Grantee, e: GlobalRequest)
    ensures forall x: GlobalGrant :: x.grantee != g ==> (x in RemoveStep(global, g, e) <==> x in global)
  {
    match GrantIndex(global, g, e.subject)
    case None =>
    case Some(k) =>
      var f := ClearFlags(global[k].flags, SelectedActions(e));
      assert global == global[..k] + [global[k]] + global[k + 1..];
      if f != NoGlobalFlags {
        var out := global[k := GlobalGrant(g, e.subject, f)];
        assert out == global[..k] + [GlobalGrant(g, e.subject, f)] + global[k + 1..];
      }
  }

  /** An addition step changes no row of another grantee. */
  lemma AddStepKeepsOthers(mode: AddMode, cur: seq<GlobalGrant>, n: nat, g: Grantee, e: GlobalRequest)
    requires n <= |cur|
    ensures forall x: GlobalGrant :: x.grantee != g ==> (x in AddStep(mode, cur, n, g, e) <==> x in cur)
  {
    match GrantIndex(cur[..n], g, e.subject)
    case None =>
    case Some(k) =>
      var out := cur[k := GlobalGrant(g, e.subject, Write(mode, cur[k].flags, e))];
      assert cur == cur[..k] + [cur[k]] + cur[k + 1..];
      assert out == cur[..k] + [out[k]] + cur[k + 1..];
  }

  /** A removal pass changes no row of another grantee. */
  lemma {:induction false} RemovePhaseKeepsOthers(s: Store, caller: UserId, g: Grantee, entries: seq<GlobalRequest>, gone: set<Subject>)
    ensures forall x: GlobalGrant :: x.grantee != g ==> (x in RemovePhase(s, caller, g, entries, gone).global <==> x in s.global)
    decreases |entries|
  {
    if |entries| > 0 && Authorise(s, caller, entries[0].subject, SelectedActions(entries[0])) == Done(true) {
      var e := entries[0];
      if e.subject in gone {
        RemovePhaseKeepsOthers(s, caller, g, entries[1..], gone);
      } else {
        RemoveStepKeepsOthers(s.global, g, e);
        RemovePhaseKeepsOthers(s.(global := RemoveStep(s.global, g, e)), caller, g, entries[1..],
                               if Deletes(s.global, g, e) then gone + {e.subject} else gone);
      }
    }
  }

  /** An addition pass changes no row of another grantee. */
  lemma {:induction false} AddPhaseKeepsOthers(mode: AddMode, s: Store, caller: UserId, g: Grantee, gone: set<Subject>, n: nat, entries: seq<GlobalRequest>, cur: seq<GlobalGrant>)
    requires n <= |cur|
    ensures forall x: GlobalGrant :: x.grantee != g ==> (x in AddPhase(mode, s, caller, g, gone, n, entries, cur).global <==> x in cur)
    decreases |entries|
  {
    if |entries| > 0 && Authorise(s, caller, entries[0].subject, AddActions(mode, entries[0])) == Done(true) {
      if entries[0].subject in gone {
        AddPhaseKeepsOthers(mode, s, caller, g, gone, n, entries[1..], cur);
      } else {
        AddStepKeepsOthers(mode, cur, n, g, entries[0]);
        AddPhaseKeepsOthers(mode, s, caller, g, gone, n, entries[1..], AddStep(mode, cur, n, g, entries[0]));
      }
    }
  }

  /** Neither kind of endpoint changes the grants of anyone but the target. */
  lemma RequestsKeepOtherGrantees(s: Store, caller: UserId, g: Grantee, list: ListField<GlobalRequest>, remove: ListField<GlobalRequest>, add: ListField<GlobalRequest>)
    ensures forall x: GlobalGrant :: x.grantee != g ==> (x in AssignSpec(s, caller, Some(g), list).1 <==> x in s.global)
    ensures forall x: GlobalGrant :: x.grantee != g ==> (x in UpdateSpec(s, caller, Some(g), remove, add).1 <==> x in s.global)
  {
    if list.List? {
      AddPhaseKeepsOthers(Assigning, s, caller, g, {}, |s.global|, list.items, s.global);
    }
    var removed := if remove.List? then RemovePhase(s, caller, g, remove.items, {}) else Phase(s.global, None, {});
    if remove.List? {
      RemovePhaseKeepsOthers(s, caller, g, remove.items, {});
    }
    if add.List? {
      AddPhaseKeepsOthers(Editing, s.(global := removed.global), caller, g, removed.gone, |removed.global|, add.items, removed.global);
    }
  }

  /** A table that gains no row of `g` for `subject` keeps having no grant of `g` for it. */
  lemma NoGrantSurvives(before: seq<GlobalGrant>, after: seq<GlobalGrant>, g: Grantee, subject: Subject)
    requires SubjectGrant(before, g, subject).None?
    requires forall x: GlobalGrant :: x in after && x.grantee == g && x.subject == subject ==> x in before
    ensures SubjectGrant(after, g, subject).None?
  {
    forall i | 0 <= i < |after|
      ensures !(after[i].grantee == g && after[i].subject == subject)
    {
      assert after[i] in after;
    }
  }

  /**
   * One removal step for a subject not yet deleted keeps one row per
   * (grantee, subject) and leaves no grant of the grantee for any deleted
   * subject, the one it may delete included.
   */
  lemma RemoveStepClearsGone(global: seq<GlobalGrant>, g: Grantee, e: GlobalRequest, gone: set<Subject>)
    requires UniqueGrants(global) && e.subject !in gone
    requires forall x :: x in gone ==> SubjectGrant(global, g, x).None?
    ensures var out := RemoveStep(global, g, e);
      UniqueGrants(out) &&
      forall x :: x in (if Deletes(global, g, e) then gone + {e.subject} else gone) ==> SubjectGrant(out, g, x).None?
  {
    var out := RemoveStep(global, g, e);
    RemoveStepEffect(global, g, e);
    forall x | x in gone
      ensures SubjectGrant(out, g, x).None?
    {
      forall y: GlobalGrant | y in out && y.grantee == g && y.subject == x
        ensures y in global
      {
        RemoveStepKeepsSubjects(global, g, e, y);
      }
      NoGrantSurvives(global, out, g, x);
    }
  }

  /** A removal step changes no row for another subject. */
  lemma RemoveStepKeepsSubjects(global: seq<GlobalGrant>, g: Grantee, e: GlobalRequest, y: GlobalGrant)
    requires y.subject != e.subject
    ensures y in RemoveStep(global, g, e) <==> y in global
  {
    match GrantIndex(global, g, e.subject)
    case None =>
    case Some(k) =>
      var f := ClearFlags(global[k].flags, SelectedActions(e));
      assert global == global[..k] + [global[k]] + global[k + 1..];
      if f != NoGlobalFlags {
        var out := global[k := GlobalGrant(g, e.subject, f)];
        assert out == global[..k] + [GlobalGrant(g, e.subject, f)] + global[k + 1..];
      }
  }

  /**
   * The removal pass keeps one row per (grantee, subject), and the grantee
   * has no grant left for any subject it records as deleted.
   */
  lemma {:induction false} RemovePhaseClearsGone(s: Store, caller: UserId, g: Grantee, entries: seq<GlobalRequest>, gone: set<Subject>)
    requires UniqueGrants(s.global)
    requires forall x :: x in gone ==> SubjectGrant(s.global, g, x).None?
    ensures var p := RemovePhase(s, caller, g, entries, gone);
      UniqueGrants(p.global) && forall x :: x in p.gone ==> SubjectGrant(p.global, g, x).None?
    decreases |entries|
  {
    if |entries| > 0 && Authorise(s, caller, entries[0].subject, SelectedActions(entries[0])) == Done(true) {
      var e := entries[0];
      if e.subject in gone {
        RemovePhaseClearsGone(s, caller, g, entries[1..], gone);
      } else {
        RemoveStepClearsGone(s.global, g, e, gone);
        RemovePhaseClearsGone(s.(global := RemoveStep(s.global, g, e)), caller, g, entries[1..],
                              if Deletes(s.global, g, e) then gone + {e.subject} else gone);
      }
    }
  }

  /** An addition step changes no row for another subject. */
  lemma AddStepKeepsSubjects(mode: AddMode, cur: seq<GlobalGrant>, n: nat, g: Grantee, e: GlobalRequest, y: GlobalGrant)
    requires n <= |cur| && y.subject != e.subject
    ensures y in AddStep(mode, cur, n, g, e) <==> y in cur
  {
    match GrantIndex(cur[..n], g, e.subject)
    case None =>
    case Some(k) =>
      var out := cur[k := GlobalGrant(g, e.subject, Write(mode, cur[k].flags, e))];
      assert cur == cur[..k] + [cur[k]] + cur[k + 1..];
      assert out == cur[..k] + [out[k]] + cur[k + 1..];
  }

  /** An addition pass writes no row for a subject whose grant the removals deleted. */
  lemma {:induction false} AddPhaseSkipsGone(mode: AddMode, s: Store, caller: UserId, g: Grantee, gone: set<Subject>, n: nat, entries: seq<GlobalRequest>, cur: seq<GlobalGrant>, y: GlobalGrant)
    requires n <= |cur| && y.subject in gone
    ensures y in AddPhase(mode, s, caller, g, gone, n, entries, cur).global <==> y in cur
    decreases |entries|
  {
    if |entries| > 0 && Authorise(s, caller, entries[0].subject, AddActions(mode, entries[0])) == Done(true) {
      if entries[0].subject in gone {
        AddPhaseSkipsGone(mode, s, caller, g, gone, n, entries[1..], cur, y);
      } else {
        AddStepKeepsSubjects(mode, cur, n, g, entries[0], y);
        AddPhaseSkipsGone(mode, s, caller, g, gone, n, entries[1..], AddStep(mode, cur, n, g, entries[0]), y);
      }
    }
  }

  /**
   * On a table with one row per (grantee, subject), a successful edit
   * leaves the target no grant for a subject whose grant its removals
   * deleted, whatever its additions say about that subject.
   */
  lemma DeletedGrantStaysDeleted(s: Store, caller: UserId, g: Grantee, remove: ListField<GlobalRequest>, add: ListField<GlobalRequest>, x: Subject)
    requires UniqueGrants(s.global) && remove.List?
    requires RemovePhase(s, caller, g, remove.items, {}).failure.None?
    requires x in RemovePhase(s, caller, g, remove.items, {}).gone
    requires UpdateSpec(s, caller, Some(g), remove, add).0 == (if g.UserGrantee? then Ok else NoResponse)
    ensures SubjectGrant(UpdateSpec(s, caller, Some(g), remove, add).1, g, x).None?
  {
    var removed := RemovePhase(s, caller, g, remove.items, {});
    RemovePhaseClearsGone(s, caller, g, remove.items, {});
    if add.List? {
      var out := AddPhase(Editing, s.(global := removed.global), caller, g, removed.gone, |removed.global|, add.items, removed.global).global;
      forall y: GlobalGrant | y in out && y.grantee == g && y.subject == x
        ensures y in removed.global
      {
        AddPhaseSkipsGone(Editing, s.(global := removed.global), caller, g, removed.gone, |removed.global|, add.items, removed.global, y);
      }
      NoGrantSurvives(removed.global, out, g, x);
    }
  }

  /**
   * Removing every key of a user's grant and granting on the same subject
   * in the same request answers 200 and leaves the user with no grant for
   * it: the addition writes into the deleted entity.
   */
  lemma ReAddAfterDelete(s: Store, caller: UserId, u: UserId, drop: GlobalRequest, grant: GlobalRequest)
    requires u in s.users && UniqueGrants(s.global)
    requires grant.subject == drop.subject
    requires Authorise(s, caller, drop.subject, SelectedActions(drop)) == Done(true) && Deletes(s.global, UserGrantee(u), drop)
    requires Authorise(s.(global := RemoveStep(s.global, UserGrantee(u), drop)), caller, grant.subject, SelectedActions(grant)) == Done(true)
    ensures var out := UpdateSpec(s, caller, Some(UserGrantee(u)), List([drop]), List([grant]));
      out == (Ok, RemoveStep(s.global, UserGrantee(u), drop)) && SubjectGrant(out.1, UserGrantee(u), drop.subject).None?
  {
    var g := UserGrantee(u);
    var removed := RemovePhase(s, caller, g, [drop], {});
    RemovePhaseStep(s, caller, g, [drop], {});
    assert [drop][1..] == [];
    assert removed == Phase(RemoveStep(s.global, g, drop), None, {drop.subject});
    AddPhaseStep(Editing, s.(global := removed.global), caller, g, removed.gone, |removed.global|, [grant], removed.global);
    assert [grant][1..] == [];
    DeletedGrantStaysDeleted(s, caller, g, List([drop]), List([grant]), drop.subject);
  }

  /** An addition pass with an entry the caller may not make stops with a failure. */
  lemma {:induction false} AddPhaseStops(mode: AddMode, s: Store, caller: UserId, g: Grantee, gone: set<Subject>, n: nat, entries: seq<GlobalRequest>, cur: seq<GlobalGrant>, k: nat)
    requires n <= |cur|
    requires k < |entries| && Authorise(s, caller, entries[k].subject, AddActions(mode, entries[k])) != Done(true)
    ensures AddPhase(mode, s, caller, g, gone, n, entries, cur).failure.Some?
    decreases |entries|
  {
    if Authorise(s, caller, entries[0].subject, AddActions(mode, entries[0])) == Done(true) {
      assert k > 0 && entries[1..][k - 1] == entries[k];
      var next := if entries[0].subject in gone then cur else AddStep(mode, cur, n, g, entries[0]);
      AddPhaseStops(mode, s, caller, g, gone, n, entries[1..], next, k - 1);
    }
  }

  /** An addition pass whose every entry is authorised completes. */
  lemma {:induction false} AddPhaseCompletes(mode: AddMode, s: Store, caller: UserId, g: Grantee, gone: set<Subject>, n: nat, entries: seq<GlobalRequest>, cur: seq<GlobalGrant>)
    requires n <= |cur|
    requires forall k :: 0 <= k < |entries| ==> Authorise(s, caller, entries[k].subject, AddActions(mode, entries[k])) == Done(true)
    ensures AddPhase(mode, s, caller, g, gone, n, entries, cur).failure.None?
    decreases |entries|
  {
    if |entries| > 0 {
      assert forall k :: 0 <= k < |entries| - 1 ==> entries[1..][k] == entries[k + 1];
      var next := if entries[0].subject in gone then cur else AddStep(mode, cur, n, g, entries[0]);
      AddPhaseCompletes(mode, s, caller, g, gone, n, entries[1..], next);
    }
  }

  /**
   * The assigning endpoints are all or nothing: they answer 200 exactly
   * when the caller holds every present key of every entry; otherwise the
   * answer is 403 or 500 and no grant is written.
   */
  lemma AssignAllOrNothing(s: Store, caller: UserId, g: Grantee, items: seq<GlobalRequest>)
    requires GranteeExists(s, g)
    ensures AssignSpec(s, caller, Some(g), List(items)).0 == Ok <==>
      forall k :: 0 <= k < |items| ==> Authorise(s, caller, items[k].subject, PresentActions(items[k])) == Done(true)
    ensures AssignSpec(s, caller, Some(g), List(items)).0 != Ok ==>
      AssignSpec(s, caller, Some(g), List(items)) == (Forbidden, s.global) ||
      AssignSpec(s, caller, Some(g), List(items)) == (ServerError, s.global)
  {
    if forall k :: 0 <= k < |items| ==> Authorise(s, caller, items[k].subject, PresentActions(items[k])) == Done(true) {
      AddPhaseCompletes(Assigning, s, caller, g, {}, |s.global|, items, s.global);
    } else {
      var k :| 0 <= k < |items| && Authorise(s, caller, items[k].subject, PresentActions(items[k])) != Done(true);
      AddPhaseStops(Assigning, s, caller, g, {}, |s.global|, items, s.global, k);
    }
  }

  /**
   * In the editing endpoints a refused addition is thrown, not answered:
   * the response is 500, and the table is as the removals left it.
   */
  lemma RefusedEditIsServerError(s: Store, caller: UserId, g: Grantee, remove: ListField<GlobalRequest>, add: seq<GlobalRequest>, k: nat)
    requires GranteeExists(s, g) && !remove.NotAList?
    requires RemovePhase(s, caller, g, if remove.List? then remove.items else [], {}).failure.None?
    requires k < |add|
    requires Authorise(s.(global := RemovePhase(s, caller, g, if remove.List? then remove.items else [], {}).global),
      caller, add[k].subject, SelectedActions(add[k])) == Done(false)
    ensures UpdateSpec(s, caller, Some(g), remove, List(add)) ==
      (ServerError, RemovePhase(s, caller, g, if remove.List? then remove.items else [], {}).global)
  {
    var removed := RemovePhase(s, caller, g, if remove.List? then remove.items else [], {});
    AddPhaseStops(Editing, s.(global := removed.global), caller, g, removed.gone, |removed.global|, add, removed.global, k);
  }

  /**
   * A single assignment that sets a key to `true` for a user makes the
   * authorisation engine allow that action on that subject for the user.
   */
  lemma AssignedKeyAllows(s: Store, caller: UserId, u: UserId, e: GlobalRequest, a: Action)
    requires u in s.users
    requires AssignSpec(s, caller, Some(UserGrantee(u)), List([e])).0 == Ok
    requires RequestValue(e, a) == JsonBool(true)
    ensures GloballyAllowed(s.(global := AssignSpec(s, caller, Some(UserGrantee(u)), List([e])).1), u, e.subject, a)
  {
    var g := UserGrantee(u);
    var out := AddStep(Assigning, s.global, |s.global|, g, e);
    assert AddPhase(Assigning, s, caller, g, {}, |s.global|, [e], s.global) == AddPhase(Assigning, s, caller, g, {}, |s.global|, [], out);
    assert s.global[..|s.global|] == s.global;
    var i: nat := match GrantIndex(s.global, g, e.subject) case Some(k) => k case None => |s.global|;
    assert out[i] == GlobalGrant(g, e.subject, StoreValues(if i < |s.global| then s.global[i].flags else NoGlobalFlags, e));
    assert GrantAllows(out[i], e.subject, a);
  }

  /**
   * A single authorised removal from a table with one row per (grantee,
   * subject) leaves the target without each selected action on that subject.
   */
  lemma RemovedKeyRevoked(s: Store, caller: UserId, g: Grantee, e: GlobalRequest, a: Action)
    requires GranteeExists(s, g) && UniqueGrants(s.global)
    requires Authorise(s, caller, e.subject, SelectedActions(e)) == Done(true)
    requires a in SelectedActions(e)
    ensures var out := UpdateSpec(s, caller, Some(g), List([e]), NoList).1;
      UniqueGrants(out) &&
      (SubjectGrant(out, g, e.subject).None? || !GlobalFlag(SubjectGrant(out, g, e.subject).value, a))
  {
    RemovePhaseStep(s, caller, g, [e], {});
    assert [e][1..] == [];
    RemoveStepEffect(s.global, g, e);
  }
}
