/**
 * Values shared by every part of the model: optional values, the HTTP
 * outcome a handler answers with, the permission vocabulary (actions,
 * resource types, global subjects), three-valued local flags and the
 * shape of a JSON request value.
 */
module Common {

  datatype Option<T> = None | Some(value: T)

  /** The result of a service call that may throw an `Error`. */
  datatype Outcome<T> = Done(value: T) | Thrown(message: string)

  /**
   * The status an Express handler answers with. `NoResponse` stands for a
   * handler that returns without sending anything.
   */
  datatype Status =
    | Ok          // 200
    | Created     // 201
    | BadRequest  // 400
    | Forbidden   // 403
    | NotFound    // 404
    | Gone        // 410
    | ServerError // 500
    | NoResponse

  /** `PermissionType`: read / create / edit / delete. */
  datatype Action = Read | Create | Edit | Delete

  /** The four actions in the order the controllers list their keys. */
  const AllActions: seq<Action> := [Create, Read, Edit, Delete]

  /** `ResourceType`: the kinds of entity a `Resource` row stands for. */
  datatype ResourceType = Project | ProjectPhase | TaskRes | SubtaskRes | Template | FileRes

  /** `GlobalPermissionSubject`; `Everything` is the wildcard `"*"`. */
  datatype Subject = Projects | Templates | Files | UserGroups | Users | Positions | Everything

  /** A nullable boolean column: `true`, `false` or `null`. */
  datatype TriBool = True | False | Null

  /**
   * JavaScript `a || b` on nullable booleans: the left operand when it is
   * truthy, otherwise the right operand. So `false || null` is `null` and
   * `null || false` is `false`.
   */
  function Or(a: TriBool, b: TriBool): (r: TriBool)
    ensures r == True <==> (a == True || b == True)
    ensures a != True ==> r == b
  {
    if a == True then True else b
  }

  /** The four nullable flags of a `LocalPermission` row. */
  datatype LocalFlags = LocalFlags(canRead: TriBool, canCreate: TriBool, canEdit: TriBool, canDelete: TriBool)

  /** A freshly created `LocalPermission` row: every flag defaults to null. */
  const NoLocalFlags := LocalFlags(Null, Null, Null, Null)

  /** `permissionTypeToKeyMap` followed by a property read. */
  function LocalFlag(f: LocalFlags, a: Action): TriBool
  {
    match a
    case Read => f.canRead
    case Create => f.canCreate
    case Edit => f.canEdit
    case Delete => f.canDelete
  }

  /** `permission[permissionTypeToKeyMap[a]] = v`. */
  function SetLocalFlag(f: LocalFlags, a: Action, v: TriBool): (r: LocalFlags)
    ensures LocalFlag(r, a) == v
    ensures forall b :: b != a ==> LocalFlag(r, b) == LocalFlag(f, b)
  {
    match a
    case Read => f.(canRead := v)
    case Create => f.(canCreate := v)
    case Edit => f.(canEdit := v)
    case Delete => f.(canDelete := v)
  }

  /** Two records that agree on every action are equal. */
  lemma LocalFlagsEqual(x: LocalFlags, y: LocalFlags)
    requires forall a :: LocalFlag(x, a) == LocalFlag(y, a)
    ensures x == y
  {
    assert LocalFlag(x, Read) == LocalFlag(y, Read);
    assert LocalFlag(x, Create) == LocalFlag(y, Create);
    assert LocalFlag(x, Edit) == LocalFlag(y, Edit);
    assert LocalFlag(x, Delete) == LocalFlag(y, Delete);
  }

  /** The four boolean flags of a `GlobalPermission` row. */
  datatype GlobalFlags = GlobalFlags(canRead: bool, canCreate: bool, canEdit: bool, canDelete: bool)

  /** A freshly created `GlobalPermission` row: every flag defaults to false. */
  const NoGlobalFlags := GlobalFlags(false, false, false, false)

  /** Two records that agree on every action are equal. */
  lemma GlobalFlagsEqual(x: GlobalFlags, y: GlobalFlags)
    requires forall a :: GlobalFlag(x, a) == GlobalFlag(y, a)
    ensures x == y
  {
    assert GlobalFlag(x, Read) == GlobalFlag(y, Read);
    assert GlobalFlag(x, Create) == GlobalFlag(y, Create);
    assert GlobalFlag(x, Edit) == GlobalFlag(y, Edit);
    assert GlobalFlag(x, Delete) == GlobalFlag(y, Delete);
  }

  function GlobalFlag(f: GlobalFlags, a: Action): bool
  {
    match a
    case Read => f.canRead
    case Create => f.canCreate
    case Edit => f.canEdit
    case Delete => f.canDelete
  }

  function SetGlobalFlag(f: GlobalFlags, a: Action, v: bool): (r: GlobalFlags)
    ensures GlobalFlag(r, a) == v
    ensures forall b :: b != a ==> GlobalFlag(r, b) == GlobalFlag(f, b)
  {
    match a
    case Read => f.(canRead := v)
    case Create => f.(canCreate := v)
    case Edit => f.(canEdit := v)
    case Delete => f.(canDelete := v)
  }

  /**
   * One value of a JSON request body as the handlers see it: a key that is
   * absent (`undefined`), `null`, a boolean, or anything else (numbers,
   * strings, objects), with its JavaScript truthiness.
   */
  datatype JsonValue = Undefined | JsonNull | JsonBool(b: bool) | JsonOther(truthy: bool)

  predicate Truthy(v: JsonValue)
  {
    match v
    case Undefined => false
    case JsonNull => false
    case JsonBool(b) => b
    case JsonOther(t) => t
  }

  /**
   * A request field that should hold an array: absent or falsy, a truthy
   * value that is not an array, or an array of items.
   */
  datatype ListField<T> = NoList | NotAList | List(items: seq<T>)

  predicate ListTruthy<T>(f: ListField<T>)
  {
    !f.NoList?
  }

  /** A body field that may be missing, `null`, or given. */
  datatype Field<T> = Missing | NullField | Given(value: T)

  /** An enum-valued body field: absent or falsy, one of the enum's values, or any other text. */
  datatype EnumText<T> = NoText | Valid(value: T) | Invalid

  /** Every action of `acts` is true in the record. */
  predicate AllHeld(res: LocalFlags, acts: seq<Action>)
  {
    forall a :: a in acts ==> LocalFlag(res, a) == True
  }

  /** The loop that refuses a request when one selected action is not held. */
  method CheckHeld(res: LocalFlags, acts: seq<Action>) returns (ok: bool)
    ensures ok == AllHeld(res, acts)
  {
    var i := 0;
    while i < |acts|
      invariant 0 <= i <= |acts|
      invariant forall j :: 0 <= j < i ==> LocalFlag(res, acts[j]) == True
    {
      if LocalFlag(res, acts[i]) != True {
        return false;
      }
      i := i + 1;
    }
    return true;
  }

  // ---------------------------------------------------------------------
  // Ordinals and reordering, shared by tasks, subtasks, phases and templates
  // ---------------------------------------------------------------------

  /** `Math.max(...ordinals, 0) + 1`: the ordinal a new item gets by default. */
  function NextOrdinal(ordinals: seq<int>): (r: int)
    ensures r >= 1
    ensures forall o :: o in ordinals ==> o < r
    ensures r == 1 || r - 1 in ordinals
  {
    if |ordinals| == 0 then 1
    else
      var rest := NextOrdinal(ordinals[1..]);
      assert forall o :: o in ordinals ==> o == ordinals[0] || o in ordinals[1..];
      if ordinals[0] + 1 > rest then ordinals[0] + 1 else rest
  }

  /** `items.filter(inScope).map(ordinalOf)`: the ordinals a new item is numbered after. */
  function OrdinalsWhere<T>(items: seq<T>, inScope: T -> bool, ordinalOf: T -> int): (r: seq<int>)
    ensures forall i :: 0 <= i < |items| && inScope(items[i]) ==> ordinalOf(items[i]) in r
    ensures forall o :: o in r ==> exists i :: 0 <= i < |items| && inScope(items[i]) && ordinalOf(items[i]) == o
  {
    if |items| == 0 then []
    else
      var rest := OrdinalsWhere(items[1..], inScope, ordinalOf);
      assert forall i :: 1 <= i < |items| ==> items[i] == items[1..][i - 1];
      if inScope(items[0]) then [ordinalOf(items[0])] + rest else rest
  }

  /**
   * The default ordinal of a new item exceeds the ordinal of every item in
   * its scope, and is 1 for an empty scope or one more than the largest.
   */
  lemma DefaultOrdinal<T>(items: seq<T>, inScope: T -> bool, ordinalOf: T -> int)
    ensures var r := NextOrdinal(OrdinalsWhere(items, inScope, ordinalOf));
      r >= 1 && (forall i :: 0 <= i < |items| && inScope(items[i]) ==> ordinalOf(items[i]) < r) &&
      (r == 1 || exists i :: 0 <= i < |items| && inScope(items[i]) && ordinalOf(items[i]) == r - 1)
  {
  }

  /** One entry of a reorder request; `None` stands for a value that is not a number (or a falsy entry). */
  datatype OrderEntry = OrderEntry(id: Option<int>, ordinal: Option<int>)

  /** Every entry has a numeric id and ordinal. */
  predicate EntriesValid(es: seq<OrderEntry>)
  {
    forall k :: 0 <= k < |es| ==> es[k].id.Some? && es[k].ordinal.Some?
  }

  /** The ordinal of the first entry naming `id`: `entries.find(p => p.id === id)`. */
  function FirstOrdinal(es: seq<OrderEntry>, id: int): (r: Option<int>)
    requires EntriesValid(es)
    ensures r.Some? <==> exists k :: 0 <= k < |es| && es[k].id == Some(id)
    ensures r.Some? ==> exists k :: (0 <= k < |es| && es[k].id == Some(id) && es[k].ordinal == r &&
      forall j :: 0 <= j < k ==> es[j].id != Some(id))
  {
    if |es| == 0 then None
    else if es[0].id == Some(id) then es[0].ordinal
    else
      assert forall k :: 0 <= k < |es| - 1 ==> es[1..][k] == es[k + 1];
      FirstOrdinal(es[1..], id)
  }

  /** An item after a reorder: the first entry naming it gives its ordinal, if it is in scope. */
  function Reordered<T>(item: T, idOf: T -> int, inScope: T -> bool, withOrdinal: (T, int) -> T, es: seq<OrderEntry>): T
    requires EntriesValid(es)
  {
    if inScope(item) && FirstOrdinal(es, idOf(item)).Some?
    then withOrdinal(item, FirstOrdinal(es, idOf(item)).value)
    else item
  }

  /**
   * A reordered item differs from the item at most in its ordinal, and only
   * when it is in scope and listed; then it takes the ordinal of the first
   * entry naming it.
   */
  lemma ReorderedMeaning<T>(item: T, idOf: T -> int, inScope: T -> bool, withOrdinal: (T, int) -> T, es: seq<OrderEntry>)
    requires EntriesValid(es)
    ensures (!inScope(item) || forall k :: 0 <= k < |es| ==> es[k].id != Some(idOf(item))) ==>
      Reordered(item, idOf, inScope, withOrdinal, es) == item
    ensures (inScope(item) && exists k :: 0 <= k < |es| && es[k].id == Some(idOf(item))) ==>
      exists k :: (0 <= k < |es| && es[k].id == Some(idOf(item)) && (forall j :: 0 <= j < k ==> es[j].id != Some(idOf(item))) &&
        Reordered(item, idOf, inScope, withOrdinal, es) == withOrdinal(item, es[k].ordinal.value))
  {
    var r := FirstOrdinal(es, idOf(item));
    if inScope(item) && r.Some? {
      var k :| 0 <= k < |es| && es[k].id == Some(idOf(item)) && es[k].ordinal == r &&
        forall j :: 0 <= j < k ==> es[j].id != Some(idOf(item));
      assert Reordered(item, idOf, inScope, withOrdinal, es) == withOrdinal(item, es[k].ordinal.value);
    }
  }

  /** The `map` that sets the ordinal of every listed item of the scope. */
  method Reorder<T>(items: seq<T>, idOf: T -> int, inScope: T -> bool, withOrdinal: (T, int) -> T, es: seq<OrderEntry>)
    returns (out: seq<T>)
    requires EntriesValid(es)
    ensures |out| == |items|
    ensures forall i :: 0 <= i < |items| ==> out[i] == Reordered(items[i], idOf, inScope, withOrdinal, es)
  {
    out := [];
    var i := 0;
    while i < |items|
      invariant 0 <= i <= |items| && |out| == i
      invariant forall j :: 0 <= j < i ==> out[j] == Reordered(items[j], idOf, inScope, withOrdinal, es)
    {
      var item := items[i];
      if inScope(item) {
        var matching := FirstOrdinal(es, idOf(item));
        if matching.Some? {
          item := withOrdinal(item, matching.value);
        }
      }
      out := out + [item];
      i := i + 1;
    }
  }

  /** A row removed from a table: one fewer row, the others kept in order. */
  lemma RemoveAtEffect<T>(s: seq<T>, k: nat)
    requires k < |s|
    ensures var r := s[..k] + s[k + 1..];
      |r| == |s| - 1 &&
      multiset(r) + multiset{s[k]} == multiset(s) &&
      (forall i :: 0 <= i < |r| ==> r[i] == s[if i < k then i else i + 1]) &&
      (forall x :: x in s && x != s[k] ==> x in r)
  {
    assert s == s[..k] + [s[k]] + s[k + 1..];
  }
}
