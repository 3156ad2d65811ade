/**
 * Task statuses (`src/controller/TaskStatusController.ts`): the hex colour
 * check, and creating, updating and deleting a status with unique,
 * case-insensitive names and protected rows.
 */
module TaskStatuses {
  import opened Common
  import opened AuthService

  /** A `TaskStatus` row. */
  datatype TaskStatus = TaskStatus(id: int, name: string, color: string, isProtected: bool, key: Option<string>)

  /*
   * Colours
   */

  predicate IsHexDigit(c: char)
  {
    ('0' <= c <= '9') || ('a' <= c <= 'f') || ('A' <= c <= 'F')
  }

  /** One `[0-9a-fA-F]{3}` group. */
  predicate HexTriple(t: string)
  {
    |t| == 3 && IsHexDigit(t[0]) && IsHexDigit(t[1]) && IsHexDigit(t[2])
  }

  /** `isValidHexColor`: the pattern `^#(?:[0-9a-fA-F]{3}){1,2}$`, one or two groups after the `#`. */
  predicate IsValidHexColor(s: string)
  {
    |s| >= 1 && s[0] == '#' &&
    (HexTriple(s[1..]) || (|s| == 7 && HexTriple(s[1..4]) && HexTriple(s[4..])))
  }

  /** A colour is valid exactly when it is `#` and then 3 or 6 hex digits, in either case. */
  lemma HexColorMeaning(s: string)
    ensures IsValidHexColor(s) <==>
      (|s| == 4 || |s| == 7) && s[0] == '#' && forall i :: 1 <= i < |s| ==> IsHexDigit(s[i])
  {
    if (|s| == 4 || |s| == 7) && s[0] == '#' && forall i :: 1 <= i < |s| ==> IsHexDigit(s[i]) {
      if |s| == 7 {
        assert s[1..4][0] == s[1] && s[1..4][1] == s[2] && s[1..4][2] == s[3];
        assert s[4..][0] == s[4] && s[4..][1] == s[5] && s[4..][2] == s[6];
      } else {
        assert s[1..][0] == s[1] && s[1..][1] == s[2] && s[1..][2] == s[3];
      }
    }
    if IsValidHexColor(s) {
      forall i | 1 <= i < |s|
        ensures IsHexDigit(s[i])
      {
        if HexTriple(s[1..]) {
          assert s[i] == s[1..][i - 1];
        } else if i < 4 {
          assert s[i] == s[1..4][i - 1];
        } else {
          assert s[i] == s[4..][i - 4];
        }
      }
    }
  }

  /** Short and long forms in either case pass; four digits, no `#` or a non-hex digit fail. */
  lemma HexColorExamples()
    ensures IsValidHexColor("#fff") && IsValidHexColor("#A1b2C3")
    ensures !IsValidHexColor("#ffff") && !IsValidHexColor("fff") && !IsValidHexColor("#ggg") && !IsValidHexColor("")
  {
    HexColorMeaning("#A1b2C3");
    HexColorMeaning("#ffff");
    HexColorMeaning("#ggg");
    assert "#ggg"[1] == 'g';
  }

  /*
   * Names
   */

  /** SQL `LOWER` on one character, for the ASCII letters. */
  function LowerChar(c: char): char
  {
    if 'A' <= c <= 'Z' then (c as int - 'A' as int + 'a' as int) as char else c
  }

  function Lower(s: string): (r: string)
    ensures |r| == |s|
  {
    seq(|s|, i requires 0 <= i < |s| => LowerChar(s[i]))
  }

  /** `findOne` with `LOWER(name) = LOWER(:name)`: the first status with that name, ignoring case. */
  function SameName(statuses: seq<TaskStatus>, name: string): (k: Option<nat>)
    ensures k.Some? ==> k.value < |statuses| && Lower(statuses[k.value].name) == Lower(name)
    ensures k.None? ==> forall j :: 0 <= j < |statuses| ==> Lower(statuses[j].name) != Lower(name)
  {
    FindIndex(statuses, (st: TaskStatus) => Lower(st.name) == Lower(name))
  }

  function StatusIndex(statuses: seq<TaskStatus>, id: int): (k: Option<nat>)
    ensures k.Some? ==> k.value < |statuses| && statuses[k.value].id == id
    ensures k.None? ==> forall j :: 0 <= j < |statuses| ==> statuses[j].id != id
  {
    FindIndex(statuses, (st: TaskStatus) => st.id == id)
  }

  /** No two statuses share a name up to case, and every colour is valid. */
  ghost predicate StatusTableValid(statuses: seq<TaskStatus>)
  {
    (forall i, j :: 0 <= i < j < |statuses| ==> Lower(statuses[i].name) != Lower(statuses[j].name)) &&
    (forall i :: 0 <= i < |statuses| ==> IsValidHexColor(statuses[i].color))
  }

  /*
   * Create
   */

  /** `createTaskStatus`; absent or falsy fields are `""`. */
  function CreateStatusSpec(statuses: seq<TaskStatus>, name: string, color: string, newId: int): (Status, seq<TaskStatus>)
  {
    if name == "" || color == "" then (BadRequest, statuses)
    else if !IsValidHexColor(color) then (BadRequest, statuses)
    else if SameName(statuses, name).Some? then (BadRequest, statuses)
    else (Created, statuses + [TaskStatus(newId, name, color, false, None)])
  }

  /**
   * A status is created exactly when the name is given, the colour is
   * valid and no status has the name up to case; it is unprotected and
   * has no key. Creation keeps the table valid.
   */
  lemma CreateStatusMeaning(statuses: seq<TaskStatus>, name: string, color: string, newId: int)
    ensures var (status, after) := CreateStatusSpec(statuses, name, color, newId);
      (status == Created <==>
        name != "" && IsValidHexColor(color) &&
        forall j :: 0 <= j < |statuses| ==> Lower(statuses[j].name) != Lower(name)) &&
      (status != Created ==> after == statuses) &&
      (status == Created ==> after == statuses + [TaskStatus(newId, name, color, false, None)]) &&
      (StatusTableValid(statuses) ==> StatusTableValid(after))
  {
    var (status, after) := CreateStatusSpec(statuses, name, color, newId);
    if status == Created && StatusTableValid(statuses) {
      assert after[|statuses|].name == name;
      assert forall i :: 0 <= i < |statuses| ==> after[i] == statuses[i];
    }
  }

  /*
   * Update
   */

  /**
   * `updateTaskStatus`. `name` is `None` when absent or `null`, which no
   * row's name equals in SQL; the colour is `""` when absent or falsy.
   */
  function UpdateStatusSpec(statuses: seq<TaskStatus>, id: int, name: Option<string>, color: string): (Status, seq<TaskStatus>)
  {
    if id == 0 then (BadRequest, statuses)
    else
      var k := StatusIndex(statuses, id);
      if k.None? then (NotFound, statuses)
      else if statuses[k.value].isProtected then (Forbidden, statuses)
      else if name.Some? && SameName(statuses, name.value).Some? then (BadRequest, statuses)
      else if color != "" && !IsValidHexColor(color) then (BadRequest, statuses)
      else
        var st := statuses[k.value];
        var renamed := if name.Some? && name.value != "" then st.(name := name.value) else st;
        (Created, statuses[k.value := if color != "" then renamed.(color := color) else renamed])
  }

  /**
   * An update never touches a protected status or another status, changes
   * only the name and colour, and keeps the table valid. A name is refused
   * when any status has it up to case.
   */
  lemma UpdateStatusMeaning(statuses: seq<TaskStatus>, id: int, name: Option<string>, color: string)
    ensures var (status, after) := UpdateStatusSpec(statuses, id, name, color);
      |after| == |statuses| &&
      (status == Forbidden <==> id != 0 && StatusIndex(statuses, id).Some? && statuses[StatusIndex(statuses, id).value].isProtected) &&
      (status != Created ==> after == statuses) &&
      (status == Created && name.Some? ==> forall j :: 0 <= j < |statuses| ==> Lower(statuses[j].name) != Lower(name.value)) &&
      (status == Created && color != "" ==> IsValidHexColor(color)) &&
      (forall j :: 0 <= j < |statuses| ==>
        after[j].(name := statuses[j].name, color := statuses[j].color) == statuses[j] &&
        (statuses[j].isProtected ==> after[j] == statuses[j]) &&
        (after[j] != statuses[j] ==> j == StatusIndex(statuses, id).value)) &&
      (StatusTableValid(statuses) ==> StatusTableValid(after))
  {
    var (status, after) := UpdateStatusSpec(statuses, id, name, color);
    if status == Created && StatusTableValid(statuses) {
      var k := StatusIndex(statuses, id).value;
      forall i, j | 0 <= i < j < |after|
        ensures Lower(after[i].name) != Lower(after[j].name)
      {
        if i != k && j != k {
          assert after[i] == statuses[i] && after[j] == statuses[j];
        } else if name.Some? && name.value != "" {
          assert Lower(after[k].name) == Lower(name.value);
        }
      }
    }
  }

  /** Even a status's own name, in any case, is refused, so a status cannot be renamed to itself. */
  lemma OwnNameRefused(statuses: seq<TaskStatus>, k: nat)
    requires k < |statuses| && statuses[k].id != 0 && !statuses[k].isProtected
    requires forall j :: 0 <= j < k ==> statuses[j].id != statuses[k].id
    ensures UpdateStatusSpec(statuses, statuses[k].id, Some(Lower(statuses[k].name)), "").0 == BadRequest
  {
    LowerIdempotent(statuses[k].name);
  }

  lemma LowerIdempotent(s: string)
    ensures Lower(Lower(s)) == Lower(s)
  {
  }

  /*
   * Delete
   */

  /**
   * `deleteTaskStatus`. `inUse` tells whether some task or subtask still
   * refers to the status: their `status` foreign keys have no `onDelete`,
   * so the database refuses the delete and the `catch` answers 500.
   */
  function DeleteStatusSpec(statuses: seq<TaskStatus>, id: int, inUse: bool): (Status, seq<TaskStatus>)
  {
    if id == 0 then (BadRequest, statuses)
    else
      var k := StatusIndex(statuses, id);
      if k.None? then (NotFound, statuses)
      else if statuses[k.value].isProtected then (Forbidden, statuses)
      else if inUse then (ServerError, statuses)
      else (Ok, statuses[..k.value] + statuses[k.value + 1..])
  }

  /**
   * A delete removes exactly one unprotected status that nothing refers
   * to, and keeps every protected one; an unprotected status still in use
   * is kept and answered with 500.
   */
  lemma DeleteStatusMeaning(statuses: seq<TaskStatus>, id: int, inUse: bool)
    ensures var (status, after) := DeleteStatusSpec(statuses, id, inUse);
      var found := id != 0 && StatusIndex(statuses, id).Some? && !statuses[StatusIndex(statuses, id).value].isProtected;
      (status == Ok <==> found && !inUse) &&
      (status == ServerError <==> found && inUse) &&
      (status != Ok ==> after == statuses) &&
      (status == Ok ==>
        (|after| == |statuses| - 1 &&
         multiset(after) + multiset{statuses[StatusIndex(statuses, id).value]} == multiset(statuses))) &&
      (forall st :: st in statuses && st.isProtected ==> st in after)
  {
    if DeleteStatusSpec(statuses, id, inUse).0 == Ok {
      RemoveAtEffect(statuses, StatusIndex(statuses, id).value);
    }
  }

  /** Deleting keeps names distinct up to case and colours valid. */
  lemma DeleteKeepsStatusTableValid(statuses: seq<TaskStatus>, id: int, inUse: bool)
    requires StatusTableValid(statuses)
    ensures StatusTableValid(DeleteStatusSpec(statuses, id, inUse).1)
  {
    var (status, after) := DeleteStatusSpec(statuses, id, inUse);
    if status == Ok {
      RemovalKeepsStatusTableValid(statuses, StatusIndex(statuses, id).value);
    }
  }

  /** Removing any one row keeps the names distinct and the colours valid. */
  lemma RemovalKeepsStatusTableValid(statuses: seq<TaskStatus>, k: nat)
    requires StatusTableValid(statuses) && k < |statuses|
    ensures StatusTableValid(statuses[..k] + statuses[k + 1..])
  {
    var after := statuses[..k] + statuses[k + 1..];
    RemoveAtEffect(statuses, k);
    forall i, j | 0 <= i < j < |after|
      ensures Lower(after[i].name) != Lower(after[j].name)
    {
      var i', j' := if i < k then i else i + 1, if j < k then j else j + 1;
      assert after[i] == statuses[i'] && after[j] == statuses[j'] && i' < j';
    }
    forall i | 0 <= i < |after|
      ensures IsValidHexColor(after[i].color)
    {
      assert after[i] == statuses[if i < k then i else i + 1];
    }
  }

  /** The status table. */
  class TaskStatusTable {
    var statuses: seq<TaskStatus>

    constructor (sts: seq<TaskStatus>)
      ensures statuses == sts
    {
      statuses := sts;
    }

    /** `createTaskStatus`. */
    method Create(name: string, color: string, newId: int) returns (status: Status)
      modifies this
      ensures (status, statuses) == CreateStatusSpec(old(statuses), name, color, newId)
    {
      if name == "" || color == "" {
        return BadRequest;
      }
      if !IsValidHexColor(color) {
        return BadRequest;
      }
      if SameName(statuses, name).Some? {
        return BadRequest;
      }
      statuses := statuses + [TaskStatus(newId, name, color, false, None)];
      return Created;
    }

    /** `updateTaskStatus`. */
    method Update(id: int, name: Option<string>, color: string) returns (status: Status)
      modifies this
      ensures (status, statuses) == UpdateStatusSpec(old(statuses), id, name, color)
    {
      if id == 0 {
        return BadRequest;
      }
      var k := StatusIndex(statuses, id);
      if k.None? {
        return NotFound;
      }
      if statuses[k.value].isProtected {
        return Forbidden;
      }
      if name.Some? && SameName(statuses, name.value).Some? {
        return BadRequest;
      }
      var st := statuses[k.value];
      if name.Some? && name.value != "" {
        st := st.(name := name.value);
      }
      if color != "" {
        if !IsValidHexColor(color) {
          return BadRequest;
        }
        st := st.(color := color);
      }
      statuses := statuses[k.value := st];
      return Created;
    }

    /** `deleteTaskStatus`; `inUse` is the database's foreign-key check. */
    method Delete(id: int, inUse: bool) returns (status: Status)
      modifies this
      ensures (status, statuses) == DeleteStatusSpec(old(statuses), id, inUse)
    {
      if id == 0 {
        return BadRequest;
      }
      var k := StatusIndex(statuses, id);
      if k.None? {
        return NotFound;
      }
      if statuses[k.value].isProtected {
        return Forbidden;
      }
      if inUse {
        return ServerError;
      }
      statuses := statuses[..k.value] + statuses[k.value + 1..];
      return Ok;
    }
  }
}
