/**
 * The subtask handlers of `src/controller/SubtaskController.ts`: creation
 * with its default ordinal, reordering, submission (a subtask has no
 * verification step) and the partial update.
 */
module Subtasks {
  import opened Common
  import opened AuthService
  import opened ResourceSync
  import opened Tasks

  /** `findOne({ where: { id } })` on the subtask table. */
  function SubtaskIndex(subs: seq<Subtask>, id: int): (k: Option<nat>)
    ensures k.Some? ==> k.value < |subs| && subs[k.value].id == id && forall j :: 0 <= j < k.value ==> subs[j].id != id
    ensures k.None? ==> forall j :: 0 <= j < |subs| ==> subs[j].id != id
  {
    FindIndex(subs, (s: Subtask) => s.id == id)
  }

  /** The ordinals of the subtasks of task `id`. */
  function SubtaskOrdinals(subs: seq<Subtask>, id: int): (r: seq<int>)
    ensures forall s :: s in subs && s.task == id ==> s.ordinal in r
    ensures forall o :: o in r ==> exists s :: s in subs && s.task == id && s.ordinal == o
  {
    if |subs| == 0 then []
    else
      var rest := SubtaskOrdinals(subs[1..], id);
      assert forall s :: s in subs ==> s == subs[0] || s in subs[1..];
      if subs[0].task == id then [subs[0].ordinal] + rest else rest
  }

  /**
   * `createSubtask` up to saving: the status and the new subtask's ordinal.
   * `taskParam` is `None` when the route lacks the task id, `ordinal` 0
   * when the body has no truthy ordinal.
   */
  function CreateSubtaskSpec(tasks: seq<Task>, subs: seq<Subtask>, taskParam: Option<int>, hasTitle: bool, ordinal: int): (r: (Status, Option<int>))
    ensures r.0 == Created <==> r.1.Some?
    ensures r.0 == Created <==> taskParam.Some? && hasTitle && TaskIndex(tasks, taskParam.value).Some?
    ensures taskParam.None? || !hasTitle ==> r == (BadRequest, None)
  {
    if taskParam.None? then (BadRequest, None)
    else if !hasTitle then (BadRequest, None)
    else if TaskIndex(tasks, taskParam.value).None? then (NotFound, None)
    else (Created, Some(if ordinal != 0 then ordinal else NextOrdinal(SubtaskOrdinals(subs, taskParam.value))))
  }

  /** `submitSubtask`: the status and the subtask table afterwards. */
  function SubmitSubtaskSpec(subs: seq<Subtask>, id: int, now: int, ownerMissing: bool, hasFile: bool,
                             rs: seq<Resource>, stored: set<StatusKey>): (Status, seq<Subtask>)
  {
    match SubtaskIndex(subs, id)
    case None => (NotFound, subs)
    case Some(k) =>
      var s := subs[k];
      if s.statusKey == Some(DoneKey) || s.statusKey == Some(InVerification) then (BadRequest, subs)
      else if ownerMissing then (NotFound, subs)
      else if s.submissionType == Some(FileUpload) && !hasFile then (BadRequest, subs)
      else if s.submissionType == Some(FileUpload) && UploadTarget(rs, SubtaskRes, s.id).Some? then (NotFound, subs)
      else if DoneKey !in stored then (ServerError, subs)
      else (Ok, subs[k := s.(statusKey := Some(DoneKey), submissionDate := Some(now))])
  }

  /**
   * The body of `updateSubtask`: the title and submission type count only
   * when truthy (`""` and `None` are falsy), the others whenever present.
   */
  datatype SubtaskPatch = SubtaskPatch(
    title: string,
    description: Field<string>,
    submissionType: Option<SubmissionType>,
    assigneeId: Field<UserId>,
    statusId: Field<int>)

  /**
   * The subtask after `updateSubtask`: `users` are the known user ids,
   * `statuses` the key of each known status id. A truthy id that names
   * nothing leaves the relation `null`.
   */
  function Patched(s: Subtask, p: SubtaskPatch, users: set<UserId>, statuses: map<int, Option<StatusKey>>): (r: Subtask)
    ensures r.id == s.id && r.task == s.task && r.ordinal == s.ordinal &&
      r.autoGenerated == s.autoGenerated && r.submissionDate == s.submissionDate
  {
    var description := match p.description
      case Missing => s.description
      case NullField => None
      case Given(d) => Some(d);
    var assignee := match p.assigneeId
      case Missing => s.assignee
      case NullField => None
      case Given(u) => if |u| > 0 && u in users then Some(u) else None;
    var statusKey := match p.statusId
      case Missing => s.statusKey
      case NullField => None
      case Given(n) => if n != 0 && n in statuses then statuses[n] else None;
    s.(title := if |p.title| > 0 then p.title else s.title,
       description := description,
       submissionType := if p.submissionType.Some? then p.submissionType else s.submissionType,
       assignee := assignee,
       statusKey := statusKey)
  }

  /**
   * A patch writes a non-empty title and a given submission type; an
   * absent key keeps the field, `null` clears it; an assignee is kept only
   * when it names a known user, and a status id of 0 clears the status.
   */
  lemma PatchedMeaning(s: Subtask, p: SubtaskPatch, users: set<UserId>, statuses: map<int, Option<StatusKey>>)
    ensures var r := Patched(s, p, users, statuses);
      r.title == (if |p.title| > 0 then p.title else s.title) &&
      r.submissionType == (if p.submissionType.Some? then p.submissionType else s.submissionType) &&
      (p.description.Missing? ==> r.description == s.description) &&
      (p.description.NullField? ==> r.description.None?) &&
      (p.description.Given? ==> r.description == Some(p.description.value)) &&
      (p.assigneeId.Missing? ==> r.assignee == s.assignee) &&
      (!p.assigneeId.Missing? ==>
        (r.assignee.Some? <==> p.assigneeId.Given? && |p.assigneeId.value| > 0 && p.assigneeId.value in users)) &&
      (r.assignee.Some? && !p.assigneeId.Missing? ==> r.assignee == Some(p.assigneeId.value)) &&
      (p.statusId.Missing? ==> r.statusKey == s.statusKey) &&
      (p.statusId.NullField? || p.statusId == Given(0) ==> r.statusKey.None?)
  {
  }

  /** `updateSubtask`: `idParam` is `None` when the route lacks the id. */
  function UpdateSubtaskSpec(subs: seq<Subtask>, idParam: Option<int>, p: SubtaskPatch, users: set<UserId>,
                             statuses: map<int, Option<StatusKey>>): (Status, seq<Subtask>)
  {
    if idParam.None? then (BadRequest, subs)
    else match SubtaskIndex(subs, idParam.value)
      case None => (NotFound, subs)
      case Some(k) => (Ok, subs[k := Patched(subs[k], p, users, statuses)])
  }

  /** Whether a subtask belongs to the task of a reorder request. */
  function InSubtaskScope(taskId: int): Subtask -> bool
  {
    (s: Subtask) => s.task == taskId
  }

  function SubtaskId(s: Subtask): int { s.id }

  function WithSubtaskOrdinal(s: Subtask, o: int): Subtask { s.(ordinal := o) }

  /** The subtask table, as the subtask handlers change it. */
  class SubtaskTable {
    var subtasks: seq<Subtask>

    constructor (ss: seq<Subtask>)
      ensures subtasks == ss
    {
      subtasks := ss;
    }

    /** `submitSubtask`. */
    method Submit(id: int, now: int, ownerMissing: bool, hasFile: bool, rs: seq<Resource>, stored: set<StatusKey>)
      returns (status: Status)
      modifies this
      ensures (status, subtasks) == SubmitSubtaskSpec(old(subtasks), id, now, ownerMissing, hasFile, rs, stored)
    {
      var k := SubtaskIndex(subtasks, id);
      if k.None? {
        return NotFound;
      }
      var s := subtasks[k.value];
      if s.statusKey == Some(DoneKey) || s.statusKey == Some(InVerification) {
        return BadRequest;
      }
      if ownerMissing {
        return NotFound;
      }
      if s.submissionType == Some(FileUpload) && !hasFile {
        return BadRequest;
      }
      if s.submissionType == Some(FileUpload) {
        var missing := UploadTarget(rs, SubtaskRes, s.id);
        if missing.Some? {
          return missing.value;
        }
      }
      s := s.(submissionDate := Some(now));
      if DoneKey !in stored {
        return ServerError;
      }
      s := s.(statusKey := Some(DoneKey));
      subtasks := subtasks[k.value := s];
      return Ok;
    }

    /** `updateSubtask`. */
    method Update(idParam: Option<int>, p: SubtaskPatch, users: set<UserId>, statuses: map<int, Option<StatusKey>>)
      returns (status: Status)
      modifies this
      ensures (status, subtasks) == UpdateSubtaskSpec(old(subtasks), idParam, p, users, statuses)
    {
      if idParam.None? {
        return BadRequest;
      }
      var k := SubtaskIndex(subtasks, idParam.value);
      if k.None? {
        return NotFound;
      }
      subtasks := subtasks[k.value := Patched(subtasks[k.value], p, users, statuses)];
      return Ok;
    }

    /** `reorderSubtasks`. */
    method Reorder(taskParam: Option<int>, list: ListField<OrderEntry>) returns (status: Status)
      modifies this
      ensures status == (if taskParam.None? || !list.List? || !EntriesValid(list.items) then BadRequest else Ok)
      ensures status == BadRequest ==> subtasks == old(subtasks)
      ensures status == Ok ==> (|subtasks| == |old(subtasks)| &&
        forall i :: 0 <= i < |subtasks| ==>
          subtasks[i] == Reordered(old(subtasks)[i], SubtaskId, InSubtaskScope(taskParam.value), WithSubtaskOrdinal, list.items))
    {
      if taskParam.None? || !list.List? {
        return BadRequest;
      }
      if !EntriesValid(list.items) {
        return BadRequest;
      }
      subtasks := Common.Reorder(subtasks, SubtaskId, InSubtaskScope(taskParam.value), WithSubtaskOrdinal, list.items);
      return Ok;
    }
  }

  // ---------------------------------------------------------------------
  // Properties
  // ---------------------------------------------------------------------

  /**
   * A successful subtask submission: the subtask was neither done nor in
   * verification, and is now DONE with its submission date; nothing else
   * changes.
   */
  lemma SubmitSubtaskSucceeds(subs: seq<Subtask>, id: int, now: int, ownerMissing: bool, hasFile: bool, rs: seq<Resource>, stored: set<StatusKey>)
    requires SubmitSubtaskSpec(subs, id, now, ownerMissing, hasFile, rs, stored).0 == Ok
    ensures var k := SubtaskIndex(subs, id);
      var out := SubmitSubtaskSpec(subs, id, now, ownerMissing, hasFile, rs, stored).1;
      k.Some? && !ownerMissing &&
      subs[k.value].statusKey != Some(DoneKey) && subs[k.value].statusKey != Some(InVerification) &&
      (subs[k.value].submissionType == Some(FileUpload) ==> hasFile) &&
      out == subs[k.value := subs[k.value].(statusKey := Some(DoneKey), submissionDate := Some(now))]
  {
  }

  /** Rewriting the subtask found by id, keeping its id, keeps it the one found. */
  lemma SubtaskIndexAfterUpdate(subs: seq<Subtask>, id: int, k: nat, s: Subtask)
    requires SubtaskIndex(subs, id) == Some(k) && s.id == id
    ensures SubtaskIndex(subs[k := s], id) == Some(k)
  {
    var after := subs[k := s];
    assert after[k].id == id;
    assert forall j :: 0 <= j < k ==> after[j] == subs[j];
  }

  /** A submitted subtask is DONE, so a second submission is refused. */
  lemma NoSecondSubtaskSubmission(subs: seq<Subtask>, id: int, now: int, ownerMissing: bool, hasFile: bool, rs: seq<Resource>, stored: set<StatusKey>,
                                  now2: int, ownerMissing2: bool, hasFile2: bool)
    requires SubmitSubtaskSpec(subs, id, now, ownerMissing, hasFile, rs, stored).0 == Ok
    ensures var after := SubmitSubtaskSpec(subs, id, now, ownerMissing, hasFile, rs, stored).1;
      SubmitSubtaskSpec(after, id, now2, ownerMissing2, hasFile2, rs, stored) == (BadRequest, after)
  {
    var k := SubtaskIndex(subs, id).value;
    SubtaskIndexAfterUpdate(subs, id, k, subs[k].(statusKey := Some(DoneKey), submissionDate := Some(now)));
  }

  /** A file-upload subtask is never submitted without a file, whatever its task's type. */
  lemma SubtaskUploadNeedsFile(subs: seq<Subtask>, id: int, now: int, ownerMissing: bool, rs: seq<Resource>, stored: set<StatusKey>)
    requires SubtaskIndex(subs, id).Some? && subs[SubtaskIndex(subs, id).value].submissionType == Some(FileUpload)
    ensures SubmitSubtaskSpec(subs, id, now, ownerMissing, false, rs, stored).0 != Ok
  {
  }

  /** A new subtask without an explicit ordinal goes after every subtask of its task. */
  lemma DefaultSubtaskOrdinal(tasks: seq<Task>, subs: seq<Subtask>, taskId: int, hasTitle: bool)
    requires CreateSubtaskSpec(tasks, subs, Some(taskId), hasTitle, 0).0 == Created
    ensures var o := CreateSubtaskSpec(tasks, subs, Some(taskId), hasTitle, 0).1.value;
      o >= 1 && forall s :: s in subs && s.task == taskId ==> s.ordinal < o
  {
  }

  /**
   * A successful update changes only the addressed subtask, and keeps its
   * identity, task, ordinal, generation flag and submission date.
   */
  lemma UpdateSubtaskKeepsOthers(subs: seq<Subtask>, idParam: Option<int>, p: SubtaskPatch, users: set<UserId>, statuses: map<int, Option<StatusKey>>)
    ensures var out := UpdateSubtaskSpec(subs, idParam, p, users, statuses);
      |out.1| == |subs| &&
      (out.0 == Ok <==> idParam.Some? && SubtaskIndex(subs, idParam.value).Some?) &&
      forall j :: 0 <= j < |subs| ==>
        (out.1[j] == subs[j] || (out.0 == Ok && subs[j].id == idParam.value)) &&
        out.1[j].id == subs[j].id && out.1[j].task == subs[j].task && out.1[j].ordinal == subs[j].ordinal &&
        out.1[j].submissionDate == subs[j].submissionDate
  {
  }
}
