/**
 * Project phases (`src/controller/ProjectPhaseController.ts`): creation
 * with its default ordinal, reordering inside a project, and the partial
 * update of a phase.
 */
module Phases {
  import opened Common
  import opened AuthService

  /** A `ProjectPhase` row; dates are instants, `None` is `null`. */
  datatype Phase = Phase(
    id: int,
    project: int,
    name: string,
    description: Option<string>,
    startDate: Option<int>,
    endDate: Option<int>,
    ordinal: int)

  function PhaseId(p: Phase): int { p.id }

  function PhaseOrdinal(p: Phase): int { p.ordinal }

  function WithOrdinal(p: Phase, o: int): Phase { p.(ordinal := o) }

  function InProject(project: int): Phase -> bool
  {
    (p: Phase) => p.project == project
  }

  /** `findOne({ where: { id } })` on the phase table. */
  function PhaseIndex(phases: seq<Phase>, id: int): (k: Option<nat>)
    ensures k.Some? ==> k.value < |phases| && phases[k.value].id == id
    ensures k.None? ==> forall j :: 0 <= j < |phases| ==> phases[j].id != id
  {
    FindIndex(phases, (p: Phase) => p.id == id)
  }

  /** The body of `createProjectPhase`; the ordinal is 0 when absent. */
  datatype NewPhase = NewPhase(name: string, description: Option<string>, startDate: Option<int>, endDate: Option<int>, ordinal: int)

  /**
   * `createProjectPhase`: the project id and a name are required and the
   * project must exist; a truthy ordinal is used, else the next one after
   * the project's phases.
   */
  function CreatePhaseSpec(projects: set<int>, phases: seq<Phase>, projectParam: int, req: NewPhase, newId: int)
    : (Status, seq<Phase>)
  {
    if projectParam == 0 || req.name == "" then (BadRequest, phases)
    else if projectParam !in projects then (NotFound, phases)
    else
      var o := if req.ordinal != 0 then req.ordinal else NextOrdinal(OrdinalsWhere(phases, InProject(projectParam), PhaseOrdinal));
      (Created, phases + [Phase(newId, projectParam, req.name, req.description, req.startDate, req.endDate, o)])
  }

  /**
   * A phase is created exactly when the id and name are given and the
   * project exists; it is appended, and without an ordinal it is numbered
   * one past the largest ordinal of the project's phases (1 for the first).
   */
  lemma CreatePhaseMeaning(projects: set<int>, phases: seq<Phase>, projectParam: int, req: NewPhase, newId: int)
    ensures var (status, after) := CreatePhaseSpec(projects, phases, projectParam, req, newId);
      (status == Created <==> projectParam != 0 && req.name != "" && projectParam in projects) &&
      (status != Created ==> after == phases) &&
      (status == Created ==>
        |after| == |phases| + 1 && after[..|phases|] == phases &&
        after[|phases|].project == projectParam && after[|phases|].name == req.name &&
        (req.ordinal != 0 ==> after[|phases|].ordinal == req.ordinal) &&
        (req.ordinal == 0 ==>
          (forall j :: 0 <= j < |phases| && phases[j].project == projectParam ==> phases[j].ordinal < after[|phases|].ordinal) &&
          (after[|phases|].ordinal == 1 ||
           exists j :: 0 <= j < |phases| && phases[j].project == projectParam && phases[j].ordinal == after[|phases|].ordinal - 1)))
  {
    DefaultOrdinal(phases, InProject(projectParam), PhaseOrdinal);
    if projectParam != 0 && req.name != "" && projectParam in projects {
      var after := CreatePhaseSpec(projects, phases, projectParam, req, newId).1;
      assert after[..|phases|] == phases;
    }
  }

  /**
   * The body of `updateProjectPhase`; the ordinal is `None` when it is not a
   * number. A date is a day number, and `Given(0)` stands for a present but
   * falsy date value (`0`, `""` or `false`).
   */
  datatype PhasePatch = PhasePatch(name: string, description: Field<string>, startDate: Field<int>, endDate: Field<int>,
                                   ordinal: Option<int>)

  /**
   * A phase after a patch: a truthy name, a present description and a
   * truthy numeric ordinal are written; a present date is written when it
   * is truthy and cleared otherwise.
   */
  function Patched(ph: Phase, p: PhasePatch): (r: Phase)
    ensures r.id == ph.id && r.project == ph.project
  {
    Phase(
      ph.id,
      ph.project,
      if p.name != "" then p.name else ph.name,
      match p.description
      case Missing => ph.description
      case NullField => None
      case Given(d) => Some(d),
      match p.startDate
      case Missing => ph.startDate
      case NullField => None
      case Given(d) => if d != 0 then Some(d) else None,
      match p.endDate
      case Missing => ph.endDate
      case NullField => None
      case Given(d) => if d != 0 then Some(d) else None,
      if p.ordinal.Some? && p.ordinal.value != 0 then p.ordinal.value else ph.ordinal)
  }

  /** `updateProjectPhase`. */
  function UpdatePhaseSpec(phases: seq<Phase>, idParam: int, p: PhasePatch): (Status, seq<Phase>)
  {
    if idParam == 0 then (BadRequest, phases)
    else
      var k := PhaseIndex(phases, idParam);
      if k.None? then (NotFound, phases)
      else (Ok, phases[k.value := Patched(phases[k.value], p)])
  }

  /**
   * An update changes only the phase it finds; its name can never be
   * emptied and its ordinal never set to 0; a missing id or phase changes
   * nothing.
   */
  lemma UpdatePhaseMeaning(phases: seq<Phase>, idParam: int, p: PhasePatch)
    ensures var (status, after) := UpdatePhaseSpec(phases, idParam, p);
      |after| == |phases| &&
      (status == Ok <==> idParam != 0 && PhaseIndex(phases, idParam).Some?) &&
      (status != Ok ==> after == phases) &&
      forall j :: 0 <= j < |phases| ==>
        after[j].id == phases[j].id && after[j].project == phases[j].project &&
        (phases[j].name != "" ==> after[j].name != "") &&
        (phases[j].ordinal != 0 ==> after[j].ordinal != 0) &&
        (after[j] != phases[j] ==> status == Ok && j == PhaseIndex(phases, idParam).value)
  {
  }

  /** A patch whose ordinal is 0 keeps the phase's ordinal. */
  lemma ZeroOrdinalIgnored(ph: Phase, p: PhasePatch)
    requires p.ordinal == Some(0)
    ensures Patched(ph, p).ordinal == ph.ordinal
  {
  }

  /**
   * A present date is set only when it is truthy: a falsy one clears the
   * field like `null`, and an absent one keeps it.
   */
  lemma PatchedDates(ph: Phase, p: PhasePatch)
    ensures Patched(ph, p).startDate.Some? <==>
      (p.startDate.Missing? && ph.startDate.Some?) || (p.startDate.Given? && p.startDate.value != 0)
    ensures p.startDate.Given? && p.startDate.value != 0 ==> Patched(ph, p).startDate == Some(p.startDate.value)
    ensures p.startDate.Missing? ==> Patched(ph, p).startDate == ph.startDate
    ensures Patched(ph, p).endDate.Some? <==>
      (p.endDate.Missing? && ph.endDate.Some?) || (p.endDate.Given? && p.endDate.value != 0)
    ensures p.endDate.Given? && p.endDate.value != 0 ==> Patched(ph, p).endDate == Some(p.endDate.value)
    ensures p.endDate.Missing? ==> Patched(ph, p).endDate == ph.endDate
  {
  }

  /** The phase table. */
  class PhaseTable {
    var projects: set<int>
    var phases: seq<Phase>

    constructor (ps: set<int>, phs: seq<Phase>)
      ensures projects == ps && phases == phs
    {
      projects := ps;
      phases := phs;
    }

    /** `createProjectPhase`. */
    method Create(projectParam: int, req: NewPhase, newId: int) returns (status: Status)
      modifies this
      ensures (status, phases) == CreatePhaseSpec(projects, old(phases), projectParam, req, newId)
      ensures projects == old(projects)
    {
      if projectParam == 0 {
        return BadRequest;
      }
      if req.name == "" {
        return BadRequest;
      }
      if projectParam !in projects {
        return NotFound;
      }
      var phase := Phase(newId, projectParam, req.name, req.description, req.startDate, req.endDate, 0);
      if req.ordinal != 0 {
        phase := phase.(ordinal := req.ordinal);
      } else {
        phase := phase.(ordinal := NextOrdinal(OrdinalsWhere(phases, InProject(projectParam), PhaseOrdinal)));
      }
      phases := phases + [phase];
      return Created;
    }

    /** `reorderPhases`: the listed phases of the project take the first ordinal listed for them. */
    method Reorder(projectParam: int, list: ListField<OrderEntry>) returns (status: Status)
      modifies this
      ensures status == (if projectParam == 0 || !list.List? || !EntriesValid(list.items) then BadRequest else Ok)
      ensures status == BadRequest ==> phases == old(phases)
      ensures status == Ok ==> (|phases| == |old(phases)| &&
        forall i :: 0 <= i < |phases| ==>
          phases[i] == Reordered(old(phases)[i], PhaseId, InProject(projectParam), WithOrdinal, list.items))
      ensures projects == old(projects)
    {
      if projectParam == 0 || !list.List? {
        return BadRequest;
      }
      if !EntriesValid(list.items) {
        return BadRequest;
      }
      phases := Common.Reorder(phases, PhaseId, InProject(projectParam), WithOrdinal, list.items);
      return Ok;
    }

    /** `updateProjectPhase`. */
    method Update(idParam: int, p: PhasePatch) returns (status: Status)
      modifies this
      ensures (status, phases) == UpdatePhaseSpec(old(phases), idParam, p)
      ensures projects == old(projects)
    {
      if idParam == 0 {
        return BadRequest;
      }
      var k := PhaseIndex(phases, idParam);
      if k.None? {
        return NotFound;
      }
      var phase := phases[k.value];
      if p.name != "" {
        phase := phase.(name := p.name);
      }
      if !p.description.Missing? {
        phase := phase.(description := if p.description.Given? then Some(p.description.value) else None);
      }
      if !p.startDate.Missing? {
        phase := phase.(startDate := if p.startDate.Given? && p.startDate.value != 0 then Some(p.startDate.value) else None);
      }
      if !p.endDate.Missing? {
        phase := phase.(endDate := if p.endDate.Given? && p.endDate.value != 0 then Some(p.endDate.value) else None);
      }
      if p.ordinal.Some? && p.ordinal.value != 0 {
        phase := phase.(ordinal := p.ordinal.value);
      }
      phases := phases[k.value := phase];
      return Ok;
    }
  }
}
