/**
 * `src/service/resourceSyncService.ts`: the resource tree kept beside the
 * domain entities, one resource per (type, entity), and the folder of the
 * file tree that corresponds to each non-file resource.
 */
module ResourceSync {
  import opened Common
  import opened AuthService

  datatype FileKind = FileItem | FolderItem

  /** A row of the file tree: name, type, parent folder, archived flag and the resource it corresponds to. */
  datatype Folder = Folder(name: string, kind: FileKind, parent: Option<FileId>, archived: bool, correspondsTo: Option<ResourceId>)

  /** The two tables the service writes. */
  datatype Tables = Tables(resources: seq<Resource>, folders: map<FileId, Folder>)

  /** The first resource of type `kind` for entity `entityId`. */
  function EntityIndex(rs: seq<Resource>, kind: ResourceType, entityId: int): (k: Option<nat>)
    ensures k.Some? ==> k.value < |rs| && rs[k.value].kind == kind && rs[k.value].entityId == entityId
    ensures k.None? ==> forall j :: 0 <= j < |rs| ==> !(rs[j].kind == kind && rs[j].entityId == entityId)
  {
    FindIndex(rs, (x: Resource) => x.kind == kind && x.entityId == entityId)
  }

  /** At most one resource per (type, entity), the rule the service keeps. */
  ghost predicate OnePerEntity(rs: seq<Resource>)
  {
    forall i, j :: 0 <= i < j < |rs| && rs[i].kind == rs[j].kind ==> rs[i].entityId != rs[j].entityId
  }

  /** Resource ids are distinct. */
  ghost predicate DistinctIds(rs: seq<Resource>)
  {
    forall i, j :: 0 <= i < j < |rs| ==> rs[i].id != rs[j].id
  }

  /** `findResource`: a falsy entity id is an error; otherwise the matching resource, if any. */
  function FindEntity(rs: seq<Resource>, kind: ResourceType, entityId: int): (r: Outcome<Option<Resource>>)
    ensures r.Thrown? <==> entityId == 0
    ensures r.Done? && r.value.Some? ==> r.value.value in rs && r.value.value.kind == kind && r.value.value.entityId == entityId
    ensures r.Done? && r.value.None? ==> forall x :: x in rs ==> !(x.kind == kind && x.entityId == entityId)
  {
    if entityId == 0 then Thrown("entity Id is required!")
    else match EntityIndex(rs, kind, entityId)
      case None => Done(None)
      case Some(k) => Done(Some(rs[k]))
  }

  /** The folder `f` moved under `to`, when `f` names a folder. */
  function Reparent(folders: map<FileId, Folder>, f: Option<FileId>, to: Option<FileId>): (r: map<FileId, Folder>)
    ensures r.Keys == folders.Keys
    ensures forall x :: x in folders && f != Some(x) ==> r[x] == folders[x]
    ensures f.Some? && f.value in folders ==> r[f.value] == folders[f.value].(parent := to)
  {
    if f.Some? && f.value in folders then folders[f.value := folders[f.value].(parent := to)] else folders
  }

  /**
   * `createOrUpdateResource`: the resource of (`kind`, `entityId`) is reused
   * or created with id `newId`; a truthy parent id that names a resource
   * becomes its parent and moves its folder under that resource's folder; a
   * falsy one clears the parent. The resource is loaded without its
   * `parent` relation, so its `parent` is the entity's initial `null`: the
   * test "the parent differs" holds for every found parent, the current one
   * included, and a parent id naming nothing saves that `null`, clearing
   * the parent and leaving the folders alone.
   */
  function Upsert(t: Tables, newId: ResourceId, kind: ResourceType, entityId: int, parentId: int): Tables
  {
    var k := EntityIndex(t.resources, kind, entityId);
    var res := if k.Some? then t.resources[k.value] else Resource(newId, kind, entityId, None, None);
    var moved :=
      if parentId == 0 then Tables([res.(parent := None)], t.folders)
      else match FindResource(t.resources, parentId)
        case Some(p) => Tables([res.(parent := Some(p.id))], Reparent(t.folders, res.folder, p.folder))
        case None => Tables([res.(parent := None)], t.folders);
    Tables(if k.Some? then t.resources[k.value := moved.resources[0]] else t.resources + moved.resources, moved.folders)
  }

  /** The folder of a resource's parent, if it has a parent with a folder. */
  function ParentFolder(rs: seq<Resource>, r: Resource): Option<FileId>
  {
    if r.parent.None? then None
    else match FindResource(rs, r.parent.value)
      case None => None
      case Some(p) => p.folder
  }

  /** `save(resource)`: the row with the same id replaced, or the resource appended. */
  function SaveResource(rs: seq<Resource>, r: Resource): (out: seq<Resource>)
    ensures r in out
    ensures forall x :: x in rs && x.id != r.id ==> x in out
  {
    match FindIndex(rs, (x: Resource) => x.id == r.id)
    case Some(k) =>
      assert rs[k := r][k] == r;
      assert forall j :: 0 <= j < |rs| && j != k ==> rs[k := r][j] == rs[j];
      rs[k := r]
    case None => rs + [r]
  }

  /** The resource's folder, when it names one, is in the folder table. */
  predicate FolderLinked(t: Tables, r: Resource)
  {
    r.folder.Some? ==> r.folder.value in t.folders
  }

  /** Whether updating an existing folder changes anything. */
  predicate FolderChanges(f: Folder, name: string, parent: Option<FileId>, archived: Option<bool>)
  {
    f.name != name || f.parent != parent || (archived.Some? && f.archived != archived.value)
  }

  /**
   * `createOrUpdateCorrespondingFolder`: a FILE resource is refused; an
   * existing folder is renamed, moved under the parent resource's folder
   * and (when a value is supplied) archived, and saved only if one of
   * these changed; otherwise a new FOLDER with id `newFile` is created
   * and linked to the resource.
   */
  function SyncFolder(t: Tables, newFile: FileId, r: Resource, name: string, archived: Option<bool>): Outcome<Tables>
    requires FolderLinked(t, r)
  {
    if r.kind == FileRes then Thrown("Files cannot have corresponding folders.")
    else
      var pf := ParentFolder(t.resources, r);
      if r.folder.Some? then
        var f := t.folders[r.folder.value];
        if FolderChanges(f, name, pf, archived) then
          var g := f.(name := name, parent := pf, archived := if archived.Some? then archived.value else f.archived);
          Done(Tables(SaveResource(t.resources, r), t.folders[r.folder.value := g]))
        else Done(t)
      else
        var folder := Folder(name, FolderItem, pf, if archived.Some? then archived.value else false, Some(r.id));
        Done(Tables(SaveResource(t.resources, r.(folder := Some(newFile))), t.folders[newFile := folder]))
  }

  /** The resource table without row `k`. */
  function DropAt(rs: seq<Resource>, k: nat): seq<Resource>
    requires k < |rs|
  {
    rs[..k] + rs[k + 1..]
  }

  /**
   * `deleteResource`: a missing type or falsy entity id is an error; the
   * matching resource, if any, is removed.
   */
  function DeleteSpec(rs: seq<Resource>, kind: Option<ResourceType>, entityId: int): Outcome<seq<Resource>>
  {
    if kind.None? && entityId == 0 then Thrown("Nothing is provided")
    else if kind.None? then Thrown("no type provided")
    else if entityId == 0 then Thrown("no entityId provided")
    else match EntityIndex(rs, kind.value, entityId)
      case None => Done(rs)
      case Some(k) => Done(DropAt(rs, k))
  }

  /** The service over the resource and file tables. */
  class ResourceSyncService {
    var resources: seq<Resource>
    var folders: map<FileId, Folder>

    constructor (rs: seq<Resource>, fs: map<FileId, Folder>)
      ensures resources == rs && folders == fs
    {
      resources := rs;
      folders := fs;
    }

    /** `findResource`. */
    method Find(kind: ResourceType, entityId: int) returns (r: Outcome<Option<Resource>>)
      ensures r == FindEntity(resources, kind, entityId)
    {
      if entityId == 0 {
        return Thrown("entity Id is required!");
      }
      var k := EntityIndex(resources, kind, entityId);
      if k.None? {
        return Done(None);
      }
      return Done(Some(resources[k.value]));
    }

    /** `createOrUpdateResource`; `newId` is the id the database assigns to a new row. */
    method CreateOrUpdate(newId: ResourceId, kind: ResourceType, entityId: int, parentId: int) returns (res: Resource)
      modifies this
      ensures Tables(resources, folders) == Upsert(old(Tables(resources, folders)), newId, kind, entityId, parentId)
    {
      var k := EntityIndex(resources, kind, entityId);
      if k.Some? {
        res := resources[k.value];
      } else {
        res := Resource(newId, kind, entityId, None, None);
      }
      if parentId != 0 {
        var p := FindResource(resources, parentId);
        // The loaded `parent` is never fetched, so it never equals `p`.
        if p.Some? {
          res := res.(parent := Some(p.value.id));
          if res.folder.Some? && res.folder.value in folders {
            folders := folders[res.folder.value := folders[res.folder.value].(parent := p.value.folder)];
          }
        } else {
          // The unfetched `parent` is still the initial `null`, and it is saved.
          res := res.(parent := None);
        }
      } else {
        res := res.(parent := None);
      }
      if k.Some? {
        resources := resources[k.value := res];
      } else {
        resources := resources + [res];
      }
    }

    /** `createOrUpdateCorrespondingFolder`; `newFile` is the id a new folder gets. */
    method CreateOrUpdateFolder(newFile: FileId, r: Resource, name: string, archived: Option<bool>) returns (out: Outcome<Folder>)
      requires FolderLinked(Tables(resources, folders), r)
      modifies this
      ensures var spec := SyncFolder(old(Tables(resources, folders)), newFile, r, name, archived);
        out.Thrown? == spec.Thrown? &&
        (spec.Done? ==> Tables(resources, folders) == spec.value) &&
        (spec.Thrown? ==> resources == old(resources) && folders == old(folders))
    {
      if r.kind == FileRes {
        return Thrown("Files cannot have corresponding folders.");
      }
      var pf := ParentFolder(resources, r);
      if r.folder.Some? {
        var f := folders[r.folder.value];
        var hasChanged := false;
        if f.name != name {
          f := f.(name := name);
          hasChanged := true;
        }
        if f.parent != pf {
          f := f.(parent := pf);
          hasChanged := true;
        }
        if archived.Some? && f.archived != archived.value {
          f := f.(archived := archived.value);
          hasChanged := true;
        }
        if hasChanged {
          folders := folders[r.folder.value := f];
          resources := SaveResource(resources, r);
        }
        return Done(f);
      }
      var folder := Folder(name, FolderItem, None, if archived.Some? then archived.value else false, Some(r.id));
      if pf.Some? {
        folder := folder.(parent := pf);
      }
      folders := folders[newFile := folder];
      resources := SaveResource(resources, r.(folder := Some(newFile)));
      return Done(folder);
    }

    /** `deleteResource`. */
    method Delete(kind: Option<ResourceType>, entityId: int) returns (out: Outcome<()>)
      modifies this
      ensures var spec := DeleteSpec(old(resources), kind, entityId);
        out.Thrown? == spec.Thrown? && resources == (if spec.Done? then spec.value else old(resources))
      ensures folders == old(folders)
    {
      if kind.None? && entityId == 0 {
        return Thrown("Nothing is provided");
      }
      if kind.None? {
        return Thrown("no type provided");
      }
      if entityId == 0 {
        return Thrown("no entityId provided");
      }
      var k := EntityIndex(resources, kind.value, entityId);
      if k.Some? {
        resources := resources[..k.value] + resources[k.value + 1..];
      }
      return Done(());
    }
  }

  // ---------------------------------------------------------------------
  // What the operations guarantee
  // ---------------------------------------------------------------------

  /**
   * The parent `createOrUpdateResource` saves on the resource of (`kind`,
   * `entityId`): the resource `parentId` names, and otherwise none, whatever
   * the parent was before.
   */
  function ExpectedParent(rs: seq<Resource>, parentId: int): Option<ResourceId>
  {
    if parentId == 0 then None
    else match FindResource(rs, parentId)
      case Some(p) => Some(p.id)
      case None => None
  }

  /**
   * `createOrUpdateResource` keeps one resource per (type, entity): the
   * entity's resource afterwards is the one it had (or a new one with id
   * `newId`) with the expected parent, and every other resource is
   * unchanged.
   */
  lemma UpsertEffect(t: Tables, newId: ResourceId, kind: ResourceType, entityId: int, parentId: int)
    requires OnePerEntity(t.resources)
    ensures var out := Upsert(t, newId, kind, entityId, parentId).resources;
      var k := EntityIndex(t.resources, kind, entityId);
      var before := if k.Some? then t.resources[k.value] else Resource(newId, kind, entityId, None, None);
      OnePerEntity(out) &&
      EntityIndex(out, kind, entityId).Some? &&
      out[EntityIndex(out, kind, entityId).value] == before.(parent := ExpectedParent(t.resources, parentId)) &&
      |out| == (if k.Some? then |t.resources| else |t.resources| + 1) &&
      (forall j :: 0 <= j < |t.resources| && Some(j) != k ==> out[j] == t.resources[j])
  {
    var rs := t.resources;
    var out := Upsert(t, newId, kind, entityId, parentId).resources;
    var k := EntityIndex(rs, kind, entityId);
    var idx := if k.Some? then k.value else |rs|;
    UpsertRow(t, newId, kind, entityId, parentId);
    if k.Some? {
      ReplaceKeepsOnePerEntity(rs, k.value, out[idx]);
    } else {
      AppendKeepsOnePerEntity(rs, out[idx]);
    }
    assert EntityIndex(out, kind, entityId) == Some(idx);
  }

  /** The resources after `Upsert`: the entity's row, with its expected parent, rewritten in place or appended. */
  lemma UpsertRow(t: Tables, newId: ResourceId, kind: ResourceType, entityId: int, parentId: int)
    ensures var k := EntityIndex(t.resources, kind, entityId);
      var before := if k.Some? then t.resources[k.value] else Resource(newId, kind, entityId, None, None);
      var row := before.(parent := ExpectedParent(t.resources, parentId));
      Upsert(t, newId, kind, entityId, parentId).resources ==
        if k.Some? then t.resources[k.value := row] else t.resources + [row]
  {
  }

  /**
   * A truthy parent id that names no resource clears the parent the entity's
   * resource had, since the unfetched `null` is what is saved, and moves no
   * folder.
   */
  lemma UnresolvedParentCleared(t: Tables, newId: ResourceId, kind: ResourceType, entityId: int, parentId: int)
    requires OnePerEntity(t.resources)
    requires parentId != 0 && FindResource(t.resources, parentId).None?
    ensures var out := Upsert(t, newId, kind, entityId, parentId);
      EntityIndex(out.resources, kind, entityId).Some? &&
      out.resources[EntityIndex(out.resources, kind, entityId).value].parent.None? &&
      out.folders == t.folders
  {
    UpsertEffect(t, newId, kind, entityId, parentId);
  }

  /** Rewriting a resource in place, keeping its type and entity, keeps one resource per entity. */
  lemma ReplaceKeepsOnePerEntity(rs: seq<Resource>, k: nat, x: Resource)
    requires OnePerEntity(rs) && k < |rs| && x.kind == rs[k].kind && x.entityId == rs[k].entityId
    ensures OnePerEntity(rs[k := x])
  {
    var out := rs[k := x];
    forall i, j | 0 <= i < j < |out| && out[i].kind == out[j].kind
      ensures out[i].entityId != out[j].entityId
    {
      assert out[i].kind == rs[i].kind && out[i].entityId == rs[i].entityId;
      assert out[j].kind == rs[j].kind && out[j].entityId == rs[j].entityId;
    }
  }

  /** Appending a resource for an entity that has none keeps one resource per entity. */
  lemma AppendKeepsOnePerEntity(rs: seq<Resource>, x: Resource)
    requires OnePerEntity(rs) && EntityIndex(rs, x.kind, x.entityId).None?
    ensures OnePerEntity(rs + [x])
  {
    var out := rs + [x];
    forall i, j | 0 <= i < j < |out| && out[i].kind == out[j].kind
      ensures out[i].entityId != out[j].entityId
    {
      if j == |rs| {
        assert out[i] == rs[i];
      } else {
        assert out[i] == rs[i] && out[j] == rs[j];
      }
    }
  }

  /** A new resource or a re-used one: `findResource` finds it afterwards. */
  lemma UpsertThenFind(t: Tables, newId: ResourceId, kind: ResourceType, entityId: int, parentId: int)
    requires OnePerEntity(t.resources) && entityId != 0
    ensures FindEntity(Upsert(t, newId, kind, entityId, parentId).resources, kind, entityId).value.Some?
  {
    UpsertEffect(t, newId, kind, entityId, parentId);
  }

  /**
   * With a truthy parent id naming a resource, the entity's folder moves
   * under that resource's folder, or to the root when it has none, even
   * when the resource already had that parent; no other folder changes,
   * and without such a parent no folder changes at all.
   */
  lemma UpsertMovesFolder(t: Tables, newId: ResourceId, kind: ResourceType, entityId: int, parentId: int)
    ensures var k := EntityIndex(t.resources, kind, entityId);
      var before := if k.Some? then t.resources[k.value] else Resource(newId, kind, entityId, None, None);
      var p := FindResource(t.resources, parentId);
      var out := Upsert(t, newId, kind, entityId, parentId).folders;
      out.Keys == t.folders.Keys &&
      (forall x :: x in t.folders && before.folder != Some(x) ==> out[x] == t.folders[x]) &&
      (parentId != 0 && p.Some? && before.folder.Some? && before.folder.value in t.folders ==>
        out[before.folder.value].parent == p.value.folder) &&
      (!(parentId != 0 && p.Some?) ==> out == t.folders)
  {
  }

  /**
   * A call naming the parent a resource already has still rewrites its
   * folder's parent: a folder moved elsewhere in the file tree is put back
   * under the parent resource's folder.
   */
  lemma SameParentStillMovesFolder(t: Tables, newId: ResourceId, kind: ResourceType, entityId: int, parentId: int)
    requires OnePerEntity(t.resources)
    requires EntityIndex(t.resources, kind, entityId).Some?
    requires var before := t.resources[EntityIndex(t.resources, kind, entityId).value];
      parentId != 0 && FindResource(t.resources, parentId).Some? &&
      before.parent == Some(FindResource(t.resources, parentId).value.id) &&
      before.folder.Some? && before.folder.value in t.folders &&
      t.folders[before.folder.value].parent != FindResource(t.resources, parentId).value.folder
    ensures Upsert(t, newId, kind, entityId, parentId).folders != t.folders
  {
    var before := t.resources[EntityIndex(t.resources, kind, entityId).value];
    UpsertMovesFolder(t, newId, kind, entityId, parentId);
    assert Upsert(t, newId, kind, entityId, parentId).folders[before.folder.value] != t.folders[before.folder.value];
  }

  /** `SaveResource` on a table with distinct ids puts the resource in place of its row. */
  lemma SaveKeepsDistinct(rs: seq<Resource>, r: Resource)
    requires DistinctIds(rs)
    ensures DistinctIds(SaveResource(rs, r))
    ensures forall x :: x in SaveResource(rs, r) ==> x == r || (x in rs && x.id != r.id)
  {
    var out := SaveResource(rs, r);
    match FindIndex(rs, (x: Resource) => x.id == r.id)
    case Some(k) =>
      assert forall j :: 0 <= j < |rs| && j != k ==> out[j] == rs[j];
      assert forall x :: x in out ==> x == r || (x in rs && x.id != r.id);
    case None =>
      assert forall j :: 0 <= j < |rs| ==> out[j] == rs[j];
  }

  /**
   * The folder of a resource after `createOrUpdateCorrespondingFolder`: it
   * has the requested name, sits under the parent resource's folder and
   * corresponds to that resource; archived is the supplied value, else the
   * old one (false for a new folder).
   */
  lemma SyncFolderEffect(t: Tables, newFile: FileId, r: Resource, name: string, archived: Option<bool>)
    requires FolderLinked(t, r) && r.kind != FileRes
    requires r.folder.None? ==> newFile !in t.folders
    requires r.folder.Some? ==> t.folders[r.folder.value].correspondsTo == Some(r.id)
    ensures var out := SyncFolder(t, newFile, r, name, archived);
      var id := if r.folder.Some? then r.folder.value else newFile;
      out.Done? && id in out.value.folders &&
      out.value.folders[id].name == name &&
      out.value.folders[id].parent == ParentFolder(t.resources, r) &&
      out.value.folders[id].correspondsTo == Some(r.id) &&
      out.value.folders[id].archived == (if archived.Some? then archived.value else if r.folder.Some? then t.folders[id].archived else false) &&
      (forall x :: x in t.folders && x != id ==> x in out.value.folders && out.value.folders[x] == t.folders[x]) &&
      (r.folder.None? ==> r.(folder := Some(newFile)) in out.value.resources && out.value.folders[id].kind == FolderItem)
  {
  }

  /** A folder already as requested is not saved: both tables stay as they were. */
  lemma UnchangedFolderNotSaved(t: Tables, newFile: FileId, r: Resource, name: string, archived: Option<bool>)
    requires FolderLinked(t, r) && r.kind != FileRes && r.folder.Some?
    requires !FolderChanges(t.folders[r.folder.value], name, ParentFolder(t.resources, r), archived)
    ensures SyncFolder(t, newFile, r, name, archived) == Done(t)
  {
  }

  /**
   * `deleteResource` on a table with one resource per (type, entity): the
   * entity has no resource afterwards, every other resource stays, and
   * nothing happens when it had none.
   */
  lemma DeleteEffect(rs: seq<Resource>, kind: ResourceType, entityId: int)
    requires OnePerEntity(rs) && entityId != 0
    ensures var out := DeleteSpec(rs, Some(kind), entityId);
      out.Done? && EntityIndex(out.value, kind, entityId).None? && OnePerEntity(out.value) &&
      (forall x :: x in rs && !(x.kind == kind && x.entityId == entityId) ==> x in out.value) &&
      (forall x :: x in out.value ==> x in rs) &&
      (EntityIndex(rs, kind, entityId).None? ==> out.value == rs)
  {
    match EntityIndex(rs, kind, entityId)
    case None =>
    case Some(k) =>
      RemoveAtEffect(rs, k);
      var out := DropAt(rs, k);
      forall i, j | 0 <= i < j < |out| && out[i].kind == out[j].kind
        ensures out[i].entityId != out[j].entityId
      {
        var i', j' := if i < k then i else i + 1, if j < k then j else j + 1;
        assert out[i] == rs[i'] && out[j] == rs[j'];
      }
  }

  /** `findResource` and `deleteResource` refuse what they cannot look up. */
  lemma MissingKeysRefused(rs: seq<Resource>, kind: ResourceType)
    ensures FindEntity(rs, kind, 0).Thrown?
    ensures DeleteSpec(rs, None, 0) == Thrown("Nothing is provided")
    ensures DeleteSpec(rs, Some(kind), 0) == Thrown("no entityId provided")
  {
  }
}
