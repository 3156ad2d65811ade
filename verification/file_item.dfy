/**
 * The resource hooks of `src/entity/FileItem.ts`: after a file item is
 * inserted or updated it gets a FILE resource under its parent's
 * resource; before it is removed its FILE resource is deleted.
 */
module FileItemHooks {
  import opened Common
  import opened AuthService
  import opened ResourceSync

  /** What the hook sees of an item's parent folder. */
  datatype ParentItem = ParentItem(id: FileId, correspondsTo: Option<ResourceId>)

  /** What the hooks see of a file item. */
  datatype Item = Item(
    id: FileId,
    kind: FileKind,
    childCount: nat,
    hasFilePath: bool,
    correspondsTo: Option<ResourceId>,
    parent: Option<ParentItem>)

  /** The resource the item's FILE resource goes under, before the truthiness test. */
  function ParentResourceId(rs: seq<Resource>, item: Item): (r: Outcome<Option<ResourceId>>)
    ensures item.parent.Some? && item.parent.value.correspondsTo.Some? ==> r == Done(item.parent.value.correspondsTo)
    ensures item.parent.None? ==> r == Done(None)
    ensures item.parent.Some? && item.parent.value.correspondsTo.None? ==>
      match FindEntity(rs, FileRes, item.parent.value.id)
      case Thrown(_) => r.Thrown?
      case Done(found) => r == Done(if found.Some? then Some(found.value.id) else None)
  {
    if item.parent.None? then Done(None)
    else if item.parent.value.correspondsTo.Some? then Done(item.parent.value.correspondsTo)
    else match FindEntity(rs, FileRes, item.parent.value.id)
      case Thrown(m) => Thrown(m)
      case Done(found) => Done(if found.Some? then Some(found.value.id) else None)
  }

  /**
   * `createResource`: a FILE with children or without a path is an error; a
   * folder that corresponds to a resource, or an item without a truthy
   * parent resource id, gets nothing; otherwise the parent resource id to
   * pass to `createOrUpdateResource(FILE, id, parent)`.
   */
  function CreateResourceHook(rs: seq<Resource>, item: Item): (r: Outcome<Option<ResourceId>>)
    ensures item.kind == FileItem && item.childCount > 0 ==> r == Thrown("File items cannot have children.")
    ensures item.kind == FileItem && item.childCount == 0 && !item.hasFilePath ==> r == Thrown("File items must have a file path.")
    ensures item.correspondsTo.Some? && (item.kind == FileItem ==> item.childCount == 0 && item.hasFilePath) ==> r == Done(None)
    ensures r.Done? && r.value.Some? ==>
      item.correspondsTo.None? && r.value.value != 0 && ParentResourceId(rs, item) == Done(r.value)
    ensures item.correspondsTo.None? && (item.kind == FileItem ==> item.childCount == 0 && item.hasFilePath) ==>
      var p := ParentResourceId(rs, item);
      (r.Thrown? <==> p.Thrown?) &&
      (p.Done? && p.value.Some? && p.value.value != 0 ==> r == p) &&
      (p.Done? && (p.value.None? || p.value.value == 0) ==> r == Done(None))
  {
    if item.childCount > 0 && item.kind == FileItem then Thrown("File items cannot have children.")
    else if item.kind == FileItem && !item.hasFilePath then Thrown("File items must have a file path.")
    else if item.correspondsTo.Some? then Done(None)
    else match ParentResourceId(rs, item)
      case Thrown(m) => Thrown(m)
      case Done(p) => if p.Some? && p.value != 0 then Done(p) else Done(None)
  }

  /**
   * The tables after the hook that runs when the item is inserted and when
   * it is updated; `newId` is the id a new resource gets.
   */
  function AfterSave(t: Tables, newId: ResourceId, item: Item): Outcome<Tables>
  {
    match CreateResourceHook(t.resources, item)
    case Thrown(m) => Thrown(m)
    case Done(None) => Done(t)
    case Done(Some(p)) => Done(Upsert(t, newId, FileRes, item.id, p))
  }

  /**
   * An item whose parent folder corresponds to an existing resource ends up
   * with exactly one FILE resource, under that resource.
   */
  lemma InsertPlacesUnderParentResource(t: Tables, newId: ResourceId, item: Item, p: ResourceId)
    requires OnePerEntity(t.resources)
    requires item.kind == FolderItem || (item.childCount == 0 && item.hasFilePath)
    requires item.correspondsTo.None? && item.parent.Some? && item.parent.value.correspondsTo == Some(p)
    requires p != 0 && FindResource(t.resources, p).Some?
    ensures AfterSave(t, newId, item).Done?
    ensures var out := AfterSave(t, newId, item).value.resources;
      OnePerEntity(out) && EntityIndex(out, FileRes, item.id).Some? &&
      out[EntityIndex(out, FileRes, item.id).value].parent == Some(p)
  {
    assert CreateResourceHook(t.resources, item) == Done(Some(p));
    UpsertEffect(t, newId, FileRes, item.id, p);
  }

  /**
   * An item under a plain folder or FILE that has its own FILE resource `q`
   * ends up with exactly one FILE resource, under `q`.
   */
  lemma SavePlacesUnderParentFileResource(t: Tables, newId: ResourceId, item: Item, q: Resource)
    requires OnePerEntity(t.resources)
    requires item.kind == FolderItem || (item.childCount == 0 && item.hasFilePath)
    requires item.correspondsTo.None? && item.parent.Some? && item.parent.value.correspondsTo.None?
    requires FindEntity(t.resources, FileRes, item.parent.value.id) == Done(Some(q)) && q.id != 0
    ensures AfterSave(t, newId, item).Done?
    ensures var out := AfterSave(t, newId, item).value.resources;
      OnePerEntity(out) && EntityIndex(out, FileRes, item.id).Some? &&
      out[EntityIndex(out, FileRes, item.id).value].parent == Some(q.id)
  {
    assert CreateResourceHook(t.resources, item) == Done(Some(q.id));
    assert FindResource(t.resources, q.id).Some?;
    UpsertEffect(t, newId, FileRes, item.id, q.id);
  }

  /** A folder that corresponds to a resource never gets a FILE resource of its own. */
  lemma CorrespondingFolderGetsNoResource(t: Tables, newId: ResourceId, item: Item)
    requires item.kind == FolderItem && item.correspondsTo.Some?
    ensures AfterSave(t, newId, item) == Done(t)
  {
  }

  /**
   * `deleteResource` hook: the item's FILE resource is deleted, and storage
   * deletion is attempted exactly for FILE items (its failure is swallowed,
   * so it does not appear in the result).
   */
  function DeleteHook(rs: seq<Resource>, item: Item): (r: Outcome<(seq<Resource>, bool)>)
    ensures r.Thrown? <==> item.id == 0
    ensures r.Done? ==> (r.value.1 <==> item.kind == FileItem)
    ensures r.Done? ==> r.value.0 == DeleteSpec(rs, Some(FileRes), item.id).value
  {
    match DeleteSpec(rs, Some(FileRes), item.id)
    case Thrown(m) => Thrown(m)
    case Done(out) => Done((out, item.kind == FileItem))
  }

  /** After the delete hook the item has no FILE resource and every other resource stays. */
  lemma DeleteHookRemovesResource(rs: seq<Resource>, item: Item)
    requires OnePerEntity(rs) && item.id != 0
    ensures DeleteHook(rs, item).Done?
    ensures var out := DeleteHook(rs, item).value.0;
      EntityIndex(out, FileRes, item.id).None? &&
      forall x :: x in rs && !(x.kind == FileRes && x.entityId == item.id) ==> x in out
  {
    DeleteEffect(rs, FileRes, item.id);
  }
}
