/**
 * The file endpoints of `src/controller/FileController.ts`: creating a
 * file or folder, downloading, updating and deleting an item of the file
 * tree, each followed by the resource hook (`FileItemHooks`) that the save
 * or removal of the item runs.
 */
module Files {
  import opened Common
  import opened AuthService
  import opened ResourceSync
  import opened FileItemHooks

  /** `StorageType`: where a file's bytes live. */
  datatype StorageType = Local | Cloud

  /** What multer hands over for an uploaded file. */
  datatype Upload = Upload(originalName: string, size: int)

  /** A `FileItem` row. */
  datatype StoredFile = StoredFile(
    id: FileId,
    fileName: string,
    kind: FileKind,
    storage: StorageType,
    parent: Option<FileId>,
    size: Option<int>,
    filePath: Option<string>,
    fileUrl: Option<string>,
    owner: Option<UserId>,
    correspondsTo: Option<ResourceId>)

  /** `findOne({ where: { id } })` on the file table. */
  function FileIndex(files: seq<StoredFile>, id: FileId): (k: Option<nat>)
    ensures k.Some? ==> k.value < |files| && files[k.value].id == id
    ensures k.Some? ==> forall j :: 0 <= j < k.value ==> files[j].id != id
    ensures k.None? ==> forall j :: 0 <= j < |files| ==> files[j].id != id
  {
    FindIndex(files, (f: StoredFile) => f.id == id)
  }

  ghost predicate DistinctFileIds(files: seq<StoredFile>)
  {
    forall i, j :: 0 <= i < j < |files| ==> files[i].id != files[j].id
  }

  /** Every item whose parent is in the table sits under a folder. */
  ghost predicate ParentsAreFolders(files: seq<StoredFile>)
  {
    forall i, j :: 0 <= i < |files| && 0 <= j < |files| && files[i].parent == Some(files[j].id) ==>
      files[j].kind == FolderItem
  }

  /*
   * Download
   */

  /** `downloadFileById`: the item to send, or why there is none. */
  function DownloadSpec(files: seq<StoredFile>, id: FileId): (Status, Option<StoredFile>)
  {
    if id == 0 then (BadRequest, None)
    else
      var k := FileIndex(files, id);
      if k.None? then (NotFound, None)
      else if files[k.value].kind == FolderItem then (BadRequest, None)
      else (Ok, Some(files[k.value]))
  }

  /** Only an existing FILE item is ever sent; folders are refused with 400. */
  lemma DownloadMeaning(files: seq<StoredFile>, id: FileId)
    requires DistinctFileIds(files)
    ensures var (status, sent) := DownloadSpec(files, id);
      (status == Ok <==> id != 0 && exists j :: 0 <= j < |files| && files[j].id == id && files[j].kind == FileItem) &&
      (status == Ok <==> sent.Some?) &&
      (sent.Some? ==> sent.value in files && sent.value.id == id && sent.value.kind == FileItem) &&
      (status == NotFound <==> id != 0 && forall j :: 0 <= j < |files| ==> files[j].id != id)
  {
  }

  /*
   * Create
   */

  /** The body of `createFile`; falsy `ownerId`, `parentId` and `name` are `""`, 0 and `""`. */
  datatype NewFileRequest = NewFileRequest(
    fileType: EnumText<FileKind>,
    storageType: EnumText<StorageType>,
    ownerId: UserId,
    parentId: FileId,
    name: string)

  /**
   * The item `createFile` saves. `stamp` stands for `Date.now()` in the
   * stored path and `uploadedUrl` for what the storage returns.
   */
  function NewItem(req: NewFileRequest, upload: Option<Upload>, parent: Option<FileId>, newId: FileId,
                   stamp: string, uploadedUrl: string): StoredFile
    requires req.fileType.Valid? && req.storageType.Valid?
  {
    var isFile := req.fileType.value == FileItem;
    var path := if isFile && upload.Some? then Some(stamp + "-" + upload.value.originalName) else None;
    StoredFile(
      newId,
      if isFile && upload.Some? then upload.value.originalName else req.name,
      req.fileType.value,
      req.storageType.value,
      parent,
      if isFile && upload.Some? then Some(upload.value.size) else None,
      path,
      if req.storageType.value == Cloud && path.Some? then Some(uploadedUrl) else None,
      if req.ownerId != "" then Some(req.ownerId) else None,
      None)
  }

  /**
   * `createFile`: an unknown owner is 404; a FILE without data, a FOLDER
   * with data or without a name, and an invalid type or storage are 400;
   * a parent that is a FILE is 400. A `parentId` that matches no item
   * leaves the new item at the root.
   */
  function CreateFileSpec(users: set<UserId>, files: seq<StoredFile>, req: NewFileRequest, upload: Option<Upload>,
                          newId: FileId, stamp: string, uploadedUrl: string): (Status, seq<StoredFile>)
  {
    if req.ownerId != "" && req.ownerId !in users then (NotFound, files)
    else if req.fileType == Valid(FileItem) && upload.None? then (BadRequest, files)
    else if req.fileType == Valid(FolderItem) && upload.Some? then (BadRequest, files)
    else if req.fileType == Valid(FolderItem) && req.name == "" then (BadRequest, files)
    else if !req.fileType.Valid? || !req.storageType.Valid? then (BadRequest, files)
    else
      var p := if req.parentId != 0 then FileIndex(files, req.parentId) else None;
      if p.Some? && files[p.value].kind == FileItem then (BadRequest, files)
      else
        var parent := if p.Some? then Some(req.parentId) else None;
        (Created, files + [NewItem(req, upload, parent, newId, stamp, uploadedUrl)])
  }

  /** The conditions under which `createFile` saves an item. */
  predicate CreateAccepted(users: set<UserId>, files: seq<StoredFile>, req: NewFileRequest, upload: Option<Upload>)
  {
    (req.ownerId == "" || req.ownerId in users) &&
    req.fileType.Valid? && req.storageType.Valid? &&
    (req.fileType.value == FileItem ==> upload.Some?) &&
    (req.fileType.value == FolderItem ==> upload.None? && req.name != "") &&
    (req.parentId != 0 ==> forall j :: 0 <= j < |files| && files[j].id == req.parentId ==> files[j].kind == FolderItem)
  }

  /**
   * An item is created exactly when the request is accepted. A FILE gets
   * the upload's name, size and a path; a FOLDER gets the given name and
   * neither; only CLOUD items get a URL; the parent is a folder or none.
   */
  lemma CreateFileMeaning(users: set<UserId>, files: seq<StoredFile>, req: NewFileRequest, upload: Option<Upload>,
                          newId: FileId, stamp: string, uploadedUrl: string)
    requires DistinctFileIds(files)
    ensures var (status, after) := CreateFileSpec(users, files, req, upload, newId, stamp, uploadedUrl);
      (status == Created <==> CreateAccepted(users, files, req, upload)) &&
      (status != Created ==> after == files) &&
      (status == Created ==>
        |after| == |files| + 1 && after[..|files|] == files &&
        var item := after[|files|];
        item.id == newId && item.correspondsTo.None? &&
        (item.kind == FileItem ==>
          item.fileName == upload.value.originalName && item.size == Some(upload.value.size) && item.filePath.Some?) &&
        (item.kind == FolderItem ==> item.fileName == req.name && item.size.None? && item.filePath.None?) &&
        (item.fileUrl.Some? ==> item.storage == Cloud && item.kind == FileItem) &&
        (item.parent.Some? ==>
          (item.parent == Some(req.parentId) &&
           forall j :: 0 <= j < |files| && files[j].id == req.parentId ==> files[j].kind == FolderItem)) &&
        (item.owner.Some? <==> req.ownerId != ""))
  {
    var (status, after) := CreateFileSpec(users, files, req, upload, newId, stamp, uploadedUrl);
    if status == Created {
      assert after[..|files|] == files;
    }
  }

  /**
   * Creating an item with an id no row uses or points to keeps ids
   * distinct and every parent a folder.
   */
  lemma CreateKeepsTree(users: set<UserId>, files: seq<StoredFile>, req: NewFileRequest, upload: Option<Upload>,
                        newId: FileId, stamp: string, uploadedUrl: string)
    requires DistinctFileIds(files) && ParentsAreFolders(files)
    requires forall j :: 0 <= j < |files| ==> files[j].id != newId && files[j].parent != Some(newId)
    ensures var after := CreateFileSpec(users, files, req, upload, newId, stamp, uploadedUrl).1;
      DistinctFileIds(after) && ParentsAreFolders(after)
  {
    CreateFileMeaning(users, files, req, upload, newId, stamp, uploadedUrl);
  }

  /*
   * Update
   */

  /** The body of `updateFile`. */
  datatype FilePatch = FilePatch(fileName: Field<string>, ownerId: Field<UserId>, parentId: Field<FileId>)

  /**
   * The item after a patch: a truthy name is written; an owner or parent
   * that is present is looked up and set, to `null` when the lookup finds
   * nothing.
   */
  function PatchedFile(users: set<UserId>, files: seq<StoredFile>, f: StoredFile, p: FilePatch): (r: StoredFile)
    ensures r.(fileName := f.fileName, owner := f.owner, parent := f.parent) == f
  {
    f.(
      fileName := if p.fileName.Given? && p.fileName.value != "" then p.fileName.value else f.fileName,
      owner := match p.ownerId
        case Missing => f.owner
        case NullField => None
        case Given(u) => if u != "" && u in users then Some(u) else None,
      parent := match p.parentId
        case Missing => f.parent
        case NullField => None
        case Given(q) => if FileIndex(files, q).Some? then Some(q) else None)
  }

  /** `updateFile`. */
  function UpdateFileSpec(users: set<UserId>, files: seq<StoredFile>, id: FileId, p: FilePatch): (Status, seq<StoredFile>)
  {
    if id == 0 then (BadRequest, files)
    else if p.fileName.Missing? && p.ownerId.Missing? && p.parentId.Missing? then (BadRequest, files)
    else
      var k := FileIndex(files, id);
      if k.None? then (NotFound, files)
      else if files[k.value].correspondsTo.Some? then (BadRequest, files)
      else (Ok, files[k.value := PatchedFile(users, files, files[k.value], p)])
  }

  /**
   * An update needs some field and refuses corresponding folders; it
   * changes only the item it finds, and only its name, owner and parent.
   */
  lemma UpdateFileMeaning(users: set<UserId>, files: seq<StoredFile>, id: FileId, p: FilePatch)
    ensures var (status, after) := UpdateFileSpec(users, files, id, p);
      |after| == |files| &&
      (status == Ok <==>
        id != 0 && !(p.fileName.Missing? && p.ownerId.Missing? && p.parentId.Missing?) &&
        FileIndex(files, id).Some? && files[FileIndex(files, id).value].correspondsTo.None?) &&
      (status != Ok ==> after == files) &&
      forall j :: 0 <= j < |files| ==>
        after[j].(fileName := files[j].fileName, owner := files[j].owner, parent := files[j].parent) == files[j] &&
        (after[j] != files[j] ==> status == Ok && j == FileIndex(files, id).value && files[j].correspondsTo.None?) &&
        (after[j].parent.Some? && after[j].parent != files[j].parent ==>
          exists m :: 0 <= m < |files| && files[m].id == after[j].parent.value)
  {
  }

  /**
   * The new parent is not checked: any existing item, a FILE or the item
   * itself included, becomes the parent of an updatable item.
   */
  lemma UpdateParentUnchecked(users: set<UserId>, files: seq<StoredFile>, id: FileId, q: FileId, j: nat)
    requires id != 0 && FileIndex(files, id).Some? && files[FileIndex(files, id).value].correspondsTo.None?
    requires j < |files| && files[j].id == q
    ensures var (status, after) := UpdateFileSpec(users, files, id, FilePatch(Missing, Missing, Given(q)));
      status == Ok && after[FileIndex(files, id).value].parent == Some(q)
  {
  }

  /** A FILE placed under another FILE: the update breaks `ParentsAreFolders`. */
  lemma UpdateCanNestUnderFile()
    ensures var before := [SampleFile(1), SampleFile(2)];
      var after := UpdateFileSpec({}, before, 1, FilePatch(Missing, Missing, Given(2))).1;
      ParentsAreFolders(before) && !ParentsAreFolders(after)
  {
    var before := [SampleFile(1), SampleFile(2)];
    UpdateParentUnchecked({}, before, 1, 2, 1);
    var after := UpdateFileSpec({}, before, 1, FilePatch(Missing, Missing, Given(2))).1;
    assert after[0].parent == Some(after[1].id) && after[1].kind == FileItem;
  }

  /** A root FILE item with the given id. */
  function SampleFile(id: FileId): StoredFile
  {
    StoredFile(id, "a.txt", FileItem, Local, None, Some(1), Some("0-a.txt"), None, None, None)
  }

  /*
   * Delete
   */

  /** `deleteFile`; the database's cascade to the item's subtree is not modelled. */
  function DeleteFileSpec(files: seq<StoredFile>, id: FileId): (Status, seq<StoredFile>)
  {
    if id == 0 then (BadRequest, files)
    else
      var k := FileIndex(files, id);
      if k.None? then (NotFound, files)
      else if files[k.value].correspondsTo.Some? then (BadRequest, files)
      else (Ok, files[..k.value] + files[k.value + 1..])
  }

  /**
   * A delete removes exactly the item found, and never a folder that
   * corresponds to a resource.
   */
  lemma DeleteFileMeaning(files: seq<StoredFile>, id: FileId)
    ensures var (status, after) := DeleteFileSpec(files, id);
      (status == Ok <==> id != 0 && FileIndex(files, id).Some? && files[FileIndex(files, id).value].correspondsTo.None?) &&
      (status != Ok ==> after == files) &&
      (status == Ok ==>
        (|after| == |files| - 1 &&
         multiset(after) + multiset{files[FileIndex(files, id).value]} == multiset(files))) &&
      forall f :: f in files && f.correspondsTo.Some? ==> f in after
  {
    var (status, after) := DeleteFileSpec(files, id);
    if status == Ok {
      RemoveAtEffect(files, FileIndex(files, id).value);
    }
  }

  /*
   * The resource hooks around the saves
   */

  /** The corresponding resource of the item `parent` names, when it is in the table. */
  function ParentCorresponds(files: seq<StoredFile>, parent: Option<FileId>): Option<ResourceId>
  {
    if parent.None? then None
    else match FileIndex(files, parent.value)
      case None => None
      case Some(m) => files[m].correspondsTo
  }

  /**
   * What the save hook sees of a saved item: its children are never loaded,
   * and its parent carries its corresponding resource only when the handler
   * loaded the parent with that relation.
   */
  function HookItem(f: StoredFile, parentCorresponds: Option<ResourceId>): Item
  {
    Item(f.id, f.kind, 0, f.filePath.Some? && f.filePath.value != "", f.correspondsTo,
         if f.parent.Some? then Some(ParentItem(f.parent.value, parentCorresponds)) else None)
  }

  /**
   * `createFile` with the insert hook; `newResource` is the id a new
   * resource gets. A hook error answers 500 and leaves both tables as they
   * were.
   */
  function CreateFileSaved(users: set<UserId>, files: seq<StoredFile>, t: Tables, req: NewFileRequest, upload: Option<Upload>,
                           newId: FileId, stamp: string, uploadedUrl: string, newResource: ResourceId): (Status, seq<StoredFile>, Tables)
  {
    var (status, after) := CreateFileSpec(users, files, req, upload, newId, stamp, uploadedUrl);
    if status != Created then (status, after, t)
    else
      var item := NewItem(req, upload, after[|after| - 1].parent, newId, stamp, uploadedUrl);
      match AfterSave(t, newResource, HookItem(item, ParentCorresponds(files, item.parent)))
      case Thrown(_) => (ServerError, files, t)
      case Done(t') => (Created, after, t')
  }

  /**
   * The parent the update loads: a given parent id is loaded with its
   * corresponding resource; an untouched parent comes from the item's
   * `parent` relation, which does not carry that resource.
   */
  function LoadedParentCorresponds(files: seq<StoredFile>, f: StoredFile, p: FilePatch): Option<ResourceId>
  {
    if p.parentId.Given? then ParentCorresponds(files, f.parent) else None
  }

  /**
   * `updateFile` with the update hook: the item's FILE resource follows the
   * item to its parent's resource. A hook error answers 500 and leaves both
   * tables as they were.
   */
  function UpdateFileSaved(users: set<UserId>, files: seq<StoredFile>, t: Tables, id: FileId, p: FilePatch,
                           newResource: ResourceId): (Status, seq<StoredFile>, Tables)
  {
    var (status, after) := UpdateFileSpec(users, files, id, p);
    if status != Ok then (status, after, t)
    else
      var f := after[FileIndex(files, id).value];
      match AfterSave(t, newResource, HookItem(f, LoadedParentCorresponds(files, f, p)))
      case Thrown(_) => (ServerError, files, t)
      case Done(t') => (Ok, after, t')
  }

  /**
   * `deleteFile` with the removal hook: the item's FILE resource goes too.
   * Storage deletion is not modelled.
   */
  function DeleteFileSaved(files: seq<StoredFile>, t: Tables, id: FileId): (Status, seq<StoredFile>, Tables)
  {
    var (status, after) := DeleteFileSpec(files, id);
    if status != Ok then (status, after, t)
    else
      var f := files[FileIndex(files, id).value];
      match DeleteHook(t.resources, HookItem(f, None))
      case Thrown(_) => (ServerError, files, t)
      case Done((rs, _)) => (Ok, after, Tables(rs, t.folders))
  }

  /**
   * The insert hook never fails after an accepted `createFile`: the answer
   * is 201 exactly when the request is accepted, and the file table is the
   * one `CreateFileSpec` gives.
   */
  lemma CreateHookNeverFails(users: set<UserId>, files: seq<StoredFile>, t: Tables, req: NewFileRequest, upload: Option<Upload>,
                             newId: FileId, stamp: string, uploadedUrl: string, newResource: ResourceId)
    requires DistinctFileIds(files)
    ensures var (status, after, _) := CreateFileSaved(users, files, t, req, upload, newId, stamp, uploadedUrl, newResource);
      (status == Created <==> CreateAccepted(users, files, req, upload)) &&
      (status, after) == CreateFileSpec(users, files, req, upload, newId, stamp, uploadedUrl)
  {
    CreateFileMeaning(users, files, req, upload, newId, stamp, uploadedUrl);
    var (status, after) := CreateFileSpec(users, files, req, upload, newId, stamp, uploadedUrl);
    if status == Created {
      var item := NewItem(req, upload, after[|after| - 1].parent, newId, stamp, uploadedUrl);
      if item.kind == FileItem {
        var path := stamp + "-" + upload.value.originalName;
        assert path[|stamp|] == '-';
      }
      assert item.parent.Some? ==> item.parent.value != 0;
    }
  }

  /**
   * A delete that succeeds also removes the item's FILE resource and keeps
   * every other resource and every folder; a refused one changes nothing.
   */
  lemma DeleteRemovesFileResource(files: seq<StoredFile>, t: Tables, id: FileId)
    requires OnePerEntity(t.resources)
    ensures var (status, after, t') := DeleteFileSaved(files, t, id);
      (status, after) == DeleteFileSpec(files, id) &&
      (status != Ok ==> t' == t) &&
      (status == Ok ==>
        EntityIndex(t'.resources, FileRes, id).None? && t'.folders == t.folders &&
        forall x :: x in t.resources && !(x.kind == FileRes && x.entityId == id) ==> x in t'.resources)
  {
    var (status, after) := DeleteFileSpec(files, id);
    if status == Ok {
      DeleteHookRemovesResource(t.resources, HookItem(files[FileIndex(files, id).value], None));
    }
  }

  /**
   * An update that moves an item under a folder or FILE `q` also moves the
   * item's FILE resource: under `q`'s corresponding resource when it has
   * one, else under `q`'s own FILE resource. A FILE parent that has one is
   * used like any other.
   */
  lemma UpdateMovesFileResource(users: set<UserId>, files: seq<StoredFile>, t: Tables, id: FileId, q: FileId,
                                newResource: ResourceId, under: ResourceId)
    requires OnePerEntity(t.resources)
    requires id != 0 && FileIndex(files, id).Some?
    requires var f := files[FileIndex(files, id).value];
      f.correspondsTo.None? && (f.kind == FileItem ==> f.filePath.Some? && f.filePath.value != "")
    requires FileIndex(files, q).Some?
    requires var m := files[FileIndex(files, q).value];
      if m.correspondsTo.Some? then m.correspondsTo.value == under && FindResource(t.resources, under).Some?
      else FindEntity(t.resources, FileRes, q).Done? && FindEntity(t.resources, FileRes, q).value.Some? &&
           FindEntity(t.resources, FileRes, q).value.value.id == under
    requires under != 0
    ensures var (status, after, t') := UpdateFileSaved(users, files, t, id, FilePatch(Missing, Missing, Given(q)), newResource);
      status == Ok && after[FileIndex(files, id).value].parent == Some(q) &&
      OnePerEntity(t'.resources) && EntityIndex(t'.resources, FileRes, id).Some? &&
      t'.resources[EntityIndex(t'.resources, FileRes, id).value].parent == Some(under)
  {
    var p := FilePatch(Missing, Missing, Given(q));
    UpdateParentUnchecked(users, files, id, q, FileIndex(files, q).value);
    var after := UpdateFileSpec(users, files, id, p).1;
    var f := after[FileIndex(files, id).value];
    var m := files[FileIndex(files, q).value];
    var item := HookItem(f, LoadedParentCorresponds(files, f, p));
    assert item.parent == Some(ParentItem(q, m.correspondsTo));
    if m.correspondsTo.Some? {
      InsertPlacesUnderParentResource(t, newResource, item, under);
    } else {
      SavePlacesUnderParentFileResource(t, newResource, item, FindEntity(t.resources, FileRes, q).value.value);
    }
  }

  /** The file table and the resource tables the hooks write. */
  class FileStore {
    var users: set<UserId>
    var files: seq<StoredFile>
    var tables: Tables

    constructor (us: set<UserId>, fs: seq<StoredFile>, t: Tables)
      ensures users == us && files == fs && tables == t
    {
      users := us;
      files := fs;
      tables := t;
    }

    /** `downloadFileById`; the bytes come from the item's storage and are not modelled. */
    method Download(id: FileId) returns (status: Status, sent: Option<StoredFile>)
      ensures (status, sent) == DownloadSpec(files, id)
    {
      if id == 0 {
        return BadRequest, None;
      }
      var k := FileIndex(files, id);
      if k.None? {
        return NotFound, None;
      }
      if files[k.value].kind == FolderItem {
        return BadRequest, None;
      }
      return Ok, Some(files[k.value]);
    }

    /** `createFile`, then the insert hook. */
    method Create(req: NewFileRequest, upload: Option<Upload>, newId: FileId, stamp: string, uploadedUrl: string,
                  newResource: ResourceId)
      returns (status: Status)
      modifies this
      ensures (status, files, tables) ==
        CreateFileSaved(users, old(files), old(tables), req, upload, newId, stamp, uploadedUrl, newResource)
      ensures users == old(users)
    {
      if req.ownerId != "" && req.ownerId !in users {
        return NotFound;
      }
      if req.fileType == Valid(FileItem) && upload.None? {
        return BadRequest;
      }
      if req.fileType == Valid(FolderItem) && upload.Some? {
        return BadRequest;
      }
      if req.fileType == Valid(FolderItem) && req.name == "" {
        return BadRequest;
      }
      if !req.fileType.Valid? || !req.storageType.Valid? {
        return BadRequest;
      }
      var p: Option<nat> := None;
      if req.parentId != 0 {
        p := FileIndex(files, req.parentId);
      }
      if p.Some? && files[p.value].kind == FileItem {
        return BadRequest;
      }
      var parent := if p.Some? then Some(req.parentId) else None;
      var item := NewItem(req, upload, parent, newId, stamp, uploadedUrl);
      var hooked := AfterSave(tables, newResource, HookItem(item, ParentCorresponds(files, parent)));
      if hooked.Thrown? {
        return ServerError;
      }
      files := files + [item];
      tables := hooked.value;
      return Created;
    }

    /** `updateFile`, then the update hook. */
    method Update(id: FileId, p: FilePatch, newResource: ResourceId) returns (status: Status)
      modifies this
      ensures (status, files, tables) == UpdateFileSaved(users, old(files), old(tables), id, p, newResource)
      ensures users == old(users)
    {
      if id == 0 {
        return BadRequest;
      }
      if p.fileName.Missing? && p.ownerId.Missing? && p.parentId.Missing? {
        return BadRequest;
      }
      var k := FileIndex(files, id);
      if k.None? {
        return NotFound;
      }
      if files[k.value].correspondsTo.Some? {
        return BadRequest;
      }
      var f := PatchedFile(users, files, files[k.value], p);
      var hooked := AfterSave(tables, newResource, HookItem(f, LoadedParentCorresponds(files, f, p)));
      if hooked.Thrown? {
        return ServerError;
      }
      files := files[k.value := f];
      tables := hooked.value;
      return Ok;
    }

    /** `deleteFile`, with the removal hook. */
    method Delete(id: FileId) returns (status: Status)
      modifies this
      ensures (status, files, tables) == DeleteFileSaved(old(files), old(tables), id)
      ensures users == old(users)
    {
      if id == 0 {
        return BadRequest;
      }
      var k := FileIndex(files, id);
      if k.None? {
        return NotFound;
      }
      if files[k.value].correspondsTo.Some? {
        return BadRequest;
      }
      var hooked := DeleteHook(tables.resources, HookItem(files[k.value], None));
      if hooked.Thrown? {
        return ServerError;
      }
      files := files[..k.value] + files[k.value + 1..];
      tables := Tables(hooked.value.0, tables.folders);
      return Ok;
    }
  }
}
