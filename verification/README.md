# Project-management backend: permissions and work-item rules in Dafny

This project models the core of a project-management backend written in
TypeScript on Express and TypeORM. Users, positions and project roles hold
permissions over a tree of resources (projects, phases, tasks, subtasks,
templates and files). The backend decides requests against those
permissions and keeps the work items consistent while they are created,
reordered, submitted and verified.

The model covers these parts:

- **The authorisation engine** (`AuthService`). It checks global grants,
  which are booleans per subject with `*` as a wildcard. It checks local
  grants, which are three-valued flags per resource. It answers the
  single-action and the batch questions exactly as the code does, including
  the parts of `hasLocalPermission` that cannot be reached. An intended
  ancestor walk is defined beside it, and lemmas show where the two differ.
- **The effective-permission listing** (`PermissionService`). This is the
  depth-first expansion of grants down the resource tree. Derived flags use
  JavaScript's `||` on nullable booleans.
- **The request guards** (`PermissionMiddleware`). This covers the walk up
  the request-body ids, the assignee and verifier shortcuts, and the
  parameter, global and combined guards.
- **The local and global grant controllers** (`LocalPermissionController`
  and `GlobalPermissionController`). Removals run before additions. Every
  entry is authorised, and a grant left empty is deleted. Both passes look
  grants up among those loaded with the target at the start of the
  request, so an addition for a grant the removals deleted does not bring
  it back.
- **Resource-tree maintenance** (`ResourceSync`) and the file hooks that
  call into it (`FileItemHooks`).
- **The work-item controllers.** These cover phases, tasks, subtasks, task
  statuses, templates, recurrence frequencies and files. They also cover
  users and their groups, project roles, password reset and removal from a
  project. Last is the recurring subtask generator, with dates abstracted to
  integers.

Handlers that mutate rows in place are classes that hold their tables as
`seq` or `map` fields, with methods that have `modifies` clauses. Each such
method is proved equal to a specification function of the old state, and
lemmas state what that function means. Lookups return `Option`, and thrown
errors are an `Outcome`. HTTP answers are a `Status`: `Ok`, `Created`,
`BadRequest`, `Forbidden`, `NotFound`, `Gone`, `ServerError`, or
`NoResponse` for a request that is never answered. Clocks,
random tokens, UUIDs and database-assigned ids are parameters.

## Model

| member | source | states |
|---|---|---|
| AuthService.CheckLocalPermission | src/service/authService.ts:364-374 | true exactly when a grant exists and its flag is true, false exactly when the flag is false, null when there is no grant or the flag is null |
| AuthService.CheckGlobalPermission | src/service/authService.ts:376-387 | true exactly when some grant of the list allows the action on the subject itself or on the wildcard `*` |
| AuthService.MapResourceTypeToSubject | src/service/authService.ts:29-45 | subtasks, tasks, phases and projects map to PROJECTS, templates to TEMPLATES and files to FILES; no resource type maps to the wildcard |
| AuthService.UserGlobalGrants | src/service/authService.ts:47-63 | an empty id gives no grants and an unknown user throws; otherwise the result holds exactly the global grants held by the user or the user's position |
| AuthService.HasGlobalPermission | src/service/authService.ts:108-123 | false for an empty id, an error for an unknown user, otherwise exactly whether some grant the user or their position holds allows the action |
| AuthService.GlobalAllowedFromGrants | src/service/authService.ts:108-123 | the check over the loaded grant list agrees with the table-level definition `GloballyAllowed` |
| AuthService.GrantsAllowIff | src/service/authService.ts:108-123 | both directions: a grant in the loaded list allows the action exactly when a grant the user holds in the table does |
| AuthService.GlobalTurn | src/service/authService.ts:237-267 | one turn of the batch loop records the global answer for the next action and leaves the other entries as the invariant says |
| AuthService.HasGlobalPermissions | src/service/authService.ts:237-267 | the loop returns a record in which each requested action holds the global answer and every other action is null; an empty id gives the all-null record |
| AuthService.GetEntityResourceId | src/service/authService.ts:125-145 | none for a falsy entity id; the resource of that type and entity when one exists; for FILE, the fallback to the resource whose corresponding folder is the entity; none otherwise |
| AuthService.SomeRoleAllows | src/service/authService.ts:210-212 | true exactly when one of the given roles has a grant on this very resource whose flag is true |
| AuthService.SomeRoleDenies | src/service/authService.ts:210-216 | true exactly when one of the roles has a grant on this resource whose flag is false |
| AuthService.HasLocalPermission | src/service/authService.ts:147-235 | false for an empty id and an error for an unknown user or resource; a global allow wins, then a position denial or a user denial refuses, and after that only a role grant on this very resource saying true grants |
| AuthService.HasLocalPermissionDecision | src/service/authService.ts:192-234 | for a known user and resource, the answer is true exactly when there is a global allow, or when neither position nor user denies and some role allows on this resource |
| AuthService.BatchDecision | src/service/authService.ts:335-347 | never null, and true exactly when a global grant, the user's grant, the position's grant or a role grant on the resource allows the action |
| AuthService.LocalPermissionsSpec | src/service/authService.ts:269-355 | an empty id returns the passed record; an unknown user or resource throws; every requested action ends non-null; an entry already set, or one not requested, is kept |
| AuthService.LocalTurn | src/service/authService.ts:335-347 | one turn of the batch loop keeps an entry already set and otherwise writes the batch decision |
| AuthService.HasLocalPermissions | src/service/authService.ts:269-355 | the loop returns exactly `LocalPermissionsSpec`: requested null entries decided, everything else kept, so the recursion to the parent is never taken |
| AuthService.FreshBatchIsBoolean | src/service/authService.ts:269-355 | starting from the all-null record, a requested action ends true exactly when a global grant, the user's grant, the position's grant or a role grant on the resource allows it, and false otherwise, whatever denials say |
| AuthService.BatchIgnoresDenial | src/service/authService.ts:335-347 | in a concrete store, the batch check grants through a user's explicit denial while the single-action check refuses |
| AuthService.ParentAction | src/service/authService.ts:224-230 | creating or deleting a child needs edit on the parent; read and edit stay as they are |
| AuthService.IntendedInheritsFromParent | src/service/authService.ts:218-234 | in the intended walk, a resource on which nothing is said takes its parent's answer for the parent action |
| AuthService.ShippedGrantImpliesIntended | src/service/authService.ts:192-234 | with no global allow and no denial on the resource, the shipped check grants only on a role allowance on that resource, and then the intended walk grants too |
| AuthService.OwnGrantDoesNotGrant | src/service/authService.ts:192-234 | a user's own grant saying true does not grant in the shipped check, but does in the intended walk |
| AuthService.ParentGrantNotInherited | src/service/authService.ts:218-234 | a role grant on the parent is never inherited by the shipped check, while the intended walk reaches it |
| Common.Or | src/service/authService.ts:341-344 | JavaScript `a \|\| b` on nullable booleans: true when either is true; otherwise the right operand, so `false \|\| null` is null and `null \|\| false` is false |
| Common.SetLocalFlag | src/controller/LocalPermissionController.ts:190-193 | the record afterwards holds the value for that action and keeps every other action |
| Common.SetGlobalFlag | src/controller/GlobalPermissionsController.ts:180-183 | the record afterwards holds the value for that action and keeps every other action |
| Common.CheckHeld | src/controller/LocalPermissionController.ts:177-183 | the loop answers true exactly when every selected action is true in the record |
| Common.NextOrdinal | src/controller/ProjectPhaseController.ts:120-123 | at least 1, above every given ordinal, and either 1 or one more than some given ordinal, which makes it `max(ordinals, 0) + 1` |
| Common.OrdinalsWhere | src/controller/ProjectPhaseController.ts:121-122 | an ordinal is listed exactly when some item in scope carries it |
| Common.DefaultOrdinal | src/controller/ProjectPhaseController.ts:120-123 | the default ordinal exceeds the ordinal of every item in scope, and is 1 for an empty scope or one more than the largest |
| Common.FirstOrdinal | src/controller/ProjectPhaseController.ts:171 | found exactly when some entry names the id, and then it is the ordinal of the first such entry |
| Common.ReorderedMeaning | src/controller/ProjectPhaseController.ts:170-176 | a reordered item differs only in its ordinal, and only when it is in scope and listed; it then takes the first listed ordinal |
| Common.Reorder | src/controller/ProjectPhaseController.ts:170-176 | the loop keeps the length and rewrites each item as `Reordered` says |
| FileItemHooks.ParentResourceId | src/entity/FileItem.ts:119-124 | the parent folder's corresponding resource when it has one, no resource without a parent, and otherwise the parent item's FILE resource |
| FileItemHooks.CreateResourceHook | src/entity/FileItem.ts:103-133 | a FILE with children or without a path is an error; a folder that corresponds to a resource, or an item with no truthy parent resource, gets nothing; for any other item the hook throws exactly when the parent lookup throws, and otherwise gives the parent resource to sync under |
| FileItemHooks.SavePlacesUnderParentFileResource | src/entity/FileItem.ts:119-131 | an item whose parent has no corresponding resource but has a FILE resource ends with its FILE resource under that one |
| FileItemHooks.InsertPlacesUnderParentResource | src/entity/FileItem.ts:103-133 | an item whose parent folder corresponds to an existing resource ends with exactly one FILE resource, under that resource |
| FileItemHooks.CorrespondingFolderGetsNoResource | src/entity/FileItem.ts:114-116 | a folder that corresponds to a resource never gets a FILE resource of its own |
| FileItemHooks.DeleteHook | src/entity/FileItem.ts:135-148 | the item's FILE resource is removed, and storage deletion is requested exactly for FILE items |
| FileItemHooks.DeleteHookRemovesResource | src/entity/FileItem.ts:136-139 | afterwards the item has no FILE resource and every other resource stays |
| Files.DownloadMeaning | src/controller/FileController.ts:67-103 | the answer is 200 exactly when an existing FILE item has the id, and only then is an item sent, that very item; a missing item is 404 |
| Files.FileStore.Download | src/controller/FileController.ts:67-103 | the answer and the item sent are those of `DownloadSpec`; the table is unchanged |
| Files.CreateFileMeaning | src/controller/FileController.ts:105-196 | an item is created exactly when the request is accepted; a FILE takes the upload's name and size and a path, a FOLDER the given name and neither; only CLOUD items get a URL; the parent is a folder or none |
| Files.FileStore.Create | src/controller/FileController.ts:105-196 | the answer, the file table and the resource tables are those of `CreateFileSaved`: the row of `CreateFileSpec`, then the save hook, with 500 when it throws |
| Files.CreateHookNeverFails | src/controller/FileController.ts:149-196 | after an accepted create the save hook does not throw: the answer is 201 exactly when the request is accepted, and the file table is that of `CreateFileSpec` |
| Files.CreateKeepsTree | src/controller/FileController.ts:149-183 | creating with an unused id keeps ids distinct and every parent a folder |
| Files.PatchedFile | src/controller/FileController.ts:236-254 | a truthy name is written; a given owner or parent is looked up and set, or set to null when not found; every other field is kept |
| Files.UpdateFileMeaning | src/controller/FileController.ts:198-269 | an update needs some field and refuses corresponding folders; it changes only the item it finds, and only its name, owner and parent |
| Files.FileStore.Update | src/controller/FileController.ts:198-269 | the answer, the file table and the resource tables are those of `UpdateFileSaved`: the row of `UpdateFileSpec`, then the `@AfterUpdate` hook, with 500 when it throws |
| Files.UpdateMovesFileResource | src/controller/FileController.ts:245-256 | moving an item under a folder or FILE also moves its FILE resource, under the new parent's corresponding resource or else under the new parent's own FILE resource |
| Files.UpdateParentUnchecked | src/controller/FileController.ts:245-254 | any existing item becomes the new parent, a FILE or the item itself included |
| Files.UpdateCanNestUnderFile | src/controller/FileController.ts:245-254 | a concrete update puts a FILE under another FILE and breaks the "parents are folders" rule |
| Files.DeleteFileMeaning | src/controller/FileController.ts:271-308 | a delete removes exactly the item found, never a folder that corresponds to a resource, and changes nothing on refusal |
| Files.FileStore.Delete | src/controller/FileController.ts:271-308 | the answer, the file table and the resource tables are those of `DeleteFileSaved`: the `@BeforeRemove` hook, then the removal of `DeleteFileSpec` |
| Files.DeleteRemovesFileResource | src/controller/FileController.ts:271-308 | a delete that succeeds leaves the item without a FILE resource and keeps every other resource and every folder; a refused one changes no table |
| GlobalPermissionController.PresentActions | src/controller/GlobalPermissionsController.ts:37-47 | an action is selected exactly when its key is present in the entry, null included |
| GlobalPermissionController.SelectedActions | src/controller/GlobalPermissionsController.ts:145-159 | an action is selected exactly when its key is neither undefined nor null |
| GlobalPermissionController.Authorise | src/controller/GlobalPermissionsController.ts:49-61 | true exactly when the caller's batch record holds true for every selected action; errors are passed on |
| GlobalPermissionController.AuthoriseMeaning | src/controller/GlobalPermissionsController.ts:49-61 | an unknown caller throws; an empty caller is refused any non-empty selection; a known caller is allowed exactly the actions one of their global grants allows |
| GlobalPermissionController.StoreValues | src/controller/GlobalPermissionsController.ts:84-97 | every present key is stored as `value === true`, so false, null and other values become false; absent keys are kept |
| GlobalPermissionController.WriteBooleans | src/controller/GlobalPermissionsController.ts:242-249 | a key whose value is a boolean takes that value; every other key is kept |
| GlobalPermissionController.ClearFlags | src/controller/GlobalPermissionsController.ts:180-183 | the selected keys are false and the others are kept |
| GlobalPermissionController.ClearTurn | src/controller/GlobalPermissionsController.ts:180-183 | one turn of the clearing loop sets the next selected key to false |
| GlobalPermissionController.ClearEntry | src/controller/GlobalPermissionsController.ts:180-183 | the clearing loop returns exactly `ClearFlags` |
| GlobalPermissionController.GrantIndex | src/controller/GlobalPermissionsController.ts:175-177 | the first row held by the grantee for the subject, or none when no row is |
| GlobalPermissionController.SubjectGrant | src/controller/GlobalPermissionsController.ts:66-69 | the flags of the grant found for the grantee and subject, or none exactly when there is no such row |
| GlobalPermissionController.AddStep | src/controller/GlobalPermissionsController.ts:230-249 | an addition never drops a row: the loaded rows are all still there (what it writes is stated by `AddStepEffect`) |
| GlobalPermissionController.RemovePhase | src/controller/GlobalPermissionsController.ts:143-197 | the removal loop either completes or stops with 403 (refused) or 500 (failed), and the set of subjects whose loaded grant was deleted only grows |
| GlobalPermissionController.RemovePhaseStep | src/controller/GlobalPermissionsController.ts:144-196 | the first entry decides as its authorisation says; an authorised entry for a subject whose loaded grant an earlier entry deleted changes no row, any other is one removal step, and a deletion records its subject |
| GlobalPermissionController.AddPhase | src/controller/GlobalPermissionsController.ts:199-253 | the addition pass either completes or stops with the endpoint's refusal (403 when assigning, 500 when editing) or 500, and keeps the set of deleted subjects it was given |
| GlobalPermissionController.AddPhaseStep | src/controller/GlobalPermissionsController.ts:201-252 | the first entry of the pass is authorised against the stored rows; an entry for a subject whose loaded grant was deleted changes no grant, any other is applied to the rows in memory |
| GlobalPermissionController.AuthoriseEntry | src/controller/GlobalPermissionsController.ts:161-173 | the batch call followed by the loop over the selected actions answers exactly `Authorise` |
| GlobalPermissionController.GlobalGrantTable.RemoveEntry | src/controller/GlobalPermissionsController.ts:175-195 | the rows afterwards are those of one removal step, and the answer says whether the grantee's grant was deleted |
| GlobalPermissionController.GlobalGrantTable.RemoveAll | src/controller/GlobalPermissionsController.ts:143-197 | the loop leaves the rows, the failure and the deleted subjects that `RemovePhase` gives |
| GlobalPermissionController.GlobalGrantTable.AddAll | src/controller/GlobalPermissionsController.ts:36-103 | the rows are saved only when every entry passes, and are then those of `AddPhase`, in which an entry for a subject whose loaded grant the removals deleted writes no grant; otherwise nothing changes |
| GlobalPermissionController.GlobalGrantTable.Assign | src/controller/GlobalPermissionsController.ts:13-116 | the answer and the rows are those of the assigning endpoints' specification |
| GlobalPermissionController.GlobalGrantTable.Update | src/controller/GlobalPermissionsController.ts:118-267 | the answer and the rows are those of the editing endpoints' specification: the removal loop, then the additions, which look grants up among the rows loaded with the target, so a grant the removals deleted is not re-created (`DeletedGrantStaysDeleted`) |
| GlobalPermissionController.IndexOfUnique | src/controller/GlobalPermissionsController.ts:175-177 | with one row per grantee and subject, the lookup returns that row |
| GlobalPermissionController.DropRowUnique | src/controller/GlobalPermissionsController.ts:185-191 | dropping a row keeps one row per key and leaves none for the dropped row's key |
| GlobalPermissionController.RemoveStepEffect | src/controller/GlobalPermissionsController.ts:175-195 | no grant means no change; otherwise the selected keys are false afterwards, and a grant left all-false is gone |
| GlobalPermissionController.AddStepEffect | src/controller/GlobalPermissionsController.ts:230-249 | afterwards the grantee's grant for the subject is the old one, or a new all-false one, with the entry's values written |
| GlobalPermissionController.RepeatedAddDuplicates | src/controller/GlobalPermissionsController.ts:230-239 | two entries for a subject the grantee holds no grant for create two rows |
| GlobalPermissionController.RemoveStepKeepsOthers | src/controller/GlobalPermissionsController.ts:175-195 | a removal step changes no row of another grantee |
| GlobalPermissionController.AddStepKeepsOthers | src/controller/GlobalPermissionsController.ts:230-249 | an addition step changes no row of another grantee |
| GlobalPermissionController.RemovePhaseKeepsOthers | src/controller/GlobalPermissionsController.ts:143-197 | the removal pass changes no row of another grantee |
| GlobalPermissionController.AddPhaseKeepsOthers | src/controller/GlobalPermissionsController.ts:199-253 | the addition pass changes no row of another grantee |
| GlobalPermissionController.RequestsKeepOtherGrantees | src/controller/GlobalPermissionsController.ts:13-267 | neither kind of endpoint changes the grants of anyone but the target |
| GlobalPermissionController.NoGrantSurvives | src/controller/GlobalPermissionsController.ts:175-177 | a table that gains no row of the grantee for a subject keeps having no grant for it |
| GlobalPermissionController.RemoveStepKeepsSubjects | src/controller/GlobalPermissionsController.ts:175-195 | a removal step changes no row for another subject |
| GlobalPermissionController.RemoveStepClearsGone | src/controller/GlobalPermissionsController.ts:175-195 | a removal step keeps one row per grantee and subject, and leaves no grant for any deleted subject, including the one it deletes |
| GlobalPermissionController.RemovePhaseClearsGone | src/controller/GlobalPermissionsController.ts:143-197 | the removal pass keeps one row per grantee and subject, and the grantee has no grant for any subject it records as deleted |
| GlobalPermissionController.AddStepKeepsSubjects | src/controller/GlobalPermissionsController.ts:230-249 | an addition step changes no row for another subject |
| GlobalPermissionController.AddPhaseSkipsGone | src/controller/GlobalPermissionsController.ts:230-252 | the addition pass adds or changes no row for a subject whose loaded grant the removals deleted |
| GlobalPermissionController.DeletedGrantStaysDeleted | src/controller/GlobalPermissionsController.ts:175-255 | after a successful edit the target has no grant for a subject whose grant its removals deleted, whatever its additions say |
| GlobalPermissionController.ReAddAfterDelete | src/controller/GlobalPermissionsController.ts:175-257 | removing every key of a user's grant and granting on the same subject in one request answers 200 and leaves no grant for it |
| GlobalPermissionController.AddPhaseStops | src/controller/GlobalPermissionsController.ts:222-227 | an entry the caller may not make stops the addition pass with a failure |
| GlobalPermissionController.AddPhaseCompletes | src/controller/GlobalPermissionsController.ts:199-255 | when every entry is authorised, the pass completes without failure |
| GlobalPermissionController.AssignAllOrNothing | src/controller/GlobalPermissionsController.ts:36-107 | the assigning endpoints answer 200 exactly when the caller holds every present key of every entry; otherwise 403 or 500 with no grant written |
| GlobalPermissionController.RefusedEditIsServerError | src/controller/GlobalPermissionsController.ts:222-265 | in the editing endpoints a refused addition answers 500, not 403, and leaves the rows as the removals left them |
| GlobalPermissionController.AssignedKeyAllows | src/controller/GlobalPermissionsController.ts:64-103 | an assignment that sets a key to true for a user makes the engine allow that action on that subject for the user |
| GlobalPermissionController.RemovedKeyRevoked | src/controller/GlobalPermissionsController.ts:175-195 | an authorised removal leaves the target without each selected action on that subject |
| PermissionService.Children | src/service/permissionService.ts:212-220 | a row is a child exactly when its parent is the given resource |
| PermissionService.ChildEntry | src/service/permissionService.ts:221-229 | the child's own id, entity and type; create and edit equal the parent's edit; read is `parentRead \|\| parentEdit` and delete `parentDelete \|\| parentEdit`: true when the parent's own flag is true, and the parent's edit (true, false or null) otherwise; a parent with edit gives all four true |
| PermissionService.ExpandVisitsSubtree | src/service/permissionService.ts:208-233 | the expansion of one starting entry lists exactly the subtree of its resource, in depth-first preorder, one entry per resource |
| PermissionService.ExpandChildrenVisitSubtrees | src/service/permissionService.ts:220-231 | the expansion of a list of children lists their subtrees one after another |
| PermissionService.ExpandShape | src/service/permissionService.ts:208-233 | the expansion starts with the starting entry when its resource exists; every later entry is derived from a row, has create equal to edit, and is all true when the start grants edit |
| PermissionService.ExpandChildrenShape | src/service/permissionService.ts:220-231 | every entry of a children expansion is derived from a row, and all true when the parent grants edit |
| PermissionService.ExpandChildrenSnoc | src/service/permissionService.ts:220-231 | expanding one more child appends that child's expansion |
| PermissionService.Resolver.ResolveForResource | src/service/permissionService.ts:208-233 | the recursive method appends exactly `Expand` of its entry to the shared list |
| PermissionService.ResolvePermissionsWithHierarchy | src/service/permissionService.ts:201-241 | the listing is each starting entry expanded in turn, duplicates kept |
| PermissionService.StartEntries | src/service/permissionService.ts:144-153 | at most one entry per grant; each names an existing row; every grant on an existing resource gives its row and its four flags |
| PermissionService.GrantsHeld | src/service/permissionService.ts:160-163 | a grant is listed exactly when its holder is the one asked for |
| PermissionService.ExpandNamesRows | src/service/permissionService.ts:217-231 | the expansion of an entry that names a row names rows only |
| PermissionService.ResolveListsExistingResources | src/service/permissionService.ts:201-241 | every entry of a listing names an existing resource row |
| PermissionService.ResolveKeepsStartEntries | src/service/permissionService.ts:236-238 | every starting entry whose resource exists appears in the listing |
| PermissionService.GetUserPermissions | src/service/permissionService.ts:47-99 | an unknown user throws; otherwise the listings of the user's, the position's and the roles' local grants, and the user's and position's global grants |
| PermissionService.GetPositionPermissions | src/service/permissionService.ts:101-124 | an unknown position throws; otherwise its listed local grants and its global grants |
| PermissionService.GetProjectRolePermissions | src/service/permissionService.ts:126-139 | an unknown role lists nothing; otherwise the listing of its grants |
| PermissionService.ListingIsComplete | src/service/permissionService.ts:47-199 | every entry names an existing resource, and every grant the holder has on an existing resource is listed with its own flags |
| LocalPermissionController.SelectedActions | src/controller/LocalPermissionController.ts:155-169 | an action is selected exactly when its value is neither undefined nor null, in the order create, read, edit, delete |
| LocalPermissionController.Authorise | src/controller/LocalPermissionController.ts:171-183 | true exactly when the caller's batch record on the resource holds true for every selected action; errors are passed on |
| LocalPermissionController.EmptyCallerRefused | src/controller/LocalPermissionController.ts:171-183 | a caller with an empty id may not change any action |
| LocalPermissionController.GrantIndex | src/controller/LocalPermissionController.ts:185-187 | the first row of the holder on the resource, or none when there is none |
| LocalPermissionController.ClearFlags | src/controller/LocalPermissionController.ts:189-193 | the selected keys are null and the others are kept |
| LocalPermissionController.ClearTurn | src/controller/LocalPermissionController.ts:190-193 | one turn of the clearing loop sets the next selected key to null |
| LocalPermissionController.ClearEntry | src/controller/LocalPermissionController.ts:190-193 | the clearing loop returns exactly `ClearFlags` |
| LocalPermissionController.WriteBooleans | src/controller/LocalPermissionController.ts:253-261 | a key whose value is a boolean takes it; every other key keeps its value |
| LocalPermissionController.WriteTurn | src/controller/LocalPermissionController.ts:254-261 | one turn of the write loop writes a boolean value and ignores any other |
| LocalPermissionController.WriteEntry | src/controller/LocalPermissionController.ts:254-261 | the write loop returns exactly `WriteBooleans` |
| LocalPermissionController.AddStep | src/controller/LocalPermissionController.ts:242-261 | an addition never drops a row: the loaded rows are all still there (what it writes is stated by `AddStepEffect`) |
| LocalPermissionController.RemovePhase | src/controller/LocalPermissionController.ts:153-207 | the removal loop either completes or stops with 403 (refused) or 500 (failed), and the set of resources whose loaded grant was deleted only grows |
| LocalPermissionController.RemovePhaseStep | src/controller/LocalPermissionController.ts:154-206 | the first entry decides as its authorisation says; an authorised entry for a resource whose loaded grant an earlier entry deleted changes no row, any other is one removal step, and a deletion records its resource |
| LocalPermissionController.AddPhase | src/controller/LocalPermissionController.ts:209-265 | the addition pass either completes or stops with 403 (refused) or 500 (failed), and keeps the set of deleted resources it was given |
| LocalPermissionController.AddPhaseStep | src/controller/LocalPermissionController.ts:211-264 | the first entry of the pass is authorised against the table after the removals; an entry for a resource whose loaded grant was deleted changes no grant, any other is applied in memory |
| LocalPermissionController.AuthoriseEntry | src/controller/LocalPermissionController.ts:226-240 | the batch call followed by the loop over the selected actions answers exactly `Authorise` |
| LocalPermissionController.LocalGrantTable.RemoveEntry | src/controller/LocalPermissionController.ts:185-205 | the rows afterwards are those of one removal step, and the answer says whether the holder's grant was deleted |
| LocalPermissionController.LocalGrantTable.RemovePass | src/controller/LocalPermissionController.ts:153-207 | the loop leaves the rows, the failure and the deleted resources that `RemovePhase` gives |
| LocalPermissionController.LocalGrantTable.AddPass | src/controller/LocalPermissionController.ts:209-270 | the rows are saved only when every entry passes, and are then those of `AddPhase`, in which an entry for a resource whose loaded grant the removals deleted writes no grant; otherwise they stay as the removals left them |
| LocalPermissionController.LocalGrantTable.Update | src/controller/LocalPermissionController.ts:117-285 | the answer and the rows are those of the update specification: guards, the removal loop, then the addition pass, which looks grants up among the rows loaded with the holder, so a grant the removals deleted is not re-created (`DeletedGrantStaysDeleted`) |
| LocalPermissionController.GrantOfUnique | src/controller/LocalPermissionController.ts:185-187 | with one row per holder and resource, the engine sees that row's flags |
| LocalPermissionController.RemoveStepKeepsOthers | src/controller/LocalPermissionController.ts:185-205 | a removal step changes no row of another holder or another resource |
| LocalPermissionController.DropRowUnique | src/controller/LocalPermissionController.ts:195-201 | dropping a row keeps one row per key and leaves none for the dropped key |
| LocalPermissionController.ReplaceRowUnique | src/controller/LocalPermissionController.ts:203 | replacing a row by one with the same key keeps one row per key |
| LocalPermissionController.RemoveStepEffect | src/controller/LocalPermissionController.ts:185-205 | no grant means no change; otherwise the engine afterwards sees the grant with the selected keys null, or no grant when every key ended null |
| LocalPermissionController.AddStepKeepsOthers | src/controller/LocalPermissionController.ts:242-261 | an addition step changes no row of another holder or another resource |
| LocalPermissionController.AddStepEffect | src/controller/LocalPermissionController.ts:242-261 | afterwards the engine sees the holder's old grant, or an all-null one, with the boolean values written |
| LocalPermissionController.RepeatedAddDuplicates | src/controller/LocalPermissionController.ts:242-251 | two additions for a resource the holder has no grant on create two rows |
| LocalPermissionController.RemovePhaseKeepsOthers | src/controller/LocalPermissionController.ts:153-207 | the removal pass never touches another holder's rows |
| LocalPermissionController.AddPhaseKeepsOthers | src/controller/LocalPermissionController.ts:209-270 | the addition pass never touches another holder's rows |
| LocalPermissionController.UpdateKeepsOtherHolders | src/controller/LocalPermissionController.ts:117-285 | a request changes only the target holder's grants |
| LocalPermissionController.NoGrantSurvives | src/controller/LocalPermissionController.ts:185-187 | a table that gains no row of the holder on a resource keeps having no grant there |
| LocalPermissionController.RemoveStepClearsGone | src/controller/LocalPermissionController.ts:185-205 | a removal step keeps one row per holder and resource, and leaves no grant on any deleted resource, including the one it deletes |
| LocalPermissionController.RemovePhaseClearsGone | src/controller/LocalPermissionController.ts:153-207 | the removal pass keeps one row per holder and resource, and the holder has no grant on any resource it records as deleted |
| LocalPermissionController.AddPhaseSkipsGone | src/controller/LocalPermissionController.ts:242-264 | the addition pass adds or changes no row on a resource whose loaded grant the removals deleted |
| LocalPermissionController.DeletedGrantStaysDeleted | src/controller/LocalPermissionController.ts:185-270 | after a successful request the holder has no grant on a resource whose grant its removals deleted, whatever its additions say |
| LocalPermissionController.ReAddAfterDelete | src/controller/LocalPermissionController.ts:185-284 | removing every key of a grant and granting on the same resource in one request answers success and leaves no grant there |
| LocalPermissionController.AddPhaseStops | src/controller/LocalPermissionController.ts:232-239 | an addition the caller may not make stops the pass with 403 or 500 |
| LocalPermissionController.UnauthorisedAddSavesNothing | src/controller/LocalPermissionController.ts:209-270 | one refused addition means no addition is saved: the answer is 403 or 500 and the rows are as the removals left them |
| LocalPermissionController.AddListRequired | src/controller/LocalPermissionController.ts:141-151 | the user and role handlers refuse with 400 a body whose addition list is not an array, even for a pure removal; the position handler accepts either list |
| PermissionMiddleware.BodyId | src/middleware/permissionMiddleware.ts:261-298 | non-zero exactly when the key is in the body with a truthy value |
| PermissionMiddleware.CastToSubject | src/middleware/permissionMiddleware.ts:13-23 | some member exactly when the text is that member's value, none for any other text |
| PermissionMiddleware.CastSubjectName | src/middleware/permissionMiddleware.ts:13-23 | casting a member's value gives that member back |
| PermissionMiddleware.Depth | src/middleware/permissionMiddleware.ts:273-306 | the number of levels above a type, at most four, which bounds the walk |
| PermissionMiddleware.ParentIsHigher | src/middleware/permissionMiddleware.ts:273-306 | each step of the walk goes up exactly one level |
| PermissionMiddleware.ParentPermission | src/middleware/permissionMiddleware.ts:265-272 | create and edit become edit; read and delete stay |
| PermissionMiddleware.WalkStops | src/middleware/permissionMiddleware.ts:273-306 | the walk stops at the first level with an id or at the top; the action is the requested one when it did not move, and its parent mapping otherwise |
| PermissionMiddleware.WalkKeepsReadAndDelete | src/middleware/permissionMiddleware.ts:265-306 | a delete is never escalated and a read stays a read |
| PermissionMiddleware.WalkUp | src/middleware/permissionMiddleware.ts:273-306 | the while loop ends where `Walk` ends, after at most 5 turns |
| PermissionMiddleware.LocalGate | src/middleware/permissionMiddleware.ts:321-336 | pass exactly when the local check grants, 403 exactly when it refuses, and a rejected promise with no answer exactly when it throws |
| PermissionMiddleware.AuthorizeFromRequestBody | src/middleware/permissionMiddleware.ts:252-339 | the guard's decision is the body decision after the walk |
| PermissionMiddleware.BodyDecisionMeaning | src/middleware/permissionMiddleware.ts:252-339 | a body guard passes only when the walk found an id whose resource the user may act on with the mapped action; with no id at any level it answers 400 |
| PermissionMiddleware.AuthorizeTaskRead | src/middleware/permissionMiddleware.ts:58-132 | the task's assignee or verifier, or the subtask's assignee, passes; everyone else needs local read |
| PermissionMiddleware.AuthorizeSubmission | src/middleware/permissionMiddleware.ts:134-212 | only tasks and subtasks; the verifier passes when verifying, the assignee when submitting, the subtask's assignee for a subtask; everyone else needs local edit |
| PermissionMiddleware.AssigneeMayNotVerify | src/middleware/permissionMiddleware.ts:173-178 | a task's assignee cannot pass the verification guard on that ground alone |
| PermissionMiddleware.AuthorizeLocal | src/middleware/permissionMiddleware.ts:214-250 | 403 without the parameter, 404 without a resource, otherwise the local check |
| PermissionMiddleware.AuthorizeFromRequestParameter | src/middleware/permissionMiddleware.ts:341-363 | 403 without the parameter; otherwise the local check on that resource id |
| PermissionMiddleware.Authorize | src/middleware/permissionMiddleware.ts:365-400 | a global subject alone decides; a resource id is used only without a subject; neither gives 403; errors give 500 |
| PermissionMiddleware.AuthorizeGlobal | src/middleware/permissionMiddleware.ts:25-56 | pass exactly when the global check allows, 403 when it refuses, 500 when it throws |
| Phases.CreatePhaseMeaning | src/controller/ProjectPhaseController.ts:80-139 | a phase is created exactly when the id and name are given and the project exists; it is appended, and without an ordinal it is numbered above every phase of the project |
| Phases.PhaseTable.Create | src/controller/ProjectPhaseController.ts:80-139 | the answer and the phases are those of `CreatePhaseSpec` |
| Phases.PhaseTable.Reorder | src/controller/ProjectPhaseController.ts:141-193 | 400 for a missing id or an invalid list and nothing changes; otherwise every phase becomes `Reordered`, so only listed phases of the project move |
| Phases.Patched | src/controller/ProjectPhaseController.ts:221-239 | the patched phase keeps its id and project |
| Phases.PatchedDates | src/controller/ProjectPhaseController.ts:225-231 | a date is set exactly when a truthy one is given, or it is omitted and was set; a falsy given date clears it; an omitted one is kept |
| Phases.UpdatePhaseMeaning | src/controller/ProjectPhaseController.ts:195-250 | only the phase found changes; its name is never emptied and its ordinal never set to 0; a missing id or phase changes nothing |
| Phases.PhaseTable.Update | src/controller/ProjectPhaseController.ts:195-250 | the answer and the phases are those of `UpdatePhaseSpec` |
| Phases.ZeroOrdinalIgnored | src/controller/ProjectPhaseController.ts:237-239 | a patch whose ordinal is 0 keeps the phase's ordinal |
| ProjectRoles.ProjectOf | src/controller/ProjectRoleController.ts:13-29 | the role's project exactly when the id is given and names a role, none otherwise |
| ProjectRoles.FoundUsers | src/controller/ProjectRoleController.ts:264-267 | a user is found exactly when it is listed and exists |
| ProjectRoles.FoundTasks | src/controller/ProjectRoleController.ts:408-410 | a task is found exactly when it is listed and belongs to the role's project |
| ProjectRoles.RoleStore.UpdateUsers | src/controller/ProjectRoleController.ts:229-336 | the answer, roles and teams are those of the users specification |
| ProjectRoles.RoleStore.UpdateTasks | src/controller/ProjectRoleController.ts:378-471 | the answer and roles are those of the tasks specification |
| ProjectRoles.RoleStore.Update | src/controller/ProjectRoleController.ts:473-522 | the answer and roles are those of the role update specification |
| ProjectRoles.UsersKeepTeamsDisjoint | src/controller/ProjectRoleController.ts:263-304 | assigning users keeps the managing and participating teams of every project disjoint |
| ProjectRoles.UsersRequestEffect | src/controller/ProjectRoleController.ts:229-336 | found users now hold the role and sit in the team of its kind; removed users held it and no longer do; no other role or team changes |
| ProjectRoles.TasksKeepInvariants | src/controller/ProjectRoleController.ts:378-471 | task assignment keeps verifying tasks on managing roles only and every task in the role's project |
| ProjectRoles.UpdateRoleKeepsVerifyingOnlyManaging | src/controller/ProjectRoleController.ts:500-507 | changing the managing flag keeps verifying tasks on managing roles only |
| ProjectRoles.VerifyingNeedsManagingRole | src/controller/ProjectRoleController.ts:427-440 | adding verifying tasks to a non-managing role is refused and changes nothing |
| ProjectRoles.RemoveVerifyingOverwritesAssigned | src/controller/ProjectRoleController.ts:451-455 | removing verifying tasks replaces the assigned tasks with the remaining verifying tasks and leaves the verifying tasks as they were |
| ProjectRoles.VerifyingTaskAlsoAssigned | src/controller/ProjectRoleController.ts:412-418 | adding a task the role already verifies also assigns it, because the exclusion compares object identity |
| ProjectRoles.UpdateRoleEffect | src/controller/ProjectRoleController.ts:495-507 | making a role non-managing drops its verifying tasks; the other fields follow the request |
| Recurrence.CreateFrequency | src/controller/RecurrenceFrequencyController.ts:64-91 | INTERVAL with a truthy value and a unit, WEEKLY with days, MONTHLY with a truthy day; any other combination is an error |
| Recurrence.CreatedFrequencyShape | src/controller/RecurrenceFrequencyController.ts:77-90 | every created frequency carries exactly the fields of its type |
| Recurrence.WellShapedRoundTrip | src/controller/RecurrenceFrequencyController.ts:64-91 | every well-shaped frequency is what its own fields create |
| ResourceSync.EntityIndex | src/service/resourceSyncService.ts:83-86 | the first resource of the type and entity, or none exactly when there is none |
| ResourceSync.FindEntity | src/service/resourceSyncService.ts:10-18 | an error exactly for a falsy entity id; otherwise a matching resource, or none when no resource matches |
| ResourceSync.ResourceSyncService.Find | src/service/resourceSyncService.ts:10-18 | answers exactly `FindEntity` and changes nothing |
| ResourceSync.Reparent | src/service/resourceSyncService.ts:98-105 | the folder named gets the new parent; every other folder is kept |
| ResourceSync.SaveResource | src/service/resourceSyncService.ts:110 | the saved resource is present and every row with another id stays |
| ResourceSync.ResourceSyncService.CreateOrUpdate | src/service/resourceSyncService.ts:78-112 | the resources and folders afterwards are those of `Upsert`, whose meaning `UpsertEffect` and `UnresolvedParentCleared` state: the saved parent is the resource a truthy parent id names, and otherwise null |
| ResourceSync.ResourceSyncService.CreateOrUpdateFolder | src/service/resourceSyncService.ts:20-76 | the tables afterwards are those of `SyncFolder`; a FILE resource is refused |
| ResourceSync.ResourceSyncService.Delete | src/service/resourceSyncService.ts:114-132 | the answer and the resources are those of the delete specification |
| ResourceSync.UpsertEffect | src/service/resourceSyncService.ts:78-112 | one resource per type and entity is kept; the entity's resource is the old one or a new one whose parent is the resource the parent id names, or null when the id is falsy or names nothing; every other resource is unchanged |
| ResourceSync.UpsertRow | src/service/resourceSyncService.ts:83-110 | the entity's row, with the named parent or else null, is rewritten in place or appended |
| ResourceSync.ReplaceKeepsOnePerEntity | src/service/resourceSyncService.ts:83-89 | rewriting a row in place with the same type and entity keeps one resource per entity |
| ResourceSync.AppendKeepsOnePerEntity | src/service/resourceSyncService.ts:88-90 | appending a resource for an entity that has none keeps one resource per entity |
| ResourceSync.UpsertThenFind | src/service/resourceSyncService.ts:78-112 | after the upsert, finding the entity returns its resource |
| ResourceSync.UpsertMovesFolder | src/service/resourceSyncService.ts:98-105 | with a found parent, the entity's folder moves under the parent's folder, even when the parent is unchanged; no other folder changes, and without a found parent none does |
| ResourceSync.SameParentStillMovesFolder | src/service/resourceSyncService.ts:98-105 | the never-loaded `parent` compares unequal, so re-syncing under the same parent still moves a folder that sits elsewhere |
| ResourceSync.UnresolvedParentCleared | src/service/resourceSyncService.ts:92-110 | a truthy parent id that names no resource saves the unloaded null parent, clearing the old one, and moves no folder |
| ResourceSync.SaveKeepsDistinct | src/service/resourceSyncService.ts:110 | on distinct ids, saving puts the resource in place of its row |
| ResourceSync.SyncFolderEffect | src/service/resourceSyncService.ts:20-76 | the folder afterwards has the requested name, sits under the parent resource's folder and corresponds to the resource; archived is the supplied value, else kept, else false |
| ResourceSync.UnchangedFolderNotSaved | src/service/resourceSyncService.ts:29-56 | a folder already as requested is not saved and both tables stay as they were |
| ResourceSync.DeleteEffect | src/service/resourceSyncService.ts:114-132 | the entity has no resource afterwards, every other resource stays, and nothing happens when it had none |
| ResourceSync.MissingKeysRefused | src/service/resourceSyncService.ts:115-124 | a falsy entity id or a missing type is an error in find and delete |
| SubtaskGenerator.IntervalTiles | src/utils/subtaskGenerator.ts:52-73 | the INTERVAL details cover the schedule without gaps or overlaps, each spans one step cut at the end, and they are numbered in order |
| SubtaskGenerator.IntervalAdvance | src/utils/subtaskGenerator.ts:52-73 | one turn of the loop keeps the details gathered a prefix of the run |
| SubtaskGenerator.IntervalDetails | src/utils/subtaskGenerator.ts:44-74 | the loop returns exactly the INTERVAL run, which tiles the schedule |
| SubtaskGenerator.NegativeIntervalNeverEnds | src/utils/subtaskGenerator.ts:52-73 | with a negative step the loop guard stays true |
| SubtaskGenerator.NextListed | src/utils/subtaskGenerator.ts:81-90 | the first date from the start that is a listed weekday or reaches the limit |
| SubtaskGenerator.NextDate | src/utils/subtaskGenerator.ts:81-90 | the loop returns the day after the current one, moved on to a listed weekday or the limit |
| SubtaskGenerator.WeeklyStarts | src/utils/subtaskGenerator.ts:92-104 | the WEEKLY details start exactly on the listed weekdays of the schedule |
| SubtaskGenerator.WeeklySpansHold | src/utils/subtaskGenerator.ts:92-104 | each WEEKLY detail runs from a day of the schedule to a listed day or the end, tagged with its weekday |
| SubtaskGenerator.WeeklyInOrder | src/utils/subtaskGenerator.ts:92-104 | the WEEKLY details are in order |
| SubtaskGenerator.WeeklyAdvance | src/utils/subtaskGenerator.ts:92-104 | one turn of the loop keeps the details gathered a prefix of the run |
| SubtaskGenerator.WeeklyDetails | src/utils/subtaskGenerator.ts:76-105 | the loop returns exactly the WEEKLY run |
| SubtaskGenerator.MonthlyTiles | src/utils/subtaskGenerator.ts:110-130 | for a positive day of month the MONTHLY details tile the schedule, each labelled with its month |
| SubtaskGenerator.NegativeMonthlyNeverEnds | src/utils/subtaskGenerator.ts:107-131 | for a negative day of month, once a step lands before the end date the next step is no later, so the loop guard stays true |
| SubtaskGenerator.MonthlyDetails | src/utils/subtaskGenerator.ts:107-131 | for a positive day of month the loop returns exactly the MONTHLY run |
| SubtaskGenerator.GenerateDetails | src/utils/subtaskGenerator.ts:20-137 | the details are those of the generation specification: an error without dates, one detail without recurrence, nothing for an incomplete frequency, no end for a negative INTERVAL step or a negative day of month whose first step lands before the end, otherwise the run of its type |
| SubtaskGenerator.OneDetailWithoutRecurrence | src/utils/subtaskGenerator.ts:30-38 | a non-recurring task, or one without a frequency, has one detail spanning its dates |
| SubtaskGenerator.CreatedIntervalTiles | src/utils/subtaskGenerator.ts:44-74 | a frequency created with a positive interval and a known unit yields details that tile the schedule |
| SubtaskGenerator.CrossOrdinals | src/utils/subtaskGenerator.ts:163-183 | the element at position i of the cross product has ordinal `index * m + i + 1` |
| SubtaskGenerator.CrossContents | src/utils/subtaskGenerator.ts:163-183 | each participant subtask names a participant, is assigned to that participant (BY_PARTICIPANT) or to the task's assignee (PER_PARTICIPANT), and takes the task's submission type |
| SubtaskGenerator.SequentialContents | src/utils/subtaskGenerator.ts:184-199 | sequential subtasks are numbered from `index + 1` and assigned to the task's assignee |
| SubtaskGenerator.GeneratedOrdinals | src/utils/subtaskGenerator.ts:139-200 | a participant task's subtasks carry the ordinals 1 to details times participants, each once; a recurring task without participants carries 1 to the number of details |
| SubtaskGenerator.GenerationGuards | src/utils/subtaskGenerator.ts:140-148 | a SINGLE non-recurring task generates nothing; missing dates always throw |
| SubtaskGenerator.RemoveAutogeneratedAppend | src/controller/TaskController.ts:897-901 | dropping auto-generated subtasks distributes over concatenation |
| SubtaskGenerator.CreateTaskSetup | src/controller/TaskController.ts:328-356 | invalid recurrence details throw; a SINGLE task without recurrence runs nothing; a task that generates but lacks a date throws |
| SubtaskGenerator.InvalidDetailsLeaveNoTask | src/controller/TaskController.ts:328-356 | recurrence details that `createRecurrenceFrequencyEntity` rejects leave no task and answer 400 or 404 |
| SubtaskGenerator.NegativeMonthlyTaskHangs | src/controller/TaskController.ts:326-356 | a MONTHLY task with a negative day whose first step lands before its end is never created with 201: the saved task stays and no answer is sent |
| SubtaskGenerator.SavedAllRemoved | src/controller/TaskController.ts:897-901 | freshly generated subtasks are all dropped by the cleanup |
| SubtaskGenerator.ResetUndoesGeneration | src/controller/TaskController.ts:803-811 | resetting a task's recurrence after generation removes exactly what generation added |
| Subtasks.SubtaskOrdinals | src/controller/SubtaskController.ts:137-138 | an ordinal is listed exactly when some subtask of the task carries it |
| Subtasks.CreateSubtaskSpec | src/controller/SubtaskController.ts:79-152 | created exactly when the task id and title are given and the task exists, and then an ordinal is given; a missing id or title is 400 |
| Subtasks.DefaultSubtaskOrdinal | src/controller/SubtaskController.ts:134-140 | without an ordinal a new subtask goes after every subtask of its task |
| Subtasks.Patched | src/controller/SubtaskController.ts:363-377 | the patched subtask keeps its id, task, ordinal, generation flag and submission date |
| Subtasks.PatchedMeaning | src/controller/SubtaskController.ts:363-377 | a non-empty title and a given submission type are written; an absent description, assignee or status is kept and null clears it; an assignee is set exactly when it names a known user; a status id of 0 clears the status |
| Subtasks.UpdateSubtaskKeepsOthers | src/controller/SubtaskController.ts:337-390 | a successful update changes only the addressed subtask and keeps its identity, task, ordinal, generation flag and submission date |
| Subtasks.SubtaskTable.Update | src/controller/SubtaskController.ts:337-390 | the answer and the subtasks are those of the update specification |
| Subtasks.SubtaskTable.Submit | src/controller/SubtaskController.ts:212-335 | the answer and the subtasks are those of the submission specification |
| Subtasks.SubmitSubtaskSucceeds | src/controller/SubtaskController.ts:212-335 | a successful submission finds the subtask neither done nor in verification and leaves it DONE with its submission date; nothing else changes |
| Subtasks.NoSecondSubtaskSubmission | src/controller/SubtaskController.ts:233-241 | a submitted subtask is DONE, so a second submission is refused |
| Subtasks.SubtaskUploadNeedsFile | src/controller/SubtaskController.ts:252-257 | a file-upload subtask is never submitted without a file |
| Subtasks.SubtaskIndexAfterUpdate | src/controller/SubtaskController.ts:322 | rewriting the found subtask with the same id keeps it the one found |
| Subtasks.SubtaskTable.Reorder | src/controller/SubtaskController.ts:154-210 | 400 for a missing id or an invalid list with nothing changed; otherwise only listed subtasks of the task take their first listed ordinal |
| TaskStatuses.HexColorMeaning | src/controller/TaskStatusController.ts:207-210 | valid exactly when the colour is `#` followed by 3 or 6 hex digits, in either case |
| TaskStatuses.HexColorExamples | src/controller/TaskStatusController.ts:207-210 | short and long forms in either case pass; four digits, no `#` or a non-hex digit fail |
| TaskStatuses.Lower | src/controller/TaskStatusController.ts:76 | the same length, with every ASCII capital lowered and nothing else changed |
| TaskStatuses.SameName | src/controller/TaskStatusController.ts:74-78 | a status whose name equals the given one up to case, or none exactly when no status's does |
| TaskStatuses.CreateStatusMeaning | src/controller/TaskStatusController.ts:58-102 | created exactly when the name is given, the colour is valid and no status has the name up to case; the new status is unprotected and has no key; the table stays valid |
| TaskStatuses.TaskStatusTable.Create | src/controller/TaskStatusController.ts:58-102 | the answer and the statuses are those of the create specification |
| TaskStatuses.UpdateStatusMeaning | src/controller/TaskStatusController.ts:104-166 | an update never touches a protected or another status, changes only name and colour, refuses any name held up to case, and keeps the table valid |
| TaskStatuses.TaskStatusTable.Update | src/controller/TaskStatusController.ts:104-166 | the answer and the statuses are those of the update specification |
| TaskStatuses.OwnNameRefused | src/controller/TaskStatusController.ts:131-142 | even a status's own name, in any case, is refused |
| TaskStatuses.LowerIdempotent | src/controller/TaskStatusController.ts:131-135 | lowering twice is lowering once |
| TaskStatuses.DeleteStatusMeaning | src/controller/TaskStatusController.ts:168-205 | a delete answers 200 exactly for an unprotected status nothing refers to, and then removes exactly that one; an unprotected status a task or subtask still refers to answers 500 and stays; every protected status is kept |
| TaskStatuses.TaskStatusTable.Delete | src/controller/TaskStatusController.ts:168-205 | the answer and the statuses are those of the delete specification, with the database's refusal of a status still in use as an input |
| TaskStatuses.DeleteKeepsStatusTableValid | src/controller/TaskStatusController.ts:187-194 | deleting keeps names distinct up to case and colours valid |
| TaskStatuses.RemovalKeepsStatusTableValid | src/controller/TaskStatusController.ts:194 | removing any one row keeps the table valid |
| Tasks.ScopeOrdinals | src/controller/TaskController.ts:320-322 | an ordinal is listed exactly when some task of the phase, or of the project without a phase, carries it |
| Tasks.CreateTaskSpec | src/controller/TaskController.ts:155-369 | a task stays saved exactly when a placement is returned, which is on 201 or when the set-up never ends; the answer is 201, 400, 404 or none, and none exactly when a saved set-up never ends |
| Tasks.DefaultTaskOrdinal | src/controller/TaskController.ts:317-324 | without an ordinal a new saved task goes after every task of its phase, or of its project without a phase, starting at 1 |
| Tasks.CreateTaskRefusals | src/controller/TaskController.ts:159-212 | neither route id or no title is 400; ids naming nothing give 404; a created task had a set-up that completed, and a recurring one had details and both dates; a completed set-up without a saved task means 400 or 404 |
| Tasks.RemoveAutogenerated | src/controller/TaskController.ts:897-901 | a subtask is kept exactly when it belongs to another task, is not auto-generated or has a submission date |
| Tasks.RemoveAutogeneratedIdempotent | src/controller/TaskController.ts:897-901 | dropping auto-generated subtasks twice drops nothing more |
| Tasks.ResetIgnoresRecurringFlag | src/controller/TaskController.ts:718-811 | the recurring-flag comparison never fires; recurrence details or a type other than the task's reset the recurrence and drop the unsubmitted generated subtasks |
| Tasks.OmittedTypeResets | src/controller/TaskController.ts:803-811 | an update that omits the type always drops the recurrence and the unsubmitted generated subtasks |
| Tasks.TaskTable.Submit | src/controller/TaskController.ts:436-586 | the answer and the tasks are those of the submission specification; subtasks are unchanged |
| Tasks.SubmitSucceeds | src/controller/TaskController.ts:436-586 | a successful submission found the task neither done nor in verification with all subtasks done; it is then in verification with a verifier and done without, with the submission date |
| Tasks.FileRequiredForSingleUpload | src/controller/TaskController.ts:492-502 | a single, non-recurring file-upload task cannot be submitted without a file |
| Tasks.IndexAfterUpdate | src/controller/TaskController.ts:571 | rewriting the found task with the same id keeps it the one found |
| Tasks.NoSecondSubmission | src/controller/TaskController.ts:464-472 | a submitted task cannot be submitted again |
| Tasks.TaskTable.Verify | src/controller/TaskController.ts:588-642 | the answer and the tasks are those of the verification specification |
| Tasks.VerifyMeaning | src/controller/TaskController.ts:588-642 | verification moves exactly the tasks in verification to DONE; every other status is refused |
| Tasks.SubmitThenVerify | src/controller/TaskController.ts:436-642 | with a verifier, a submission puts the task in verification and a verification then makes it DONE; without one the submission makes it DONE and verification is refused |
| Tasks.TaskTable.ReorderTasks | src/controller/TaskController.ts:371-434 | 400 when neither route id is given or the list is invalid, with nothing changed; otherwise only listed tasks of the phase or project take their first listed ordinal |
| Templates.CreatePhaseMeaning | src/controller/TemplateController.ts:236-296 | a phase is created exactly when the id and name are given and the template exists; without an ordinal it is numbered after every phase of the template |
| Templates.TemplateStore.CreatePhase | src/controller/TemplateController.ts:236-296 | the answer and the phases are those of the create specification |
| Templates.TemplateStore.ReorderPhases | src/controller/TemplateController.ts:298-354 | 400 for a missing id or an invalid list with nothing changed; otherwise only listed phases of the template move |
| Templates.TemplateStore.ReorderTasks | src/controller/TemplateController.ts:647-705 | 400 for a missing id or an invalid list with nothing changed; otherwise only listed tasks of the template move |
| Templates.CreateTemplateTaskMeaning | src/controller/TemplateController.ts:482-645 | a missing title or template is 404 and other failed checks 400, changing nothing; a created task is appended with valid roles, and a recurring one with a well-shaped frequency |
| Templates.TemplateStore.CreateTask | src/controller/TemplateController.ts:482-645 | the answer and the tasks are those of the create specification |
| Templates.DefaultTemplateTaskOrdinal | src/controller/TemplateController.ts:598-606 | without an ordinal a task is numbered after every task of its phase when it has one, else after every task of its template |
| Templates.TemplateStore.BuildTask | src/controller/TemplateController.ts:572-606 | the row built field by field is the row of the create specification |
| Templates.PatchedFields | src/controller/TemplateController.ts:759-777 | only the type, title, description, submission type and recurring flag can change, and a valid type is written |
| Templates.WithRoleAndPhase | src/controller/TemplateController.ts:779-836 | only the assignee role and phase can change, so the verifier role is never written; a newly set assignee role is the given truthy id |
| Templates.WithRecurrence | src/controller/TemplateController.ts:838-865 | when it succeeds, only the recurring flag, the frequency and the ordinal can change |
| Templates.EditKeeps | src/controller/TemplateController.ts:706-879 | an accepted patch never writes the id, template or verifier role |
| Templates.UpdateTemplateTaskMeaning | src/controller/TemplateController.ts:706-879 | an update answers 201 or changes nothing; it changes one task, keeps its id, template and verifier role, and keeps valid roles valid |
| Templates.TemplateStore.UpdateTask | src/controller/TemplateController.ts:706-879 | the answer and the tasks are those of the update specification |
| Templates.TemplateOmittedTypeResets | src/controller/TemplateController.ts:839-847 | an update that omits the type drops the recurrence unless it rebuilds one |
| Templates.RecurringWithoutFrequency | src/controller/TemplateController.ts:775-861 | marking a task recurring without details leaves it without a frequency |
| Templates.FoundTemplateTasks | src/controller/TemplateController.ts:1105-1107 | a task is found exactly when it is listed and is a task of the template |
| Templates.TemplateRoleTasksKeepInvariants | src/controller/TemplateController.ts:1079-1168 | updating a role's tasks keeps verification on managing roles and role tasks inside the template |
| Templates.TemplateStore.UpdateRoleTasks | src/controller/TemplateController.ts:1079-1168 | the answer and the roles are those of the role-tasks specification |
| Templates.TemplateRoleUpdateKeepsInvariants | src/controller/TemplateController.ts:1024-1077 | updating a role's fields keeps verification on managing roles and role tasks inside the template |
| Templates.TemplateStore.UpdateRole | src/controller/TemplateController.ts:1024-1077 | the answer and the roles are those of the role update specification |
| Templates.TemplateRoleTasksEffect | src/controller/TemplateController.ts:1104-1152 | assigned and verifying tasks gain the listed tasks of the template and lose the listed removals; a non-managing role refuses verifying tasks |
| Templates.TemplateVerifyingTaskAlsoAssigned | src/controller/TemplateController.ts:1104-1116 | adding a task the role already verifies also assigns it |
| Templates.TemplateRoleUpdateEffect | src/controller/TemplateController.ts:1055-1062 | making a template role non-managing drops its verifying tasks and keeps its assigned tasks |
| Users.RegisterMeaning | src/controller/UserController.ts:31-70 | accepted exactly when the three texts are given and the email is unused; the new account is appended with the password's hash and is what the email finds |
| Users.UserDirectory.Register | src/controller/UserController.ts:31-70 | the answer and the accounts are those of the registration specification |
| Users.FindFirstAppended | src/controller/UserController.ts:43-48 | an email absent before finds the appended account |
| Users.CreationKeepsEmailsUnique | src/controller/UserController.ts:43-60 | registration and account creation keep email addresses unique |
| Users.SecondRegistrationRefused | src/controller/UserController.ts:43-48 | the same email cannot be registered twice |
| Users.TemporaryPassword | src/controller/UserController.ts:255 | eight characters, the first eight of the UUID |
| Users.CreatedAccountPassword | src/controller/UserController.ts:238-285 | an account is created without a password and gets an eight-character one |
| Users.UserDirectory.CreateUser | src/controller/UserController.ts:238-285 | the answer and the accounts are those of the creation specification |
| Users.RequestResetSpec | src/controller/UserController.ts:287-340 | the answer is 200, 400, 404 or 500; 400 exactly when neither email nor username is given; 200 only with an email, and 500 only without one, after the token is stored, since the mail has no recipient; a 400 or 404 leaves the token store unchanged, and 200 or 500 adds exactly the new token for a matching account |
| Users.UserDirectory.RequestPasswordReset | src/controller/UserController.ts:287-340 | the answer and the token store are those of `RequestResetSpec`; accounts are unchanged |
| Users.AccountIndex | src/controller/UserController.ts:297-299 | the first account with the id, email or username asked for, and none exactly when no account has it |
| Users.ResetWithinWindow | src/controller/UserController.ts:287-393 | a token stored by a reset request (answered 200, or 500 for a username-only request) and used within fifteen minutes resets the password of the account it was issued for, and cannot be used again |
| Users.ExpiredLinkGone | src/controller/UserController.ts:380-384 | a token used fifteen minutes or more after its request answers 410 and is dropped |
| Users.ResetChangesOnlyPassword | src/controller/UserController.ts:363-377 | a reset changes only that account's password |
| Users.UserDirectory.ResetPassword | src/controller/UserController.ts:342-393 | the answer, accounts and token store are those of the reset specification |
| Users.Found | src/controller/UserController.ts:475-477 | each existing listed id once, and nothing else |
| Users.NewItems | src/controller/UserController.ts:478-482 | a candidate is kept exactly when it is not already held; a duplicate-free list stays so |
| Users.NewItemsFromNothing | src/controller/UserController.ts:478-482 | with nothing held, every candidate is new, duplicates included |
| Users.Without | src/controller/UserController.ts:486 | an id is kept exactly when it was held and is not removed; a duplicate-free list stays so |
| Users.DistinctAppend | src/controller/UserController.ts:478-482 | appending new ids keeps a list duplicate-free |
| Users.GroupsEffect | src/controller/UserController.ts:474-487 | a user holds a group exactly when it held it or it was added and exists, and it was not removed; the list stays duplicate-free |
| Users.UserDirectory.UpdateGroups | src/controller/UserController.ts:451-499 | the answer and the accounts are those of the groups specification |
| Users.ProjectsOf | src/controller/UserController.ts:568-582 | a project is listed exactly when some found role of that kind belongs to it |
| Users.ProjectRolesRefusals | src/controller/UserController.ts:501-603 | refused exactly when the id is missing, the user unknown, or an added role would make the user manage a project they participate in, or the reverse; a refusal changes nothing |
| Users.ClashMeaning | src/controller/UserController.ts:540-566 | a clash on the found roles is a clash on a listed role |
| Users.ProjectRolesKeepInvariants | src/controller/UserController.ts:528-589 | an unmixed accepted request keeps memberships disjoint and the role list duplicate-free; removing roles leaves memberships alone |
| Users.AddToNewcomer | src/controller/UserController.ts:528-583 | a request that only adds roles to a user with none is accepted, and gives the user exactly the found roles and, by kind, those roles' projects |
| Users.PairFound | src/controller/UserController.ts:529-532 | worked example: looking up the roles 1 and 2 when both exist finds `[1, 2]` |
| Users.PairProjects | src/controller/UserController.ts:529-532 | worked example: the projects of roles 1 and 2 of the asked kind are listed in that order, and roles of the other kind add nothing |
| Users.SameProjectAddedTwice | src/controller/UserController.ts:568-575 | worked example: two participating roles of one project add that project twice |
| Users.MixedRequestJoinsBothTeams | src/controller/UserController.ts:540-582 | worked example: a managing and a participating role of one project in one request make a new user both manager and participant |
| Users.UserDirectory.UpdateProjectRoles | src/controller/UserController.ts:501-603 | the answer and the accounts are those of the project-roles specification |
| Users.RemovalMeaning | src/controller/UserController.ts:721-736 | afterwards no task or subtask of the project names a removed user; every other assignment and field is kept |
| Users.RemovalIdempotent | src/controller/UserController.ts:721-736 | removing the same users twice changes nothing the second time |
| Users.RemoveUsersFromProjectTasks | src/controller/UserController.ts:701-740 | every task and subtask is cleared as `ClearedTask` and `ClearedSubtask` say |
| Users.ClearTaskUsers | src/controller/UserController.ts:721-731 | the loop clears every task as `ClearedTask` says |
| Users.ClearSubtaskUsers | src/controller/UserController.ts:733-736 | the loop clears every subtask as `ClearedSubtask` says |
| Users.RoleRemovalMeaning | src/controller/UserController.ts:752-757 | afterwards no role of the project holds a removed user, and every other holder stays |
| Users.RemoveUsersFromProjectRoles | src/controller/UserController.ts:742-759 | every role is cleared as `ClearedRole` says |

## Left out

- Password hashing, JWT issuing and the `authenticate` middleware use crypto libraries. A hash is the opaque function `HashOf`, and the caller's id is a parameter.
- Express requests and responses become parameters and a `Status`. Handlers that send no answer on success are modelled with the status they would have. Double-response handling through `res.headersSent` is left out.
- TypeORM repositories, relation loading and query builders become snapshot tables (`seq` and `map`). `find` is assumed to return rows in table order, except `find` with `In(ids)` on groups and roles (`Users.Found`), whose rows come in the order of first mention in the request; the database promises neither. Ids are integers, and an absent or non-numeric route id is 0 or `None`.
- Filters that use `Array.includes` on entity objects compare object identity. Most are modelled by id. The exceptions are the exclusions in `updateProjectRoleTasks` and `updateTemplateRoleTasks`: they compare freshly loaded objects and never match, and the model keeps that behaviour.
- Body values that are not text, numbers or booleans are left out. The permission-entry keys are modelled as a small `JsonValue`.
- `castToGlobalPermissionSubject` is modelled over the enum's member values. Other input types are left out.
- The listing's termination rests on the resource tree having no cycle. The model asks for an acyclicity rank, which the source does not check.
- Database cascades are left out: the deletion of a file subtree, and frequency rows left orphaned.
- `Promise.all` in the addition passes runs its entries concurrently. The model runs them one after another.
- File storage I/O (`FileStorageManager`, the local storage service and multer uploads) is left out. The storage's URL and the upload are parameters, and download bytes are not modelled.
- `sendEmail` is left out. So are the random bytes and `Date.now()` used for reset tokens, which become parameters. The token cache is a `map`, and its persistence to disk is left out.
- The save in `removeUsersFromProjectRoles` is not awaited. The model applies it at once.
- Calendar arithmetic (date-fns, `getDay`, `getDate`) and the localised name formatting are left out. Dates are integers and unit steps are functions in a `Calendar` value, with the laws `ValidCalendar` states: a positive step moves forward and a negative one back, the monthly step moves forward for a positive day, and for a negative day (`new Date(year, month, dom)` rolling back into an earlier month) a second step never moves past the first. The monthly step is the calendar's "next month on this day".
- Generated subtask titles and descriptions are left out. So is the text of error messages; thrown errors carry a small error kind.
- Task and subtask statuses are modelled by their key (NOT_SET, IN_VERIFICATION, DONE). A status row without a key is `None`.
- `TaskCompletionFile` rows, which are saved with a file submission, are left out. So is the resource and folder set-up of the `@AfterInsert` hook of a task, which answers 500 when it throws. The frequency and subtask set-up after the task is saved is `SubtaskGenerator.CreateTaskSetup`, and the task model takes its outcome as an input.
- src/entity/Subtask.ts is not part of this model. Its fields are taken from the controllers that use them.
- `Lower` lowers ASCII letters only. SQL `LOWER` on other scripts is not modelled.
- The file item hooks are modelled in `FileItemHooks` and run by the create, update and delete handlers in `Files`. A hook that throws gives 500 with both tables unchanged; the transaction rollback behind that is not modelled, and a save that changes no column, which skips `@AfterUpdate`, is treated as a change.
- Other handlers are not modelled:
  - `updateTemplatePhase`, `login`, `changePassword`, `updateUser` and `deleteUser`;
  - the `getAll*` and `get*` readers;
  - the delete handlers of phases, tasks, subtasks, templates and roles;
  - the Position, Project, UserGroup and Resource controllers, the route files, `server.ts`, `data-source.ts` and the seed scripts.
- Phases.Patched: its own contract states only that the id and project are kept. What a patch writes is stated by `UpdatePhaseMeaning`, `PatchedDates` and `ZeroOrdinalIgnored`.
- Tasks.CreateTaskSpec: its own contract states the answer's shape and when a task stays saved. The placement and refusals are stated by `DefaultTaskOrdinal` and `CreateTaskRefusals`, and the set-up outcome by `SubtaskGenerator.CreateTaskSetup`. A rejected assignee or verifier is an input, not a lookup.
- GlobalPermissionController.AddStep and LocalPermissionController.AddStep: their own contracts state only that no loaded row is dropped. What they write, and that they leave other holders alone, is stated by `AddStepEffect` and `AddStepKeepsOthers`.
- Users.RequestResetSpec: a failure of `sendEmail` for a given email is left out; only the missing recipient of a username-only request is modelled as 500. What a stored token does is stated by `ResetWithinWindow` and `ExpiredLinkGone`.
- LocalPermissionController.AddPhase: an entry for a resource whose loaded grant the removals deleted writes into that deleted entity, and the final save inserts it as a new row with no holder, because the holder relation is never loaded. No permission lookup reads such a row, so the model leaves the rows unchanged and does not represent it.
- GlobalPermissionController.AddPhase: the same holds for a subject whose loaded grant the removals deleted. The re-inserted row has no user and no position, and the model does not represent it.
- LocalPermissionController.RemovePhase: a later removal entry for a deleted grant clears the deleted entity's keys again and passes it to `remove` once more. The model treats this as changing nothing. If TypeORM refuses to remove an entity that no longer has an id, the source answers 500 there, and the model does not capture that.
- GlobalPermissionController.RemovePhase: the same second removal of a deleted grant is treated as changing nothing.
- Subtasks.SubmitSubtaskSpec (and `Subtasks.SubtaskTable.Submit`): a file submission saves its `FileItem` row, and the resource its `@AfterInsert` hook creates, before the DONE status is looked up. When that status is missing the answer is 500 and the subtask table is unchanged, but the file row and its resource stay. The file and resource tables are not part of this specification.
- Tasks.SubmitSpec (and `Tasks.TaskTable.Submit`): likewise, the file row and resource saved for an upload stay when the DONE or IN_VERIFICATION status is then missing and the answer is 500.
- TaskStatuses.DeleteStatusSpec: whether a task or subtask still refers to the status is the input `inUse`. The task and subtask tables are not consulted, and the foreign-key check is the database's.
