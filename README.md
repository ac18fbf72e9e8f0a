# grimoire-server note store, modelled in Dafny

grimoire-server is an Express and Mongoose back end for a note-taking app.
Every authenticated user owns notes, folders and tags. This project models its
core: the three routers (`routes/notes.routes.js`, `routes/tags.routes.js`,
`routes/folders.routes.js`) and the two schemas (`models/note.js`,
`models/folder.js`).

The model has seven modules, one per file:

- `Common` (common.dfy) holds the shared values:
  - `undefined` as `Option.None`;
  - the `ObjectId.isValid` rule;
  - JavaScript truthiness of strings;
  - store errors (duplicate key, missing required path, cast error);
  - the shape of a handler's answer: `res.json`, a 204, a 400 passed to
    `next`, a bare `next()`, or an error passed on without a status.
- `Ordering` (ordering.dfy) holds the name order of `.sort('name')`, the
  newest-first order of `.sort({ updatedAt: 'desc' })`, and a sort proved to
  return a sorted permutation.
- `Models` (models.dfy) holds the Note, Folder and Tag records, their
  required fields, the unique `(name, userId)` index, the `toObject`
  transform, and the `$pull` that removes a reference from notes.
- `Store` (store.dfy) holds the document store as a class `Db`. It has three
  collections, each a map from id to record, and it keeps the unique indexes
  as its invariant. Its operations create one document or a batch, and find
  documents (optionally sorted).
- `NotesRoutes`, `TagsRoutes` and `FoldersRoutes` (notes_routes.dfy,
  tags_routes.dfy, folders_routes.dfy) hold one method or function per route
  handler and per helper of the router. Each takes the store, the caller's
  user id, the request fields and, where the store stamps documents, the
  current time `now`.

Where a handler as written fails its evident purpose, the model keeps the
handler as written. Beside it sits the evidently intended version, and a
lemma shows an input on which the two differ (see "## Findings").

## Model

| member | source | states |
|---|---|---|
| Common.StoreFailure | routes/tags.routes.js:72-78 | A duplicate key becomes a 400 with the router's message, and any other store error is passed on unchanged, each if and only if the error is of that kind. |
| Models.NewNote | models/note.js:5-11 | A note is created exactly when `title` is a non-empty string; otherwise the error is a missing `title`. The new note carries the given fields, with creation and update time both `now`. |
| Models.NewFolder | models/folder.js:3-7 | Built from a body's `name` and `userId` alone, a folder is created exactly when `name` is non-empty and `userId` is present (as any string: the ObjectId cast is not modelled). A missing `name` is reported before a missing `userId`. The new folder has no note ids, since no other body field is read. |
| Models.NewTag | routes/tags.routes.js:65 | `Tag.create({ userId, name })` succeeds exactly when the name is non-empty and an owner id is given (as any string: the ObjectId cast is not modelled), with the same error order as a folder. |
| Models.WriteKeepsUniqueIff | models/folder.js:9 | Writing a record under an id keeps the `(name, userId)` index satisfied if and only if no other document already has that key. |
| Models.SameNameUnderOtherUsers | models/folder.js:9 | The index is on the pair: a new document keeps it satisfied if and only if no document of its own user has its name. Documents of other users with that name do not matter. |
| Models.NoteFields | models/note.js:5-11 | A note's plain object has no `id`, `_id`, `__v` or `folderId` property. The schema has no `folderId` path. |
| Models.ToObject | models/note.js:14-20 | The transform sets `id` to the old `_id` (undefined when absent) and drops `_id` and `__v`. Every other property is kept unchanged, and no property is added besides `id`. |
| Models.ToObjectOfDocument | models/folder.js:11-17 | Applied to a stored document, `toObject` gives exactly its own fields plus `id` set to its id. |
| Models.ToObjectTwiceLosesId | models/note.js:14-20 | The transform is not idempotent: applied a second time, it leaves `id` undefined. |
| Models.Remove | routes/tags.routes.js:133-136 | `$pull` leaves no occurrence of the id, and everything left was in the list before. |
| Models.RemoveKeepsOthers | routes/tags.routes.js:133-136 | `$pull` keeps every other id exactly as many times as before. |
| Models.RemoveAbsent | routes/tags.routes.js:133-136 | Pulling an id the list does not hold changes nothing. |
| Models.RemoveOfConcat | routes/tags.routes.js:133-136 | `$pull` keeps order: pulling from a concatenation pulls from each part in turn. |
| Models.PullRefEffect | routes/tags.routes.js:133-136 | After `updateMany({ tags: id, userId }, { $pull })`, no note of that user refers to the id. Every note the filter did not select is unchanged. Every other reference keeps its count, and owners do not change. |
| Models.PullRefIdempotent | routes/tags.routes.js:133-136 | A second identical pull changes nothing. |
| Ordering.StrLeTotal | routes/tags.routes.js:18 | Any two names compare in the name order. |
| Ordering.StrLeTransitive | routes/tags.routes.js:18 | The name order is transitive. |
| Ordering.StrLeAntisymmetric | routes/tags.routes.js:18 | Two names that each precede the other are equal. |
| Ordering.ByName | routes/folders.routes.js:28 | `.sort('name')` compares documents by the name order, which is a total preorder. |
| Ordering.SortBy | routes/folders.routes.js:28 | Sorting returns a permutation of its input (same multiset) in the given order. |
| Ordering.SortByKeepsElements | routes/folders.routes.js:28 | Sorting keeps the length and exactly the elements of its input. |
| Store.Db.NewId | routes/notes.routes.js:251 | A new document id is used by no document in any collection. |
| Store.Db.InsertFolder | models/folder.js:3-9 | Saving one folder fails with the schema's error when a required field is missing. It fails with a duplicate key when the owner already has the name. Otherwise it adds exactly the new folder under a fresh id. Other collections and the index invariant are kept. |
| Store.Db.InsertTag | routes/tags.routes.js:65 | The same as `InsertFolder`, for one tag. |
| Store.BatchErrorIsFirstFailure | routes/folders.routes.js:13 | A batch rejects if and only if some draft does not save, and then with the error of the first draft that does not. A draft saves when it passes the schema and its `(name, userId)` is held neither before the batch nor by an earlier draft. |
| Store.BatchSavesIff | models/folder.js:3-9 | Every draft of a batch saves if and only if each passes the schema, none has a key held before the batch, and no two have the same key. |
| Store.DraftBatchSavesIff | models/folder.js:3-9 | With the folder and tag schemas, a batch saves in full if and only if every draft has a name and an owner id (not cast to an ObjectId), no draft's pair is held already, and no two drafts share one. |
| Store.OneDraftSaved | models/folder.js:3-9 | Saving one document is a batch of one: the store moves on as the save says, and the batch rejects exactly when the save fails, with its error. |
| Store.SavedDocsStored | routes/folders.routes.js:13-16 | The documents of a batch whose every save succeeded are new, are stored as their drafts made them, and have distinct ids. |
| Store.Db.CreateFolders | routes/folders.routes.js:13 | Every draft is saved in turn: the store ends as the old folders plus one new folder, under a fresh id, for each draft that saves. A draft that does not save leaves nothing behind. `Folder.create([])` resolves with no value. A non-empty batch resolves if and only if every draft saves, with one document per draft in order. Otherwise it rejects with the first failure, a duplicate key or a missing field. |
| Store.Db.CreateTags | routes/notes.routes.js:78 | The same as `CreateFolders`, for tags. |
| Store.Find | routes/notes.routes.js:175 | `find(filter)` returns every document that passes the filter, and nothing else, each once. |
| Store.FindSorted | routes/folders.routes.js:24-35 | `find(filter).sort(order)` returns the same documents, each once, in the given order. |
| NotesRoutes.PreExisting | routes/notes.routes.js:75 | The entries kept as they are all carry an `_id`, and there are no more of them than entries. |
| NotesRoutes.PreExistingMembers | routes/notes.routes.js:75 | An entry is kept if and only if it is in the list and has a truthy `_id`. |
| NotesRoutes.ToBeMade | routes/notes.routes.js:76 | The entries to create are no more than the entries. |
| NotesRoutes.ToBeMadeMembers | routes/notes.routes.js:76 | An entry is to be created if and only if it is in the list and has no truthy `_id`. |
| NotesRoutes.SplitKeepsEveryEntry | routes/notes.routes.js:75-76 | The two filters split the list: together they hold every entry exactly as often as the list does. |
| NotesRoutes.SplitLengths | routes/notes.routes.js:75-76 | The two parts are together as long as the list. |
| NotesRoutes.PreExistingOfConcat | routes/notes.routes.js:75 | The filter keeps input order: filtering a concatenation filters each part in turn. |
| NotesRoutes.ToBeMadeOfConcat | routes/notes.routes.js:76 | The same, for the entries to create. |
| NotesRoutes.AllExistingKeptAsIs | routes/notes.routes.js:69-96 | A list whose entries all have an `_id` is kept whole, and nothing is created for it. |
| NotesRoutes.FormattedReconciles | routes/notes.routes.js:79-88 | When `create` resolves with one document per entry without an `_id`, the result reconciles the list. The result is the kept entries unchanged and in order, then `{ _id, name }` of each new document, in order. Each new document did not exist before, exists after, and is built from its entry. |
| NotesRoutes.NothingMadeReconciles | routes/notes.routes.js:89-92 | When nothing is to be created and `create` resolves with no value, the kept entries alone reconcile the list. |
| NotesRoutes.AllExistingStoredAsIs | routes/notes.routes.js:69-96 | A reconciled list whose entries all have an `_id` is stored as exactly those ids. |
| NotesRoutes.SomethingMade | routes/notes.routes.js:69-96 | Reconciling a list with an entry that lacks an `_id` leaves a new document in the store. |
| NotesRoutes.NameOnlyEntryBlocks | routes/notes.routes.js:69-96 | An entry with neither `_id` nor `userId` can never be created, because the caller's id is not attached, so no list holding one is ever reconciled. |
| NotesRoutes.NewTagsSaveIff | routes/notes.routes.js:76-78 | The tag batch of a list saves in full if and only if every entry without an `_id` has a name and a `userId` (not cast to an ObjectId), names no tag already held under that pair, and shares its pair with no other such entry. |
| NotesRoutes.NewFoldersSaveIff | routes/notes.routes.js:16-18 | The same for the folder batch of a list. |
| NotesRoutes.CreateNonExistingTags | routes/notes.routes.js:69-96 | An absent list resolves with no value, and a non-array throws at `filter`. For an array (even an empty one), every entry without an `_id` that can be saved is saved. The call resolves with a reconciled list if and only if the whole batch saves, and otherwise rejects with the batch's first failure. Nothing is created when no entry lacks an `_id`. |
| NotesRoutes.CreateNonExistingFolders | routes/notes.routes.js:9-36 | The same as `CreateNonExistingTags`, against the folder store. |
| NotesRoutes.ReconcileRefs | routes/notes.routes.js:234-250 | Both reconcilers run before either result is used. The step fails if and only if a list is not an array or a batch rejects: first a non-array `tags`, then a non-array `folders`, then the tag batch's error, then the folder batch's. Each batch saves what it can either way. When both resolve, each list is stored as its reconciled ids and an absent list as none. |
| NotesRoutes.ValidateTagIds | routes/notes.routes.js:97-128 | As written, the validator rejects if and only if `tags` is not an array, with that message. |
| NotesRoutes.ValidateFolderIds | routes/notes.routes.js:37-67 | As written, the validator rejects if and only if `folders` is not an array, with that message. |
| NotesRoutes.MatchCountIff | routes/notes.routes.js:116-123 | The count check passes if and only if every id is owned by the user and no id repeats. |
| NotesRoutes.CheckOwnedIdsPassIff | routes/notes.routes.js:97-128 | The intended validator passes a list if and only if every `_id` is a valid ObjectId owned by the user and no id repeats. |
| NotesRoutes.ForeignTagSlipsThroughValidation | routes/notes.routes.js:108-127 | One valid tag id of another user passes the validator as written, while the intended check rejects it with "contains an invalid id". |
| NotesRoutes.PushNoteIdEffect | routes/notes.routes.js:130-148 | After the `$push` of a note id into each listed folder, each existing folder ends with the id appended once per time it is listed. Its name, owner and creation time are kept, and a folder not listed is unchanged. |
| NotesRoutes.PushTwiceListsTwice | routes/notes.routes.js:140 | `$push` is not `$addToSet`: running the update twice lists the note twice as often. |
| NotesRoutes.UpdateFoldersWithNoteIds | routes/notes.routes.js:130-148 | The folders become the result of pushing the note id into each listed folder in turn. Notes and tags are unchanged, and the answer has one element per listed folder. |
| NotesRoutes.FolderIdFieldNeverMatches | routes/notes.routes.js:167-169 | The `{ folderId }` filter matches no note. |
| NotesRoutes.NewestFirst | routes/notes.routes.js:178 | Newest-first by update time is a total preorder. |
| NotesRoutes.GetNotes | routes/notes.routes.js:156-185 | A non-ObjectId `tagId` fails the cast. Otherwise the answer is every note of the caller that passes the search, folder and tag filters, each once, most recently updated first. With a `folderId` it is empty. |
| NotesRoutes.GetNoteById | routes/notes.routes.js:191-215 | A malformed id is a 400 if and only if the id is malformed. The note is returned if and only if the caller owns it. Otherwise the request falls through. |
| NotesRoutes.PostNote | routes/notes.routes.js:222-264 | A missing title is a 400 and nothing changes. Otherwise the note is created if and only if both lists reconcile, and else the reconciling fault is passed on. Both batches save what they can either way. On success: the note is new and owned by the caller, with the given title and content, and both times `now`. Its tags and folders are the reconciled lists. Every existing folder gains the note id once per listing, and every listed folder then holds it. |
| NotesRoutes.PostNoteNeedsOwnedDrafts | routes/notes.routes.js:234-236 | A folder entry with no `_id` and no `userId` can never be stored on a new note. |
| NotesRoutes.PutNote | routes/notes.routes.js:267-307 | Missing tags and folders are created before the id is looked at. A reconciling fault is passed on. Once both lists reconcile, a malformed id fails the cast, an unknown id answers `null`, and a known id is replaced. The replacement takes the caller as owner, with no ownership check, and keeps its creation time. Folders' note ids are not touched. |
| NotesRoutes.PatchNote | routes/notes.routes.js:311-360 | As written: a 400 on a malformed id or missing title, and otherwise a reference error. The handler never answers with a note. |
| NotesRoutes.PatchNoteIntended | routes/notes.routes.js:311-360 | As intended: a malformed id, a missing title, or a folder the caller does not own is a 400. Then the tag check's rejection is a 400. When the check passes, the note is updated if and only if its id is stored, and otherwise the request falls through. The update changes only that note and stores exactly the given tag ids, all owned by the caller, none twice. |
| NotesRoutes.DeleteNote | routes/notes.routes.js:363-381 | A malformed id is a 400 and nothing changes. Otherwise the caller's note with that id is removed if it exists, nothing else changes, and the answer is 204. |
| TagsRoutes.GetTags | routes/tags.routes.js:14-25 | The answer is exactly the caller's tags, each once, in name order. |
| TagsRoutes.GetTagById | routes/tags.routes.js:28-50 | A malformed id is a 400 if and only if the id is malformed. The tag is returned if and only if the caller owns it. Otherwise the request falls through. |
| TagsRoutes.PostTagsSaveIff | routes/tags.routes.js:65-66 | A batch saves in full if and only if it is empty, or it has an owner id (not cast to an ObjectId), no empty name, no repeated name and no name the owner already uses. |
| TagsRoutes.PostTags | routes/tags.routes.js:53-79 | A body without a `tags` array throws and nothing changes. Otherwise every name that can be saved is saved. The answer is the created tags, in input order with distinct ids, if and only if every save succeeds. Otherwise a duplicate name is a 400 and a missing field is passed on. |
| TagsRoutes.PutTag | routes/tags.routes.js:82-118 | As written: every request throws a reference error before answering, and no tag is updated. |
| TagsRoutes.PutTagIntended | routes/tags.routes.js:82-118 | As intended: a malformed id or missing name is a 400, and an unknown id falls through. A name another of the caller's tags holds is a 400, if and only if that is the case. The tag is renamed and given to the caller if and only if none of these holds. |
| TagsRoutes.DeleteTag | routes/tags.routes.js:121-146 | A malformed id is a 400 and nothing changes. Otherwise the caller's tag is removed if it exists, and the caller's notes are pulled of the id. The answer is 204. |
| TagsRoutes.DeleteTagLeavesNoReference | routes/tags.routes.js:131-136 | After the delete, no note of the caller refers to the tag, and other users' notes are unchanged. |
| FoldersRoutes.GetFolders | routes/folders.routes.js:24-35 | The answer is exactly the caller's folders, each once, in name order. |
| FoldersRoutes.GetFolderById | routes/folders.routes.js:38-59 | A malformed id is a 400 if and only if the id is malformed. The folder is returned if and only if the caller owns it. Otherwise the request falls through. |
| FoldersRoutes.BodySavesIff | routes/folders.routes.js:13 | A POST /folders body saves in full if and only if every draft has a name and an owner id (not cast to an ObjectId), no draft's pair is held already, and no two drafts share one. |
| FoldersRoutes.CreateFolderList | routes/folders.routes.js:10-18 | Every draft of the body that can be saved is saved. The call rejects if and only if some draft does not save, with the first failure. One object gives a one-element list. An array gives its new folders in order, with distinct ids. An empty array gives a list holding one `undefined`. Existing folders are kept. |
| FoldersRoutes.PostFolders | routes/folders.routes.js:62-81 | Every folder of the body that can be saved is saved. The answer is the list if and only if every save succeeds. Otherwise a duplicate name is a 400, and a missing field is passed on as a store fault. The created folders are owned by whatever `userId` each object names. |
| FoldersRoutes.PutFolder | routes/folders.routes.js:84-118 | A malformed id or missing name is a 400, and an unknown id falls through. A name another of the caller's folders holds is a 400, if and only if that is the case. The folder is renamed and given to the caller, keeping its notes and creation time, if and only if none of these holds. |
| FoldersRoutes.UnsetFolderIdChangesNothing | routes/folders.routes.js:134-138 | The `$unset` of `folderId` selects no note and changes nothing. |
| FoldersRoutes.DeleteFolder | routes/folders.routes.js:121-150 | As written: a malformed id is a 400. Otherwise the caller's folder is removed if it exists, no note changes, and the answer is 204. |
| FoldersRoutes.DeleteFolderIntended | routes/folders.routes.js:121-150 | As intended: the caller's notes are also pulled of the folder id, as DELETE /tags/:id does. |
| FoldersRoutes.DeletedFolderStaysReferenced | routes/folders.routes.js:134-138 | A note of the caller listing the folder still lists it after the delete as written, and does not after the intended one. |

## Left out

- Authentication (passport's JWT strategy) is left out: the caller's user id is an input to every handler.
- Console logging, Express routing and the application's error handler in `server.js` are left out. An error passed on without a status is an `Unhandled` answer, and its wire status is not modelled.
- `.populate('tags')` and `.populate('folders')` are left out: answers carry stored ids rather than the populated documents.
- Time is left out: the time the store stamps on a document is the parameter `now`.
- Concurrency is left out: each `Promise.all` is modelled as its calls in program order.
- The Tag schema file (`models/tag.js`) is not part of this model. The Tag record is taken to require `name` and `userId` and to be unique on that pair, as the folder schema is.
- `res.json` serialises with `toJSON`, which has no transform here. `Models.ToObject` models the `toObject` transform on its own and is not applied to answers.
- `tags === []` and `folders === []` never hold in JavaScript, so an empty list goes to `create`. The model does the same.
- The `userId` argument the note handlers pass to the reconcilers is ignored by them, so it is not an input of the model.
- Store failures not caused by the request (a lost connection, for instance) are left out.
- Models.NewFolder: does not model the ObjectId cast of `userId`, so an owner such as `"bob"` is accepted where the store would reject the save with a cast error. It also reads only `name` and `userId` from a POST /folders body or a reconciled entry: other body fields (`noteIds`, `_id`, timestamps) are not modelled, so a new folder always starts with no note ids and a fresh id. The batch iffs built on it (`Store.DraftBatchSavesIff`, `NotesRoutes.NewFoldersSaveIff`, `FoldersRoutes.BodySavesIff`) inherit this.
- Models.NewTag: does not model the ObjectId cast of `userId` either, for POST /tags and for the tag reconciler; `TagsRoutes.PostTagsSaveIff` and `NotesRoutes.NewTagsSaveIff` inherit this. Other fields of a reconciled tag entry are not read.
- NotesRoutes.UpdateFoldersWithNoteIds: does not model the `upsert: true` option. A listed folder id with no folder is skipped, whereas the store would insert a folder document holding only that id and the note id.
- NotesRoutes.PushNoteId: skips a listed id that names no folder, for the same reason.
- NotesRoutes.PostNote: does not model the cast error `Note.create` raises when a kept entry's `_id` is not a valid ObjectId. The id is stored as given.
- NotesRoutes.PutNote: does not model that cast error either, and drops the `id` field of the update document, which the schema would ignore.
- NotesRoutes.ReconcileRefs: reports a tag rejection before a folder rejection. The source reports whichever settles first.
- TagsRoutes.PostTags: issues the saves in input order and reports the first failure in input order. The source issues them concurrently and reports whichever rejection settles first.
- Store.Db.CreateFolders: saves the drafts in input order, so of two drafts with the same name and owner the later one fails, and the first failure is reported in input order. `create` on an array saves concurrently, and its rejection is whichever settles first.
- Store.Db.CreateTags: uses the same order, for the same reason.
- Store.Db.NewId: promises only an id no document uses, not a 24-digit hexadecimal ObjectId. Ids are compared as the strings stored, so `IsValidObjectId` applies to request ids only.
- NotesRoutes.GetNotes: reads `$regex: searchTerm` as a plain substring search. Regular-expression syntax in the term is not modelled.
- Ordering.StrLe: compares names character by character, which is the store's default binary order. Collations are not modelled.

## Findings

| source | as written | input that shows it | evidently intended | confidence | as-written member | corrected member |
|---|---|---|---|---|---|---|
| routes/tags.routes.js:84-89 | PUT /tags/:id reads the route parameter into `_id` and then validates an undeclared `id`, which throws a reference error on every request. | any PUT /tags/:id request | validate and update the tag named by the `:id` parameter, as PUT /folders/:id does | high; not executed | TagsRoutes.PutTag | TagsRoutes.PutTagIntended |
| routes/notes.routes.js:97-128 | The 400s raised inside `forEach` are dropped, and the count mismatch is swallowed by the trailing `catch`, so only a non-array is ever rejected. The same holds for lines 37-67. | `tags: [{ _id: <valid id of another user's tag> }]` | reject invalid, foreign or repeated ids with a 400 | high; not executed | NotesRoutes.ForeignTagSlipsThroughValidation | NotesRoutes.CheckOwnedIdsPassIff |
| routes/notes.routes.js:335 | PATCH /notes/:id calls `validateFolderId`, which is not defined, so every request with a valid id and title throws. | PATCH with a valid id and a non-empty title | check that the folder belongs to the caller and the tags pass validation, then update the note | high; not executed | NotesRoutes.PatchNote | NotesRoutes.PatchNoteIntended |
| routes/folders.routes.js:134-138 | DELETE /folders/:id unsets a `folderId` path that the note schema does not have, so no note changes and notes keep referring to the deleted folder. | a note of the caller whose `folders` holds the deleted folder's id | pull the folder id from the caller's notes' `folders`, as DELETE /tags/:id does for tags | medium; not executed | FoldersRoutes.DeletedFolderStaysReferenced | FoldersRoutes.DeleteFolderIntended |
