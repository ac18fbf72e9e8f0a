/** The folders router (routes/folders.routes.js): list, read, create from
    a request body, rename and delete, with the cascade a deleted folder
    causes on notes. */
module FoldersRoutes {
  import opened Common
  import opened Models
  import opened Ordering
  import opened Store

  function FolderName(d: Doc<Folder>): string {
    d.record.name
  }

  /** GET /folders: the caller's folders, each once, in name order. */
  method GetFolders(db: Db, userId: UserId) returns (resp: Response<seq<Doc<Folder>>>)
    ensures resp.Json?
    ensures forall d :: d in resp.body <==> d.id in db.folders && d.record == db.folders[d.id] && d.record.userId == userId
    ensures Distinct(resp.body)
    ensures SortedBy(resp.body, ByName(FolderName))
  {
    var ds := FindSorted(db.folders, (f: Folder) => f.userId == userId, ByName(FolderName));
    resp := Json(ds);
  }

  /** GET /folders/:id: 400 on a malformed id, the folder when the caller
      owns it, otherwise fall through. */
  function GetFolderById(db: Db, userId: UserId, id: string): (resp: Response<Doc<Folder>>)
    reads db
    ensures resp == BadRequest("The `id` is not valid") <==> !IsValidObjectId(id)
    ensures resp.Json? <==> IsValidObjectId(id) && id in db.folders && db.folders[id].userId == userId
    ensures resp.Json? ==> resp.body == Doc(id, db.folders[id])
    ensures resp == FallThrough <==> IsValidObjectId(id) && !(id in db.folders && db.folders[id].userId == userId)
  {
    if !IsValidObjectId(id) then BadRequest("The `id` is not valid")
    else if id in db.folders && db.folders[id].userId == userId then Json(Doc(id, db.folders[id]))
    else FallThrough
  }

  // ---------------------------------------------------------------------------
  // POST /folders

  /** The request body of POST /folders is handed to `Folder.create` as it
      is: one folder object, or an array of them. */
  datatype FolderBody = Single(draft: Draft) | Batch(drafts: seq<Draft>)

  /** The drafts of a body, in order. */
  function BodyDrafts(body: FolderBody): (ds: seq<Draft>)
    ensures body.Single? ==> ds == [body.draft]
    ensures body.Batch? ==> ds == body.drafts
  {
    match body
    case Single(d) => [d]
    case Batch(ds) => ds
  }

  /** What `Folder.create` makes of the drafts of a body at time `now`. */
  function FoldersMade(body: FolderBody, now: int): seq<Result<Folder>> {
    Made(BodyDrafts(body), FolderMaker(now))
  }

  /** The first failure of the saves of a body, in input order, if any. */
  function BodyError(folders: map<Id, Folder>, body: FolderBody, now: int): Option<StoreError> {
    BatchError(KeysOf(folders, FolderKey), FoldersMade(body, now), FolderKey)
  }

  /** A body saves in full if and only if every draft has a name and an
      owner, no draft's (name, owner) pair is already held, and no two
      drafts share one. */
  lemma BodySavesIff(folders: map<Id, Folder>, body: FolderBody, now: int)
    ensures var ds := BodyDrafts(body);
      BodyError(folders, body, now).None? <==>
        && (forall i :: 0 <= i < |ds| ==>
              Truthy(ds[i].name) && ds[i].userId.Some? &&
              !NameTaken(folders, FolderKey, (ds[i].name.value, ds[i].userId.value)))
        && (forall i, j :: 0 <= i < j < |ds| ==> (ds[i].name, ds[i].userId) != (ds[j].name, ds[j].userId))
  {
    DraftBatchSavesIff(folders, BodyDrafts(body), FolderMaker(now), FolderKey);
  }

  /** The documents of a list, each a defined element. */
  function Defined<T>(xs: seq<T>): (r: seq<Option<T>>)
    ensures |r| == |xs| && forall i :: 0 <= i < |xs| ==> r[i] == Some(xs[i])
  {
    if xs == [] then [] else [Some(xs[0])] + Defined(xs[1..])
  }

  /** createFolders: `Folder.create(body)` and then `[].concat(res)`. One
      object gives a one-element list; an array gives its documents in
      order; an empty array resolves with no value, which `concat` turns
      into a list holding one `undefined`. Every draft that can be saved is
      saved, and the call rejects with the first failure. */
  method CreateFolderList(db: Db, body: FolderBody, now: int) returns (r: Result<seq<Option<Doc<Folder>>>>)
    requires db.Valid()
    modifies db
    ensures db.Valid()
    ensures db.notes == old(db.notes) && db.tags == old(db.tags)
    ensures BatchApplied(old(db.folders), db.folders, FoldersMade(body, now), FolderKey)
    ensures r.Err? <==> BodyError(old(db.folders), body, now).Some?
    ensures r.Err? ==> Some(r.error) == BodyError(old(db.folders), body, now)
    ensures body == Batch([]) ==> r == Ok([None]) && db.folders == old(db.folders)
    ensures r.Err? ==> r.error.DuplicateKey? || r.error.MissingRequired?
    ensures body.Single? ==>
              (r.Ok? <==> NewFolder(body.draft, now).Ok? &&
                          !NameTaken(old(db.folders), FolderKey, FolderKey(NewFolder(body.draft, now).value)))
    ensures body.Single? && NewFolder(body.draft, now).Err? ==> r == Err(NewFolder(body.draft, now).error)
    ensures body.Single? && NewFolder(body.draft, now).Ok? &&
            NameTaken(old(db.folders), FolderKey, FolderKey(NewFolder(body.draft, now).value))
            ==> r == Err(DuplicateKey)
    ensures r.Ok? && body.Single? ==>
              && |r.value| == 1 && r.value[0].Some?
              && r.value[0].value.id !in old(db.folders)
              && r.value[0].value.record == NewFolder(body.draft, now).value
              && db.folders == old(db.folders)[r.value[0].value.id := r.value[0].value.record]
    ensures r.Ok? && body.Batch? && body.drafts != [] ==>
              && |r.value| == |body.drafts|
              && (forall i :: 0 <= i < |r.value| ==>
                   && r.value[i].Some?
                   && r.value[i].value.id !in old(db.folders)
                   && r.value[i].value.id in db.folders
                   && db.folders[r.value[i].value.id] == r.value[i].value.record
                   && NewFolder(body.drafts[i], now) == Ok(r.value[i].value.record))
              && (forall i, j :: 0 <= i < j < |r.value| ==> r.value[i].value.id != r.value[j].value.id)
  {
    match body
    case Single(d) =>
      ghost var before := db.folders;
      var saved := db.InsertFolder(d, now);
      assert FoldersMade(body, now) == [NewFolder(d, now)];
      OneDraftSaved(before, db.folders, NewFolder(d, now), FolderKey, saved);
      if saved.Err? {
        return Err(saved.error);
      }
      r := Ok([Some(Doc(saved.value, db.folders[saved.value]))]);
    case Batch(ds) =>
      var res, ids := db.CreateFolders(ds, now);
      assert |ids| == |FoldersMade(body, now)|;
      if res.Err? {
        return Err(res.error);
      }
      if res.value.None? {
        return Ok([None]);
      }
      var docs := res.value.value;
      SavedDocsStored(old(db.folders), db.folders, FoldersMade(body, now), FolderKey, ids, docs);
      r := Ok(Defined(docs));
  }

  /** POST /folders: the created folders, owned by whatever `userId` each
      object of the body names (not the caller). Every folder that can be
      saved is saved; the answer is the list when every save succeeds, else
      the first failure, a duplicate name answering 400 and any other store
      error going on unchanged. */
  method PostFolders(db: Db, body: FolderBody, now: int) returns (resp: Response<seq<Option<Doc<Folder>>>>)
    requires db.Valid()
    modifies db
    ensures db.Valid()
    ensures db.notes == old(db.notes) && db.tags == old(db.tags)
    ensures BatchApplied(old(db.folders), db.folders, FoldersMade(body, now), FolderKey)
    ensures resp.Json? <==> BodyError(old(db.folders), body, now).None?
    ensures !resp.Json? ==> resp == StoreFailure(BodyError(old(db.folders), body, now).value, "Folder name already exists")
    ensures body == Batch([]) ==> resp == Json([None])
    ensures body.Single? && NewFolder(body.draft, now).Ok? &&
            NameTaken(old(db.folders), FolderKey, FolderKey(NewFolder(body.draft, now).value))
            ==> resp == BadRequest("Folder name already exists")
    ensures body.Single? && NewFolder(body.draft, now).Err? ==> resp == Unhandled(StoreFault(NewFolder(body.draft, now).error))
    ensures !resp.Json? ==>
              resp == BadRequest("Folder name already exists") || (resp.Unhandled? && resp.fault.StoreFault? && resp.fault.error.MissingRequired?)
    ensures resp.Json? && body.Single? ==>
              && |resp.body| == 1 && resp.body[0].Some?
              && resp.body[0].value.id !in old(db.folders)
              && resp.body[0].value.record == NewFolder(body.draft, now).value
              && db.folders == old(db.folders)[resp.body[0].value.id := resp.body[0].value.record]
    ensures resp.Json? && body.Batch? && body.drafts != [] ==>
              && |resp.body| == |body.drafts|
              && (forall i :: 0 <= i < |resp.body| ==>
                   && resp.body[i].Some?
                   && resp.body[i].value.id !in old(db.folders)
                   && resp.body[i].value.id in db.folders
                   && db.folders[resp.body[i].value.id] == resp.body[i].value.record
                   && NewFolder(body.drafts[i], now) == Ok(resp.body[i].value.record))
              && (forall i, j :: 0 <= i < j < |resp.body| ==> resp.body[i].value.id != resp.body[j].value.id)
  {
    var created := CreateFolderList(db, body, now);
    if created.Err? {
      return StoreFailure(created.error, "Folder name already exists");
    }
    resp := Json(created.value);
  }

  // ---------------------------------------------------------------------------
  // PUT /folders/:id

  /** PUT /folders/:id: 400 on a malformed id or a missing name; otherwise the
      folder with that id, whoever owns it, is renamed and given to the
      caller (its notes and creation time stay), unless another folder of the
      caller already has the name; an unknown id falls through. */
  method PutFolder(db: Db, userId: UserId, id: string, name: Option<string>, now: int) returns (resp: Response<Doc<Folder>>)
    requires db.Valid()
    modifies db
    ensures db.Valid()
    ensures db.notes == old(db.notes) && db.tags == old(db.tags)
    ensures !IsValidObjectId(id) ==> resp == BadRequest("The `id` is not valid")
    ensures IsValidObjectId(id) && !Truthy(name) ==> resp == BadRequest("Missing `name` in request body")
    ensures IsValidObjectId(id) && Truthy(name) && id !in old(db.folders) ==> resp == FallThrough
    ensures IsValidObjectId(id) && Truthy(name) && id in old(db.folders) ==>
              (resp == BadRequest("Folder name already exists") <==> NameTakenByOther(old(db.folders), FolderKey, id, (name.value, userId)))
    ensures resp.Json? <==>
              && IsValidObjectId(id) && Truthy(name) && id in old(db.folders)
              && !NameTakenByOther(old(db.folders), FolderKey, id, (name.value, userId))
    ensures !resp.Json? ==> db.folders == old(db.folders)
    ensures resp.Json? ==>
              && resp.body.id == id && id in old(db.folders)
              && resp.body.record == old(db.folders)[id].(name := name.value, userId := userId, updatedAt := now)
              && db.folders == old(db.folders)[id := resp.body.record]
  {
    if !IsValidObjectId(id) {
      return BadRequest("The `id` is not valid");
    }
    if !Truthy(name) {
      return BadRequest("Missing `name` in request body");
    }
    if id !in db.folders {
      return FallThrough;
    }
    var updated := db.folders[id].(name := name.value, userId := userId, updatedAt := now);
    WriteKeepsUniqueIff(db.folders, FolderKey, id, updated);
    if NameTakenByOther(db.folders, FolderKey, id, FolderKey(updated)) {
      return BadRequest("Folder name already exists");
    }
    db.folders := db.folders[id := updated];
    resp := Json(Doc(id, updated));
  }

  // ---------------------------------------------------------------------------
  // DELETE /folders/:id

  /** `Note.updateMany({ folderId: id, userId }, { $unset: { folderId: '' } },
      { strict: false })`: the selected notes lose a `folderId` property and
      are stamped with the update time. */
  function UnsetFolderIdWhere(notes: map<Id, Note>, id: Id, userId: UserId, now: int): (r: map<Id, Note>)
    ensures r.Keys == notes.Keys
  {
    map k | k in notes ::
      if notes[k].userId == userId && Get(NoteFields(notes[k]), "folderId") == Str(id)
      then notes[k].(updatedAt := now)
      else notes[k]
  }

  /** A note has no `folderId` property, so that update selects nothing and
      every note stays exactly as it was. */
  lemma UnsetFolderIdChangesNothing(notes: map<Id, Note>, id: Id, userId: UserId, now: int)
    ensures UnsetFolderIdWhere(notes, id, userId, now) == notes
  {
    var r := UnsetFolderIdWhere(notes, id, userId, now);
    forall k | k in notes ensures r[k] == notes[k] {
      assert "folderId" !in NoteFields(notes[k]);
    }
  }

  /** DELETE /folders/:id as written: 400 on a malformed id; otherwise the
      caller's folder is removed if there is one, the notes update selects
      nothing, and the answer is 204. */
  method DeleteFolder(db: Db, userId: UserId, id: string, now: int) returns (resp: Response<()>)
    modifies db
    ensures db.tags == old(db.tags)
    ensures db.notes == old(db.notes)
    ensures !IsValidObjectId(id) ==> resp == BadRequest("The `id` is not valid") && db.folders == old(db.folders)
    ensures IsValidObjectId(id) ==> resp == NoContent
    ensures IsValidObjectId(id) && id in old(db.folders) && old(db.folders)[id].userId == userId
            ==> db.folders == old(db.folders) - {id}
    ensures !(IsValidObjectId(id) && id in old(db.folders) && old(db.folders)[id].userId == userId)
            ==> db.folders == old(db.folders)
  {
    if !IsValidObjectId(id) {
      return BadRequest("The `id` is not valid");
    }
    if id in db.folders && db.folders[id].userId == userId {
      db.folders := db.folders - {id};
    }
    UnsetFolderIdChangesNothing(db.notes, id, userId, now);
    db.notes := UnsetFolderIdWhere(db.notes, id, userId, now);
    resp := NoContent;
  }

  /** DELETE /folders/:id as evidently intended: the caller's notes lose
      every reference to the folder through their `folders` list, as
      DELETE /tags/:id does for tags. */
  method DeleteFolderIntended(db: Db, userId: UserId, id: string, now: int) returns (resp: Response<()>)
    requires db.Valid()
    modifies db
    ensures db.Valid()
    ensures db.tags == old(db.tags)
    ensures !IsValidObjectId(id) ==>
              resp == BadRequest("The `id` is not valid") && db.folders == old(db.folders) && db.notes == old(db.notes)
    ensures IsValidObjectId(id) ==> resp == NoContent
    ensures IsValidObjectId(id) ==> db.notes == PullRef(old(db.notes), FoldersField, id, userId, now)
    ensures IsValidObjectId(id) && id in old(db.folders) && old(db.folders)[id].userId == userId
            ==> db.folders == old(db.folders) - {id}
    ensures !(IsValidObjectId(id) && id in old(db.folders) && old(db.folders)[id].userId == userId)
            ==> db.folders == old(db.folders)
  {
    if !IsValidObjectId(id) {
      return BadRequest("The `id` is not valid");
    }
    if id in db.folders && db.folders[id].userId == userId {
      db.folders := db.folders - {id};
    }
    db.notes := PullRef(db.notes, FoldersField, id, userId, now);
    resp := NoContent;
  }

  /** The difference between the two: a note of the caller that lists the
      folder keeps listing it after the delete as written, and does not after
      the intended one. */
  lemma DeletedFolderStaysReferenced(notes: map<Id, Note>, id: Id, userId: UserId, now: int, k: Id)
    requires k in notes && notes[k].userId == userId && id in notes[k].folders
    ensures id in UnsetFolderIdWhere(notes, id, userId, now)[k].folders
    ensures id !in PullRef(notes, FoldersField, id, userId, now)[k].folders
  {
    UnsetFolderIdChangesNothing(notes, id, userId, now);
    PullRefEffect(notes, FoldersField, id, userId, now);
  }
}
