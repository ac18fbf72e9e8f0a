/** The tags router (routes/tags.routes.js): list, read, batch create,
    rename and delete, with the `$pull` of a deleted tag from its owner's
    notes. */
module TagsRoutes {
  import opened Common
  import opened Models
  import opened Ordering
  import opened Store

  function TagName(d: Doc<Tag>): string {
    d.record.name
  }

  /** GET /tags: the caller's tags, each once, in name order. */
  method GetTags(db: Db, userId: UserId) returns (resp: Response<seq<Doc<Tag>>>)
    ensures resp.Json?
    ensures forall d :: d in resp.body <==> d.id in db.tags && d.record == db.tags[d.id] && d.record.userId == userId
    ensures Distinct(resp.body)
    ensures SortedBy(resp.body, ByName(TagName))
  {
    var ds := FindSorted(db.tags, (t: Tag) => t.userId == userId, ByName(TagName));
    resp := Json(ds);
  }

  /** GET /tags/:id: 400 on a malformed id, the tag when the caller owns it,
      otherwise fall through. */
  function GetTagById(db: Db, userId: UserId, id: string): (resp: Response<Doc<Tag>>)
    reads db
    ensures resp == BadRequest("The `id` is not valid") <==> !IsValidObjectId(id)
    ensures resp.Json? <==> IsValidObjectId(id) && id in db.tags && db.tags[id].userId == userId
    ensures resp.Json? ==> resp.body == Doc(id, db.tags[id])
    ensures resp == FallThrough <==> IsValidObjectId(id) && !(id in db.tags && db.tags[id].userId == userId)
  {
    if !IsValidObjectId(id) then BadRequest("The `id` is not valid")
    else if id in db.tags && db.tags[id].userId == userId then Json(Doc(id, db.tags[id]))
    else FallThrough
  }

  // ---------------------------------------------------------------------------
  // POST /tags

  /** The drafts of a POST /tags batch: each name, with the owner taken
      from the body. */
  function NameDrafts(names: seq<string>, userId: Option<UserId>): (ds: seq<Draft>)
    ensures |ds| == |names|
    ensures forall i :: 0 <= i < |names| ==> ds[i] == Draft(Some(names[i]), userId)
  {
    seq(|names|, i requires 0 <= i < |names| => Draft(Some(names[i]), userId))
  }

  /** What the saves of a POST /tags batch make of its names. */
  function TagsMade(names: seq<string>, userId: Option<UserId>): seq<Result<Tag>> {
    Made(NameDrafts(names, userId), NewTag)
  }

  /** The first failure of a POST /tags batch, in input order, if any. */
  function PostTagsError(tags: map<Id, Tag>, names: seq<string>, userId: Option<UserId>): Option<StoreError> {
    BatchError(KeysOf(tags, TagKey), TagsMade(names, userId), TagKey)
  }

  /** A batch saves in full if and only if it is empty, or has an owner, no
      empty name, no repeated name and no name the owner already uses. */
  lemma PostTagsSaveIff(tags: map<Id, Tag>, names: seq<string>, userId: Option<UserId>)
    ensures PostTagsError(tags, names, userId).None? <==>
              names == [] ||
              (&& userId.Some?
               && (forall n :: n in names ==> n != "" && !NameTaken(tags, TagKey, (n, userId.value)))
               && Distinct(names))
  {
    var made := TagsMade(names, userId);
    var taken := KeysOf(tags, TagKey);
    BatchSavesIff(taken, made, TagKey);
    if names != [] && PostTagsError(tags, names, userId).None? {
      assert made[0].Ok?;
      forall n | n in names ensures n != "" && !NameTaken(tags, TagKey, (n, userId.value)) {
        var i :| 0 <= i < |names| && names[i] == n;
        assert made[i].Ok? && TagKey(made[i].value) !in taken;
        InKeysOf(tags, TagKey, (n, userId.value));
      }
      forall i, j | 0 <= i < j < |names| ensures names[i] != names[j] {
        assert TagKey(made[i].value) != TagKey(made[j].value);
      }
    }
    if names != [] && userId.Some? && Distinct(names) &&
       (forall n :: n in names ==> n != "" && !NameTaken(tags, TagKey, (n, userId.value))) {
      forall i | 0 <= i < |made| ensures made[i].Ok? && TagKey(made[i].value) !in taken {
        assert names[i] in names;
        InKeysOf(tags, TagKey, (names[i], userId.value));
      }
    }
  }

  /** POST /tags: one `Tag.create({ userId, name })` per name of
      `req.body.tags`, all issued at once, with the owner taken from the
      body. Every name that can be saved is saved. The answer is the created
      tags in input order when every save succeeds, else the first failure
      (in input order here), a duplicate name becoming a 400. A body without
      a `tags` array throws. */
  method PostTags(db: Db, names: Option<seq<string>>, userId: Option<UserId>) returns (resp: Response<seq<Doc<Tag>>>)
    requires db.Valid()
    modifies db
    ensures db.Valid()
    ensures db.notes == old(db.notes) && db.folders == old(db.folders)
    ensures names.None? ==> resp == Unhandled(TypeError("tagArray.map")) && db.tags == old(db.tags)
    ensures names.Some? ==> BatchApplied(old(db.tags), db.tags, TagsMade(names.value, userId), TagKey)
    ensures names.Some? ==> (resp.Json? <==> PostTagsError(old(db.tags), names.value, userId).None?)
    ensures names.Some? && !resp.Json? ==>
              resp == StoreFailure(PostTagsError(old(db.tags), names.value, userId).value, "Tag name already exists")
    ensures resp.Json? ==>
              && names.Some? && |resp.body| == |names.value|
              && (forall i :: 0 <= i < |names.value| ==>
                    && userId.Some? && resp.body[i].record == Tag(names.value[i], userId.value)
                    && resp.body[i].id !in old(db.tags)
                    && resp.body[i].id in db.tags && db.tags[resp.body[i].id] == resp.body[i].record)
              && Distinct(resp.body)
  {
    if names.None? {
      return Unhandled(TypeError("tagArray.map"));
    }
    if names.value == [] {
      EmptyBatch(db.tags, TagKey);
      return Json([]);
    }
    var r, ids := db.CreateTags(NameDrafts(names.value, userId));
    if r.Err? {
      return StoreFailure(r.error, "Tag name already exists");
    }
    var docs := r.value.value;
    forall i | 0 <= i < |names.value|
      ensures userId.Some? && docs[i].record == Tag(names.value[i], userId.value)
      ensures docs[i].id !in old(db.tags) && docs[i].id in db.tags && db.tags[docs[i].id] == docs[i].record
    {
      assert ids[i] == Some(docs[i].id);
    }
    forall i, j | 0 <= i < j < |docs| ensures docs[i] != docs[j] {
      assert ids[i] == Some(docs[i].id) && ids[j] == Some(docs[j].id);
    }
    resp := Json(docs);
  }

  // ---------------------------------------------------------------------------
  // PUT /tags/:id

  /** PUT /tags/:id as written: the handler reads the route parameter into
      `_id` but validates an undeclared `id`, so it throws on every request
      before answering, and never updates a tag. */
  function PutTag(id: string, name: Option<string>): (resp: Response<Doc<Tag>>)
    ensures !resp.Json? && !resp.BadRequest?
    ensures resp.Unhandled? && resp.fault.ReferenceError?
  {
    Unhandled(ReferenceError("id"))
  }

  /** PUT /tags/:id as evidently intended: 400 on a malformed id or a missing
      name; otherwise the tag with that id, whoever owns it, is renamed and
      given to the caller, unless another tag of the caller already has the
      name; an unknown id falls through. */
  method PutTagIntended(db: Db, userId: UserId, id: string, name: Option<string>) returns (resp: Response<Doc<Tag>>)
    requires db.Valid()
    modifies db
    ensures db.Valid()
    ensures db.notes == old(db.notes) && db.folders == old(db.folders)
    ensures !IsValidObjectId(id) ==> resp == BadRequest("The `id` is not valid")
    ensures IsValidObjectId(id) && !Truthy(name) ==> resp == BadRequest("Missing `name` in request body")
    ensures IsValidObjectId(id) && Truthy(name) && id !in old(db.tags) ==> resp == FallThrough
    ensures IsValidObjectId(id) && Truthy(name) && id in old(db.tags) ==>
              (resp == BadRequest("Tag name already exists") <==> NameTakenByOther(old(db.tags), TagKey, id, (name.value, userId)))
    ensures resp.Json? <==>
              && IsValidObjectId(id) && Truthy(name) && id in old(db.tags)
              && !NameTakenByOther(old(db.tags), TagKey, id, (name.value, userId))
    ensures !resp.Json? ==> db.tags == old(db.tags)
    ensures resp.Json? ==>
              && resp.body == Doc(id, Tag(name.value, userId))
              && db.tags == old(db.tags)[id := Tag(name.value, userId)]
  {
    if !IsValidObjectId(id) {
      return BadRequest("The `id` is not valid");
    }
    if !Truthy(name) {
      return BadRequest("Missing `name` in request body");
    }
    if id !in db.tags {
      return FallThrough;
    }
    var updated := Tag(name.value, userId);
    WriteKeepsUniqueIff(db.tags, TagKey, id, updated);
    if NameTakenByOther(db.tags, TagKey, id, TagKey(updated)) {
      return BadRequest("Tag name already exists");
    }
    db.tags := db.tags[id := updated];
    resp := Json(Doc(id, updated));
  }

  // ---------------------------------------------------------------------------
  // DELETE /tags/:id

  /** DELETE /tags/:id: 400 on a malformed id; otherwise the caller's tag is
      removed if there is one, every note of the caller loses every reference
      to the id, and the answer is 204. Folders are not touched. */
  method DeleteTag(db: Db, userId: UserId, id: string, now: int) returns (resp: Response<()>)
    requires db.Valid()
    modifies db
    ensures db.Valid()
    ensures db.folders == old(db.folders)
    ensures !IsValidObjectId(id) ==> resp == BadRequest("The `id` is not valid") && db.tags == old(db.tags) && db.notes == old(db.notes)
    ensures IsValidObjectId(id) ==> resp == NoContent
    ensures IsValidObjectId(id) ==> db.notes == PullRef(old(db.notes), TagsField, id, userId, now)
    ensures IsValidObjectId(id) && id in old(db.tags) && old(db.tags)[id].userId == userId
            ==> db.tags == old(db.tags) - {id}
    ensures !(IsValidObjectId(id) && id in old(db.tags) && old(db.tags)[id].userId == userId)
            ==> db.tags == old(db.tags)
  {
    if !IsValidObjectId(id) {
      return BadRequest("The `id` is not valid");
    }
    if id in db.tags && db.tags[id].userId == userId {
      db.tags := db.tags - {id};
    }
    db.notes := PullRef(db.notes, TagsField, id, userId, now);
    resp := NoContent;
  }

  /** After DELETE /tags/:id no note of the caller refers to the tag, and
      every note of another user is exactly as it was. */
  lemma DeleteTagLeavesNoReference(notes: map<Id, Note>, userId: UserId, id: Id, now: int)
    ensures forall k :: k in notes && notes[k].userId == userId ==>
              id !in PullRef(notes, TagsField, id, userId, now)[k].tags
    ensures forall k :: k in notes && notes[k].userId != userId ==>
              PullRef(notes, TagsField, id, userId, now)[k] == notes[k]
  {
    PullRefEffect(notes, TagsField, id, userId, now);
  }
}
