/** The three record kinds of the store (models/note.js, models/folder.js and
    the Tag record the routes use), the schema rules the store enforces when a
    document is created, the (name, userId) uniqueness index, and the
    `toObject` transform that renames `_id` to `id`. */
module Models {
  import opened Common

  /** A note (models/note.js). `title` and `content` are optional here because
      an update by id writes them without running the schema's validators. */
  datatype Note = Note(
    title: Option<string>,
    content: Option<string>,
    folders: seq<Id>,
    tags: seq<Id>,
    userId: UserId,
    createdAt: int,
    updatedAt: int)

  /** A folder (models/folder.js); `noteIds` is the inverse index of notes. */
  datatype Folder = Folder(
    name: string,
    userId: UserId,
    noteIds: seq<Id>,
    createdAt: int,
    updatedAt: int)

  /** A tag: a name owned by a user. */
  datatype Tag = Tag(name: string, userId: UserId)

  /** A stored document: its id and its record. */
  datatype Doc<R> = Doc(id: Id, record: R)

  /** The fields of what a client hands to `Folder.create` or `Tag.create`
      that the model reads: either may be missing, and `userId` is any
      string, not cast to an ObjectId. */
  datatype Draft = Draft(name: Option<string>, userId: Option<UserId>)

  type NameKey = (string, UserId)

  function FolderKey(f: Folder): NameKey { (f.name, f.userId) }
  function TagKey(t: Tag): NameKey { (t.name, t.userId) }

  // ---------------------------------------------------------------------------
  // Required fields, checked when a document is created

  /** `Note.create`: `title` is required (a required string must be non-empty);
      `userId` is always supplied by the caller here. */
  function NewNote(title: Option<string>, content: Option<string>, folders: seq<Id>, tags: seq<Id>,
                   userId: UserId, now: int): (r: Result<Note>)
    ensures r.Ok? <==> Truthy(title)
    ensures r.Err? ==> r.error == MissingRequired("title")
    ensures r.Ok? ==> r.value == Note(title, content, folders, tags, userId, now, now)
  {
    if !Truthy(title) then Err(MissingRequired("title"))
    else Ok(Note(title, content, folders, tags, userId, now, now))
  }

  /** `Folder.create` of one draft: `name` and `userId` are required; a new
      folder has no notes yet and carries its creation time twice. */
  function NewFolder(d: Draft, now: int): (r: Result<Folder>)
    ensures r.Ok? <==> Truthy(d.name) && d.userId.Some?
    ensures !Truthy(d.name) ==> r == Err(MissingRequired("name"))
    ensures Truthy(d.name) && d.userId.None? ==> r == Err(MissingRequired("userId"))
    ensures r.Ok? ==> r.value == Folder(d.name.value, d.userId.value, [], now, now)
  {
    if !Truthy(d.name) then Err(MissingRequired("name"))
    else if d.userId.None? then Err(MissingRequired("userId"))
    else Ok(Folder(d.name.value, d.userId.value, [], now, now))
  }

  /** `Folder.create` of one draft at time `now`. */
  function FolderMaker(now: int): Draft -> Result<Folder> {
    d => NewFolder(d, now)
  }

  /** `Tag.create` of one draft: the Tag record is taken to carry the same
      required `name` and `userId` as a folder. */
  function NewTag(d: Draft): (r: Result<Tag>)
    ensures r.Ok? <==> Truthy(d.name) && d.userId.Some?
    ensures !Truthy(d.name) ==> r == Err(MissingRequired("name"))
    ensures Truthy(d.name) && d.userId.None? ==> r == Err(MissingRequired("userId"))
    ensures r.Ok? ==> r.value == Tag(d.name.value, d.userId.value)
  {
    if !Truthy(d.name) then Err(MissingRequired("name"))
    else if d.userId.None? then Err(MissingRequired("userId"))
    else Ok(Tag(d.name.value, d.userId.value))
  }

  // ---------------------------------------------------------------------------
  // The unique index on (name, userId)

  /** No two documents share a (name, userId) key. */
  predicate UniqueNames<R>(m: map<Id, R>, key: R -> NameKey) {
    forall a, b :: a in m && b in m && key(m[a]) == key(m[b]) ==> a == b
  }

  /** Some document other than `except` already has key `k`. */
  predicate NameTakenByOther<R>(m: map<Id, R>, key: R -> NameKey, except: Id, k: NameKey) {
    exists a :: a in m && a != except && key(m[a]) == k
  }

  /** Writing `r` under `id` (a new document or a replacement) keeps the index
      satisfied exactly when no other document has `r`'s key: the store
      rejects the write with a duplicate-key error in the other case. */
  lemma {:induction false} WriteKeepsUniqueIff<R>(m: map<Id, R>, key: R -> NameKey, id: Id, r: R)
    requires UniqueNames(m, key)
    ensures UniqueNames(m[id := r], key) <==> !NameTakenByOther(m, key, id, key(r))
  {
    var m' := m[id := r];
    if NameTakenByOther(m, key, id, key(r)) {
      var a :| a in m && a != id && key(m[a]) == key(r);
      assert a in m' && id in m' && key(m'[a]) == key(m'[id]) && a != id;
    } else {
      forall a, b | a in m' && b in m' && key(m'[a]) == key(m'[b]) ensures a == b {
        if a != id && b != id {
          assert key(m[a]) == key(m[b]);
        }
      }
    }
  }

  /** The index is on the pair: a new document may take a name that other
      users' documents already carry, and is refused only when a document of
      its own user has that name. */
  lemma SameNameUnderOtherUsers<R>(m: map<Id, R>, key: R -> NameKey, id: Id, r: R)
    requires UniqueNames(m, key) && id !in m
    ensures UniqueNames(m[id := r], key) <==>
              forall a :: a in m && key(m[a]).0 == key(r).0 ==> key(m[a]).1 != key(r).1
  {
    WriteKeepsUniqueIff(m, key, id, r);
  }

  // ---------------------------------------------------------------------------
  // Documents as plain objects and the toObject transform

  /** A field value of a plain object; `Undefined` is a property whose value is `undefined`. */
  datatype JsValue = Undefined | Str(s: string) | Num(n: int) | IdList(ids: seq<Id>)

  type JsObject = map<string, JsValue>

  /** The `toObject` transform of both schemas: set `id` to the old `_id`
      (undefined when there is none), then delete `_id` and `__v`. */
  function ToObject(ret: JsObject): (out: JsObject)
    ensures "id" in out && out["id"] == (if "_id" in ret then ret["_id"] else Undefined)
    ensures "_id" !in out && "__v" !in out
    ensures forall k :: k in ret && k != "id" && k != "_id" && k != "__v" ==> k in out && out[k] == ret[k]
    ensures forall k :: k in out ==> k == "id" || k in ret
  {
    var withId := ret["id" := if "_id" in ret then ret["_id"] else Undefined];
    withId - {"_id", "__v"}
  }

  /** Reading a property: `undefined` when the object has no such key. */
  function Get(o: JsObject, k: string): JsValue {
    if k in o then o[k] else Undefined
  }

  /** An optional string field: present only when defined. */
  function OptField(o: JsObject, k: string, v: Option<string>): JsObject {
    if v.Some? then o[k := Str(v.value)] else o
  }

  /** The plain-object fields of a note, without `_id` and `__v`. */
  function NoteFields(n: Note): (o: JsObject)
    ensures "id" !in o && "_id" !in o && "__v" !in o
    ensures "folderId" !in o
  {
    var base := map["folders" := IdList(n.folders), "tags" := IdList(n.tags),
                    "userId" := Str(n.userId),
                    "createdAt" := Num(n.createdAt), "updatedAt" := Num(n.updatedAt)];
    OptField(OptField(base, "title", n.title), "content", n.content)
  }

  /** A stored document as the store hands it over: its fields plus `_id` and
      the version key `__v`. */
  function Document(id: Id, version: int, fields: JsObject): JsObject {
    fields["_id" := Str(id)]["__v" := Num(version)]
  }

  /** `toObject` of a stored document is its own fields with the id under
      `id`: the version key is gone and nothing else moves. */
  lemma ToObjectOfDocument(id: Id, version: int, fields: JsObject)
    requires "id" !in fields && "_id" !in fields && "__v" !in fields
    ensures ToObject(Document(id, version, fields)) == fields["id" := Str(id)]
  {
    var out := ToObject(Document(id, version, fields));
    var want := fields["id" := Str(id)];
    assert forall k :: k in out <==> k in want;
    assert forall k :: k in out ==> out[k] == want[k];
  }

  /** The transform is not idempotent: applied a second time it finds no
      `_id` and leaves `id` undefined. */
  lemma ToObjectTwiceLosesId(id: Id, version: int, fields: JsObject)
    requires "id" !in fields && "_id" !in fields && "__v" !in fields
    ensures ToObject(Document(id, version, fields))["id"] == Str(id)
    ensures ToObject(ToObject(Document(id, version, fields)))["id"] == Undefined
  {
  }

  // ---------------------------------------------------------------------------
  // Reference lists of a note and the `$pull` cascade

  /** The two reference lists a note holds. */
  datatype RefField = TagsField | FoldersField

  function Refs(n: Note, field: RefField): seq<Id> {
    match field
    case TagsField => n.tags
    case FoldersField => n.folders
  }

  function WithRefs(n: Note, field: RefField, ids: seq<Id>): (r: Note)
    ensures Refs(r, field) == ids
  {
    match field
    case TagsField => n.(tags := ids)
    case FoldersField => n.(folders := ids)
  }

  /** `$pull`: every occurrence of `x` removed, the rest kept in order. */
  function Remove(s: seq<Id>, x: Id): (r: seq<Id>)
    ensures x !in r
    ensures forall y :: y in r ==> y in s
  {
    if s == [] then []
    else (if s[0] == x then [] else [s[0]]) + Remove(s[1..], x)
  }

  lemma {:induction false} RemoveKeepsOthers(s: seq<Id>, x: Id, y: Id)
    requires y != x
    ensures Count(Remove(s, x), y) == Count(s, y)
  {
    if s != [] {
      var rest := Remove(s[1..], x);
      RemoveKeepsOthers(s[1..], x, y);
      if s[0] == x {
        assert Remove(s, x) == rest;
      } else {
        var r := [s[0]] + rest;
        assert Remove(s, x) == r;
        assert r[0] == s[0] && r[1..] == rest;
      }
    }
  }

  /** `$pull` keeps order: pulling from a concatenation pulls from each
      part in turn. */
  lemma {:induction false} RemoveOfConcat(a: seq<Id>, b: seq<Id>, x: Id)
    ensures Remove(a + b, x) == Remove(a, x) + Remove(b, x)
  {
    if a == [] {
      assert a + b == b;
    } else {
      assert (a + b)[0] == a[0];
      assert (a + b)[1..] == a[1..] + b;
      RemoveOfConcat(a[1..], b, x);
    }
  }

  lemma {:induction false} RemoveAbsent(s: seq<Id>, x: Id)
    requires x !in s
    ensures Remove(s, x) == s
  {
    if s != [] {
      RemoveAbsent(s[1..], x);
    }
  }

  /** The note the filter `{ <field>: id, userId }` selects. */
  predicate Holds(n: Note, field: RefField, id: Id, userId: UserId) {
    n.userId == userId && id in Refs(n, field)
  }

  /** `Note.updateMany({ <field>: id, userId }, { $pull: { <field>: id } })`:
      the selected notes lose every occurrence of `id` and are stamped with
      the update time; every other note is left as it was. */
  function PullRef(notes: map<Id, Note>, field: RefField, id: Id, userId: UserId, now: int): (r: map<Id, Note>)
    ensures r.Keys == notes.Keys
  {
    map k | k in notes ::
      if Holds(notes[k], field, id, userId)
      then WithRefs(notes[k], field, Remove(Refs(notes[k], field), id)).(updatedAt := now)
      else notes[k]
  }

  /** After the pull no note of that user refers to `id`; notes of other
      users, and notes that did not refer to it, are untouched; a note that
      did keeps every other reference, as often as before. */
  lemma PullRefEffect(notes: map<Id, Note>, field: RefField, id: Id, userId: UserId, now: int)
    ensures forall k :: k in notes && notes[k].userId == userId ==> id !in Refs(PullRef(notes, field, id, userId, now)[k], field)
    ensures forall k :: k in notes && !Holds(notes[k], field, id, userId) ==> PullRef(notes, field, id, userId, now)[k] == notes[k]
    ensures forall k, y :: k in notes && y != id ==>
              Count(Refs(PullRef(notes, field, id, userId, now)[k], field), y) == Count(Refs(notes[k], field), y)
    ensures forall k :: k in notes ==> PullRef(notes, field, id, userId, now)[k].userId == notes[k].userId
  {
    var r := PullRef(notes, field, id, userId, now);
    forall k, y | k in notes && y != id
      ensures Count(Refs(r[k], field), y) == Count(Refs(notes[k], field), y)
    {
      RemoveKeepsOthers(Refs(notes[k], field), id, y);
    }
  }

  /** A second identical pull finds nothing to change. */
  lemma PullRefIdempotent(notes: map<Id, Note>, field: RefField, id: Id, userId: UserId, now: int, later: int)
    ensures PullRef(PullRef(notes, field, id, userId, now), field, id, userId, later) == PullRef(notes, field, id, userId, now)
  {
    var once := PullRef(notes, field, id, userId, now);
    PullRefEffect(notes, field, id, userId, now);
    var twice := PullRef(once, field, id, userId, later);
    forall k | k in once ensures twice[k] == once[k] {
      assert !Holds(once[k], field, id, userId);
    }
  }
}
