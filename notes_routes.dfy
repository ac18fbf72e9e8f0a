/** The notes router (routes/notes.routes.js): the two reference
    reconcilers that create missing tags and folders for a note, the two id
    validators, the inverse-index update of folders, and the handlers for
    GET, GET by id, POST, PUT, PATCH and DELETE. */
module NotesRoutes {
  import opened Common
  import opened Models
  import opened Ordering
  import opened Store

  // ---------------------------------------------------------------------------
  // Request shapes

  /** One element of a note's `tags` or `folders` list in a request body:
      either a reference to an existing document (`_id` set) or a new one to
      create (a `name`, and whatever `userId` the client put in it). */
  datatype RefEntry = RefEntry(id: Option<string>, name: Option<string>, userId: Option<UserId>)

  /** A list field of a request body: missing, an array, or any other value. */
  datatype RefList = Absent | Items(entries: seq<RefEntry>) | NotAnArray

  datatype NoteBody = NoteBody(title: Option<string>, content: Option<string>, tags: RefList, folders: RefList)

  datatype PatchBody = PatchBody(title: Option<string>, content: Option<string>, folderId: Option<string>, tags: RefList)

  datatype NotesQuery = NotesQuery(searchTerm: Option<string>, folderId: Option<string>, tagId: Option<string>)

  // ---------------------------------------------------------------------------
  // Reference reconciliation: createNonExistingTags / createNonExistingFolders

  /** `entry._id` is truthy. */
  predicate HasId(e: RefEntry) {
    Truthy(e.id)
  }

  /** `refs.filter(e => e._id)` */
  function PreExisting(refs: seq<RefEntry>): (r: seq<RefEntry>)
    ensures |r| <= |refs|
    ensures forall e :: e in r ==> HasId(e)
  {
    if refs == [] then []
    else (if HasId(refs[0]) then [refs[0]] else []) + PreExisting(refs[1..])
  }

  /** The entries kept as they are are exactly those with an `_id`. */
  lemma {:induction false} PreExistingMembers(refs: seq<RefEntry>)
    ensures forall e :: e in PreExisting(refs) <==> e in refs && HasId(e)
  {
    if refs != [] {
      PreExistingMembers(refs[1..]);
      assert refs == [refs[0]] + refs[1..];
    }
  }

  /** `refs.filter(e => !e._id)` */
  function ToBeMade(refs: seq<RefEntry>): (r: seq<RefEntry>)
    ensures |r| <= |refs|
  {
    if refs == [] then []
    else (if HasId(refs[0]) then [] else [refs[0]]) + ToBeMade(refs[1..])
  }

  /** The entries to be created are exactly those without an `_id`. */
  lemma {:induction false} ToBeMadeMembers(refs: seq<RefEntry>)
    ensures forall e :: e in ToBeMade(refs) <==> e in refs && !HasId(e)
  {
    if refs != [] {
      ToBeMadeMembers(refs[1..]);
      assert refs == [refs[0]] + refs[1..];
    }
  }

  /** The two filters split the list: every entry lands in exactly one part. */
  lemma {:induction false} SplitKeepsEveryEntry(refs: seq<RefEntry>)
    ensures multiset(PreExisting(refs)) + multiset(ToBeMade(refs)) == multiset(refs)
  {
    if refs != [] {
      var t := refs[1..];
      SplitKeepsEveryEntry(t);
      assert refs == [refs[0]] + t;
      assert multiset(refs) == multiset{refs[0]} + multiset(t);
      if HasId(refs[0]) {
        assert PreExisting(refs) == [refs[0]] + PreExisting(t);
        assert multiset(PreExisting(refs)) == multiset{refs[0]} + multiset(PreExisting(t));
        assert ToBeMade(refs) == ToBeMade(t);
      } else {
        assert PreExisting(refs) == PreExisting(t);
        assert ToBeMade(refs) == [refs[0]] + ToBeMade(t);
        assert multiset(ToBeMade(refs)) == multiset{refs[0]} + multiset(ToBeMade(t));
      }
    }
  }

  /** So the two parts are as long as the list together. */
  lemma SplitLengths(refs: seq<RefEntry>)
    ensures |PreExisting(refs)| + |ToBeMade(refs)| == |refs|
  {
    SplitKeepsEveryEntry(refs);
    assert |multiset(PreExisting(refs)) + multiset(ToBeMade(refs))| == |multiset(refs)|;
  }

  /** `filter` keeps input order: filtering a concatenation filters each part
      in turn. */
  lemma {:induction false} PreExistingOfConcat(a: seq<RefEntry>, b: seq<RefEntry>)
    ensures PreExisting(a + b) == PreExisting(a) + PreExisting(b)
  {
    if a == [] {
      assert a + b == b;
    } else {
      var ab := a + b;
      assert ab[0] == a[0];
      assert ab[1..] == a[1..] + b;
      PreExistingOfConcat(a[1..], b);
      if HasId(a[0]) {
        assert PreExisting(ab) == [a[0]] + PreExisting(a[1..] + b);
        assert PreExisting(a) == [a[0]] + PreExisting(a[1..]);
        assert [a[0]] + (PreExisting(a[1..]) + PreExisting(b)) == ([a[0]] + PreExisting(a[1..])) + PreExisting(b);
      } else {
        assert PreExisting(ab) == PreExisting(a[1..] + b);
        assert PreExisting(a) == PreExisting(a[1..]);
      }
    }
  }

  /** The same for the entries still to be made. */
  lemma {:induction false} ToBeMadeOfConcat(a: seq<RefEntry>, b: seq<RefEntry>)
    ensures ToBeMade(a + b) == ToBeMade(a) + ToBeMade(b)
  {
    if a == [] {
      assert a + b == b;
    } else {
      var head := if HasId(a[0]) then [] else [a[0]];
      assert (a + b)[1..] == a[1..] + b;
      ToBeMadeOfConcat(a[1..], b);
      calc {
        ToBeMade(a + b);
        head + ToBeMade(a[1..] + b);
        head + (ToBeMade(a[1..]) + ToBeMade(b));
        (head + ToBeMade(a[1..])) + ToBeMade(b);
        ToBeMade(a) + ToBeMade(b);
      }
    }
  }

  /** A list whose entries all carry an `_id` passes through unchanged and
      asks for nothing to be created. */
  lemma {:induction false} AllExistingKeptAsIs(refs: seq<RefEntry>)
    requires forall e :: e in refs ==> HasId(e)
    ensures PreExisting(refs) == refs
    ensures ToBeMade(refs) == []
  {
    if refs != [] {
      AllExistingKeptAsIs(refs[1..]);
      assert refs == [refs[0]] + refs[1..];
    }
  }

  /** The object an entry is when handed to `create`: only its `name` and
      `userId` reach the schema. */
  function AsDraft(e: RefEntry): Draft {
    Draft(e.name, e.userId)
  }

  function Drafts(es: seq<RefEntry>): (ds: seq<Draft>)
    ensures |ds| == |es|
    ensures forall i :: 0 <= i < |es| ==> ds[i] == AsDraft(es[i])
  {
    seq(|es|, i requires 0 <= i < |es| => AsDraft(es[i]))
  }

  /** `res.map(doc => ({ _id: doc.id, name: doc.name }))` */
  function Formatted(created: seq<(Id, string)>): (r: seq<RefEntry>)
    ensures |r| == |created|
    ensures forall i :: 0 <= i < |r| ==> r[i] == RefEntry(Some(created[i].0), Some(created[i].1), None)
  {
    seq(|created|, i requires 0 <= i < |created| => RefEntry(Some(created[i].0), Some(created[i].1), None))
  }

  /** `preExisting.concat(formatted)` when `create` resolved with documents,
      `preExisting` alone when it resolved with no value. */
  function Finalize(refs: seq<RefEntry>, created: Option<seq<(Id, string)>>): seq<RefEntry> {
    if created.Some? then PreExisting(refs) + Formatted(created.value) else PreExisting(refs)
  }

  /** The ids a note stores for a reconciled list (each entry is cast to its
      `_id`). */
  function RefIds(es: seq<RefEntry>): (ids: seq<Id>)
    requires forall e :: e in es ==> e.id.Some?
    ensures |ids| == |es|
    ensures forall i :: 0 <= i < |es| ==> ids[i] == es[i].id.value
  {
    seq(|es|, i requires 0 <= i < |es| => es[i].id.value)
  }

  /** `ids`, stored for `refs`, keep the `_id` of every entry that has one, in
      input order, followed by one id per entry without one, each naming a
      document that did not exist `before` and does `after`. */
  ghost predicate KeepsAndAdds(refs: seq<RefEntry>, ids: seq<Id>, before: set<Id>, after: set<Id>) {
    var pre := PreExisting(refs);
    && |ids| == |refs|
    && ids[..|pre|] == RefIds(pre)
    && forall i :: |pre| <= i < |ids| ==> ids[i] !in before && ids[i] in after
  }

  /** `KeepsAndAdds`, and the `i`-th new document is the one `make` builds
      from the `i`-th entry without an `_id`. */
  ghost predicate IdsReconciledBy<R>(refs: seq<RefEntry>, ids: seq<Id>,
                                     before: map<Id, R>, after: map<Id, R>, make: Draft -> Result<R>)
  {
    var pre := PreExisting(refs);
    var made := ToBeMade(refs);
    && KeepsAndAdds(refs, ids, before.Keys, after.Keys)
    && |ids| == |pre| + |made|
    && forall i :: 0 <= i < |made| ==>
         ids[|pre| + i] in after && make(AsDraft(made[i])) == Ok(after[ids[|pre| + i]])
  }

  /** `out` is what a reconciler resolves with for `refs`: the entries with an
      `_id`, unchanged and in input order, then `{ _id, name }` for each entry
      without one, in order, naming a document newly created from it. */
  ghost predicate ReconciledBy<R>(refs: seq<RefEntry>, out: seq<RefEntry>,
                                  before: map<Id, R>, after: map<Id, R>, make: Draft -> Result<R>)
  {
    && (forall e :: e in out ==> e.id.Some?)
    && EntriesReconciled(refs, out)
    && IdsReconciledBy(refs, RefIds(out), before, after, make)
  }

  /** The entries of `out`: those of `refs` with an `_id`, unchanged and in
      order, then one per entry without one, carrying its name and no
      `userId`. */
  ghost predicate EntriesReconciled(refs: seq<RefEntry>, out: seq<RefEntry>) {
    var pre := PreExisting(refs);
    var made := ToBeMade(refs);
    && |out| == |pre| + |made|
    && out[..|pre|] == pre
    && (forall i :: 0 <= i < |made| ==> out[|pre| + i].name == made[i].name && out[|pre| + i].userId.None?)
  }

  /** The ids of `pre` followed by formatted documents: those of `pre`, then
      the documents' own ids in order. */
  lemma FinalizedIds(pre: seq<RefEntry>, created: seq<(Id, string)>)
    requires forall e :: e in pre ==> e.id.Some?
    ensures forall e :: e in pre + Formatted(created) ==> e.id.Some?
    ensures RefIds(pre + Formatted(created))[..|pre|] == RefIds(pre)
    ensures forall i :: 0 <= i < |created| ==> RefIds(pre + Formatted(created))[|pre| + i] == created[i].0
  {
    var out := pre + Formatted(created);
    forall e | e in out ensures e.id.Some? {
      if e !in pre {
        var i :| 0 <= i < |Formatted(created)| && Formatted(created)[i] == e;
      }
    }
    forall i | 0 <= i < |created| ensures RefIds(out)[|pre| + i] == created[i].0 {
      assert out[|pre| + i] == Formatted(created)[i];
    }
  }

  /** The ids of a list finished with one new document per entry without an
      `_id` are reconciled. */
  lemma CreatedIdsReconcile<R>(refs: seq<RefEntry>, created: seq<(Id, string)>,
                               before: map<Id, R>, after: map<Id, R>, make: Draft -> Result<R>)
    requires |created| == |ToBeMade(refs)|
    requires forall i :: 0 <= i < |created| ==> created[i].0 !in before && created[i].0 in after
    requires forall i :: 0 <= i < |created| ==> make(AsDraft(ToBeMade(refs)[i])) == Ok(after[created[i].0])
    ensures forall e :: e in Finalize(refs, Some(created)) ==> e.id.Some?
    ensures IdsReconciledBy(refs, RefIds(Finalize(refs, Some(created))), before, after, make)
  {
    var pre := PreExisting(refs);
    var out := Finalize(refs, Some(created));
    assert out == pre + Formatted(created);
    FinalizedIds(pre, created);
    var ids := RefIds(out);
    SplitLengths(refs);
    forall i | |pre| <= i < |ids| ensures ids[i] !in before.Keys && ids[i] in after.Keys {
      assert ids[|pre| + (i - |pre|)] == created[i - |pre|].0;
    }
  }

  /** The entries of a list finished with one document per entry without an
      `_id` are reconciled. */
  lemma CreatedEntriesReconcile(refs: seq<RefEntry>, created: seq<(Id, string)>)
    requires |created| == |ToBeMade(refs)|
    requires forall i :: 0 <= i < |created| ==> ToBeMade(refs)[i].name == Some(created[i].1)
    ensures EntriesReconciled(refs, Finalize(refs, Some(created)))
  {
    FormattedNames(PreExisting(refs), created, ToBeMade(refs));
  }

  /** After the kept entries come the formatted documents, named as the
      entries they were made from and with no `userId` of their own. */
  lemma FormattedNames(pre: seq<RefEntry>, created: seq<(Id, string)>, made: seq<RefEntry>)
    requires |made| == |created|
    requires forall i :: 0 <= i < |created| ==> made[i].name == Some(created[i].1)
    ensures (pre + Formatted(created))[..|pre|] == pre
    ensures forall i :: 0 <= i < |made| ==>
              && (pre + Formatted(created))[|pre| + i].name == made[i].name
              && (pre + Formatted(created))[|pre| + i].userId.None?
  {
    var out := pre + Formatted(created);
    assert out[..|pre|] == pre;
    forall i | 0 <= i < |made| ensures out[|pre| + i].name == made[i].name && out[|pre| + i].userId.None? {
      assert out[|pre| + i] == Formatted(created)[i];
    }
  }

  /** Finishing after `create` resolved with one document per entry that
      lacked an `_id` reconciles the list. */
  lemma FormattedReconciles<R>(refs: seq<RefEntry>, created: seq<(Id, string)>,
                               before: map<Id, R>, after: map<Id, R>, make: Draft -> Result<R>)
    requires |created| == |ToBeMade(refs)|
    requires forall i :: 0 <= i < |created| ==> created[i].0 !in before && created[i].0 in after
    requires forall i :: 0 <= i < |created| ==> make(AsDraft(ToBeMade(refs)[i])) == Ok(after[created[i].0])
    requires forall i :: 0 <= i < |created| ==> ToBeMade(refs)[i].name == Some(created[i].1)
    ensures ReconciledBy(refs, Finalize(refs, Some(created)), before, after, make)
  {
    CreatedIdsReconcile(refs, created, before, after, make);
    CreatedEntriesReconcile(refs, created);
  }

  /** With nothing to create, `create` resolves with no value and the list
      is just its entries that carry an `_id`. */
  lemma NothingMadeReconciles<R>(refs: seq<RefEntry>, before: map<Id, R>, after: map<Id, R>,
                                 make: Draft -> Result<R>)
    requires ToBeMade(refs) == []
    ensures ReconciledBy(refs, Finalize(refs, None), before, after, make)
  {
    ToBeMadeMembers(refs);
    AllExistingKeptAsIs(refs);
    var out := Finalize(refs, None);
    assert out == refs;
    assert out[..|refs|] == refs;
    var ids := RefIds(out);
    assert ids[..|refs|] == ids;
    assert KeepsAndAdds(refs, ids, before.Keys, after.Keys);
  }

  /** A list with no entry lacking an `_id` is stored as exactly its ids. */
  lemma AllExistingStoredAsIs<R>(refs: seq<RefEntry>, ids: seq<Id>, before: map<Id, R>, after: map<Id, R>,
                                 make: Draft -> Result<R>)
    requires IdsReconciledBy(refs, ids, before, after, make)
    requires forall e :: e in refs ==> HasId(e)
    ensures forall e :: e in refs ==> e.id.Some?
    ensures ids == RefIds(refs)
  {
    AllExistingKeptAsIs(refs);
    assert ids[..|refs|] == ids;
  }

  /** A list with an entry lacking an `_id` leaves a new document behind. */
  lemma SomethingMade<R>(refs: seq<RefEntry>, ids: seq<Id>, before: map<Id, R>, after: map<Id, R>,
                         make: Draft -> Result<R>)
    requires IdsReconciledBy(refs, ids, before, after, make)
    requires exists e :: e in refs && !HasId(e)
    ensures exists k :: k in after && k !in before
  {
    var e :| e in refs && !HasId(e);
    ToBeMadeMembers(refs);
    assert e in ToBeMade(refs);
    var k := ids[|PreExisting(refs)|];
    assert k in after && k !in before;
  }

  /** An entry without `_id` and without its own `userId` can never be
      created: the caller's id is not attached to it, and both schemas
      require one. So no list holding one is ever reconciled. */
  lemma NameOnlyEntryBlocks<R>(refs: seq<RefEntry>, ids: seq<Id>, before: map<Id, R>, after: map<Id, R>,
                               make: Draft -> Result<R>, e: RefEntry)
    requires e in refs && !HasId(e) && e.userId.None?
    requires forall d: Draft :: d.userId.None? ==> make(d).Err?
    ensures !IdsReconciledBy(refs, ids, before, after, make)
  {
    var made := ToBeMade(refs);
    ToBeMadeMembers(refs);
    assert e in made;
    var i :| 0 <= i < |made| && made[i] == e;
    assert make(AsDraft(made[i])).Err?;
  }

  /** What a reconciler call settles to. `Threw` is a synchronous exception,
      raised before any store call. */
  datatype Reconciled = Resolved(value: Option<seq<RefEntry>>) | Rejected(error: StoreError) | Threw(fault: Fault)

  /** `{ _id, name }` of each created document, in order. */
  function Pairs<R>(docs: seq<Doc<R>>, key: R -> NameKey): (ps: seq<(Id, string)>)
    ensures |ps| == |docs|
    ensures forall i :: 0 <= i < |docs| ==> ps[i] == (docs[i].id, key(docs[i].record).0)
  {
    seq(|docs|, i requires 0 <= i < |docs| => (docs[i].id, key(docs[i].record).0))
  }

  /** What `Tag.create` makes of the entries of a list that lack an `_id`. */
  function TagsMadeFor(refs: seq<RefEntry>): seq<Result<Tag>> {
    Made(Drafts(ToBeMade(refs)), NewTag)
  }

  /** What `Folder.create` makes of them at time `now`. */
  function FoldersMadeFor(refs: seq<RefEntry>, now: int): seq<Result<Folder>> {
    Made(Drafts(ToBeMade(refs)), FolderMaker(now))
  }

  /** The first failure of the tag batch of a list, in input order, if any. */
  function TagBatchError(tags: map<Id, Tag>, refs: seq<RefEntry>): Option<StoreError> {
    BatchError(KeysOf(tags, TagKey), TagsMadeFor(refs), TagKey)
  }

  /** The first failure of the folder batch of a list, if any. */
  function FolderBatchError(folders: map<Id, Folder>, refs: seq<RefEntry>, now: int): Option<StoreError> {
    BatchError(KeysOf(folders, FolderKey), FoldersMadeFor(refs, now), FolderKey)
  }

  /** The tag batch of a list saves in full if and only if every entry
      without an `_id` has a name and a `userId` of its own, names no tag
      already held under that pair, and shares its pair with no other such
      entry. */
  lemma NewTagsSaveIff(tags: map<Id, Tag>, refs: seq<RefEntry>)
    ensures var made := ToBeMade(refs);
      TagBatchError(tags, refs).None? <==>
        && (forall i :: 0 <= i < |made| ==>
              Truthy(made[i].name) && made[i].userId.Some? &&
              !NameTaken(tags, TagKey, (made[i].name.value, made[i].userId.value)))
        && (forall i, j :: 0 <= i < j < |made| ==> (made[i].name, made[i].userId) != (made[j].name, made[j].userId))
  {
    NewEntriesSaveIff(tags, ToBeMade(refs), NewTag, TagKey);
    assert TagBatchError(tags, refs) == BatchError(KeysOf(tags, TagKey), Made(Drafts(ToBeMade(refs)), NewTag), TagKey);
  }

  /** The same for the folder batch of a list. */
  lemma NewFoldersSaveIff(folders: map<Id, Folder>, refs: seq<RefEntry>, now: int)
    ensures var made := ToBeMade(refs);
      FolderBatchError(folders, refs, now).None? <==>
        && (forall i :: 0 <= i < |made| ==>
              Truthy(made[i].name) && made[i].userId.Some? &&
              !NameTaken(folders, FolderKey, (made[i].name.value, made[i].userId.value)))
        && (forall i, j :: 0 <= i < j < |made| ==> (made[i].name, made[i].userId) != (made[j].name, made[j].userId))
  {
    NewEntriesSaveIff(folders, ToBeMade(refs), FolderMaker(now), FolderKey);
    assert FolderBatchError(folders, refs, now) ==
           BatchError(KeysOf(folders, FolderKey), Made(Drafts(ToBeMade(refs)), FolderMaker(now)), FolderKey);
  }

  /** `DraftBatchSavesIff` read on entries rather than on their drafts. */
  lemma NewEntriesSaveIff<R>(m: map<Id, R>, made: seq<RefEntry>, make: Draft -> Result<R>, key: R -> NameKey)
    requires forall d :: make(d).Ok? <==> Truthy(d.name) && d.userId.Some?
    requires forall d: Draft :: Truthy(d.name) && d.userId.Some? ==>
                           make(d).Ok? && key(make(d).value) == (d.name.value, d.userId.value)
    ensures BatchError(KeysOf(m, key), Made(Drafts(made), make), key).None? <==>
              && (forall i :: 0 <= i < |made| ==>
                    Truthy(made[i].name) && made[i].userId.Some? &&
                    !NameTaken(m, key, (made[i].name.value, made[i].userId.value)))
              && (forall i, j :: 0 <= i < j < |made| ==> (made[i].name, made[i].userId) != (made[j].name, made[j].userId))
  {
    var ds := Drafts(made);
    assert forall i :: 0 <= i < |made| ==> ds[i].name == made[i].name && ds[i].userId == made[i].userId;
    DraftBatchSavesIff(m, ds, make, key);
  }

  /** createNonExistingTags: no list resolves with no value; a list (even an
      empty one, since `tags === []` never holds) goes to `Tag.create` with
      exactly its entries that lack an `_id`. The caller's user id is not an
      input: created tags get whatever `userId` the entries carry. */
  method CreateNonExistingTags(db: Db, tags: RefList) returns (r: Reconciled)
    requires db.Valid()
    modifies db
    ensures db.Valid()
    ensures db.notes == old(db.notes) && db.folders == old(db.folders)
    ensures forall k :: k in old(db.tags) ==> k in db.tags && db.tags[k] == old(db.tags)[k]
    ensures tags.Absent? ==> r == Resolved(None) && db.tags == old(db.tags)
    ensures tags.NotAnArray? ==> r == Threw(TypeError("tags.filter")) && db.tags == old(db.tags)
    ensures tags == Items([]) ==> r == Resolved(Some([])) && db.tags == old(db.tags)
    ensures tags.Items? ==> r.Resolved? || r.Rejected?
    ensures tags.Items? ==> BatchApplied(old(db.tags), db.tags, TagsMadeFor(tags.entries), TagKey)
    ensures tags.Items? ==> (r.Resolved? <==> TagBatchError(old(db.tags), tags.entries).None?)
    ensures r.Rejected? ==> tags.Items? && Some(r.error) == TagBatchError(old(db.tags), tags.entries)
    ensures r.Rejected? ==> r.error.DuplicateKey? || r.error.MissingRequired?
    ensures tags.Items? && ToBeMade(tags.entries) == [] ==>
              r == Resolved(Some(PreExisting(tags.entries))) && db.tags == old(db.tags)
    ensures r.Resolved? && tags.Items? ==>
              r.value.Some? && ReconciledBy(tags.entries, r.value.value, old(db.tags), db.tags, NewTag)
  {
    if tags.Absent? {
      return Resolved(None);
    }
    if tags.NotAnArray? {
      return Threw(TypeError("tags.filter"));
    }
    var refs := tags.entries;
    var made := ToBeMade(refs);
    var res, ids := db.CreateTags(Drafts(made));
    assert |ids| == |TagsMadeFor(refs)|;
    if res.Err? {
      return Rejected(res.error);
    }
    if res.value.Some? {
      var docs := res.value.value;
      var created := Pairs(docs, TagKey);
      forall i | 0 <= i < |created|
        ensures created[i].0 !in old(db.tags) && created[i].0 in db.tags
        ensures NewTag(AsDraft(made[i])) == Ok(db.tags[created[i].0])
        ensures made[i].name == Some(created[i].1)
      {
        assert ids[i] == Some(docs[i].id);
      }
      FormattedReconciles(refs, created, old(db.tags), db.tags, NewTag);
      r := Resolved(Some(Finalize(refs, Some(created))));
    } else {
      NothingMadeReconciles(refs, old(db.tags), db.tags, NewTag);
      r := Resolved(Some(Finalize(refs, None)));
    }
  }

  /** createNonExistingFolders: the same reconciliation against the folder
      store. */
  method CreateNonExistingFolders(db: Db, folders: RefList, now: int) returns (r: Reconciled)
    requires db.Valid()
    modifies db
    ensures db.Valid()
    ensures db.notes == old(db.notes) && db.tags == old(db.tags)
    ensures forall k :: k in old(db.folders) ==> k in db.folders && db.folders[k] == old(db.folders)[k]
    ensures folders.Absent? ==> r == Resolved(None) && db.folders == old(db.folders)
    ensures folders.NotAnArray? ==> r == Threw(TypeError("folders.filter")) && db.folders == old(db.folders)
    ensures folders == Items([]) ==> r == Resolved(Some([])) && db.folders == old(db.folders)
    ensures folders.Items? ==> r.Resolved? || r.Rejected?
    ensures folders.Items? ==> BatchApplied(old(db.folders), db.folders, FoldersMadeFor(folders.entries, now), FolderKey)
    ensures folders.Items? ==> (r.Resolved? <==> FolderBatchError(old(db.folders), folders.entries, now).None?)
    ensures r.Rejected? ==> folders.Items? && Some(r.error) == FolderBatchError(old(db.folders), folders.entries, now)
    ensures r.Rejected? ==> r.error.DuplicateKey? || r.error.MissingRequired?
    ensures folders.Items? && ToBeMade(folders.entries) == [] ==>
              r == Resolved(Some(PreExisting(folders.entries))) && db.folders == old(db.folders)
    ensures r.Resolved? && folders.Items? ==>
              r.value.Some? && ReconciledBy(folders.entries, r.value.value, old(db.folders), db.folders, FolderMaker(now))
  {
    if folders.Absent? {
      return Resolved(None);
    }
    if folders.NotAnArray? {
      return Threw(TypeError("folders.filter"));
    }
    var refs := folders.entries;
    var made := ToBeMade(refs);
    var res, ids := db.CreateFolders(Drafts(made), now);
    assert |ids| == |FoldersMadeFor(refs, now)|;
    if res.Err? {
      return Rejected(res.error);
    }
    if res.value.Some? {
      var docs := res.value.value;
      var created := Pairs(docs, FolderKey);
      forall i | 0 <= i < |created|
        ensures created[i].0 !in old(db.folders) && created[i].0 in db.folders
        ensures FolderMaker(now)(AsDraft(made[i])) == Ok(db.folders[created[i].0])
        ensures made[i].name == Some(created[i].1)
      {
        assert ids[i] == Some(docs[i].id);
      }
      FormattedReconciles(refs, created, old(db.folders), db.folders, FolderMaker(now));
      r := Resolved(Some(Finalize(refs, Some(created))));
    } else {
      NothingMadeReconciles(refs, old(db.folders), db.folders, FolderMaker(now));
      r := Resolved(Some(Finalize(refs, None)));
    }
  }

  /** What a list settles to once stored on a note: no list is stored as an
      empty one; a list as its reconciled ids. */
  ghost predicate StoredFor<R>(input: RefList, ids: seq<Id>, before: map<Id, R>, after: map<Id, R>,
                               make: Draft -> Result<R>)
  {
    match input
    case Absent => ids == [] && after == before
    case Items(es) => IdsReconciledBy(es, ids, before, after, make)
    case NotAnArray => false
  }

  /** The fault that reconciling both lists of a note body ends in, if any:
      a non-array list throws in `.filter` before any save, and otherwise a
      batch whose save is rejected rejects the whole step, the tag batch's
      error taking precedence. */
  function RefsFailure(tagStore: map<Id, Tag>, folderStore: map<Id, Folder>,
                       tags: RefList, folders: RefList, now: int): Option<Fault>
  {
    if tags.NotAnArray? then Some(TypeError("tags.filter"))
    else if folders.NotAnArray? then Some(TypeError("folders.filter"))
    else if tags.Items? && TagBatchError(tagStore, tags.entries).Some? then
      Some(StoreFault(TagBatchError(tagStore, tags.entries).value))
    else if folders.Items? && FolderBatchError(folderStore, folders.entries, now).Some? then
      Some(StoreFault(FolderBatchError(folderStore, folders.entries, now).value))
    else None
  }

  /** The outcome of reconciling both lists of a note body. */
  datatype RefIdsOutcome = Ready(tagIds: seq<Id>, folderIds: seq<Id>) | Failed(fault: Fault)

  /** `Promise.all([createNonExistingTags(tags), createNonExistingFolders(folders)])`
      followed by the cast of each resolved list to its ids. Both calls are
      made before either settles, so a rejected tag batch still leaves the
      folder batch's documents behind. */
  method ReconcileRefs(db: Db, tags: RefList, folders: RefList, now: int) returns (r: RefIdsOutcome)
    requires db.Valid()
    modifies db
    ensures db.Valid()
    ensures db.notes == old(db.notes)
    ensures forall k :: k in old(db.tags) ==> k in db.tags && db.tags[k] == old(db.tags)[k]
    ensures forall k :: k in old(db.folders) ==> k in db.folders && db.folders[k] == old(db.folders)[k]
    ensures tags.NotAnArray? ==>
              r == Failed(TypeError("tags.filter")) && db.tags == old(db.tags) && db.folders == old(db.folders)
    ensures !tags.NotAnArray? && folders.NotAnArray? ==>
              r == Failed(TypeError("folders.filter")) && db.folders == old(db.folders)
    ensures r.Failed? ==> r.fault.TypeError? || (r.fault.StoreFault? && !r.fault.error.CastError?)
    ensures r.Failed? <==> RefsFailure(old(db.tags), old(db.folders), tags, folders, now).Some?
    ensures r.Failed? ==> r.fault == RefsFailure(old(db.tags), old(db.folders), tags, folders, now).value
    ensures tags.Items? ==> BatchApplied(old(db.tags), db.tags, TagsMadeFor(tags.entries), TagKey)
    ensures !tags.NotAnArray? && folders.Items? ==>
              BatchApplied(old(db.folders), db.folders, FoldersMadeFor(folders.entries, now), FolderKey)
    ensures !tags.Items? ==> db.tags == old(db.tags)
    ensures tags.NotAnArray? || !folders.Items? ==> db.folders == old(db.folders)
    ensures r.Ready? ==> StoredFor(tags, r.tagIds, old(db.tags), db.tags, NewTag)
    ensures r.Ready? ==> StoredFor(folders, r.folderIds, old(db.folders), db.folders, FolderMaker(now))
    ensures tags.Items? && ToBeMade(tags.entries) == [] && r.Ready? ==> db.tags == old(db.tags)
    ensures folders.Items? && ToBeMade(folders.entries) == [] && r.Ready? ==> db.folders == old(db.folders)
  {
    var tagsDone := CreateNonExistingTags(db, tags);
    if tagsDone.Threw? {
      return Failed(tagsDone.fault);
    }
    ghost var tagsAfter := db.tags;
    var foldersDone := CreateNonExistingFolders(db, folders, now);
    if foldersDone.Threw? {
      return Failed(foldersDone.fault);
    }
    if tagsDone.Rejected? {
      return Failed(StoreFault(tagsDone.error));
    }
    if foldersDone.Rejected? {
      return Failed(StoreFault(foldersDone.error));
    }
    var tagIds := if tagsDone.value.Some? then RefIds(tagsDone.value.value) else [];
    var folderIds := if foldersDone.value.Some? then RefIds(foldersDone.value.value) else [];
    r := Ready(tagIds, folderIds);
  }

  // ---------------------------------------------------------------------------
  // Id validation: validateTagIds / validateFolderIds

  /** A validator's settled outcome: resolved, or rejected with status 400. */
  datatype Check = Pass | Reject(message: string)

  /** validateTagIds as written: it rejects only a non-array. The rejections
      raised for an invalid `_id` inside `forEach` are returned from the
      callback and dropped, and the 400 raised on a count mismatch inside
      `then` is swallowed by the trailing `catch`. */
  function ValidateTagIds(tags: RefList): (r: Check)
    ensures r.Reject? <==> tags.NotAnArray?
    ensures r.Reject? ==> r.message == "The `tags` must be an array"
  {
    match tags
    case Absent => Pass
    case NotAnArray => Reject("The `tags` must be an array")
    case Items(_) => Pass
  }

  /** validateFolderIds as written, with the same behaviour for folders. */
  function ValidateFolderIds(folders: RefList): (r: Check)
    ensures r.Reject? <==> folders.NotAnArray?
    ensures r.Reject? ==> r.message == "The `folders` must be an array"
  {
    match folders
    case Absent => Pass
    case NotAnArray => Reject("The `folders` must be an array")
    case Items(_) => Pass
  }

  /** The ids of the documents owned by `userId`. */
  function OwnedIds<R>(m: map<Id, R>, key: R -> NameKey, userId: UserId): (s: set<Id>)
    ensures forall k :: k in s <==> k in m && key(m[k]).1 == userId
  {
    set k | k in m && key(m[k]).1 == userId
  }

  /** The number of documents `find({ _id: { $in: ids }, userId })` returns:
      each owned document named at least once, counted once. */
  function MatchCount(owned: set<Id>, ids: seq<Id>): nat {
    |owned * (set x | x in ids)|
  }

  /** The message for a list naming a document the user does not own. */
  function InvalidIdsMessage(plural: string): string {
    "The `" + plural + "` contains an invalid id"
  }

  /** The validator as its rejections evidently intend: reject a non-array,
      reject an entry whose `_id` is not a valid ObjectId, and reject when
      fewer of the user's documents match than ids were given. */
  function CheckOwnedIds(owned: set<Id>, input: RefList, plural: string, singular: string): (r: Check)
  {
    match input
    case Absent => Pass
    case NotAnArray => Reject("The `" + plural + "` must be an array")
    case Items(es) =>
      if exists i :: 0 <= i < |es| && !IsValidId(es[i].id) then Reject("The `" + singular + "._id` is not valid.")
      else if MatchCount(owned, RefIds(es)) != |es| then Reject(InvalidIdsMessage(plural))
      else Pass
  }

  /** Intersecting can only shrink a finite set. */
  lemma IntersectionNoLarger(a: set<Id>, b: set<Id>)
    ensures |a * b| <= |b|
  {
    assert a * b == b * a;
    assert |b - a| == |b| - |b * a|;
  }

  /** A subset of a finite set with as many elements is the whole set. */
  lemma SubsetSameSize(a: set<Id>, b: set<Id>)
    requires a <= b && |a| == |b|
    ensures a == b
  {
    assert b * a == a;
    assert |b - a| == |b| - |b * a|;
    assert b - a == {};
  }

  /** All the ids are matched exactly when each is owned and none repeats. */
  lemma MatchCountIff(owned: set<Id>, ids: seq<Id>)
    ensures MatchCount(owned, ids) == |ids| <==> (forall x :: x in ids ==> x in owned) && Distinct(ids)
  {
    var s := set x | x in ids;
    SetOfSeqSize(ids);
    IntersectionNoLarger(owned, s);
    if forall x :: x in ids ==> x in owned {
      assert owned * s == s;
    } else {
      var x :| x in ids && x !in owned;
      assert x in s && x !in owned * s;
      if |owned * s| == |s| {
        SubsetSameSize(owned * s, s);
      }
    }
  }

  /** The count comparison accepts a list exactly when its ids are valid,
      pairwise distinct and all owned by the user: a foreign or missing id
      lowers the count, and so does naming one document twice. */
  lemma CheckOwnedIdsPassIff(owned: set<Id>, es: seq<RefEntry>, plural: string, singular: string)
    ensures CheckOwnedIds(owned, Items(es), plural, singular) == Pass <==>
              && (forall e :: e in es ==> IsValidId(e.id))
              && (forall e :: e in es ==> e.id.value in owned)
              && Distinct(RefIds(es))
  {
    SomeInvalidIff(es);
    if forall e :: e in es ==> IsValidId(e.id) {
      IdsOwnedIff(owned, es);
      MatchCountIff(owned, RefIds(es));
    }
  }

  /** Some position holds an invalid id exactly when some entry does. */
  lemma SomeInvalidIff(es: seq<RefEntry>)
    ensures (exists i :: 0 <= i < |es| && !IsValidId(es[i].id)) <==> !(forall e :: e in es ==> IsValidId(e.id))
  {
    if exists i :: 0 <= i < |es| && !IsValidId(es[i].id) {
      var i :| 0 <= i < |es| && !IsValidId(es[i].id);
      assert es[i] in es;
    }
    if !(forall e :: e in es ==> IsValidId(e.id)) {
      var e :| e in es && !IsValidId(e.id);
      var i :| 0 <= i < |es| && es[i] == e;
    }
  }

  /** Every stored id is owned exactly when every entry's id is. */
  lemma IdsOwnedIff(owned: set<Id>, es: seq<RefEntry>)
    requires forall e :: e in es ==> e.id.Some?
    ensures (forall x :: x in RefIds(es) ==> x in owned) <==> (forall e :: e in es ==> e.id.value in owned)
  {
    var ids := RefIds(es);
    if forall x :: x in ids ==> x in owned {
      forall e | e in es ensures e.id.value in owned {
        var i :| 0 <= i < |es| && es[i] == e;
        assert ids[i] in ids;
      }
    }
    if forall e :: e in es ==> e.id.value in owned {
      forall x | x in ids ensures x in owned {
        var i :| 0 <= i < |ids| && ids[i] == x;
        assert es[i] in es;
      }
    }
  }

  /** One tag of another user is enough to tell the two apart: the validator
      as written resolves, the intended check answers 400. */
  lemma ForeignTagSlipsThroughValidation(tags: map<Id, Tag>, userId: UserId, t: Id)
    requires t in tags && tags[t].userId != userId && IsValidObjectId(t)
    ensures ValidateTagIds(Items([RefEntry(Some(t), None, None)])) == Pass
    ensures CheckOwnedIds(OwnedIds(tags, TagKey, userId), Items([RefEntry(Some(t), None, None)]), "tags", "tag")
            == Reject(InvalidIdsMessage("tags"))
  {
    var owned := OwnedIds(tags, TagKey, userId);
    var es := [RefEntry(Some(t), None, None)];
    assert t !in owned;
    assert IsValidId(es[0].id);
    assert !exists i :: 0 <= i < |es| && !IsValidId(es[i].id);
    assert RefIds(es) == [t];
    NoMatchForForeignId(owned, t);
  }

  /** A single id the user does not own matches no document. */
  lemma NoMatchForForeignId(owned: set<Id>, t: Id)
    requires t !in owned
    ensures MatchCount(owned, [t]) == 0
  {
    assert (set x | x in [t]) == {t};
    assert owned * {t} == {};
  }

  // ---------------------------------------------------------------------------
  // Inverse index: updateFoldersWithNoteIds

  /** The folders after `$push`ing `{ _id: noteId }` onto the `noteIds` of each
      listed folder in turn (a listed id with no folder is skipped). */
  function PushNoteId(fs: map<Id, Folder>, noteId: Id, folderIds: seq<Id>, now: int): (r: map<Id, Folder>)
    ensures r.Keys == fs.Keys
    decreases |folderIds|
  {
    if folderIds == [] then fs
    else
      var before := PushNoteId(fs, noteId, folderIds[..|folderIds| - 1], now);
      var f := folderIds[|folderIds| - 1];
      if f in before then before[f := before[f].(noteIds := before[f].noteIds + [noteId], updatedAt := now)]
      else before
  }

  /** Each existing folder gains the note id once per time it is listed, at
      the end of its `noteIds`, and keeps its name, owner and creation time; a
      folder that is not listed does not change at all. */
  lemma {:induction false} PushNoteIdEffect(fs: map<Id, Folder>, noteId: Id, folderIds: seq<Id>, now: int)
    ensures forall f :: f in fs ==>
              var r := PushNoteId(fs, noteId, folderIds, now);
              && r[f].noteIds == fs[f].noteIds + Repeat(noteId, Count(folderIds, f))
              && FolderKey(r[f]) == FolderKey(fs[f])
              && r[f].createdAt == fs[f].createdAt
    ensures forall f :: f in fs && f !in folderIds ==> PushNoteId(fs, noteId, folderIds, now)[f] == fs[f]
    decreases |folderIds|
  {
    if folderIds != [] {
      var init := folderIds[..|folderIds| - 1];
      var last := folderIds[|folderIds| - 1];
      assert folderIds == init + [last];
      PushNoteIdEffect(fs, noteId, init, now);
      forall f | f in fs
        ensures PushNoteId(fs, noteId, folderIds, now)[f].noteIds == fs[f].noteIds + Repeat(noteId, Count(folderIds, f))
      {
        CountSnoc(init, last, f);
        RepeatAdd(noteId, Count(init, f), 1);
        assert Repeat(noteId, 1) == [noteId];
      }
      forall f | f in fs && f !in folderIds ensures PushNoteId(fs, noteId, folderIds, now)[f] == fs[f] {
        assert f !in init;
      }
    }
  }

  /** `$push` is not `$addToSet`: running the update twice lists the note
      twice in every folder it names. */
  lemma PushTwiceListsTwice(fs: map<Id, Folder>, noteId: Id, folderIds: seq<Id>, now: int, later: int, f: Id)
    requires f in fs && f in folderIds
    ensures var twice := PushNoteId(PushNoteId(fs, noteId, folderIds, now), noteId, folderIds, later);
            twice[f].noteIds == fs[f].noteIds + Repeat(noteId, 2 * Count(folderIds, f))
  {
    var once := PushNoteId(fs, noteId, folderIds, now);
    PushNoteIdEffect(fs, noteId, folderIds, now);
    PushNoteIdEffect(once, noteId, folderIds, later);
    RepeatAdd(noteId, Count(folderIds, f), Count(folderIds, f));
  }

  /** updateFoldersWithNoteIds: for each listed folder, one
      `findByIdAndUpdate(folderId, { $push: { noteIds: { _id: noteId } } })`
      whose errors are ignored; the answer is `folders.map` of a callback
      that returns nothing, one `undefined` per listed folder. */
  method UpdateFoldersWithNoteIds(db: Db, noteId: Id, folderIds: seq<Id>, now: int) returns (pending: seq<()>)
    requires db.Valid()
    modifies db
    ensures db.Valid()
    ensures db.folders == PushNoteId(old(db.folders), noteId, folderIds, now)
    ensures db.notes == old(db.notes) && db.tags == old(db.tags)
    ensures |pending| == |folderIds|
  {
    pending := [];
    var i := 0;
    while i < |folderIds|
      invariant 0 <= i <= |folderIds| && |pending| == i
      invariant db.Valid()
      invariant db.folders == PushNoteId(old(db.folders), noteId, folderIds[..i], now)
      invariant db.notes == old(db.notes) && db.tags == old(db.tags)
    {
      var f := folderIds[i];
      assert folderIds[..i + 1][..i] == folderIds[..i];
      if f in db.folders {
        var updated := db.folders[f].(noteIds := db.folders[f].noteIds + [noteId], updatedAt := now);
        WriteKeepsUniqueIff(db.folders, FolderKey, f, updated);
        db.folders := db.folders[f := updated];
      }
      pending := pending + [()];
      i := i + 1;
    }
    assert folderIds[..i] == folderIds;
  }

  // ---------------------------------------------------------------------------
  // Handlers

  /** The `folderId` property of a stored note: the schema has no such path,
      so the query `{ folderId }` never matches a note. */
  predicate FolderIdFieldIs(n: Note, folderId: string) {
    Get(NoteFields(n), "folderId") == Str(folderId)
  }

  lemma FolderIdFieldNeverMatches(n: Note, folderId: string)
    ensures !FolderIdFieldIs(n, folderId)
  {
  }

  /** `{ $regex: term }` on an optional text field, read as substring search. */
  predicate TextMatches(field: Option<string>, term: string) {
    field.Some? && Contains(field.value, term)
  }

  /** The filter GET /notes builds. */
  predicate NoteMatches(n: Note, userId: UserId, q: NotesQuery) {
    && n.userId == userId
    && (Truthy(q.searchTerm) ==> TextMatches(n.title, q.searchTerm.value) || TextMatches(n.content, q.searchTerm.value))
    && (Truthy(q.folderId) ==> FolderIdFieldIs(n, q.folderId.value))
    && (Truthy(q.tagId) ==> q.tagId.value in n.tags)
  }

  /** `.sort({ updatedAt: 'desc' })` */
  function NewestFirst(): (le: (Doc<Note>, Doc<Note>) -> bool)
    ensures TotalPreorder(le)
  {
    (a: Doc<Note>, b: Doc<Note>) => a.record.updatedAt >= b.record.updatedAt
  }

  /** GET /notes: the caller's notes that pass the search, folder and tag
      filters, each once, most recently updated first. A `tagId` that is not
      an ObjectId fails the query's cast; a `folderId` filter matches nothing. */
  method GetNotes(db: Db, userId: UserId, q: NotesQuery) returns (resp: Response<seq<Doc<Note>>>)
    ensures Truthy(q.tagId) && !IsValidObjectId(q.tagId.value) ==> resp == Unhandled(StoreFault(CastError("tags")))
    ensures !(Truthy(q.tagId) && !IsValidObjectId(q.tagId.value)) ==> resp.Json?
    ensures resp.Json? ==>
              && (forall d :: d in resp.body <==> d.id in db.notes && d.record == db.notes[d.id] && NoteMatches(d.record, userId, q))
              && Distinct(resp.body)
              && SortedBy(resp.body, NewestFirst())
    ensures resp.Json? && Truthy(q.folderId) ==> resp.body == []
  {
    if Truthy(q.tagId) && !IsValidObjectId(q.tagId.value) {
      return Unhandled(StoreFault(CastError("tags")));
    }
    var sorted := FindSorted(db.notes, (n: Note) => NoteMatches(n, userId, q), NewestFirst());
    if Truthy(q.folderId) {
      forall d: Doc<Note> ensures multiset(sorted)[d] == 0 {
        FolderIdFieldNeverMatches(d.record, q.folderId.value);
      }
      assert multiset(sorted) == multiset{};
    }
    resp := Json(sorted);
  }

  /** GET /notes/:id: 400 on a malformed id without a query, the note when
      the caller owns it, otherwise fall through: another user's note is
      indistinguishable from a missing one. */
  function GetNoteById(db: Db, userId: UserId, id: string): (resp: Response<Doc<Note>>)
    reads db
    ensures resp == BadRequest("The `id` is not valid") <==> !IsValidObjectId(id)
    ensures resp.Json? <==> IsValidObjectId(id) && id in db.notes && db.notes[id].userId == userId
    ensures resp.Json? ==> resp.body == Doc(id, db.notes[id])
    ensures resp == FallThrough <==> IsValidObjectId(id) && !(id in db.notes && db.notes[id].userId == userId)
  {
    if !IsValidObjectId(id) then BadRequest("The `id` is not valid")
    else if id in db.notes && db.notes[id].userId == userId then Json(Doc(id, db.notes[id]))
    else FallThrough
  }

  /** POST /notes. A missing or empty title answers 400 before any store
      call. Otherwise both lists are reconciled, the note is created for the
      caller with the reconciled ids, and each of its folders gets the new
      note id at the end of its `noteIds`. */
  method PostNote(db: Db, userId: UserId, body: NoteBody, now: int) returns (resp: Response<Doc<Note>>)
    requires db.Valid()
    modifies db
    ensures db.Valid()
    ensures !Truthy(body.title) ==>
              && resp == BadRequest("Missing `title` in request body")
              && db.notes == old(db.notes) && db.folders == old(db.folders) && db.tags == old(db.tags)
    ensures Truthy(body.title) && body.tags.NotAnArray? ==>
              && resp == Unhandled(TypeError("tags.filter"))
              && db.notes == old(db.notes) && db.folders == old(db.folders) && db.tags == old(db.tags)
    ensures forall k :: k in old(db.tags) ==> k in db.tags && db.tags[k] == old(db.tags)[k]
    ensures Truthy(body.title) ==>
              (resp.Json? <==> RefsFailure(old(db.tags), old(db.folders), body.tags, body.folders, now).None?)
    ensures Truthy(body.title) && RefsFailure(old(db.tags), old(db.folders), body.tags, body.folders, now).Some? ==>
              resp == Unhandled(RefsFailure(old(db.tags), old(db.folders), body.tags, body.folders, now).value)
    ensures Truthy(body.title) && body.tags.Items? ==>
              BatchApplied(old(db.tags), db.tags, TagsMadeFor(body.tags.entries), TagKey)
    ensures !Truthy(body.title) || !body.tags.Items? ==> db.tags == old(db.tags)
    ensures Truthy(body.title) && !body.tags.NotAnArray? && body.folders.Items? && !resp.Json? ==>
              BatchApplied(old(db.folders), db.folders, FoldersMadeFor(body.folders.entries, now), FolderKey)
    ensures resp.Json? ==>
              exists mid ::
                && StoredFor(body.folders, resp.body.record.folders, old(db.folders), mid, FolderMaker(now))
                && db.folders == PushNoteId(mid, resp.body.id, resp.body.record.folders, now)
    ensures resp.Json? && body.folders.Items? ==>
              exists mid ::
                && BatchApplied(old(db.folders), mid, FoldersMadeFor(body.folders.entries, now), FolderKey)
                && db.folders == PushNoteId(mid, resp.body.id, resp.body.record.folders, now)
    ensures resp.Json? && body.folders.Absent? ==> db.folders == old(db.folders)
    ensures !resp.Json? ==> db.notes == old(db.notes)
    ensures resp.Json? ==>
              && resp.body.id !in old(db.notes)
              && db.notes == old(db.notes)[resp.body.id := resp.body.record]
              && resp.body.record.userId == userId
              && resp.body.record.title == body.title
              && resp.body.record.content == body.content
              && resp.body.record.createdAt == now && resp.body.record.updatedAt == now
    ensures resp.Json? ==> StoredFor(body.tags, resp.body.record.tags, old(db.tags), db.tags, NewTag)
    ensures resp.Json? && body.folders.Absent? ==> resp.body.record.folders == [] && db.folders.Keys == old(db.folders).Keys
    ensures resp.Json? && body.folders.Items? ==>
              KeepsAndAdds(body.folders.entries, resp.body.record.folders, old(db.folders).Keys, db.folders.Keys)
    ensures resp.Json? ==>
              forall f :: f in old(db.folders) ==>
                && f in db.folders && FolderKey(db.folders[f]) == FolderKey(old(db.folders)[f])
                && db.folders[f].noteIds == old(db.folders)[f].noteIds + Repeat(resp.body.id, Count(resp.body.record.folders, f))
    ensures resp.Json? ==>
              forall f :: f in resp.body.record.folders && f in db.folders ==> resp.body.id in db.folders[f].noteIds
  {
    if !Truthy(body.title) {
      return BadRequest("Missing `title` in request body");
    }
    var refs := ReconcileRefs(db, body.tags, body.folders, now);
    if refs.Failed? {
      return Unhandled(refs.fault);
    }
    ghost var foldersBefore := db.folders;
    assert body.folders.Items? ==>
             BatchApplied(old(db.folders), foldersBefore, FoldersMadeFor(body.folders.entries, now), FolderKey);
    assert StoredFor(body.folders, refs.folderIds, old(db.folders), foldersBefore, FolderMaker(now));
    var note := NewNote(body.title, body.content, refs.folderIds, refs.tagIds, userId, now).value;
    var noteId := db.NewId();
    db.notes := db.notes[noteId := note];
    var _ := UpdateFoldersWithNoteIds(db, noteId, note.folders, now);
    PushNoteIdEffect(foldersBefore, noteId, note.folders, now);
    forall f | f in note.folders && f in db.folders ensures noteId in db.folders[f].noteIds {
      var c := Count(note.folders, f);
      assert Repeat(noteId, c)[0] == noteId;
      assert db.folders[f].noteIds[|foldersBefore[f].noteIds|] == noteId;
    }
    resp := Json(Doc(noteId, note));
  }

  /** POST /notes never creates a note whose folder list holds a name-only
      entry: the folder cannot be created without a `userId`. */
  lemma PostNoteNeedsOwnedDrafts(folders: RefList, ids: seq<Id>, before: map<Id, Folder>, after: map<Id, Folder>,
                                 now: int, e: RefEntry)
    requires folders.Items? && e in folders.entries && !HasId(e) && e.userId.None?
    ensures !StoredFor(folders, ids, before, after, FolderMaker(now))
  {
    NameOnlyEntryBlocks(folders.entries, ids, before, after, FolderMaker(now), e);
  }

  /** PUT /notes/:id. The id is not checked up front: tags and folders are
      reconciled (and missing ones created) first, then the note is replaced
      by id alone, with no ownership check, taking the caller as its owner;
      no folder's `noteIds` is touched. A malformed id fails the update's
      cast; an unknown one answers `null`. */
  method PutNote(db: Db, userId: UserId, id: string, body: NoteBody, now: int) returns (resp: Response<Option<Doc<Note>>>)
    requires db.Valid()
    modifies db
    ensures db.Valid()
    ensures forall f :: f in old(db.folders) ==> f in db.folders && db.folders[f] == old(db.folders)[f]
    ensures forall k :: k in old(db.tags) ==> k in db.tags && db.tags[k] == old(db.tags)[k]
    ensures !IsValidObjectId(id) ==> !resp.Json?
    ensures RefsFailure(old(db.tags), old(db.folders), body.tags, body.folders, now).Some? ==>
              resp == Unhandled(RefsFailure(old(db.tags), old(db.folders), body.tags, body.folders, now).value)
    ensures RefsFailure(old(db.tags), old(db.folders), body.tags, body.folders, now).None? && !IsValidObjectId(id) ==>
              resp == Unhandled(StoreFault(CastError("_id")))
    ensures RefsFailure(old(db.tags), old(db.folders), body.tags, body.folders, now).None? && IsValidObjectId(id) ==>
              resp.Json? && (resp.body.Some? <==> id in old(db.notes))
    ensures body.tags.Items? ==> BatchApplied(old(db.tags), db.tags, TagsMadeFor(body.tags.entries), TagKey)
    ensures !body.tags.Items? ==> db.tags == old(db.tags)
    ensures !body.tags.NotAnArray? && body.folders.Items? ==>
              BatchApplied(old(db.folders), db.folders, FoldersMadeFor(body.folders.entries, now), FolderKey)
    ensures body.tags.NotAnArray? || !body.folders.Items? ==> db.folders == old(db.folders)
    ensures !resp.Json? ==> db.notes == old(db.notes)
    ensures !IsValidObjectId(id) && body.tags.Items? && resp == Unhandled(StoreFault(CastError("_id"))) &&
            (exists e :: e in body.tags.entries && !HasId(e))
            ==> exists k :: k in db.tags && k !in old(db.tags)
    ensures resp.Json? && resp.body.None? ==> IsValidObjectId(id) && id !in old(db.notes) && db.notes == old(db.notes)
    ensures resp.Json? && resp.body.Some? ==>
              && IsValidObjectId(id) && id in old(db.notes) && resp.body.value.id == id
              && db.notes == old(db.notes)[id := resp.body.value.record]
              && resp.body.value.record.userId == userId
              && resp.body.value.record.title == body.title
              && resp.body.value.record.content == body.content
              && resp.body.value.record.createdAt == old(db.notes)[id].createdAt
              && resp.body.value.record.updatedAt == now
              && StoredFor(body.tags, resp.body.value.record.tags, old(db.tags), db.tags, NewTag)
              && StoredFor(body.folders, resp.body.value.record.folders, old(db.folders), db.folders, FolderMaker(now))
  {
    var refs := ReconcileRefs(db, body.tags, body.folders, now);
    if refs.Failed? {
      return Unhandled(refs.fault);
    }
    if !IsValidObjectId(id) {
      if body.tags.Items? && (exists e :: e in body.tags.entries && !HasId(e)) {
        SomethingMade(body.tags.entries, refs.tagIds, old(db.tags), db.tags, NewTag);
      }
      return Unhandled(StoreFault(CastError("_id")));
    }
    if id !in db.notes {
      return Json(None);
    }
    var note := db.notes[id].(userId := userId, title := body.title, content := body.content,
                              tags := refs.tagIds, folders := refs.folderIds, updatedAt := now);
    db.notes := db.notes[id := note];
    resp := Json(Some(Doc(id, note)));
  }

  /** PATCH /notes/:id as written: after the id and title checks it calls
      `validateFolderId`, which is not defined, so the handler throws before
      any store call and never updates anything. */
  function PatchNote(id: string, body: PatchBody): (resp: Response<Doc<Note>>)
    ensures !IsValidObjectId(id) ==> resp == BadRequest("The `id` is not valid")
    ensures IsValidObjectId(id) && !Truthy(body.title) ==> resp == BadRequest("Missing `title` in request body")
    ensures IsValidObjectId(id) && Truthy(body.title) ==> resp == Unhandled(ReferenceError("validateFolderId"))
    ensures !resp.Json?
  {
    if !IsValidObjectId(id) then BadRequest("The `id` is not valid")
    else if !Truthy(body.title) then BadRequest("Missing `title` in request body")
    else Unhandled(ReferenceError("validateFolderId"))
  }

  /** PATCH /notes/:id as evidently intended: the folder named by `folderId`
      must be one of the caller's (else 400 "The folder is not valid"), the
      tags must pass the intended id check, and only then is the note
      updated by id. `folderId` is not a schema path, so it is not stored. */
  method PatchNoteIntended(db: Db, userId: UserId, id: string, body: PatchBody, now: int) returns (resp: Response<Doc<Note>>)
    modifies db
    ensures db.folders == old(db.folders) && db.tags == old(db.tags)
    ensures !IsValidObjectId(id) ==> resp == BadRequest("The `id` is not valid")
    ensures IsValidObjectId(id) && !Truthy(body.title) ==> resp == BadRequest("Missing `title` in request body")
    ensures IsValidObjectId(id) && Truthy(body.title) && body.folderId.Some? &&
            body.folderId.value !in OwnedIds(old(db.folders), FolderKey, userId)
            ==> resp == BadRequest("The folder is not valid")
    ensures IsValidObjectId(id) && Truthy(body.title) &&
            !(body.folderId.Some? && body.folderId.value !in OwnedIds(old(db.folders), FolderKey, userId)) ==>
              var check := CheckOwnedIds(OwnedIds(old(db.tags), TagKey, userId), body.tags, "tags", "tag");
              && (check.Reject? ==> resp == BadRequest(check.message))
              && (check.Pass? ==> (resp.Json? <==> id in old(db.notes)))
              && (check.Pass? && id !in old(db.notes) ==> resp == FallThrough)
    ensures !resp.Json? ==> db.notes == old(db.notes)
    ensures resp.Json? && !body.tags.Items? ==> resp.body.record.tags == []
    ensures resp.Json? && body.tags.Items? ==>
              && |resp.body.record.tags| == |body.tags.entries|
              && forall i :: 0 <= i < |body.tags.entries| ==> body.tags.entries[i].id == Some(resp.body.record.tags[i])
    ensures resp.Json? ==>
              && resp.body.id == id && id in old(db.notes)
              && db.notes == old(db.notes)[id := resp.body.record]
              && resp.body.record.title == body.title && resp.body.record.content == body.content
              && resp.body.record.userId == userId && resp.body.record.updatedAt == now
              && (forall t :: t in resp.body.record.tags ==> t in db.tags && db.tags[t].userId == userId)
              && Distinct(resp.body.record.tags)
  {
    if !IsValidObjectId(id) {
      return BadRequest("The `id` is not valid");
    }
    if !Truthy(body.title) {
      return BadRequest("Missing `title` in request body");
    }
    if body.folderId.Some? && body.folderId.value !in OwnedIds(db.folders, FolderKey, userId) {
      return BadRequest("The folder is not valid");
    }
    var owned := OwnedIds(db.tags, TagKey, userId);
    var tagCheck := CheckOwnedIds(owned, body.tags, "tags", "tag");
    if tagCheck.Reject? {
      return BadRequest(tagCheck.message);
    }
    if id !in db.notes {
      return FallThrough;
    }
    var tagIds: seq<Id> := [];
    if body.tags.Items? {
      CheckOwnedIdsPassIff(owned, body.tags.entries, "tags", "tag");
      tagIds := RefIds(body.tags.entries);
      forall t | t in tagIds ensures t in db.tags && db.tags[t].userId == userId {
        var i :| 0 <= i < |tagIds| && tagIds[i] == t;
        assert body.tags.entries[i] in body.tags.entries;
      }
    }
    var note := db.notes[id].(title := body.title, content := body.content, userId := userId,
                              tags := tagIds, updatedAt := now);
    db.notes := db.notes[id := note];
    resp := Json(Doc(id, note));
  }

  /** DELETE /notes/:id: 400 on a malformed id before any query; otherwise
      the caller's note with that id is removed if there is one, and the
      answer is 204 either way. Tags and folders are not touched. */
  method DeleteNote(db: Db, userId: UserId, id: string) returns (resp: Response<()>)
    modifies db
    ensures db.folders == old(db.folders) && db.tags == old(db.tags)
    ensures !IsValidObjectId(id) ==> resp == BadRequest("The `id` is not valid") && db.notes == old(db.notes)
    ensures IsValidObjectId(id) ==> resp == NoContent
    ensures IsValidObjectId(id) && id in old(db.notes) && old(db.notes)[id].userId == userId
            ==> db.notes == old(db.notes) - {id}
    ensures !(IsValidObjectId(id) && id in old(db.notes) && old(db.notes)[id].userId == userId)
            ==> db.notes == old(db.notes)
  {
    if !IsValidObjectId(id) {
      return BadRequest("The `id` is not valid");
    }
    if id in db.notes && db.notes[id].userId == userId {
      db.notes := db.notes - {id};
    }
    resp := NoContent;
  }
}
