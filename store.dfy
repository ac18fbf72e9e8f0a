/** The document store behind the routes: three collections keyed by id, with
    the unique (name, userId) index on folders and tags. Only the store
    operations the routes use are modelled: creating documents one at a time
    or in a batch, and finding all documents that match a filter. */
module Store {
  import opened Common
  import opened Models
  import opened Ordering

  /** A bound above the length of every string in a finite set. */
  lemma {:induction false} LongerThanAll(s: set<string>) returns (n: nat)
    ensures forall x :: x in s ==> |x| < n
  {
    if s == {} {
      n := 0;
    } else {
      var x :| x in s;
      var m := LongerThanAll(s - {x});
      n := if m > |x| then m else |x| + 1;
    }
  }

  /** However many documents exist, an unused id remains. */
  lemma FreshIdExists(used: set<Id>)
    ensures exists id :: id !in used
  {
    var n := LongerThanAll(used);
    var w := seq(n, _ => '0');
    assert w !in used;
  }

  /** The key `k` is already held by some document. */
  predicate NameTaken<R>(m: map<Id, R>, key: R -> NameKey, k: NameKey) {
    exists a :: a in m && key(m[a]) == k
  }

  /** Adding a document under a fresh id takes exactly its key in addition. */
  lemma NameTakenAfterAdd<R>(m: map<Id, R>, key: R -> NameKey, id: Id, r: R, k: NameKey)
    requires id !in m
    ensures NameTaken(m[id := r], key, k) <==> NameTaken(m, key, k) || key(r) == k
  {
    var m' := m[id := r];
    if NameTaken(m, key, k) {
      var a :| a in m && key(m[a]) == k;
      assert a in m' && key(m'[a]) == k;
    }
    if key(r) == k {
      assert id in m' && key(m'[id]) == k;
    }
  }

  /** The keys the documents of `m` hold. */
  function KeysOf<R>(m: map<Id, R>, key: R -> NameKey): set<NameKey> {
    set a | a in m :: key(m[a])
  }

  /** A key is taken exactly when it is among the keys held. */
  lemma InKeysOf<R>(m: map<Id, R>, key: R -> NameKey, k: NameKey)
    ensures k in KeysOf(m, key) <==> NameTaken(m, key, k)
  {
  }

  /** Adding a document under a fresh id adds exactly its key. */
  lemma KeysOfAdd<R>(m: map<Id, R>, key: R -> NameKey, id: Id, r: R)
    requires id !in m
    ensures KeysOf(m[id := r], key) == KeysOf(m, key) + {key(r)}
  {
    forall k ensures k in KeysOf(m[id := r], key) <==> k in KeysOf(m, key) + {key(r)} {
      NameTakenAfterAdd(m, key, id, r, k);
      InKeysOf(m[id := r], key, k);
      InKeysOf(m, key, k);
    }
  }

  // ---------------------------------------------------------------------------
  // Batches: `Model.create(array)`

  /** What the schema makes of each draft of a batch. */
  function Made<R>(ds: seq<Draft>, make: Draft -> Result<R>): (made: seq<Result<R>>)
    ensures |made| == |ds|
    ensures forall i :: 0 <= i < |ds| ==> made[i] == make(ds[i])
  {
    seq(|ds|, i requires 0 <= i < |ds| => make(ds[i]))
  }

  /** The keys of the drafts of a batch that pass the schema. */
  function OkKeys<R>(made: seq<Result<R>>, key: R -> NameKey): set<NameKey> {
    set i | 0 <= i < |made| && made[i].Ok? :: key(made[i].value)
  }

  /** Draft `i` of a batch saves when it passes the schema and its key is
      free: held by no document before the batch, and not the key of an
      earlier draft that passed the schema (that draft either took the key or
      found it held already). */
  predicate SavesAt<R>(taken: set<NameKey>, made: seq<Result<R>>, key: R -> NameKey, i: nat)
    requires i < |made|
  {
    made[i].Ok? && key(made[i].value) !in taken && key(made[i].value) !in OkKeys(made[..i], key)
  }

  /** The error of a draft that does not save: the schema's, or else a
      duplicate key. */
  function FailureOf<R>(m: Result<R>): StoreError {
    if m.Err? then m.error else DuplicateKey
  }

  /** The error a batch rejects with: that of its first draft that does not
      save, and none when every draft saves. */
  function BatchError<R>(taken: set<NameKey>, made: seq<Result<R>>, key: R -> NameKey): Option<StoreError>
    decreases |made|
  {
    if made == [] then None
    else
      var e := BatchError(taken, made[..|made| - 1], key);
      if e.Some? then e
      else if SavesAt(taken, made, key, |made| - 1) then None
      else Some(FailureOf(made[|made| - 1]))
  }

  /** A prefix of a batch agrees with the batch on which drafts save. */
  lemma SavesAtPrefix<R>(taken: set<NameKey>, made: seq<Result<R>>, key: R -> NameKey, n: nat, i: nat)
    requires i < n <= |made|
    ensures SavesAt(taken, made[..n], key, i) == SavesAt(taken, made, key, i)
  {
    assert made[..n][..i] == made[..i];
  }

  /** The error after one more draft. */
  lemma BatchErrorSnoc<R>(taken: set<NameKey>, made: seq<Result<R>>, key: R -> NameKey, i: nat)
    requires i < |made|
    ensures BatchError(taken, made[..i + 1], key) ==
              if BatchError(taken, made[..i], key).Some? then BatchError(taken, made[..i], key)
              else if SavesAt(taken, made, key, i) then None
              else Some(FailureOf(made[i]))
  {
    assert made[..i + 1][..i] == made[..i];
    SavesAtPrefix(taken, made, key, i + 1, i);
  }

  /** A batch rejects exactly when some draft does not save, and then with
      the error of the first such draft. */
  lemma {:induction false} BatchErrorIsFirstFailure<R>(taken: set<NameKey>, made: seq<Result<R>>, key: R -> NameKey)
    ensures BatchError(taken, made, key).None? <==> forall i :: 0 <= i < |made| ==> SavesAt(taken, made, key, i)
    ensures BatchError(taken, made, key).Some? ==>
              exists i :: && 0 <= i < |made| && !SavesAt(taken, made, key, i)
                          && (forall j :: 0 <= j < i ==> SavesAt(taken, made, key, j))
                          && BatchError(taken, made, key).value == FailureOf(made[i])
    decreases |made|
  {
    if made != [] {
      var n := |made| - 1;
      var init := made[..n];
      BatchErrorIsFirstFailure(taken, init, key);
      forall i | 0 <= i < n ensures SavesAt(taken, init, key, i) == SavesAt(taken, made, key, i) {
        SavesAtPrefix(taken, made, key, n, i);
      }
      if BatchError(taken, init, key).Some? {
        var i :| && 0 <= i < n && !SavesAt(taken, init, key, i)
                 && (forall j :: 0 <= j < i ==> SavesAt(taken, init, key, j))
                 && BatchError(taken, init, key).value == FailureOf(init[i]);
        assert init[i] == made[i];
        assert forall j :: 0 <= j < i ==> SavesAt(taken, made, key, j);
      } else if !SavesAt(taken, made, key, n) {
        assert forall j :: 0 <= j < n ==> SavesAt(taken, made, key, j);
      }
    }
  }

  /** Every draft of a batch saves exactly when each passes the schema, none
      has a key held before the batch, and no two have the same key. */
  lemma BatchSavesIff<R>(taken: set<NameKey>, made: seq<Result<R>>, key: R -> NameKey)
    ensures BatchError(taken, made, key).None? <==>
              && (forall i :: 0 <= i < |made| ==> made[i].Ok? && key(made[i].value) !in taken)
              && (forall i, j :: 0 <= i < j < |made| && made[i].Ok? && made[j].Ok? ==>
                                   key(made[i].value) != key(made[j].value))
  {
    BatchErrorIsFirstFailure(taken, made, key);
    if forall i :: 0 <= i < |made| ==> SavesAt(taken, made, key, i) {
      forall i, j | 0 <= i < j < |made| && made[i].Ok? && made[j].Ok?
        ensures key(made[i].value) != key(made[j].value)
      {
        assert SavesAt(taken, made, key, j);
        assert made[..j][i] == made[i];
        assert key(made[i].value) in OkKeys(made[..j], key);
      }
    }
    if && (forall i :: 0 <= i < |made| ==> made[i].Ok? && key(made[i].value) !in taken)
       && (forall i, j :: 0 <= i < j < |made| && made[i].Ok? && made[j].Ok? ==> key(made[i].value) != key(made[j].value))
    {
      forall i | 0 <= i < |made| ensures SavesAt(taken, made, key, i) {
        forall j | 0 <= j < i && made[..i][j].Ok? ensures key(made[..i][j].value) != key(made[i].value) {
          assert made[..i][j] == made[j];
        }
      }
    }
  }

  /** Under a schema that accepts exactly the drafts with a name and an owner,
      and keys each document by that pair, a batch saves in full if and only
      if every draft has a name and an owner, no draft's pair is held
      already, and no two drafts share one. */
  lemma DraftBatchSavesIff<R>(m: map<Id, R>, ds: seq<Draft>, make: Draft -> Result<R>, key: R -> NameKey)
    requires forall d :: make(d).Ok? <==> Truthy(d.name) && d.userId.Some?
    requires forall d: Draft :: Truthy(d.name) && d.userId.Some? ==>
                           make(d).Ok? && key(make(d).value) == (d.name.value, d.userId.value)
    ensures BatchError(KeysOf(m, key), Made(ds, make), key).None? <==>
              && (forall i :: 0 <= i < |ds| ==>
                    Truthy(ds[i].name) && ds[i].userId.Some? &&
                    !NameTaken(m, key, (ds[i].name.value, ds[i].userId.value)))
              && (forall i, j :: 0 <= i < j < |ds| ==> (ds[i].name, ds[i].userId) != (ds[j].name, ds[j].userId))
  {
    var made := Made(ds, make);
    var taken := KeysOf(m, key);
    BatchSavesIff(taken, made, key);
    forall i | 0 <= i < |ds| && made[i].Ok?
      ensures key(made[i].value) == (ds[i].name.value, ds[i].userId.value)
      ensures key(made[i].value) in taken <==> NameTaken(m, key, key(made[i].value))
    {
      InKeysOf(m, key, key(made[i].value));
    }
  }

  /** A batch of one draft rejects exactly when that draft does not save on
      its own. */
  lemma OneDraftBatch<R>(taken: set<NameKey>, m: Result<R>, key: R -> NameKey)
    ensures BatchError(taken, [m], key) == if m.Ok? && key(m.value) !in taken then None else Some(FailureOf(m))
  {
    assert [m][..0] == [];
    assert OkKeys([m][..0], key) == {};
  }

  /** The keys of the drafts that pass the schema, one draft further. */
  lemma OkKeysSnoc<R>(made: seq<Result<R>>, key: R -> NameKey, i: nat)
    requires i < |made|
    ensures OkKeys(made[..i + 1], key) == OkKeys(made[..i], key) + (if made[i].Ok? then {key(made[i].value)} else {})
  {
    var a := made[..i + 1];
    var b := made[..i];
    forall k ensures k in OkKeys(a, key) <==> k in OkKeys(b, key) + (if made[i].Ok? then {key(made[i].value)} else {}) {
      if k in OkKeys(a, key) {
        var j :| 0 <= j < |a| && a[j].Ok? && key(a[j].value) == k;
        if j < i {
          assert b[j] == a[j];
        }
      }
      if k in OkKeys(b, key) {
        var j :| 0 <= j < |b| && b[j].Ok? && key(b[j].value) == k;
        assert a[j] == b[j];
      }
      if made[i].Ok? && k == key(made[i].value) {
        assert a[i] == made[i];
      }
    }
  }

  /** The ids given to the drafts that saved. */
  function SomeIds(ids: seq<Option<Id>>): set<Id> {
    set i | 0 <= i < |ids| && ids[i].Some? :: ids[i].value
  }

  lemma SomeIdsSnoc(ids: seq<Option<Id>>, x: Option<Id>)
    ensures SomeIds(ids + [x]) == SomeIds(ids) + (if x.Some? then {x.value} else {})
  {
    var s := ids + [x];
    forall y ensures y in SomeIds(s) <==> y in SomeIds(ids) + (if x.Some? then {x.value} else {}) {
      if y in SomeIds(s) {
        var i :| 0 <= i < |s| && s[i].Some? && s[i].value == y;
        if i < |ids| {
          assert ids[i] == s[i];
        }
      }
      if y in SomeIds(ids) {
        var i :| 0 <= i < |ids| && ids[i].Some? && ids[i].value == y;
        assert s[i] == ids[i];
      }
      if x.Some? && y == x.value {
        assert s[|ids|] == x;
      }
    }
  }

  /** After the first `|ids|` saves of a batch, `after` is `before` with one
      new document under `ids[i]` for each of those drafts that saves; the
      drafts that do not save leave nothing behind. */
  ghost predicate BatchSaved<R>(before: map<Id, R>, after: map<Id, R>, made: seq<Result<R>>, key: R -> NameKey,
                                ids: seq<Option<Id>>)
    requires |ids| <= |made|
  {
    && after.Keys == before.Keys + SomeIds(ids)
    && (forall k :: k in before ==> after[k] == before[k])
    && (forall i :: 0 <= i < |ids| ==> (ids[i].Some? <==> SavesAt(KeysOf(before, key), made, key, i)))
    && (forall i :: 0 <= i < |ids| && ids[i].Some? ==>
          ids[i].value !in before && ids[i].value in after && after[ids[i].value] == made[i].value)
    && (forall i, j :: 0 <= i < j < |ids| && ids[i].Some? && ids[j].Some? ==> ids[i].value != ids[j].value)
  }

  /** `after` is `before` with one new document for each draft of the batch
      that saves, and nothing else. */
  ghost predicate BatchApplied<R>(before: map<Id, R>, after: map<Id, R>, made: seq<Result<R>>, key: R -> NameKey) {
    exists ids: seq<Option<Id>> :: |ids| == |made| && BatchSaved(before, after, made, key, ids)
  }

  /** An empty batch changes nothing. */
  lemma EmptyBatch<R>(m: map<Id, R>, key: R -> NameKey)
    ensures BatchApplied(m, m, [], key)
  {
    var none: seq<Option<Id>> := [];
    assert SomeIds(none) == {};
    assert BatchSaved(m, m, [], key, none);
  }

  /** One more draft handled: saved under `x` when it saves, and leaving the
      store as it was when it does not. */
  lemma BatchSavedOneMore<R>(before: map<Id, R>, mid: map<Id, R>, after: map<Id, R>, made: seq<Result<R>>,
                             key: R -> NameKey, ids: seq<Option<Id>>, x: Option<Id>)
    requires |ids| < |made|
    requires BatchSaved(before, mid, made, key, ids)
    requires x.Some? <==> SavesAt(KeysOf(before, key), made, key, |ids|)
    requires x.None? ==> after == mid
    requires x.Some? ==> x.value !in mid && after == mid[x.value := made[|ids|].value]
    ensures BatchSaved(before, after, made, key, ids + [x])
  {
    var s := ids + [x];
    var taken := KeysOf(before, key);
    SomeIdsSnoc(ids, x);
    assert forall i :: 0 <= i < |ids| ==> s[i] == ids[i];
    assert s[|ids|] == x;
    assert after.Keys == before.Keys + SomeIds(s);
    forall i | 0 <= i < |s| ensures s[i].Some? <==> SavesAt(taken, made, key, i) {
      if i < |ids| {
        assert s[i] == ids[i];
      }
    }
    if x.Some? {
      forall k | k in before ensures after[k] == before[k] {
        assert k in mid && k != x.value;
      }
      forall i | 0 <= i < |s| && s[i].Some?
        ensures s[i].value !in before && s[i].value in after && after[s[i].value] == made[i].value
      {
        if i < |ids| {
          assert s[i] == ids[i] && ids[i].value in mid && ids[i].value != x.value;
        }
      }
      forall i, j | 0 <= i < j < |s| && s[i].Some? && s[j].Some? ensures s[i].value != s[j].value {
        assert s[i].value in mid;
      }
    } else {
      forall i | 0 <= i < |s| && s[i].Some?
        ensures s[i].value !in before && s[i].value in after && after[s[i].value] == made[i].value
      {
        assert i < |ids| && s[i] == ids[i];
      }
    }
  }

  /** What the single-document save of draft `|ids|` of a batch promises,
      run against `mid`, leaving `after`. */
  ghost predicate InsertOutcome<R>(mid: map<Id, R>, after: map<Id, R>, m: Result<R>, key: R -> NameKey, saved: Result<Id>) {
    && (m.Err? ==> saved == Err(m.error) && after == mid)
    && (m.Ok? && NameTaken(mid, key, key(m.value)) ==> saved == Err(DuplicateKey) && after == mid)
    && (saved.Ok? <==> m.Ok? && !NameTaken(mid, key, key(m.value)))
    && (saved.Ok? ==> saved.value !in mid && after == mid[saved.value := m.value])
  }

  /** A save of a batch succeeds exactly when its draft saves, and fails with
      that draft's error otherwise. */
  lemma SaveStep<R>(taken: set<NameKey>, mid: map<Id, R>, after: map<Id, R>, made: seq<Result<R>>,
                    key: R -> NameKey, i: nat, saved: Result<Id>)
    requires i < |made|
    requires KeysOf(mid, key) == taken + OkKeys(made[..i], key)
    requires InsertOutcome(mid, after, made[i], key, saved)
    ensures saved.Ok? <==> SavesAt(taken, made, key, i)
    ensures saved.Err? ==> saved.error == FailureOf(made[i])
  {
    if made[i].Ok? {
      InKeysOf(mid, key, key(made[i].value));
    }
  }

  /** The keys held after a save of a batch: those held before the batch and
      those of every draft so far that passes the schema. */
  lemma KeysStep<R>(taken: set<NameKey>, mid: map<Id, R>, after: map<Id, R>, made: seq<Result<R>>,
                    key: R -> NameKey, i: nat, saved: Result<Id>)
    requires i < |made|
    requires KeysOf(mid, key) == taken + OkKeys(made[..i], key)
    requires InsertOutcome(mid, after, made[i], key, saved)
    ensures KeysOf(after, key) == taken + OkKeys(made[..i + 1], key)
  {
    OkKeysSnoc(made, key, i);
    var m := made[i];
    if saved.Ok? {
      KeysOfAdd(mid, key, saved.value, m.value);
    } else if m.Ok? {
      InKeysOf(mid, key, key(m.value));
    }
  }

  /** A one-draft batch: the store moves on as the single save says, and the
      batch rejects exactly when that save fails, with its error. */
  lemma OneDraftSaved<R>(before: map<Id, R>, after: map<Id, R>, m: Result<R>, key: R -> NameKey, saved: Result<Id>)
    requires InsertOutcome(before, after, m, key, saved)
    ensures BatchApplied(before, after, [m], key)
    ensures BatchError(KeysOf(before, key), [m], key) == if saved.Ok? then None else Some(saved.error)
  {
    OneDraftBatch(KeysOf(before, key), m, key);
    if m.Ok? {
      InKeysOf(before, key, key(m.value));
    }
    var none: seq<Option<Id>> := [];
    assert SomeIds(none) == {};
    assert [m][..0] == [];
    assert OkKeys([m][..0], key) == {};
    var x := if saved.Ok? then Some(saved.value) else None;
    BatchSavedOneMore(before, before, after, [m], key, none, x);
    assert |none + [x]| == |[m]|;
  }

  /** One more save of a batch moves the store and the keys it holds on by
      one draft: the save succeeds exactly when its draft saves, and fails
      with that draft's error otherwise. */
  lemma StoreStep<R>(before: map<Id, R>, mid: map<Id, R>, after: map<Id, R>, made: seq<Result<R>>,
                     key: R -> NameKey, ids: seq<Option<Id>>, saved: Result<Id>)
    requires |ids| < |made|
    requires BatchSaved(before, mid, made, key, ids)
    requires KeysOf(mid, key) == KeysOf(before, key) + OkKeys(made[..|ids|], key)
    requires InsertOutcome(mid, after, made[|ids|], key, saved)
    ensures BatchSaved(before, after, made, key, ids + [if saved.Ok? then Some(saved.value) else None])
    ensures KeysOf(after, key) == KeysOf(before, key) + OkKeys(made[..|ids| + 1], key)
    ensures saved.Ok? <==> SavesAt(KeysOf(before, key), made, key, |ids|)
    ensures saved.Err? ==> saved.error == FailureOf(made[|ids|])
  {
    var taken := KeysOf(before, key);
    SaveStep(taken, mid, after, made, key, |ids|, saved);
    KeysStep(taken, mid, after, made, key, |ids|, saved);
    BatchSavedOneMore(before, mid, after, made, key, ids, if saved.Ok? then Some(saved.value) else None);
  }

  /** The documents of the first `|ids|` drafts of a batch, all of which
      saved, in draft order. */
  ghost predicate DocsSaved<R>(made: seq<Result<R>>, ids: seq<Option<Id>>, docs: seq<Doc<R>>)
    requires |ids| <= |made|
  {
    |docs| == |ids| && forall j :: 0 <= j < |ids| ==> ids[j] == Some(docs[j].id) && made[j] == Ok(docs[j].record)
  }

  lemma DocsStep<R>(made: seq<Result<R>>, ids: seq<Option<Id>>, docs: seq<Doc<R>>, x: Id)
    requires |ids| < |made| && made[|ids|].Ok?
    requires DocsSaved(made, ids, docs)
    ensures DocsSaved(made, ids + [Some(x)], docs + [Doc(x, made[|ids|].value)])
  {
    var ids', docs' := ids + [Some(x)], docs + [Doc(x, made[|ids|].value)];
    assert forall j :: 0 <= j < |ids| ==> ids'[j] == ids[j] && docs'[j] == docs[j];
  }

  /** The documents handed back by a batch whose every save succeeded are
      new, stored as their drafts made them, each under an id of its own. */
  lemma SavedDocsStored<R>(before: map<Id, R>, after: map<Id, R>, made: seq<Result<R>>, key: R -> NameKey,
                           ids: seq<Option<Id>>, docs: seq<Doc<R>>)
    requires |ids| == |made| && |docs| == |ids|
    requires BatchSaved(before, after, made, key, ids)
    requires forall i :: 0 <= i < |docs| ==> ids[i] == Some(docs[i].id)
    ensures forall i :: 0 <= i < |docs| ==>
              docs[i].id !in before && docs[i].id in after && Ok(after[docs[i].id]) == made[i]
    ensures forall i, j :: 0 <= i < j < |docs| ==> docs[i].id != docs[j].id
  {
    forall i | 0 <= i < |docs|
      ensures docs[i].id !in before && docs[i].id in after && Ok(after[docs[i].id]) == made[i]
    {
      assert ids[i].Some?;
    }
    forall i, j | 0 <= i < j < |docs| ensures docs[i].id != docs[j].id {
      assert ids[i].Some? && ids[j].Some?;
    }
  }

  /** The state of a batch after its first `|ids|` saves: the store as
      `BatchSaved` says, the keys it holds, the first failure so far, and,
      while nothing has failed, the documents saved so far in draft order. */
  ghost predicate BatchProgress<R>(before: map<Id, R>, after: map<Id, R>, made: seq<Result<R>>, key: R -> NameKey,
                                   ids: seq<Option<Id>>, failure: Option<StoreError>, docs: seq<Doc<R>>)
    requires |ids| <= |made|
  {
    && BatchSaved(before, after, made, key, ids)
    && KeysOf(after, key) == KeysOf(before, key) + OkKeys(made[..|ids|], key)
    && failure == BatchError(KeysOf(before, key), made[..|ids|], key)
    && (failure.None? ==> DocsSaved(made, ids, docs))
  }

  /** One more save of a batch, whose outcome is what the single-document
      save promises, moves the batch on by one draft. */
  lemma BatchProgressStep<R>(before: map<Id, R>, mid: map<Id, R>, after: map<Id, R>, made: seq<Result<R>>,
                             key: R -> NameKey, ids: seq<Option<Id>>, failure: Option<StoreError>, docs: seq<Doc<R>>,
                             saved: Result<Id>)
    requires |ids| < |made|
    requires BatchProgress(before, mid, made, key, ids, failure, docs)
    requires InsertOutcome(mid, after, made[|ids|], key, saved)
    ensures BatchProgress(before, after, made, key, ids + [if saved.Ok? then Some(saved.value) else None],
                          if failure.None? && saved.Err? then Some(saved.error) else failure,
                          if failure.None? && saved.Ok? then docs + [Doc(saved.value, after[saved.value])] else docs)
  {
    var i := |ids|;
    StoreStep(before, mid, after, made, key, ids, saved);
    BatchErrorSnoc(KeysOf(before, key), made, key, i);
    if failure.None? && saved.Ok? {
      DocsStep(made, ids, docs, saved.value);
    }
  }

  class Db {
    var notes: map<Id, Note>
    var folders: map<Id, Folder>
    var tags: map<Id, Tag>

    /** The unique indexes hold. */
    ghost predicate Valid()
      reads this
    {
      UniqueNames(folders, FolderKey) && UniqueNames(tags, TagKey)
    }

    constructor ()
      ensures Valid()
      ensures notes == map[] && folders == map[] && tags == map[]
    {
      notes, folders, tags := map[], map[], map[];
    }

    /** A new ObjectId, used by no document of any collection. */
    method NewId() returns (id: Id)
      ensures id !in notes && id !in folders && id !in tags
    {
      FreshIdExists(notes.Keys + folders.Keys + tags.Keys);
      id :| id !in notes.Keys + folders.Keys + tags.Keys;
    }

    /** Save one new folder: the schema's required fields first, then the
        unique index. */
    method InsertFolder(d: Draft, now: int) returns (r: Result<Id>)
      requires Valid()
      modifies this
      ensures Valid()
      ensures notes == old(notes) && tags == old(tags)
      ensures NewFolder(d, now).Err? ==> r == Err(NewFolder(d, now).error) && folders == old(folders)
      ensures NewFolder(d, now).Ok? && NameTaken(old(folders), FolderKey, FolderKey(NewFolder(d, now).value))
              ==> r == Err(DuplicateKey) && folders == old(folders)
      ensures r.Err? ==> r.error.DuplicateKey? || r.error.MissingRequired?
      ensures r.Ok? <==> NewFolder(d, now).Ok? && !NameTaken(old(folders), FolderKey, FolderKey(NewFolder(d, now).value))
      ensures r.Ok? ==> r.value !in old(folders) && r.value !in notes && r.value !in tags
      ensures r.Ok? ==> folders == old(folders)[r.value := NewFolder(d, now).value]
    {
      var made := NewFolder(d, now);
      if made.Err? {
        return Err(made.error);
      }
      if NameTaken(folders, FolderKey, FolderKey(made.value)) {
        return Err(DuplicateKey);
      }
      var id := NewId();
      WriteKeepsUniqueIff(folders, FolderKey, id, made.value);
      folders := folders[id := made.value];
      r := Ok(id);
    }

    /** Save one new tag, under the same rules as a folder. */
    method InsertTag(d: Draft) returns (r: Result<Id>)
      requires Valid()
      modifies this
      ensures Valid()
      ensures notes == old(notes) && folders == old(folders)
      ensures NewTag(d).Err? ==> r == Err(NewTag(d).error) && tags == old(tags)
      ensures NewTag(d).Ok? && NameTaken(old(tags), TagKey, TagKey(NewTag(d).value))
              ==> r == Err(DuplicateKey) && tags == old(tags)
      ensures r.Err? ==> r.error.DuplicateKey? || r.error.MissingRequired?
      ensures r.Ok? <==> NewTag(d).Ok? && !NameTaken(old(tags), TagKey, TagKey(NewTag(d).value))
      ensures r.Ok? ==> r.value !in old(tags) && r.value !in notes && r.value !in folders
      ensures r.Ok? ==> tags == old(tags)[r.value := NewTag(d).value]
    {
      var made := NewTag(d);
      if made.Err? {
        return Err(made.error);
      }
      if NameTaken(tags, TagKey, TagKey(made.value)) {
        return Err(DuplicateKey);
      }
      var id := NewId();
      WriteKeepsUniqueIff(tags, TagKey, id, made.value);
      tags := tags[id := made.value];
      r := Ok(id);
    }

    /** `Folder.create(drafts)`: an empty batch resolves with no value.
        Otherwise every draft is saved, each under the rules of
        `InsertFolder` and against the folders as the earlier saves left
        them; the batch resolves with the new documents, in draft order, when
        every save succeeds, and rejects with the error of the first failed
        save otherwise, the folders that did save staying in the store.
        `ids` gives each draft the id it was saved under. */
    method CreateFolders(ds: seq<Draft>, now: int) returns (r: Result<Option<seq<Doc<Folder>>>>, ghost ids: seq<Option<Id>>)
      requires Valid()
      modifies this
      ensures Valid()
      ensures notes == old(notes) && tags == old(tags)
      ensures ds == [] ==> r == Ok(None) && folders == old(folders)
      ensures |ids| == |ds| && BatchSaved(old(folders), folders, Made(ds, FolderMaker(now)), FolderKey, ids)
      ensures ds != [] ==> (r.Ok? <==> BatchError(KeysOf(old(folders), FolderKey), Made(ds, FolderMaker(now)), FolderKey).None?)
      ensures r.Err? ==> Some(r.error) == BatchError(KeysOf(old(folders), FolderKey), Made(ds, FolderMaker(now)), FolderKey)
      ensures r.Err? ==> r.error.DuplicateKey? || r.error.MissingRequired?
      ensures r.Ok? && ds != [] ==>
                && r.value.Some? && |r.value.value| == |ds|
                && (forall i :: 0 <= i < |ds| ==>
                      ids[i] == Some(r.value.value[i].id) && NewFolder(ds[i], now) == Ok(r.value.value[i].record))
    {
      ghost var made := Made(ds, FolderMaker(now));
      var failure: Option<StoreError> := None;
      var docs: seq<Doc<Folder>> := [];
      ids := [];
      assert SomeIds(ids) == {};
      var i := 0;
      while i < |ds|
        invariant 0 <= i <= |ds| && |ids| == i
        invariant Valid()
        invariant notes == old(notes) && tags == old(tags)
        invariant BatchProgress(old(folders), folders, made, FolderKey, ids, failure, docs)
        invariant failure.Some? ==> failure.value.DuplicateKey? || failure.value.MissingRequired?
      {
        ghost var mid := folders;
        var saved := InsertFolder(ds[i], now);
        BatchProgressStep(old(folders), mid, folders, made, FolderKey, ids, failure, docs, saved);
        ids := ids + [if saved.Ok? then Some(saved.value) else None];
        if failure.None? {
          if saved.Err? {
            failure := Some(saved.error);
          } else {
            docs := docs + [Doc(saved.value, folders[saved.value])];
          }
        }
        i := i + 1;
      }
      assert made[..i] == made;
      if ds == [] {
        r := Ok(None);
      } else if failure.Some? {
        r := Err(failure.value);
      } else {
        r := Ok(Some(docs));
      }
    }

    /** `Tag.create(drafts)`, under the same rules as `CreateFolders`. */
    method CreateTags(ds: seq<Draft>) returns (r: Result<Option<seq<Doc<Tag>>>>, ghost ids: seq<Option<Id>>)
      requires Valid()
      modifies this
      ensures Valid()
      ensures notes == old(notes) && folders == old(folders)
      ensures ds == [] ==> r == Ok(None) && tags == old(tags)
      ensures |ids| == |ds| && BatchSaved(old(tags), tags, Made(ds, NewTag), TagKey, ids)
      ensures ds != [] ==> (r.Ok? <==> BatchError(KeysOf(old(tags), TagKey), Made(ds, NewTag), TagKey).None?)
      ensures r.Err? ==> Some(r.error) == BatchError(KeysOf(old(tags), TagKey), Made(ds, NewTag), TagKey)
      ensures r.Err? ==> r.error.DuplicateKey? || r.error.MissingRequired?
      ensures r.Ok? && ds != [] ==>
                && r.value.Some? && |r.value.value| == |ds|
                && (forall i :: 0 <= i < |ds| ==>
                      ids[i] == Some(r.value.value[i].id) && NewTag(ds[i]) == Ok(r.value.value[i].record))
    {
      ghost var made := Made(ds, NewTag);
      var failure: Option<StoreError> := None;
      var docs: seq<Doc<Tag>> := [];
      ids := [];
      assert SomeIds(ids) == {};
      var i := 0;
      while i < |ds|
        invariant 0 <= i <= |ds| && |ids| == i
        invariant Valid()
        invariant notes == old(notes) && folders == old(folders)
        invariant BatchProgress(old(tags), tags, made, TagKey, ids, failure, docs)
        invariant failure.Some? ==> failure.value.DuplicateKey? || failure.value.MissingRequired?
      {
        ghost var mid := tags;
        var saved := InsertTag(ds[i]);
        BatchProgressStep(old(tags), mid, tags, made, TagKey, ids, failure, docs, saved);
        ids := ids + [if saved.Ok? then Some(saved.value) else None];
        if failure.None? {
          if saved.Err? {
            failure := Some(saved.error);
          } else {
            docs := docs + [Doc(saved.value, tags[saved.value])];
          }
        }
        i := i + 1;
      }
      assert made[..i] == made;
      if ds == [] {
        r := Ok(None);
      } else if failure.Some? {
        r := Err(failure.value);
      } else {
        r := Ok(Some(docs));
      }
    }
  }

  /** `Model.find(filter)`: every document of `m` whose record passes
      `keep`, each exactly once, in no particular order. */
  method Find<R(==)>(m: map<Id, R>, keep: R -> bool) returns (ds: seq<Doc<R>>)
    ensures forall d :: d in ds <==> d.id in m && d.record == m[d.id] && keep(d.record)
    ensures Distinct(ds)
  {
    ds := [];
    var remaining := m.Keys;
    while remaining != {}
      invariant remaining <= m.Keys
      invariant forall d :: d in ds <==> d.id in m && d.id !in remaining && d.record == m[d.id] && keep(d.record)
      invariant Distinct(ds)
      decreases remaining
    {
      var k :| k in remaining;
      if keep(m[k]) {
        ds := ds + [Doc(k, m[k])];
      }
      remaining := remaining - {k};
    }
  }

  /** `Model.find(filter).sort(order)`: every matching document once, in
      `le` order (ties in no particular order). */
  method FindSorted<R(==,!new)>(m: map<Id, R>, keep: R -> bool, le: (Doc<R>, Doc<R>) -> bool) returns (ds: seq<Doc<R>>)
    requires TotalPreorder(le)
    ensures forall d :: d in ds <==> d.id in m && d.record == m[d.id] && keep(d.record)
    ensures Distinct(ds)
    ensures SortedBy(ds, le)
  {
    var found := Find(m, keep);
    ds := SortBy(found, le);
    RearrangedStaysDistinct(found, ds);
    forall d ensures d in ds <==> d in found {
      assert d in ds <==> d in multiset(ds);
      assert d in found <==> d in multiset(found);
    }
  }
}
