/** An in-memory model of one MongoDB collection behind a Spring Data reactive
    repository: documents keyed by id, kept in their natural (insertion)
    order, with the repository operations the services call (save, saveAll,
    findById, findAllById, findAll, delete and a find-first-by-field query). */
module Store {
  import opened Common

  ghost predicate Distinct<T>(s: seq<T>) {
    forall i, j :: 0 <= i < j < |s| ==> s[i] != s[j]
  }

  /** Length of the longest id of ids. */
  function MaxLength(ids: seq<Id>): (n: nat)
    ensures forall k :: 0 <= k < |ids| ==> |ids[k]| <= n
  {
    if ids == [] then 0
    else
      var m := MaxLength(ids[1..]);
      if |ids[0]| > m then |ids[0]| else m
  }

  /** The id a save assigns to a document that has none: longer than every id
      in use, hence fresh. */
  function NewId(ids: seq<Id>): (id: Id)
    ensures id !in ids
  {
    seq(MaxLength(ids) + 1, _ => '0')
  }

  /** ids without id, order kept. */
  function Without(ids: seq<Id>, id: Id): (r: seq<Id>)
    ensures forall x :: x in r <==> x in ids && x != id
    ensures Distinct(ids) ==> Distinct(r)
  {
    if ids == [] then []
    else
      var rest := Without(ids[1..], id);
      assert Distinct(ids) ==> ids[0] !in rest;
      (if ids[0] == id then [] else [ids[0]]) + rest
  }

  /** The ids of ids that a findAllById query names, in natural order; every
      id at most once however often the query repeats it, and a null in the
      query matches nothing. */
  function SelectIds(ids: seq<Id>, query: seq<Text>): (r: seq<Id>)
    ensures forall x :: x in r <==> x in ids && Some(x) in query
    ensures Distinct(ids) ==> Distinct(r)
    ensures query == [] ==> r == []
  {
    if ids == [] then []
    else (if Some(ids[0]) in query then [ids[0]] else []) + SelectIds(ids[1..], query)
  }

  /** withId stores the id it is given where idOf reads it back. */
  ghost predicate Stamps<R(!new)>(idOf: R -> Text, withId: (R, Id) -> R) {
    forall r, i :: idOf(withId(r, i)) == Some(i)
  }

  /** The documents of one collection: ids lists their keys in natural
      order, docs maps each key to its document. */
  datatype Table<R(==,!new)> = Table(ids: seq<Id>, docs: map<Id, R>) {

    ghost predicate Valid() {
      Distinct(ids) && forall id :: id in docs <==> id in ids
    }

    /** Every document carries its own key as its id. */
    ghost predicate Keyed(idOf: R -> Text) {
      forall id | id in docs :: idOf(docs[id]) == Some(id)
    }

    /** `findById`: the document stored under id, or none. */
    function FindById(id: Id): (r: Option<R>)
      ensures r.Some? <==> id in docs
      ensures r.Some? ==> r.value == docs[id]
    {
      if id in docs then Some(docs[id]) else None
    }

    /** `findAll`: every document, in natural order. */
    function FindAll(): (rs: seq<R>)
      requires Valid()
      ensures |rs| == |ids|
      ensures forall k :: 0 <= k < |ids| ==> rs[k] == docs[ids[k]]
      ensures forall r :: r in rs <==> r in docs.Values
    {
      var rs := seq(|ids|, k requires 0 <= k < |ids| => docs[ids[k]]);
      assert forall r :: r in docs.Values ==> r in rs by {
        forall r | r in docs.Values ensures r in rs {
          var id :| id in docs && docs[id] == r;
          var k :| 0 <= k < |ids| && ids[k] == id;
          assert rs[k] == r;
        }
      }
      rs
    }

    /** `findAllById`: the stored documents whose ids the query names, in
        natural order; ids with no document are dropped. */
    function FindAllById(query: seq<Text>): (rs: seq<R>)
      requires Valid()
      ensures query == [] ==> rs == []
      ensures forall id :: id in docs && Some(id) in query ==> docs[id] in rs
    {
      var sel := SelectIds(ids, query);
      var rs := seq(|sel|, j requires 0 <= j < |sel| => docs[sel[j]]);
      assert forall id :: id in docs && Some(id) in query ==> docs[id] in rs by {
        forall id | id in docs && Some(id) in query
          ensures docs[id] in rs
        {
          var j :| 0 <= j < |sel| && sel[j] == id;
          assert rs[j] == docs[id];
        }
      }
      rs
    }

    /** Exactly the stored documents whose id is named by the query. */
    lemma FindAllByIdExact(idOf: R -> Text, query: seq<Text>)
      requires Valid() && Keyed(idOf)
      ensures forall r :: r in FindAllById(query) <==> r in docs.Values && idOf(r) in query
      ensures forall r :: r in FindAllById(query) ==> idOf(r).Some? && idOf(r).value in docs && docs[idOf(r).value] == r
    {
      var rs := FindAllById(query);
      var sel := SelectIds(ids, query);
      forall r
        ensures r in rs <==> r in docs.Values && idOf(r) in query
        ensures r in rs ==> idOf(r).Some? && idOf(r).value in docs && docs[idOf(r).value] == r
      {
        if r in rs {
          var j :| 0 <= j < |rs| && rs[j] == r;
          assert sel[j] in sel;
          assert r == docs[sel[j]];
          assert idOf(r) == Some(sel[j]);
        }
        if r in docs.Values && idOf(r) in query {
          var id :| id in docs && docs[id] == r;
          assert idOf(r) == Some(id);
        }
      }
    }

    /** The first document of keys, in order, whose field read by key equals
        k. */
    function FirstIn(keys: seq<Id>, key: R -> Text, k: Text): (r: Option<R>)
      requires forall x :: x in keys ==> x in docs
      ensures r.Some? ==> r.value in docs.Values && key(r.value) == k
      ensures r.None? <==> forall x :: x in keys ==> key(docs[x]) != k
    {
      if keys == [] then None
      else if key(docs[keys[0]]) == k then Some(docs[keys[0]])
      else FirstIn(keys[1..], key, k)
    }

    /** A derived `findBy<Field>` query: the first document in natural order
        whose field equals k, or none. */
    function FindFirst(key: R -> Text, k: Text): (r: Option<R>)
      requires Valid()
      ensures r.Some? ==> r.value in docs.Values && key(r.value) == k
      ensures r.None? <==> forall id :: id in docs ==> key(docs[id]) != k
    {
      FirstIn(ids, key, k)
    }

    /** The key `save` writes r under: its own id, or a fresh one. */
    function KeyFor(id: Text): Id {
      if id.Some? then id.value else NewId(ids)
    }

    /** The document `save` writes: r, given a fresh id when it has none. */
    function Stored(r: R, idOf: R -> Text, withId: (R, Id) -> R): R {
      if idOf(r).Some? then r else withId(r, NewId(ids))
    }

    function Put(key: Id, r: R): (t: Table<R>)
      requires Valid()
      ensures t.Valid()
    {
      Table(if key in docs then ids else ids + [key], docs[key := r])
    }

    /** `save`: an upsert by id; a document without id is inserted under a
        fresh one, any other replaces the document with its id or is
        appended. */
    function Save(r: R, idOf: R -> Text, withId: (R, Id) -> R): (t: Table<R>)
      requires Valid()
      ensures t.Valid()
      ensures t.docs == docs[KeyFor(idOf(r)) := Stored(r, idOf, withId)]
      ensures t.docs.Keys == docs.Keys + {KeyFor(idOf(r))}
      ensures Keyed(idOf) && Stamps(idOf, withId) ==>
        t.Keyed(idOf) && idOf(Stored(r, idOf, withId)) == Some(KeyFor(idOf(r)))
    {
      Put(KeyFor(idOf(r)), Stored(r, idOf, withId))
    }

    /** `saveAll`: the documents saved one after another, in input order;
        the second component is what the repository emits. */
    function SaveAll(rs: seq<R>, idOf: R -> Text, withId: (R, Id) -> R): (res: (Table<R>, seq<R>))
      requires Valid()
      ensures res.0.Valid() && |res.1| == |rs|
      ensures docs.Keys <= res.0.docs.Keys
      ensures Keyed(idOf) && Stamps(idOf, withId) ==> SavedInOrder(this, rs, idOf, withId, res.0, res.1)
      decreases |rs|
    {
      if rs == [] then (this, [])
      else
        var next := Save(rs[0], idOf, withId);
        var rest := next.SaveAll(rs[1..], idOf, withId);
        assert Keyed(idOf) && Stamps(idOf, withId) ==>
          SavedInOrder(this, rs, idOf, withId, rest.0, [Stored(rs[0], idOf, withId)] + rest.1)
        by {
          if Keyed(idOf) && Stamps(idOf, withId) {
            SaveAllStep(this, rs, idOf, withId, rest.0, rest.1);
          }
        }
        (rest.0, [Stored(rs[0], idOf, withId)] + rest.1)
    }

    /** `delete`: the document with that id is removed, nothing else. */
    function Delete(id: Id): (t: Table<R>)
      requires Valid()
      ensures t.Valid()
      ensures t.docs == docs - {id}
    {
      Table(Without(ids, id), docs - {id})
    }
  }

  /** key reads a field that setting the id leaves alone. */
  ghost predicate KeepsField<R(!new)>(key: R -> Text, withId: (R, Id) -> R) {
    forall r, i :: key(withId(r, i)) == key(r)
  }

  /** The ids the documents of saved carry. */
  function SavedIds<R>(saved: seq<R>, idOf: R -> Text): (ids: set<Id>)
    ensures forall k :: 0 <= k < |saved| && idOf(saved[k]).Some? ==> idOf(saved[k]).value in ids
  {
    if saved == [] then {}
    else (if idOf(saved[0]).Some? then {idOf(saved[0]).value} else {}) + SavedIds(saved[1..], idOf)
  }

  /** One saved document per input, in order: each its input given a fresh
      id when it had none, and stored in u. */
  ghost predicate SavedEach<R(!new)>(rs: seq<R>, idOf: R -> Text, withId: (R, Id) -> R, u: Table<R>, saved: seq<R>) {
    && |saved| == |rs|
    && forall k :: 0 <= k < |rs| ==>
         && idOf(saved[k]).Some? && idOf(saved[k]).value in u.docs
         && saved[k] == if idOf(rs[k]).Some? then rs[k] else withId(rs[k], idOf(saved[k]).value)
  }

  /** The ids the documents of saved carry, in order. */
  function IdsOf<R>(saved: seq<R>, idOf: R -> Text): (ids: seq<Text>)
    ensures |ids| == |saved| && forall k :: 0 <= k < |saved| ==> ids[k] == idOf(saved[k])
  {
    seq(|saved|, k requires 0 <= k < |saved| => idOf(saved[k]))
  }

  /** Every document of t whose id no saved document carries is in u, as it
      was. */
  ghost predicate Untouched<R(!new)>(t: Table<R>, idOf: R -> Text, u: Table<R>, saved: seq<R>) {
    forall id :: id in t.docs && Some(id) !in IdsOf(saved, idOf) ==> id in u.docs && u.docs[id] == t.docs[id]
  }

  /** A saved document whose id no later one carries is what u holds under
      that id: the last write wins. */
  ghost predicate LastWins<R(!new)>(idOf: R -> Text, u: Table<R>, saved: seq<R>) {
    forall k :: 0 <= k < |saved| && idOf(saved[k]) !in IdsOf(saved, idOf)[k + 1..] ==>
      idOf(saved[k]).Some? && idOf(saved[k]).value in u.docs && u.docs[idOf(saved[k]).value] == saved[k]
  }

  /** What saving rs into t one after another leaves, as u and the emitted
      documents saved: u is a keyed table, one saved document per input and
      stored, the untouched documents of t kept, the keys added exactly the
      ids of the saved documents, and the last write wins. */
  ghost predicate SavedInOrder<R(!new)>(t: Table<R>, rs: seq<R>, idOf: R -> Text, withId: (R, Id) -> R, u: Table<R>, saved: seq<R>) {
    && u.Valid() && u.Keyed(idOf)
    && SavedEach(rs, idOf, withId, u, saved)
    && Untouched(t, idOf, u, saved)
    && u.docs.Keys == t.docs.Keys + SavedIds(saved, idOf)
    && LastWins(idOf, u, saved)
  }

  /** One step of saveAll: saving the first document, then the rest. */
  lemma SaveAllStep<R(!new)>(t: Table<R>, rs: seq<R>, idOf: R -> Text, withId: (R, Id) -> R, u: Table<R>, savedRest: seq<R>)
    requires t.Valid() && t.Keyed(idOf) && Stamps(idOf, withId) && rs != []
    requires SavedInOrder(t.Save(rs[0], idOf, withId), rs[1..], idOf, withId, u, savedRest)
    ensures SavedInOrder(t, rs, idOf, withId, u, [t.Stored(rs[0], idOf, withId)] + savedRest)
  {
    StepEach(t, rs, idOf, withId, u, savedRest);
    StepUntouched(t, rs[0], idOf, withId, u, savedRest);
    StepKeys(t, rs[0], idOf, withId, u, savedRest);
    StepLastWins(t, rs[0], idOf, withId, u, savedRest);
  }

  lemma StepEach<R(!new)>(t: Table<R>, rs: seq<R>, idOf: R -> Text, withId: (R, Id) -> R, u: Table<R>, savedRest: seq<R>)
    requires t.Valid() && Stamps(idOf, withId) && rs != []
    requires SavedEach(rs[1..], idOf, withId, u, savedRest)
    requires t.Save(rs[0], idOf, withId).docs.Keys <= u.docs.Keys
    ensures SavedEach(rs, idOf, withId, u, [t.Stored(rs[0], idOf, withId)] + savedRest)
  {
    var saved := [t.Stored(rs[0], idOf, withId)] + savedRest;
    assert idOf(saved[0]) == Some(t.KeyFor(idOf(rs[0])));
    forall k | 0 < k < |rs|
      ensures idOf(saved[k]).Some? && idOf(saved[k]).value in u.docs
      ensures saved[k] == if idOf(rs[k]).Some? then rs[k] else withId(rs[k], idOf(saved[k]).value)
    {
      assert saved[k] == savedRest[k - 1] && rs[k] == rs[1..][k - 1];
    }
  }

  lemma StepUntouched<R(!new)>(t: Table<R>, r: R, idOf: R -> Text, withId: (R, Id) -> R, u: Table<R>, savedRest: seq<R>)
    requires t.Valid() && Stamps(idOf, withId)
    requires Untouched(t.Save(r, idOf, withId), idOf, u, savedRest)
    ensures Untouched(t, idOf, u, [t.Stored(r, idOf, withId)] + savedRest)
  {
    var first := t.Stored(r, idOf, withId);
    IdsOfCons(first, savedRest, idOf);
    assert idOf(first) == Some(t.KeyFor(idOf(r)));
  }

  /** IdsOf distributes over putting a document in front. */
  lemma IdsOfCons<R>(first: R, rest: seq<R>, idOf: R -> Text)
    ensures IdsOf([first] + rest, idOf) == [idOf(first)] + IdsOf(rest, idOf)
  {
    var saved := [first] + rest;
    forall k | 0 <= k < |rest| ensures saved[k + 1] == rest[k] { }
  }

  lemma StepKeys<R(!new)>(t: Table<R>, r: R, idOf: R -> Text, withId: (R, Id) -> R, u: Table<R>, savedRest: seq<R>)
    requires t.Valid() && Stamps(idOf, withId)
    requires u.docs.Keys == t.Save(r, idOf, withId).docs.Keys + SavedIds(savedRest, idOf)
    ensures u.docs.Keys == t.docs.Keys + SavedIds([t.Stored(r, idOf, withId)] + savedRest, idOf)
  {
    var saved := [t.Stored(r, idOf, withId)] + savedRest;
    assert saved[1..] == savedRest;
    assert idOf(saved[0]) == Some(t.KeyFor(idOf(r)));
  }

  lemma StepLastWins<R(!new)>(t: Table<R>, r: R, idOf: R -> Text, withId: (R, Id) -> R, u: Table<R>, savedRest: seq<R>)
    requires t.Valid() && Stamps(idOf, withId)
    requires LastWins(idOf, u, savedRest)
    requires Untouched(t.Save(r, idOf, withId), idOf, u, savedRest)
    ensures LastWins(idOf, u, [t.Stored(r, idOf, withId)] + savedRest)
  {
    var first := t.Stored(r, idOf, withId);
    var saved := [first] + savedRest;
    IdsOfCons(first, savedRest, idOf);
    forall k | 0 <= k < |saved| && idOf(saved[k]) !in IdsOf(saved, idOf)[k + 1..]
      ensures idOf(saved[k]).Some? && idOf(saved[k]).value in u.docs && u.docs[idOf(saved[k]).value] == saved[k]
    {
      if k == 0 {
        FirstWriteKept(t, r, idOf, withId, u, savedRest);
      } else {
        LaterWriteKept(first, idOf, u, savedRest, k);
      }
    }
  }

  /** The first document of a batch is kept when no later one carries its
      id. */
  lemma FirstWriteKept<R(!new)>(t: Table<R>, r: R, idOf: R -> Text, withId: (R, Id) -> R, u: Table<R>, savedRest: seq<R>)
    requires t.Valid() && Stamps(idOf, withId)
    requires Untouched(t.Save(r, idOf, withId), idOf, u, savedRest)
    requires idOf(t.Stored(r, idOf, withId)) !in IdsOf(savedRest, idOf)
    ensures idOf(t.Stored(r, idOf, withId)) == Some(t.KeyFor(idOf(r)))
    ensures t.KeyFor(idOf(r)) in u.docs && u.docs[t.KeyFor(idOf(r))] == t.Stored(r, idOf, withId)
  {
    var key := t.KeyFor(idOf(r));
    var next := t.Save(r, idOf, withId);
    assert key in next.docs && next.docs[key] == t.Stored(r, idOf, withId);
  }

  /** A later document of a batch keeps what the rest of the batch proved
      about it. */
  lemma LaterWriteKept<R(!new)>(first: R, idOf: R -> Text, u: Table<R>, savedRest: seq<R>, k: nat)
    requires LastWins(idOf, u, savedRest)
    requires 0 < k <= |savedRest|
    requires IdsOf([first] + savedRest, idOf) == [idOf(first)] + IdsOf(savedRest, idOf)
    requires idOf(([first] + savedRest)[k]) !in IdsOf([first] + savedRest, idOf)[k + 1..]
    ensures ([first] + savedRest)[k] == savedRest[k - 1]
    ensures idOf(savedRest[k - 1]).Some? && idOf(savedRest[k - 1]).value in u.docs
    ensures u.docs[idOf(savedRest[k - 1]).value] == savedRest[k - 1]
  {
    assert ([first] + savedRest)[k] == savedRest[k - 1];
    assert IdsOf([first] + savedRest, idOf)[k + 1..] == IdsOf(savedRest, idOf)[k..];
  }

  /** Once r is saved, a find-first on one of its other fields finds a
      document, and it is r itself when no other document shares that
      value. */
  lemma {:induction false} SaveThenFindFirst<R(!new)>(t: Table<R>, r: R, idOf: R -> Text, withId: (R, Id) -> R, key: R -> Text)
    requires t.Valid() && t.Keyed(idOf) && Stamps(idOf, withId) && KeepsField(key, withId)
    ensures t.Save(r, idOf, withId).FindFirst(key, key(r)).Some?
    ensures t.FindFirst(key, key(r)).None? ==>
      t.Save(r, idOf, withId).FindFirst(key, key(r)) == Some(t.Stored(r, idOf, withId))
  {
    var u := t.Save(r, idOf, withId);
    var k := t.KeyFor(idOf(r));
    var stored := t.Stored(r, idOf, withId);
    assert u.docs[k] == stored;
    assert key(stored) == key(r);
    if t.FindFirst(key, key(r)).None? {
      var found := u.FindFirst(key, key(r));
      var id :| id in u.docs && u.docs[id] == found.value;
    }
  }

  function EmptyTable<R(==,!new)>(): (t: Table<R>)
    ensures t.Valid() && t.docs == map[]
  {
    Table([], map[])
  }
}
