/**
 * The note handlers: create, list, fetch, update and delete, every one scoped
 * to the user id the authentication gate resolved. A note of another user is
 * treated exactly as a note that does not exist.
 *
 * The store is a map from note id to note; the class changes it in place and
 * each changing method is tied to a function of the old map (Created, Updated,
 * Deleted). The two read-only handlers are the functions GetNotes and
 * GetSingleNote.
 */
module NoteController {
  import opened Options
  import Auth

  type UserId = Auth.UserId
  type NoteId = nat

  datatype Note = Note(owner: UserId, name: string, content: string, createdAt: int)

  /** A note as returned to the client, with its id. */
  datatype Entry = Entry(id: NoteId, note: Note)

  type Notes = map<NoteId, Note>

  // ---------------------------------------------------------------------------
  // Queries
  // ---------------------------------------------------------------------------

  /** `Note.findOne({ _id: id, userId: owner })`: back-end/Controllers/noteController.js:41. */
  function GetSingleNote(notes: Notes, owner: UserId, id: NoteId): (r: Option<Note>)
    ensures r.Some? <==> id in notes && notes[id].owner == owner
    ensures r.Some? ==> r.value == notes[id]
  {
    if id in notes && notes[id].owner == owner then Some(notes[id]) else None
  }

  /** `a` is listed no later than `b`: newer first, and among notes created at the same instant the larger id first. */
  predicate Precedes(a: Entry, b: Entry) {
    a.note.createdAt > b.note.createdAt || (a.note.createdAt == b.note.createdAt && a.id >= b.id)
  }

  predicate IsNewest(notes: Notes, ids: set<NoteId>, k: NoteId)
    requires ids <= notes.Keys
  {
    k in ids && forall j :: j in ids ==> Precedes(Entry(k, notes[k]), Entry(j, notes[j]))
  }

  lemma {:induction false} NewestExists(notes: Notes, ids: set<NoteId>)
    requires ids <= notes.Keys && ids != {}
    ensures exists k :: IsNewest(notes, ids, k)
    decreases ids
  {
    var x :| x in ids;
    if ids != {x} {
      NewestExists(notes, ids - {x});
      var k :| IsNewest(notes, ids - {x}, k);
      if Precedes(Entry(k, notes[k]), Entry(x, notes[x])) {
        assert IsNewest(notes, ids, k);
      } else {
        assert IsNewest(notes, ids, x);
      }
    } else {
      assert IsNewest(notes, ids, x);
    }
  }

  /** The note listed first among `ids`; the order is total, so there is exactly one. */
  function Newest(notes: Notes, ids: set<NoteId>): (k: NoteId)
    requires ids <= notes.Keys && ids != {}
    ensures IsNewest(notes, ids, k)
  {
    NewestExists(notes, ids);
    var k :| IsNewest(notes, ids, k); k
  }

  /** The notes with the given ids, sorted with Precedes (see ListingCovers and ListingOrdered). */
  function Listing(notes: Notes, ids: set<NoteId>): (r: seq<Entry>)
    requires ids <= notes.Keys
    ensures |r| == |ids|
    ensures forall i :: 0 <= i < |r| ==> r[i].id in ids && r[i].note == notes[r[i].id]
    decreases ids
  {
    if ids == {} then []
    else
      var k := Newest(notes, ids);
      [Entry(k, notes[k])] + Listing(notes, ids - {k})
  }

  /** Every id of `ids` appears in `r`. */
  predicate Covers(r: seq<Entry>, ids: set<NoteId>) {
    forall k :: k in ids ==> exists i :: 0 <= i < |r| && r[i].id == k
  }

  lemma {:induction false} ListingCovers(notes: Notes, ids: set<NoteId>)
    requires ids <= notes.Keys
    ensures Covers(Listing(notes, ids), ids)
    decreases ids
  {
    if ids != {} {
      var k := Newest(notes, ids);
      var rest := Listing(notes, ids - {k});
      var r := Listing(notes, ids);
      assert r == [Entry(k, notes[k])] + rest;
      ListingCovers(notes, ids - {k});
      forall k' | k' in ids ensures exists i :: 0 <= i < |r| && r[i].id == k' {
        if k' == k {
          assert r[0].id == k';
        } else {
          var i :| 0 <= i < |rest| && rest[i].id == k';
          assert r[i + 1].id == k';
        }
      }
    }
  }

  /** No id is listed twice, and each entry precedes every later one. */
  predicate Ordered(r: seq<Entry>) {
    forall i, j :: 0 <= i < j < |r| ==> r[i].id != r[j].id && Precedes(r[i], r[j])
  }

  lemma {:induction false} ListingOrdered(notes: Notes, ids: set<NoteId>)
    requires ids <= notes.Keys
    ensures Ordered(Listing(notes, ids))
    decreases ids
  {
    if ids != {} {
      var k := Newest(notes, ids);
      var rest := Listing(notes, ids - {k});
      var r := Listing(notes, ids);
      assert r == [Entry(k, notes[k])] + rest;
      ListingOrdered(notes, ids - {k});
      forall i, j | 0 <= i < j < |r| ensures r[i].id != r[j].id && Precedes(r[i], r[j]) {
        var b := rest[j - 1];
        assert r[j] == b && b.id in ids - {k} && b.note == notes[b.id];
        if i == 0 {
          assert r[i] == Entry(k, notes[k]);
          assert IsNewest(notes, ids, k);
        } else {
          assert r[i] == rest[i - 1];
        }
      }
    }
  }

  function OwnedBy(notes: Notes, owner: UserId): (ids: set<NoteId>)
    ensures ids <= notes.Keys
    ensures forall id :: id in ids <==> id in notes && notes[id].owner == owner
  {
    set id | id in notes && notes[id].owner == owner
  }

  /**
   * `Note.find({ userId: owner }).sort({ createdAt: -1 })`: back-end/Controllers/noteController.js:30-32.
   * Every note of the owner once, no note of anybody else, newest first.
   */
  function GetNotes(notes: Notes, owner: UserId): (r: seq<Entry>)
    ensures forall i :: 0 <= i < |r| ==> r[i].id in notes && r[i].note == notes[r[i].id] && r[i].note.owner == owner
    ensures forall id :: id in notes && notes[id].owner == owner ==> exists i :: 0 <= i < |r| && r[i].id == id
    ensures forall i, j :: 0 <= i < j < |r| ==> r[i].id != r[j].id
    ensures forall i, j :: 0 <= i < j < |r| ==> r[i].note.createdAt >= r[j].note.createdAt
  {
    var ids := OwnedBy(notes, owner);
    ListingCovers(notes, ids);
    ListingOrdered(notes, ids);
    var r := Listing(notes, ids);
    assert Covers(r, ids) && Ordered(r);
    r
  }

  // ---------------------------------------------------------------------------
  // The store after each changing handler
  // ---------------------------------------------------------------------------

  /** `Note.create({ userId, name, content: "" })` under the fresh id `id`. */
  function Created(notes: Notes, id: NoteId, owner: UserId, name: string, now: int): (r: Notes)
    ensures r.Keys == notes.Keys + {id}
    ensures r[id] == Note(owner, name, "", now)
    ensures forall k :: k in notes && k != id ==> r[k] == notes[k]
  {
    notes[id := Note(owner, name, "", now)]
  }

  /** `Note.findOneAndUpdate({ _id: id, userId: owner }, { content })`. */
  function Updated(notes: Notes, owner: UserId, id: NoteId, content: string): (r: Notes)
    ensures r.Keys == notes.Keys
    ensures id in notes && notes[id].owner == owner ==> r[id] == notes[id].(content := content)
    ensures !(id in notes && notes[id].owner == owner) ==> r == notes
    ensures forall k :: k in notes && k != id ==> r[k] == notes[k]
  {
    if id in notes && notes[id].owner == owner then notes[id := notes[id].(content := content)] else notes
  }

  /** `Note.findOneAndDelete({ _id: id, userId: owner })`. */
  function Deleted(notes: Notes, owner: UserId, id: NoteId): (r: Notes)
    ensures id in notes && notes[id].owner == owner ==> r.Keys == notes.Keys - {id}
    ensures !(id in notes && notes[id].owner == owner) ==> r == notes
    ensures forall k :: k in r ==> k in notes && r[k] == notes[k]
  {
    if id in notes && notes[id].owner == owner then notes - {id} else notes
  }

  class NoteStore {
    var notes: Notes
    var nextId: NoteId

    /** Ids are handed out once: every stored id is below the next one. */
    ghost predicate Valid()
      reads this
    {
      forall id :: id in notes ==> id < nextId
    }

    constructor ()
      ensures Valid() && notes == map[]
    {
      notes, nextId := map[], 0;
    }

    /** createNote: back-end/Controllers/noteController.js:3-26. */
    method CreateNote(owner: UserId, name: string, now: int) returns (code: int, created: Option<Entry>)
      requires Valid()
      modifies this
      ensures Valid()
      ensures name == "" ==> code == 400 && created.None? && notes == old(notes)
      ensures name != "" ==>
        && code == 201
        && old(nextId) !in old(notes)
        && created == Some(Entry(old(nextId), Note(owner, name, "", now)))
        && notes == Created(old(notes), old(nextId), owner, name, now)
    {
      if name == "" {
        return 400, None;
      }
      var id := nextId;
      var note := Note(owner, name, "", now);
      notes := notes[id := note];
      nextId := nextId + 1;
      code, created := 201, Some(Entry(id, note));
    }

    /** updateNote: back-end/Controllers/noteController.js:52-66. */
    method UpdateNote(owner: UserId, id: NoteId, content: string) returns (code: int)
      requires Valid()
      modifies this
      ensures Valid() && nextId == old(nextId)
      ensures notes == Updated(old(notes), owner, id, content)
      ensures code == if GetSingleNote(old(notes), owner, id).Some? then 200 else 404
    {
      if id in notes && notes[id].owner == owner {
        notes := notes[id := notes[id].(content := content)];
        code := 200;
      } else {
        code := 404;
      }
    }

    /** deleteNote: back-end/Controllers/noteController.js:68-92. */
    method DeleteNote(owner: UserId, id: NoteId) returns (code: int)
      requires Valid()
      modifies this
      ensures Valid() && nextId == old(nextId)
      ensures notes == Deleted(old(notes), owner, id)
      ensures code == if GetSingleNote(old(notes), owner, id).Some? then 200 else 404
    {
      if id in notes && notes[id].owner == owner {
        notes := notes - {id};
        code := 200;
      } else {
        code := 404;
      }
    }
  }

  // ---------------------------------------------------------------------------
  // Properties
  // ---------------------------------------------------------------------------

  /** Another user's note is answered exactly as an id that does not exist. */
  lemma ForeignNoteLooksMissing(notes: Notes, owner: UserId, id: NoteId)
    requires id in notes && notes[id].owner != owner
    ensures GetSingleNote(notes, owner, id) == GetSingleNote(notes - {id}, owner, id) == None
  {
  }

  /** Update changes only the content of the matching note; name, owner, creation time and every other note stay. */
  lemma UpdateFrame(notes: Notes, owner: UserId, id: NoteId, content: string)
    ensures var post := Updated(notes, owner, id, content);
      && post.Keys == notes.Keys
      && (forall k :: k in notes && k != id ==> post[k] == notes[k])
      && (id in notes ==> post[id].owner == notes[id].owner && post[id].name == notes[id].name
                          && post[id].createdAt == notes[id].createdAt)
      && (GetSingleNote(notes, owner, id).Some? ==> GetSingleNote(post, owner, id) == Some(notes[id].(content := content)))
      && (GetSingleNote(notes, owner, id).None? ==> post == notes)
  {
  }

  /** Delete removes exactly the matching note; a later fetch of that id is a 404. */
  lemma DeleteFrame(notes: Notes, owner: UserId, id: NoteId)
    ensures var post := Deleted(notes, owner, id);
      && (GetSingleNote(notes, owner, id).Some? ==> post.Keys == notes.Keys - {id})
      && (GetSingleNote(notes, owner, id).None? ==> post == notes)
      && (forall k :: k in post ==> k in notes && post[k] == notes[k])
      && GetSingleNote(post, owner, id).None?
  {
  }

  /** The listing of a user depends on nothing but that user's notes. */
  lemma {:induction false} ListingLocal(n1: Notes, n2: Notes, ids: set<NoteId>)
    requires ids <= n1.Keys && ids <= n2.Keys
    requires forall k :: k in ids ==> n1[k] == n2[k]
    ensures Listing(n1, ids) == Listing(n2, ids)
    decreases ids
  {
    if ids != {} {
      var k1, k2 := Newest(n1, ids), Newest(n2, ids);
      assert Precedes(Entry(k1, n1[k1]), Entry(k2, n1[k2]));
      assert Precedes(Entry(k2, n2[k2]), Entry(k1, n2[k1]));
      assert k1 == k2;
      ListingLocal(n1, n2, ids - {k1});
    }
  }

  lemma SameOwnedNotesSameListing(n1: Notes, n2: Notes, owner: UserId)
    requires forall k :: (k in n1 && n1[k].owner == owner) <==> (k in n2 && n2[k].owner == owner)
    requires forall k :: k in n1 && n1[k].owner == owner ==> n2[k] == n1[k]
    ensures GetNotes(n1, owner) == GetNotes(n2, owner)
  {
    assert OwnedBy(n1, owner) == OwnedBy(n2, owner);
    ListingLocal(n1, n2, OwnedBy(n1, owner));
  }

  /** A note created by one user under a fresh id does not change what another user lists. */
  lemma CreateIsolated(notes: Notes, caller: UserId, other: UserId, id: NoteId, name: string, now: int)
    requires caller != other
    requires id !in notes
    ensures GetNotes(Created(notes, id, caller, name, now), other) == GetNotes(notes, other)
  {
    SameOwnedNotesSameListing(Created(notes, id, caller, name, now), notes, other);
  }

  /** An update by one user, of any id, does not change what another user lists. */
  lemma UpdateIsolated(notes: Notes, caller: UserId, other: UserId, id: NoteId, content: string)
    requires caller != other
    ensures GetNotes(Updated(notes, caller, id, content), other) == GetNotes(notes, other)
  {
    SameOwnedNotesSameListing(Updated(notes, caller, id, content), notes, other);
  }

  /** A delete by one user, of any id, does not change what another user lists. */
  lemma DeleteIsolated(notes: Notes, caller: UserId, other: UserId, id: NoteId)
    requires caller != other
    ensures GetNotes(Deleted(notes, caller, id), other) == GetNotes(notes, other)
  {
    SameOwnedNotesSameListing(Deleted(notes, caller, id), notes, other);
  }

  /** Create a note, fill it, read it, delete it, read it again. */
  lemma NoteLifecycle(notes: Notes, id: NoteId, owner: UserId, now: int)
    requires id !in notes
    ensures var n1 := Created(notes, id, owner, "Shopping", now);
      && GetSingleNote(n1, owner, id) == Some(Note(owner, "Shopping", "", now))
      && var n2 := Updated(n1, owner, id, "milk, eggs");
      && GetSingleNote(n2, owner, id).Some? && GetSingleNote(n2, owner, id).value.content == "milk, eggs"
      && var n3 := Deleted(n2, owner, id);
      && n3 == notes
      && GetSingleNote(n3, owner, id).None?
  {
  }
}
