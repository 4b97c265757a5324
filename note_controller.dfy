/** The in-memory note controller: one store object holding the module-level
    `notes` array, and the five request handlers as methods on it. A request
    is reduced to its path id and its body's `title` and `content`; a reply
    to its status code and the note it carries, if any. */
module NoteController {
  import opened Notes

  class NoteStore {
    /** The `notes` array, in insertion order; ids need not be unique. */
    var notes: seq<Note>

    /** The store as the module loads: the one seeded note. */
    constructor ()
      ensures notes == InitialNotes
    {
      notes := InitialNotes;
    }

    /** GET /: every note, in order, with status 200. */
    method GetNotes() returns (status: int, all: seq<Note>)
      ensures status == StatusOk
      ensures all == notes
    {
      status, all := StatusOk, notes;
    }

    /** GET /:id: the first note with that id and 200, or 404 when no note
        carries it. */
    method GetNoteById(id: string) returns (status: int, note: Option<Note>)
      ensures status == StatusOk || status == StatusNotFound
      ensures status == StatusNotFound <==> forall j :: 0 <= j < |notes| ==> notes[j].id != id
      ensures status == StatusNotFound ==> note == None
      ensures status == StatusOk ==>
        exists i :: 0 <= i < |notes| && note == Some(notes[i]) && notes[i].id == id &&
          forall j :: 0 <= j < i ==> notes[j].id != id
    {
      match FindIndex(notes, id)
      case None =>
        status, note := StatusNotFound, None;
      case Some(i) =>
        status, note := StatusOk, Some(notes[i]);
    }

    /** POST /: 400 and no change unless both fields are truthy; otherwise
        the note `{newId, title, content}` is pushed and returned with 201.
        `newId` stands for `Date.now().toString()`. */
    method CreateNote(newId: string, title: Option<string>, content: Option<string>) returns (status: int, note: Option<Note>)
      modifies this
      ensures !(Truthy(title) && Truthy(content)) ==>
        status == StatusBadRequest && note == None && notes == old(notes)
      ensures Truthy(title) && Truthy(content) ==>
        status == StatusCreated && note == Some(Note(newId, title.value, content.value)) &&
        notes == old(notes) + [Note(newId, title.value, content.value)]
      ensures IdsDistinct(old(notes)) && FindIndex(old(notes), newId).None? ==> IdsDistinct(notes)
    {
      if !Truthy(title) || !Truthy(content) {
        status, note := StatusBadRequest, None;
        return;
      }
      var created := Note(newId, title.value, content.value);
      notes := notes + [created];
      status, note := StatusCreated, Some(created);
    }

    /** PUT /:id: 404 and no change when no note has the id; otherwise the
        first such note gets each truthy field, keeps the other, and is
        returned with 200. */
    method UpdateNote(id: string, title: Option<string>, content: Option<string>) returns (status: int, note: Option<Note>)
      modifies this
      ensures notes == UpdatedStore(old(notes), id, title, content)
      ensures FindIndex(old(notes), id).None? ==> status == StatusNotFound && note == None
      ensures FindIndex(old(notes), id).Some? ==>
        status == StatusOk && note == Some(notes[FindIndex(old(notes), id).value])
      ensures IdsDistinct(old(notes)) ==> IdsDistinct(notes)
    {
      match FindIndex(notes, id)
      case None =>
        status, note := StatusNotFound, None;
      case Some(i) =>
        var revised := Revised(notes[i], title, content);
        notes := notes[i := revised];
        status, note := StatusOk, Some(revised);
    }

    /** DELETE /:id: 404 and no change when no note has the id; otherwise
        the first such note is spliced out and the reply is 204. */
    method DeleteNote(id: string) returns (status: int)
      modifies this
      ensures notes == DeletedStore(old(notes), id)
      ensures status == if FindIndex(old(notes), id).Some? then StatusNoContent else StatusNotFound
      ensures IdsDistinct(old(notes)) ==> IdsDistinct(notes)
    {
      match FindIndex(notes, id)
      case None =>
        status := StatusNotFound;
      case Some(i) =>
        notes := notes[..i] + notes[i + 1..];
        status := StatusNoContent;
    }
  }

  /** A client of the store's contracts: the seeded note is found, a create
      that lacks content is refused, and a note that is created, updated and
      deleted leaves the store as it started. */
  method Walkthrough() {
    var store := new NoteStore();
    assert store.notes[0].id == "001";
    var status, note := store.GetNoteById("001");
    assert status == StatusOk && note == Some(Note("001", "test", "hello world"));

    status, note := store.CreateNote("1700000000000", Some("groceries"), Some(""));
    assert status == StatusBadRequest && store.notes == InitialNotes;

    status, note := store.CreateNote("1700000000000", Some("groceries"), Some("milk"));
    assert status == StatusCreated;
    assert store.notes == InitialNotes + [Note("1700000000000", "groceries", "milk")];

    assert FindIndex(store.notes, "1700000000000") == Some(1);
    status, note := store.UpdateNote("1700000000000", None, Some("eggs"));
    assert status == StatusOk && note == Some(Note("1700000000000", "groceries", "eggs"));

    status := store.DeleteNote("1700000000000");
    assert status == StatusNoContent && store.notes == InitialNotes;

    status := store.DeleteNote("1700000000000");
    assert status == StatusNotFound;
  }
}
