/** The values the in-memory note controller works on: notes, request fields
    as they arrive in a JSON body, the status codes it answers with, and the
    store transitions its handlers perform, stated as functions on the
    sequence of notes. */
module Notes {

  datatype Option<T> = None | Some(value: T)

  /** One element of the controller's `notes` array. */
  datatype Note = Note(id: string, title: string, content: string)

  const StatusOk: int := 200
  const StatusCreated: int := 201
  const StatusNoContent: int := 204
  const StatusBadRequest: int := 400
  const StatusNotFound: int := 404

  /** The array the module starts with: a single seeded note. */
  const InitialNotes: seq<Note> := [Note("001", "test", "hello world")]

  /** JavaScript truthiness of a body field that is either absent
      (`undefined`/`null`, here `None`) or a string: only a non-empty
      string is truthy. */
  predicate Truthy(v: Option<string>) {
    v.Some? && v.value != ""
  }

  /** The expression `v || fallback` for such a field. */
  function OrElse(v: Option<string>, fallback: string): string {
    if Truthy(v) then v.value else fallback
  }

  /** `notes.findIndex((n) => n.id === id)`, with `None` in the place of -1:
      the first position holding a note with that id. */
  function FindIndex(s: seq<Note>, id: string): (r: Option<nat>)
    ensures r.Some? ==> r.value < |s| && s[r.value].id == id
    ensures r.Some? ==> forall j :: 0 <= j < r.value ==> s[j].id != id
    ensures r.None? <==> forall j :: 0 <= j < |s| ==> s[j].id != id
  {
    if |s| == 0 then None
    else if s[0].id == id then Some(0)
    else match FindIndex(s[1..], id)
      case None => None
      case Some(k) => Some(k + 1)
  }

  /** The note after `note.title = title || note.title` and
      `note.content = content || note.content`. */
  function Revised(n: Note, title: Option<string>, content: Option<string>): Note {
    Note(n.id, OrElse(title, n.title), OrElse(content, n.content))
  }

  /** The store after an update request for `id`: the first note with that
      id is revised in place, every other note stays where it was. */
  function UpdatedStore(s: seq<Note>, id: string, title: Option<string>, content: Option<string>): (r: seq<Note>)
    ensures |r| == |s|
    ensures FindIndex(s, id).None? ==> r == s
    ensures FindIndex(s, id).Some? ==>
      var i := FindIndex(s, id).value;
      r[i].id == s[i].id &&
      r[i].title == (if Truthy(title) then title.value else s[i].title) &&
      r[i].content == (if Truthy(content) then content.value else s[i].content)
    ensures forall j :: 0 <= j < |s| && Some(j) != FindIndex(s, id) ==> r[j] == s[j]
  {
    match FindIndex(s, id)
    case None => s
    case Some(i) => s[i := Revised(s[i], title, content)]
  }

  /** The store after a delete request for `id`: `notes.splice(index, 1)` at
      the first matching position, or the store itself when none matches. */
  function DeletedStore(s: seq<Note>, id: string): (r: seq<Note>)
    ensures FindIndex(s, id).None? ==> r == s
    ensures FindIndex(s, id).Some? ==>
      var i := FindIndex(s, id).value;
      |r| == |s| - 1 &&
      (forall j :: 0 <= j < i ==> r[j] == s[j]) &&
      (forall j :: i <= j < |r| ==> r[j] == s[j + 1]) &&
      multiset(r) + multiset{s[i]} == multiset(s)
  {
    match FindIndex(s, id)
    case None => s
    case Some(i) =>
      assert s == s[..i] + [s[i]] + s[i + 1..];
      s[..i] + s[i + 1..]
  }

  /** Lookup depends on the ids alone: two stores with the same ids at the
      same positions answer every lookup alike. */
  lemma FindIndexSameIds(s: seq<Note>, t: seq<Note>, id: string)
    requires |s| == |t|
    requires forall j :: 0 <= j < |s| ==> s[j].id == t[j].id
    ensures FindIndex(s, id) == FindIndex(t, id)
  {
  }

  /** After a note is pushed, a lookup finds an earlier note with the
      same id if there is one, and only otherwise the new note. */
  lemma {:induction false} FindAfterPush(s: seq<Note>, n: Note, id: string)
    ensures FindIndex(s + [n], id) ==
      if FindIndex(s, id).Some? then FindIndex(s, id)
      else if n.id == id then Some(|s|)
      else None
  {
    if |s| > 0 && s[0].id != id {
      assert (s + [n])[1..] == s[1..] + [n];
      FindAfterPush(s[1..], n, id);
    }
  }

  /** An update neither adds nor removes ids, so it never changes which
      position a lookup lands on. */
  lemma UpdateKeepsLookup(s: seq<Note>, id: string, title: Option<string>, content: Option<string>, key: string)
    ensures FindIndex(UpdatedStore(s, id, title, content), key) == FindIndex(s, key)
  {
    FindIndexSameIds(UpdatedStore(s, id, title, content), s, key);
  }

  /** Sending the same update twice leaves the store as sending it once. */
  lemma UpdateIdempotent(s: seq<Note>, id: string, title: Option<string>, content: Option<string>)
    ensures UpdatedStore(UpdatedStore(s, id, title, content), id, title, content) == UpdatedStore(s, id, title, content)
  {
  }

  /** An update whose title and content are both falsy changes nothing. */
  lemma UpdateFalsyIsIdentity(s: seq<Note>, id: string, title: Option<string>, content: Option<string>)
    requires !Truthy(title) && !Truthy(content)
    ensures UpdatedStore(s, id, title, content) == s
  {
  }

  /** Deleting by the id of a just-pushed note whose id was new to the
      store gives back the store as it was before the push. */
  lemma DeleteUndoesPush(s: seq<Note>, n: Note)
    requires FindIndex(s, n.id).None?
    ensures DeletedStore(s + [n], n.id) == s
  {
    FindAfterPush(s, n, n.id);
  }

  /** Two creates that receive the same id: while the first note stays,
      no lookup lands on the second, so every read, update and delete by
      that id acts on the first note. */
  lemma DuplicateIdShadowed(s: seq<Note>, first: Note, second: Note, key: string)
    requires first.id == second.id
    ensures FindIndex(s + [first] + [second], key) != Some(|s| + 1)
  {
    FindAfterPush(s, first, key);
    FindAfterPush(s + [first], second, key);
  }

  /** The second of two same-id notes becomes reachable by that id only
      once a delete by that id has removed the first. */
  lemma DeleteExposesDuplicate(s: seq<Note>, first: Note, second: Note)
    requires first.id == second.id
    requires FindIndex(s, first.id).None?
    ensures DeletedStore(s + [first] + [second], first.id) == s + [second]
    ensures FindIndex(s + [second], first.id) == Some(|s|)
  {
    var t := s + [first] + [second];
    FindAfterPush(s, first, first.id);
    FindAfterPush(s + [first], second, first.id);
    assert FindIndex(t, first.id) == Some(|s|);
    assert t[..|s|] == s && t[|s| + 1..] == [second];
    assert DeletedStore(t, first.id) == t[..|s|] + t[|s| + 1..];
    FindAfterPush(s, second, first.id);
  }

  /** The same with the seeded store and two creates in one millisecond:
      lookup, update and delete by that id all reach the first note only. */
  lemma SameMillisecondCreates()
    ensures var t := InitialNotes + [Note("1700000000000", "first", "a")] + [Note("1700000000000", "second", "b")];
      FindIndex(t, "1700000000000") == Some(1) &&
      UpdatedStore(t, "1700000000000", Some("edited"), None)[2] == Note("1700000000000", "second", "b") &&
      DeletedStore(t, "1700000000000") == InitialNotes + [Note("1700000000000", "second", "b")]
  {
  }

  /** No two notes of the store share an id. */
  predicate IdsDistinct(s: seq<Note>) {
    forall i, j :: 0 <= i < j < |s| ==> s[i].id != s[j].id
  }

  /** With distinct ids every note is reachable by its own id. */
  lemma DistinctIdsReachable(s: seq<Note>, i: nat)
    requires IdsDistinct(s)
    requires i < |s|
    ensures FindIndex(s, s[i].id) == Some(i)
  {
  }

  /** The seeded store has distinct ids. */
  lemma InitialIdsDistinct()
    ensures IdsDistinct(InitialNotes)
  {
  }

  /** Pushing a note whose id is new keeps the ids distinct. */
  lemma PushFreshKeepsDistinct(s: seq<Note>, n: Note)
    requires IdsDistinct(s)
    requires FindIndex(s, n.id).None?
    ensures IdsDistinct(s + [n])
  {
  }

  /** An update changes no id, so it keeps the ids distinct. */
  lemma UpdateKeepsDistinct(s: seq<Note>, id: string, title: Option<string>, content: Option<string>)
    requires IdsDistinct(s)
    ensures IdsDistinct(UpdatedStore(s, id, title, content))
  {
  }

  /** Removing a note keeps the ids distinct. */
  lemma DeleteKeepsDistinct(s: seq<Note>, id: string)
    requires IdsDistinct(s)
    ensures IdsDistinct(DeletedStore(s, id))
  {
  }
}
