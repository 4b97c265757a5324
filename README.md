# In-memory note store of the thinkboard notes API

This project models the in-memory note controller of the thinkboard backend
(`backend/src/controllers/noteController.js`). The controller holds one
module-level array of notes, seeded with the note
`{id: "001", title: "test", content: "hello world"}`. Five request handlers
read or change that array:

- `getNotes` lists every note.
- `getNotesById` returns the first note whose id matches.
- `createNote` validates the body, then pushes a new note.
- `updateNote` overwrites the title and content of the first matching note.
  A falsy field keeps the old value.
- `deleteNote` splices out the first matching note.

The model has two modules:

- `Notes` (notes.dfy) holds the values. It defines the `Note` datatype, body
  fields as `Option<string>`, and JavaScript truthiness of such a field
  (`None` and `""` are falsy). It also defines `FindIndex`, which is
  `findIndex` with `None` for -1, and the store transitions `UpdatedStore`
  and `DeletedStore` as functions on `seq<Note>`. The lemmas relating the
  operations live here too.
- `NoteController` (note_controller.dfy) holds the class `NoteStore`. Its
  field `notes: seq<Note>` is the module-level array. It has one method per
  handler. Each method returns the reply's status code and, where the reply
  carries one, the note. State-changing methods tie the new `notes` to the
  old one. `Walkthrough` is a client that uses only these contracts.

Which controller the application serves is not settled by the files
modelled here. `backend/src/app.js:13` imports `./routes/noteRoutes.js`, a
file that is not part of this model. The router
`backend/src/routes/notesRoutes.js:13-19` wires the Mongoose-backed
`notesController.js`. This model follows the code of the in-memory
controller `noteController.js`, whose handlers have the same names.

## Model

| member | source | states |
|---|---|---|
| `NoteController.NoteStore.constructor` | backend/src/controllers/noteController.js:11-15 | The store starts as exactly the one seeded note `{"001", "test", "hello world"}`. |
| `NoteController.NoteStore.GetNotes` | backend/src/controllers/noteController.js:24-26 | Answers 200 with the whole store, in order; the store is not changed (no `modifies`). |
| `NoteController.NoteStore.GetNoteById` | backend/src/controllers/noteController.js:44-54 | Answers 404 with no note exactly when no note has the id. Otherwise answers 200 with the note at the first position holding that id. The store is not changed. |
| `NoteController.NoteStore.CreateNote` | backend/src/controllers/noteController.js:71-86 | Answers 400 with the store unchanged if the title or the content is missing or empty. Otherwise answers 201 with `{newId, title, content}`. The store becomes the old store plus that one note at its end, so every earlier note keeps its position. Distinct ids stay distinct when `newId` is new to the store. |
| `NoteController.NoteStore.UpdateNote` | backend/src/controllers/noteController.js:103-116 | Answers 404 when no note has the id, and 200 with the revised note when one does. The new store is `UpdatedStore` of the old one, and distinct ids stay distinct. |
| `NoteController.NoteStore.DeleteNote` | backend/src/controllers/noteController.js:133-144 | Answers 204 when a note has the id and 404 otherwise. The new store is `DeletedStore` of the old one, and distinct ids stay distinct. |
| `Notes.Truthy` | backend/src/controllers/noteController.js:74 | A body field passes the `!title \|\| !content` test exactly when it is present and not the empty string. |
| `Notes.OrElse` | backend/src/controllers/noteController.js:114-115 | The value of `v \|\| fallback`: the field when truthy, otherwise the fallback. |
| `Notes.Revised` | backend/src/controllers/noteController.js:114-115 | The found note after both field assignments: same id, and each of title and content replaced only by a truthy value. |
| `Notes.FindIndex` | backend/src/controllers/noteController.js:136-137 | Finds the first position whose note has the id, with no earlier match. The result is `None` (the source's -1) exactly when no note has the id. The same first-match search is `find` at lines 47 and 107. |
| `Notes.UpdatedStore` | backend/src/controllers/noteController.js:107-115 | Keeps the length. With no match, the store is unchanged. With a match, only the first matching note changes: it keeps its id, takes the title if truthy and otherwise keeps the old title, and treats content the same way. Every other position is untouched. |
| `Notes.DeletedStore` | backend/src/controllers/noteController.js:136-143 | With no match, the store is unchanged. Otherwise the length drops by one and the notes before the first match stay in place. The notes after it shift down by one, keeping their order. The multiset loses exactly that one note. |
| `Notes.FindIndexSameIds` | backend/src/controllers/noteController.js:107-115 | Two stores with the same ids at the same positions answer every lookup with the same position. |
| `Notes.FindAfterPush` | backend/src/controllers/noteController.js:80-85 | After a push, a lookup (line 47) finds an earlier note with that id if one exists, and otherwise the pushed note if its id matches. While an earlier note with the same id stays in the store, a created note with that id is not reached by id. |
| `Notes.UpdateKeepsLookup` | backend/src/controllers/noteController.js:114-115 | An update changes no id, so every later lookup lands on the same position as before. |
| `Notes.UpdateIdempotent` | backend/src/controllers/noteController.js:107-116 | Applying the same update twice gives the same store as applying it once. |
| `Notes.UpdateFalsyIsIdentity` | backend/src/controllers/noteController.js:114-115 | An update whose title and content are both falsy leaves the store unchanged. |
| `Notes.DeleteUndoesPush` | backend/src/controllers/noteController.js:136-143 | Take a note whose id is new to the store and push it (line 85). Deleting by that id then gives back the store as it was. |
| `Notes.DuplicateIdShadowed` | backend/src/controllers/noteController.js:80-86 | Two creates that receive the same id push two notes with that id. While the first note stays, no lookup by any id lands on the second, so every GET, PUT and DELETE by that id acts on the first note. |
| `Notes.SameMillisecondCreates` | backend/src/controllers/noteController.js:80-86 | A concrete case: the seeded store plus two creates with id `1700000000000`. Lookup, update and delete by that id all reach the first of the two, and the second is left as it was. |
| `Notes.DeleteExposesDuplicate` | backend/src/controllers/noteController.js:136-143 | With two same-id notes pushed onto a store without that id, a delete by that id removes the first. The second is then the first match by that id. |
| `Notes.DistinctIdsReachable` | backend/src/controllers/noteController.js:44-54 | When ids are distinct, the lookup by each note's own id finds that note. |
| `Notes.InitialIdsDistinct` | backend/src/controllers/noteController.js:11-15 | The seeded store has distinct ids. |
| `Notes.PushFreshKeepsDistinct` | backend/src/controllers/noteController.js:80-85 | Pushing a note whose id is new to the store keeps the ids distinct. |
| `Notes.UpdateKeepsDistinct` | backend/src/controllers/noteController.js:107-115 | An update keeps the ids distinct. |
| `Notes.DeleteKeepsDistinct` | backend/src/controllers/noteController.js:136-143 | A delete keeps the ids distinct. |

## Left out

- The `catch` branches answering 500 (lines 28-34, 55-61, 87-93, 117-123, 145-151) are not modelled. The model assumes every request carries a parsed body object. With Express 5 and `express.json()` (`backend/src/app.js:20`), a request without a JSON body has `req.body` undefined. The destructuring at lines 73 and 106 then throws and the reply is 500. For `updateNote` this happens before the lookup at line 107, so a body-less PUT to an unknown id answers 500 where the model answers 404.
- The clock: `Date.now().toString()` at line 81 becomes the caller-supplied `newId`. The comment at line 66 promises a unique id. The model does not assume that promise, since the clock can repeat within a millisecond or go backwards. Distinct ids are proved to be kept only when each create receives an id new to the store; see Findings.
- Request and response objects: a request is reduced to its path id and its body's `title` and `content`. A reply is reduced to its status code and its note. The error bodies' `error`/`message` texts are not modelled.
- Body fields that are JSON values other than strings (numbers, booleans, objects) are not modelled. Fields are either absent (`None`, standing for `undefined` or `null`) or strings. Among strings, only `""` is falsy, so a whitespace-only title is accepted, as in the source.
- Object identity: each note is a value. The in-place assignment to the found note's fields becomes the replacement of that one position. The source serialises the note into its reply, so no caller can observe the aliasing.
- `GetNotes` returns the store's contents as a value. In the source, `res.json(notes)` serialises the live array.
- `backend/src/controllers/notesController.js` (Mongoose), `backend/src/models/Note.js` (schema validation done by Mongoose), the rate-limiting and CORS middleware, configuration, routing and server start-up are not part of this model. Their behaviour lives in libraries and remote services.
- The frontend (React pages, axios calls, date formatting) is not part of this model.

## Findings

| source | as written | input that shows it | evidently intended | confidence | as-written member | corrected member |
|---|---|---|---|---|---|---|
| backend/src/controllers/noteController.js:66-81 | The comment promises that a new note gets a unique id. The id is `Date.now().toString()`, which is not checked against the store. | Two POST requests served within the same millisecond both get id `1700000000000`. While the first note stays, every GET, PUT and DELETE by that id acts on the first note: a PUT or DELETE meant for the second changes the first. The second can be reached by id only after the first is deleted. | Every note keeps an id no other note has, so each note is reachable by its own id. | not executed | `Notes.DuplicateIdShadowed` | `Notes.PushFreshKeepsDistinct` |

The concrete case is `Notes.SameMillisecondCreates`. The intended property is `Notes.IdsDistinct`. It holds of the seeded store (`InitialIdsDistinct`). A create whose id is new to the store keeps it (`PushFreshKeepsDistinct`, also in `CreateNote`'s contract). Updates keep it (`UpdateKeepsDistinct`) and deletes keep it (`DeleteKeepsDistinct`); `UpdateNote` and `DeleteNote` carry the same fact in their contracts. Under it, every note is reachable by its own id (`DistinctIdsReachable`).
