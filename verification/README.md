# Digital-library record keeping, modelled in Dafny

The system is a REST backend for a digital library ("biblioteca_digital"). It keeps five
document collections: Prestamo (loans), Libro (books), Lector (readers), Bibliotecario
(librarians) and Autor (authors). Every route looks up a few documents, validates, and
writes one or two documents. This project models those routes as pure transitions over an
immutable database:

- `Biblioteca.Db` holds five `map<int, …>`, one per collection. Each is keyed by the
  application-assigned `id`, and every document also carries that id.
- Each route is a function `Db × inputs → Result<Reply<T>, Error>`.
  - `Reply` holds the database after the route and the body it answers with.
  - `Error` is `NotFound(collection)` (404), `BadRequest(reason)` (400) or `Internal` (500).
- An error carries no database, so a failed request leaves the database as it was. In
  `main.py` every error a route can raise when requests run one after another comes before
  the route's first write. Some failures come after a write, but each needs another request
  to delete the document between two steps of this one:
  - the 404s at main.py:235, 259, 375, 478 and 656, raised when `update_one` matched (or
    `delete_one` was expected to delete) but the next step found nothing;
  - main.py:558, where `update_bibliotecario` returns the empty `find_one` result, which the
    response model then rejects. This is a failed response, not a 404.
  The model is sequential, so none of these can happen in it.
- Ids come from one shared rule, `Store.NextId`: the largest id present plus one, or 1 when
  the collection is empty.
- The clock is an integer number of seconds passed to each call, so three days is exactly
  `3 * 86400`. One value stands for both `datetime.now()` calls in `create_prestamo`.
- The object-store upload is a parameter. `Uploaded(url)` is the URL the store returned;
  `UploadFailed` is a failed upload, which the route reports as 500.

Modules: `Wrappers` (Option, Result), `Store` (the next-id rule and generic map facts),
`Biblioteca` (documents, database, errors), `PrestamoService`, `LibroService`,
`PersonaService` (readers and librarians, which have the same fields), `AutorService`, and
`Escenario` (one complete session).

Where the source and a plain reading of the routes differ, the model follows the source:

- `update_prestamo` and `update_libro` look up the document being updated last. They first
  check for an empty update (400), then each supplied reference (404), then the upload
  (500). So an unknown loan id can still be answered with 400, with a 404 about a reader,
  or with 500.
- `update_autor` takes a whole `Autor` body, and all its fields are required. So
  `exclude_unset` keeps nombre, apellido and biografia, and the update overwrites all three.
  It never answers 400. The body's `id` is dropped.
- `delete_prestamo` sets `inventario = true` on the loan's book with a plain `update_one`.
  If that book has been deleted meanwhile, nothing changes.
- Ids are not reserved forever. Deleting the newest document lets the next create hand out
  that id again, or a lower one (`Store.NewestIdReissued`).
- A book's `inventario` flag is not kept in step with the active loans. `update_libro` can
  set it directly. `update_prestamo` can move a loan to another book without touching
  either flag. `delete_prestamo` sets it to true even if another loan of that book exists.
  The model states these behaviours and does not claim the invariant.

## Model

| member | source | states |
|---|---|---|
| Store.MaxKey | main.py:133 | the id a descending sort on "id" puts first: an element of the collection's ids that no other id exceeds |
| Store.NextId | main.py:132-137 | the new id is not in the collection, exceeds every present id, is 1 on an empty collection and otherwise has the present maximum as its predecessor (the same rule as main.py:301-305, 438-439, 521-524, 606-610) |
| Store.NextIdUnique | main.py:133-137 | "largest id + 1, or 1 when empty" determines the new id: any id with those properties equals NextId |
| Store.NextIdPositive | main.py:137 | with non-negative ids the assigned id is at least 1 |
| Store.ConsecutiveIds | main.py:438-439 | inserting under the next id makes the following next id exactly one larger |
| Store.NewestIdReissued | main.py:606-610 | after the newest document (positive ids) is deleted, the next create gets an id no larger than the deleted one |
| PrestamoService.CreatePrestamo | main.py:112-172 | failures in order: unknown reader 404, unknown book 404, book with inventario false 400, unknown librarian 404, failed upload 500; success exactly when all checks pass; the loan's id is NextId of the loans (largest id + 1, or 1 when there are none), the given reader/book/librarian, fecha_prestamo = now and fecha_devolucion 3 days later, and the stored photo URL; only that loan is added, only the book's inventario becomes false, other collections are unchanged |
| PrestamoService.UpdatePrestamo | main.py:174-235 | no field and no file gives 400; then a supplied unknown reader, book or librarian gives 404 in that order (availability is not checked); a failed upload 500; an unknown loan 404; on success supplied fields replace the old ones, a new fecha_prestamo sets fecha_devolucion 3 days later, unsupplied fields and the id keep their values, and nothing else in the database changes |
| PrestamoService.DeletePrestamo | main.py:237-259 | unknown loan gives 404; otherwise only that loan is removed, the book it referenced (if it still exists) gets inventario true whatever it was, and no other document changes |
| PrestamoService.CreateThenDeletePrestamo | main.py:112-259 | creating a loan and deleting it by the returned id restores the database exactly, book flag included |
| PrestamoService.SecondLoanRefused | main.py:115-125 | after a loan of a book, another loan of it by a known reader is refused with 400 "not available" |
| PrestamoService.UpdatePrestamoIdempotent | main.py:183-225 | re-sending the same fields after a successful update gives the same result as sending them once to the original database; a file re-sent with them is a new upload (main.py:393-399 names every upload afresh), and it is that new URL that is stored; without a file this is plain idempotence |
| LibroService.CreateLibro | main.py:296-326 | unknown author gives 404, then a failed upload 500; otherwise exactly the given fields and cover URL are stored under NextId of the books (largest id + 1, or 1 when empty), and nothing else changes |
| LibroService.UpdateLibro | main.py:328-377 | no field and no file gives 400; a supplied unknown author 404; a failed upload 500; an unknown book 404; on success only supplied fields (and the cover when a file is sent) change, inventario included, and the id is kept |
| LibroService.DeleteLibro | main.py:380-386 | unknown book gives 404; otherwise only that key is removed, so it can no longer be found |
| LibroService.CreateThenDeleteLibro | main.py:296-386 | creating a book and deleting it by the returned id restores the database exactly |
| LibroService.UpdateLibroIdempotent | main.py:338-368 | re-sending the same fields after a successful update gives the same result as sending them once to the original database; a re-sent cover is a new upload with its own URL, and it is that URL that is stored; without a file this is plain idempotence |
| PersonaService.CreateLector | main.py:436-448 | always succeeds; stores exactly the given fields under NextId of the readers (largest id + 1, or 1 when empty); nothing else changes |
| PersonaService.UpdateLector | main.py:451-480 | empty update gives 400, then unknown id 404; otherwise exactly the supplied fields are merged, the id is never changed, nothing else changes |
| PersonaService.DeleteLector | main.py:483-488 | unknown id gives 404; otherwise only that key is removed |
| PersonaService.CreateBibliotecario | main.py:518-536 | always succeeds; stores exactly the given fields under NextId of the librarians (largest id + 1, or 1 when empty); nothing else changes |
| PersonaService.UpdateBibliotecario | main.py:540-560 | empty update gives 400, then unknown id 404; otherwise exactly the supplied fields are merged, the id is never changed, nothing else changes |
| PersonaService.DeleteBibliotecario | main.py:563-568 | unknown id gives 404; otherwise only that key is removed |
| PersonaService.CreateThenDeleteLector | main.py:436-488 | creating a reader and deleting it by the returned id restores the database exactly |
| PersonaService.CreateThenDeleteBibliotecario | main.py:518-568 | creating a librarian and deleting it by the returned id restores the database exactly |
| PersonaService.ConsecutiveLectorIds | main.py:438-439 | two readers created in a row get consecutive ids |
| PersonaService.UpdateLectorIdempotent | main.py:458-477 | sending the same reader update twice equals sending it once |
| PersonaService.UpdateBibliotecarioIdempotent | main.py:547-558 | sending the same librarian update twice equals sending it once |
| AutorService.CreateAutor | main.py:602-618 | always succeeds; stores the body's nombre, apellido and biografia under NextId of the authors (largest id + 1, or 1 when empty) and answers with the stored document (corrected answer; see ## Findings); nothing else changes |
| AutorService.CreateAutorAnswerIsStored | main.py:613-618 | the id in the corrected answer names the stored author |
| AutorService.CreateAutorAsWritten | main.py:602-627 | the route as written: same database change as CreateAutor, but the answer echoes the request body, id included |
| AutorService.CreateAutorAsWrittenAnswersWrongId | main.py:621-627 | on an empty database a body with id 7 is stored as author 1, the answer says 7, and deleting author 7 fails with 404 |
| AutorService.UpdateAutor | main.py:629-656 | unknown id gives 404; otherwise nombre, apellido and biografia are overwritten, the stored id is kept, nothing else changes |
| AutorService.CreateAutorAsWrittenAnswersOtherAuthor | main.py:613-627 | with author 1 stored, a body with id 1 is stored as author 2, the answer says 1, and deleting author 1 removes the older author and keeps the new one |
| AutorService.UpdateAutorIdempotent | main.py:633-653 | sending the same author body twice equals sending it once |
| AutorService.DeleteAutor | main.py:658-668 | unknown id gives 404; otherwise only that key is removed |
| AutorService.CreateThenDeleteAutor | main.py:602-668 | creating an author and deleting it by the returned id restores the database exactly (for the corrected answer; see ## Findings) |
| Escenario.LendRefuseReturn | main.py:112-259 | on an empty database: author, book, reader, librarian all get id 1; the loan succeeds with a due date 3 days after the loan date and the book becomes unavailable; a second loan is refused with 400; deleting the loan makes the book available again |

## Left out

- `upload_image_to_s3` (main.py:389-404): the S3 call, the `uuid4` file name and the URL
  format are not modelled. The routes take the upload's outcome (a URL, or a failure
  answered with 500) as a parameter.
- The GET routes (`get_prestamos`, `get_prestamo`, `get_libros`, `get_libro`,
  `get_lectores`, `get_lector`, `get_bibliotecarios`, `get_bibliotecario`, `get_autores`,
  `get_autor`). They only copy fields. A lookup in the model is map membership.
- The Mongo driver, `async`/`await`, and the missing `await` on the book insert
  (main.py:325). Every write is a synchronous map update.
- Concurrent requests. Two creates can read the same maximum id, and two loans can pass the
  availability check together. The model runs requests one at a time.
- Mongo's `_id` field in the documents that update routes return. The model answers with the
  application fields only.
- Range limits on dates and ids. Both are unbounded integers in the model, so the source's
  range errors are not modelled. For example, main.py:190 raises `OverflowError` (a 500)
  for a `fecha_prestamo` within three days of `datetime.max`, where `UpdatePrestamo`
  succeeds. An id outside BSON's 8-byte integer range is refused by the driver (a 500) or
  by request validation (a 422), where the model answers 404.
- `datetime.now()` and the ISO-8601 strings in the `create_prestamo` answer
  (main.py:148-149, 166-167). Dates are integers.
- FastAPI routing, form and file decoding, pydantic validation, and the image directory
  (main.py:34-35).
- The response keys of `create_autor` that carry the wrong labels (main.py:623-625). Only
  the answered id is modelled, as the finding below.
- The invariant "a book's inventario is false iff an active loan references it". The routes
  do not maintain it (see above), so it is not stated.

## Findings

| source | as written | input that shows it | evidently intended | confidence | as-written member | corrected member |
|---|---|---|---|---|---|---|
| main.py:621-627 | `create_autor` answers with `autor.id`, the id the client sent in the body, while the document was stored under the newly assigned id | empty database, body `Autor(id=7, …)`: the author is stored as 1, the answer says 7, and `DELETE /autor/7` answers 404; with author 1 already stored, a body with id 1 is stored as 2 and answered as 1, so `DELETE /autor/1` removes the older author | answer with the assigned id, as every other create route does | high; not executed | AutorService.CreateAutorAsWritten, AutorService.CreateAutorAsWrittenAnswersOtherAuthor | AutorService.CreateAutor |
