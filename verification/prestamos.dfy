/** The loan routes: POST /prestamo/, PUT /prestamo/{id} and DELETE /prestamo/{id}.
    A loan ties one reader, one book and one librarian; creating it takes the book out of
    inventory and deleting it puts the book back. */
module PrestamoService {
  import opened Wrappers
  import opened Store
  import opened Biblioteca

  /** A book can be lent when it exists and its inventario flag is set. */
  predicate Disponible(db: Db, libroId: int)
  {
    libroId in db.libros && db.libros[libroId].inventario
  }

  /** POST /prestamo/: checks, in this order, the reader, the book, the book's availability
      and the librarian; then uploads the credential photo, inserts the loan under the next
      id with a due date three days after `now`, and clears the book's inventario flag. */
  function CreatePrestamo(db: Db, lectorId: int, libroId: int, bibliotecarioId: int,
                          now: int, foto: Upload): (r: Outcome<Prestamo>)
    // the order in which the failures are reported
    ensures lectorId !in db.lectores ==> r == Err(NotFound(Lectores))
    ensures lectorId in db.lectores && libroId !in db.libros ==> r == Err(NotFound(Libros))
    ensures lectorId in db.lectores && libroId in db.libros && !db.libros[libroId].inventario
            ==> r == Err(BadRequest(NoDisponible))
    ensures lectorId in db.lectores && Disponible(db, libroId) && bibliotecarioId !in db.bibliotecarios
            ==> r == Err(NotFound(Bibliotecarios))
    ensures r == Err(Internal) <==>
              (foto.UploadFailed? && lectorId in db.lectores
               && Disponible(db, libroId) && bibliotecarioId in db.bibliotecarios)
    // when it succeeds
    ensures r.Ok? <==>
              (lectorId in db.lectores && Disponible(db, libroId)
               && bibliotecarioId in db.bibliotecarios && foto.Uploaded?)
    ensures r.Ok? ==>
      var p := r.value.body;
      && p.id == NextId(db.prestamos)
      && p.id !in db.prestamos
      && (forall k | k in db.prestamos :: k < p.id)
      && p.lectorId == lectorId && p.libroId == libroId && p.bibliotecarioId == bibliotecarioId
      && p.fechaPrestamo == now
      && p.fechaDevolucion == p.fechaPrestamo + 3 * 86400
      && p.fotoCredencial == foto.url
    ensures r.Ok? ==>
      var db' := r.value.db;
      && OnlyKeyChanged(db.prestamos, db'.prestamos, r.value.body.id)
      && db'.prestamos[r.value.body.id] == r.value.body
      && OnlyKeyChanged(db.libros, db'.libros, libroId) && db'.libros.Keys == db.libros.Keys
      && db'.libros[libroId] == db.libros[libroId].(inventario := false)
      && db'.lectores == db.lectores
      && db'.bibliotecarios == db.bibliotecarios
      && db'.autores == db.autores
    ensures r.Ok? && WellFormed(db) ==> WellFormed(r.value.db)
  {
    if lectorId !in db.lectores then Err(NotFound(Lectores))
    else if libroId !in db.libros then Err(NotFound(Libros))
    else if !db.libros[libroId].inventario then Err(BadRequest(NoDisponible))
    else if bibliotecarioId !in db.bibliotecarios then Err(NotFound(Bibliotecarios))
    else
      var id := NextId(db.prestamos);
      match foto
      case UploadFailed => Err(Internal)
      case Uploaded(url) =>
        var p := Prestamo(id, lectorId, libroId, now, now + PLAZO_PRESTAMO, bibliotecarioId, url);
        var libro := db.libros[libroId].(inventario := false);
        Ok(Reply(db.(prestamos := db.prestamos[id := p], libros := db.libros[libroId := libro]), p))
  }

  /** The optional form fields of PUT /prestamo/{id}; None is a field not sent. */
  datatype PrestamoPatch = PrestamoPatch(
    lectorId: Option<int>,
    libroId: Option<int>,
    fechaPrestamo: Option<int>,
    bibliotecarioId: Option<int>)
  {
    predicate Empty()
    {
      lectorId.None? && libroId.None? && fechaPrestamo.None? && bibliotecarioId.None?
    }
  }

  /** The update carries at least one field or a file. */
  predicate HasData(patch: PrestamoPatch, foto: Option<Upload>)
  {
    !patch.Empty() || foto.Some?
  }

  /** The reader, book or librarian id, when supplied, names an existing document. */
  predicate LectorOk(db: Db, patch: PrestamoPatch)
  {
    patch.lectorId.Some? ==> patch.lectorId.value in db.lectores
  }

  predicate LibroOk(db: Db, patch: PrestamoPatch)
  {
    patch.libroId.Some? ==> patch.libroId.value in db.libros
  }

  predicate BibliotecarioOk(db: Db, patch: PrestamoPatch)
  {
    patch.bibliotecarioId.Some? ==> patch.bibliotecarioId.value in db.bibliotecarios
  }

  predicate ReferencesExist(db: Db, patch: PrestamoPatch)
  {
    LectorOk(db, patch) && LibroOk(db, patch) && BibliotecarioOk(db, patch)
  }

  /** The stored loan after "$set" of the supplied fields; a new loan date also moves the
      due date, and a stored photo replaces the credential URL. */
  function MergePrestamo(p: Prestamo, patch: PrestamoPatch, foto: Option<Upload>): Prestamo
    requires foto != Some(UploadFailed)
  {
    p.(lectorId := if patch.lectorId.Some? then patch.lectorId.value else p.lectorId,
       libroId := if patch.libroId.Some? then patch.libroId.value else p.libroId,
       fechaPrestamo := if patch.fechaPrestamo.Some? then patch.fechaPrestamo.value else p.fechaPrestamo,
       fechaDevolucion := if patch.fechaPrestamo.Some? then patch.fechaPrestamo.value + PLAZO_PRESTAMO
                          else p.fechaDevolucion,
       bibliotecarioId := if patch.bibliotecarioId.Some? then patch.bibliotecarioId.value else p.bibliotecarioId,
       fotoCredencial := if foto.Some? then foto.value.url else p.fotoCredencial)
  }

  /** PUT /prestamo/{id}: refuses an update with no field and no file, checks each supplied
      reference (reader, then book, then librarian; the book's availability is not looked
      at), uploads the photo if one was sent, and only then looks the loan up. */
  function UpdatePrestamo(db: Db, id: int, patch: PrestamoPatch, foto: Option<Upload>): (r: Outcome<Prestamo>)
    // the order in which the failures are reported
    ensures !HasData(patch, foto) ==> r == Err(BadRequest(SinDatos))
    ensures HasData(patch, foto) && !LectorOk(db, patch) ==> r == Err(NotFound(Lectores))
    ensures HasData(patch, foto) && LectorOk(db, patch) && !LibroOk(db, patch)
            ==> r == Err(NotFound(Libros))
    ensures HasData(patch, foto) && LectorOk(db, patch) && LibroOk(db, patch) && !BibliotecarioOk(db, patch)
            ==> r == Err(NotFound(Bibliotecarios))
    ensures HasData(patch, foto) && ReferencesExist(db, patch) && foto == Some(UploadFailed)
            ==> r == Err(Internal)
    ensures (HasData(patch, foto) && ReferencesExist(db, patch) && foto != Some(UploadFailed)
             && id !in db.prestamos) ==> r == Err(NotFound(Prestamos))
    ensures r.Ok? <==>
              (HasData(patch, foto) && ReferencesExist(db, patch)
               && foto != Some(UploadFailed) && id in db.prestamos)
    ensures r.Ok? ==>
      var old_ := db.prestamos[id];
      var p := r.value.body;
      && p.id == old_.id
      && p.lectorId == (if patch.lectorId.Some? then patch.lectorId.value else old_.lectorId)
      && p.libroId == (if patch.libroId.Some? then patch.libroId.value else old_.libroId)
      && p.bibliotecarioId == (if patch.bibliotecarioId.Some? then patch.bibliotecarioId.value else old_.bibliotecarioId)
      && (patch.fechaPrestamo.Some? ==> p.fechaPrestamo == patch.fechaPrestamo.value
                                        && p.fechaDevolucion == p.fechaPrestamo + 3 * 86400)
      && (patch.fechaPrestamo.None? ==> p.fechaPrestamo == old_.fechaPrestamo
                                        && p.fechaDevolucion == old_.fechaDevolucion)
      && (foto.Some? ==> foto.value.Uploaded? && p.fotoCredencial == foto.value.url)
      && (foto.None? ==> p.fotoCredencial == old_.fotoCredencial)
    ensures r.Ok? ==>
      var db' := r.value.db;
      && OnlyKeyChanged(db.prestamos, db'.prestamos, id) && db'.prestamos.Keys == db.prestamos.Keys
      && db'.prestamos[id] == r.value.body
      && db'.libros == db.libros
      && db'.lectores == db.lectores
      && db'.bibliotecarios == db.bibliotecarios
      && db'.autores == db.autores
    ensures r.Ok? && WellFormed(db) ==> WellFormed(r.value.db)
  {
    if !HasData(patch, foto) then Err(BadRequest(SinDatos))
    else if patch.lectorId.Some? && patch.lectorId.value !in db.lectores then Err(NotFound(Lectores))
    else if patch.libroId.Some? && patch.libroId.value !in db.libros then Err(NotFound(Libros))
    else if patch.bibliotecarioId.Some? && patch.bibliotecarioId.value !in db.bibliotecarios
    then Err(NotFound(Bibliotecarios))
    else if foto == Some(UploadFailed) then Err(Internal)
    else if id !in db.prestamos then Err(NotFound(Prestamos))
    else
      var p := MergePrestamo(db.prestamos[id], patch, foto);
      Ok(Reply(db.(prestamos := db.prestamos[id := p]), p))
  }

  const PRESTAMO_ELIMINADO: string := "El préstamo se eliminó correctamente"

  /** DELETE /prestamo/{id}: removes the loan and sets the inventario flag of the book it
      referenced back to true, whatever it was; a book that no longer exists is left alone. */
  function DeletePrestamo(db: Db, id: int): (r: Outcome<string>)
    ensures r.Err? <==> id !in db.prestamos
    ensures r.Err? ==> r.error == NotFound(Prestamos)
    ensures r.Ok? ==>
      var db' := r.value.db;
      var libroId := db.prestamos[id].libroId;
      && OnlyKeyRemoved(db.prestamos, db'.prestamos, id)
      && id !in db'.prestamos
      && db'.libros.Keys == db.libros.Keys
      && (libroId in db.libros ==> db'.libros[libroId] == db.libros[libroId].(inventario := true))
      && (forall k | k in db.libros && k != libroId :: db'.libros[k] == db.libros[k])
      && db'.lectores == db.lectores
      && db'.bibliotecarios == db.bibliotecarios
      && db'.autores == db.autores
    ensures r.Ok? && WellFormed(db) ==> WellFormed(r.value.db)
  {
    if id !in db.prestamos then Err(NotFound(Prestamos))
    else
      var libroId := db.prestamos[id].libroId;
      var libros := if libroId in db.libros
                    then db.libros[libroId := db.libros[libroId].(inventario := true)]
                    else db.libros;
      Ok(Reply(db.(prestamos := db.prestamos - {id}, libros := libros), PRESTAMO_ELIMINADO))
  }

  /** Deleting a loan right after creating it gives back the database exactly: the book was
      available before, and becomes available again. */
  lemma {:induction false} CreateThenDeletePrestamo(db: Db, lectorId: int, libroId: int,
                                                    bibliotecarioId: int, now: int, foto: Upload)
    requires CreatePrestamo(db, lectorId, libroId, bibliotecarioId, now, foto).Ok?
    ensures
      var c := CreatePrestamo(db, lectorId, libroId, bibliotecarioId, now, foto).value;
      DeletePrestamo(c.db, c.body.id) == Ok(Reply(db, PRESTAMO_ELIMINADO))
  {
    var c := CreatePrestamo(db, lectorId, libroId, bibliotecarioId, now, foto).value;
    var d := DeletePrestamo(c.db, c.body.id).value.db;
    var libro := db.libros[libroId];
    assert libro.inventario;
    assert libro.(inventario := false).(inventario := true) == libro;
    InsertThenRemove(db.prestamos, c.body);
    assert d.prestamos == db.prestamos;
    assert d.libros == db.libros[libroId := libro];
    assert d.libros == db.libros;
  }

  /** Once a loan of a book was created, a second loan of the same book is refused with 400
      (unless its reader is unknown, which is reported first). */
  lemma SecondLoanRefused(db: Db, lectorId: int, libroId: int,
                                             bibliotecarioId: int, now: int, foto: Upload,
                                             otroLector: int, otroBibliotecario: int,
                                             despues: int, otraFoto: Upload)
    requires CreatePrestamo(db, lectorId, libroId, bibliotecarioId, now, foto).Ok?
    requires otroLector in db.lectores
    ensures
      var db' := CreatePrestamo(db, lectorId, libroId, bibliotecarioId, now, foto).value.db;
      CreatePrestamo(db', otroLector, libroId, otroBibliotecario, despues, otraFoto)
        == Err(BadRequest(NoDisponible))
  {
  }

  /** Sending the same fields again overrides the first update completely: the result is
      that of sending them once. Each upload is stored under a fresh name, so a re-sent file
      comes back as its own upload `foto2`, which replaces the first photo. */
  lemma {:induction false} UpdatePrestamoIdempotent(db: Db, id: int, patch: PrestamoPatch,
                                                    foto: Option<Upload>, foto2: Option<Upload>)
    requires UpdatePrestamo(db, id, patch, foto).Ok?
    requires foto.Some? <==> foto2.Some?
    requires foto2 != Some(UploadFailed)
    ensures
      var u := UpdatePrestamo(db, id, patch, foto).value;
      UpdatePrestamo(u.db, id, patch, foto2) == UpdatePrestamo(db, id, patch, foto2)
  {
    var u := UpdatePrestamo(db, id, patch, foto).value;
    var p := MergePrestamo(db.prestamos[id], patch, foto2);
    assert MergePrestamo(u.db.prestamos[id], patch, foto2) == p;
    assert u.db.prestamos[id := p] == db.prestamos[id := p];
  }
}
