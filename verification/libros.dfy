/** The book routes: POST /libro, PUT /libro/{libro_id} and DELETE /libro/{libro_id}.
    A book must name an existing author; its cover image goes to the object store. */
module LibroService {
  import opened Wrappers
  import opened Store
  import opened Biblioteca

  /** POST /libro: checks the author, uploads the cover, and inserts the book under the
      next id with exactly the given fields. */
  function CreateLibro(db: Db, titulo: string, autorId: int, descripcion: string,
                       inventario: bool, portada: Upload): (r: Outcome<Libro>)
    ensures autorId !in db.autores ==> r == Err(NotFound(Autores))
    ensures autorId in db.autores && portada.UploadFailed? ==> r == Err(Internal)
    ensures r.Ok? <==> autorId in db.autores && portada.Uploaded?
    ensures r.Ok? ==>
      var l := r.value.body;
      && l.id == NextId(db.libros)
      && l.id !in db.libros
      && (forall k | k in db.libros :: k < l.id)
      && l == Libro(l.id, titulo, autorId, descripcion, portada.url, inventario)
    ensures r.Ok? ==>
      var db' := r.value.db;
      && OnlyKeyChanged(db.libros, db'.libros, r.value.body.id)
      && db'.libros[r.value.body.id] == r.value.body
      && db'.prestamos == db.prestamos
      && db'.lectores == db.lectores
      && db'.bibliotecarios == db.bibliotecarios
      && db'.autores == db.autores
    ensures r.Ok? && WellFormed(db) ==> WellFormed(r.value.db)
  {
    var id := NextId(db.libros);
    if autorId !in db.autores then Err(NotFound(Autores))
    else
      match portada
      case UploadFailed => Err(Internal)
      case Uploaded(url) =>
        var l := Libro(id, titulo, autorId, descripcion, url, inventario);
        Ok(Reply(db.(libros := db.libros[id := l]), l))
  }

  /** The optional form fields of PUT /libro/{libro_id}; None is a field not sent. */
  datatype LibroPatch = LibroPatch(
    titulo: Option<string>,
    autorId: Option<int>,
    descripcion: Option<string>,
    inventario: Option<bool>)
  {
    predicate Empty()
    {
      titulo.None? && autorId.None? && descripcion.None? && inventario.None?
    }
  }

  /** The stored book after "$set" of the supplied fields and, when a cover was stored,
      of its URL. */
  function MergeLibro(l: Libro, patch: LibroPatch, portada: Option<Upload>): Libro
    requires portada != Some(UploadFailed)
  {
    l.(titulo := if patch.titulo.Some? then patch.titulo.value else l.titulo,
       autorId := if patch.autorId.Some? then patch.autorId.value else l.autorId,
       descripcion := if patch.descripcion.Some? then patch.descripcion.value else l.descripcion,
       inventario := if patch.inventario.Some? then patch.inventario.value else l.inventario,
       imagenPortada := if portada.Some? then portada.value.url else l.imagenPortada)
  }

  /** PUT /libro/{libro_id}: refuses an update with no field and no file, checks a supplied
      author, uploads a supplied cover, and only then looks the book up. The inventario
      flag may be set here directly, whatever loans exist. */
  function UpdateLibro(db: Db, libroId: int, patch: LibroPatch, portada: Option<Upload>): (r: Outcome<Libro>)
    ensures patch.Empty() && portada.None? ==> r == Err(BadRequest(SinDatos))
    ensures (!patch.Empty() || portada.Some?) && patch.autorId.Some? && patch.autorId.value !in db.autores
            ==> r == Err(NotFound(Autores))
    ensures ((!patch.Empty() || portada.Some?) && (patch.autorId.Some? ==> patch.autorId.value in db.autores)
             && portada == Some(UploadFailed)) ==> r == Err(Internal)
    ensures ((!patch.Empty() || portada.Some?) && (patch.autorId.Some? ==> patch.autorId.value in db.autores)
             && portada != Some(UploadFailed) && libroId !in db.libros) ==> r == Err(NotFound(Libros))
    ensures r.Ok? <==>
              ((!patch.Empty() || portada.Some?)
               && (patch.autorId.Some? ==> patch.autorId.value in db.autores)
               && portada != Some(UploadFailed)
               && libroId in db.libros)
    ensures r.Ok? ==>
      var old_ := db.libros[libroId];
      var l := r.value.body;
      && l.id == old_.id
      && l.titulo == (if patch.titulo.Some? then patch.titulo.value else old_.titulo)
      && l.autorId == (if patch.autorId.Some? then patch.autorId.value else old_.autorId)
      && l.descripcion == (if patch.descripcion.Some? then patch.descripcion.value else old_.descripcion)
      && l.inventario == (if patch.inventario.Some? then patch.inventario.value else old_.inventario)
      && (portada.Some? ==> portada.value.Uploaded? && l.imagenPortada == portada.value.url)
      && (portada.None? ==> l.imagenPortada == old_.imagenPortada)
    ensures r.Ok? ==>
      var db' := r.value.db;
      && OnlyKeyChanged(db.libros, db'.libros, libroId) && db'.libros.Keys == db.libros.Keys
      && db'.libros[libroId] == r.value.body
      && db'.prestamos == db.prestamos
      && db'.lectores == db.lectores
      && db'.bibliotecarios == db.bibliotecarios
      && db'.autores == db.autores
    ensures r.Ok? && WellFormed(db) ==> WellFormed(r.value.db)
  {
    if patch.Empty() && portada.None? then Err(BadRequest(SinDatos))
    else if patch.autorId.Some? && patch.autorId.value !in db.autores then Err(NotFound(Autores))
    else if portada == Some(UploadFailed) then Err(Internal)
    else if libroId !in db.libros then Err(NotFound(Libros))
    else
      var l := MergeLibro(db.libros[libroId], patch, portada);
      Ok(Reply(db.(libros := db.libros[libroId := l]), l))
  }

  const LIBRO_ELIMINADO: string := "Libro eliminado exitosamente"

  /** DELETE /libro/{libro_id}: removes the book. Loans that reference it are kept. */
  function DeleteLibro(db: Db, libroId: int): (r: Outcome<string>)
    ensures r.Err? <==> libroId !in db.libros
    ensures r.Err? ==> r.error == NotFound(Libros)
    ensures r.Ok? ==>
      var db' := r.value.db;
      && OnlyKeyRemoved(db.libros, db'.libros, libroId)
      && libroId !in db'.libros
      && db'.prestamos == db.prestamos
      && db'.lectores == db.lectores
      && db'.bibliotecarios == db.bibliotecarios
      && db'.autores == db.autores
    ensures r.Ok? && WellFormed(db) ==> WellFormed(r.value.db)
  {
    if libroId !in db.libros then Err(NotFound(Libros))
    else Ok(Reply(db.(libros := db.libros - {libroId}), LIBRO_ELIMINADO))
  }

  /** Deleting a book right after creating it gives back the database exactly. */
  lemma {:induction false} CreateThenDeleteLibro(db: Db, titulo: string, autorId: int, descripcion: string,
                                                 inventario: bool, portada: Upload)
    requires CreateLibro(db, titulo, autorId, descripcion, inventario, portada).Ok?
    ensures
      var c := CreateLibro(db, titulo, autorId, descripcion, inventario, portada).value;
      DeleteLibro(c.db, c.body.id) == Ok(Reply(db, LIBRO_ELIMINADO))
  {
    var c := CreateLibro(db, titulo, autorId, descripcion, inventario, portada).value;
    InsertThenRemove(db.libros, c.body);
  }

  /** Sending the same fields again overrides the first update completely: the result is
      that of sending them once. Each upload is stored under a fresh name, so a re-sent cover
      comes back as its own upload `portada2`, which replaces the first one. */
  lemma {:induction false} UpdateLibroIdempotent(db: Db, libroId: int, patch: LibroPatch,
                                                 portada: Option<Upload>, portada2: Option<Upload>)
    requires UpdateLibro(db, libroId, patch, portada).Ok?
    requires portada.Some? <==> portada2.Some?
    requires portada2 != Some(UploadFailed)
    ensures
      var u := UpdateLibro(db, libroId, patch, portada).value;
      UpdateLibro(u.db, libroId, patch, portada2) == UpdateLibro(db, libroId, patch, portada2)
  {
    var u := UpdateLibro(db, libroId, patch, portada).value;
    var l := MergeLibro(db.libros[libroId], patch, portada2);
    assert MergeLibro(u.db.libros[libroId], patch, portada2) == l;
    assert u.db.libros[libroId := l] == db.libros[libroId := l];
  }
}
