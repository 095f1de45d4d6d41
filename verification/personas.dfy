/** The reader routes (POST /lector, PUT /lector/{lector_id}, DELETE /lector/{lector_id})
    and the librarian routes (the same under /bibliotecario). Both collections hold
    Persona documents and are handled alike. */
module PersonaService {
  import opened Wrappers
  import opened Store
  import opened Biblioteca

  /** The optional form fields of an update; None is a field not sent. */
  datatype PersonaPatch = PersonaPatch(nombre: Option<string>, apellido: Option<string>, correo: Option<string>)
  {
    predicate Empty()
    {
      nombre.None? && apellido.None? && correo.None?
    }
  }

  /** The stored document after "$set" of the supplied fields. */
  function MergePersona(p: Persona, patch: PersonaPatch): Persona
  {
    p.(nombre := if patch.nombre.Some? then patch.nombre.value else p.nombre,
       apellido := if patch.apellido.Some? then patch.apellido.value else p.apellido,
       correo := if patch.correo.Some? then patch.correo.value else p.correo)
  }

  /** The merged document agrees with the patch on every supplied field and with the old
      document on every other one, including the id. */
  predicate Merged(before: Persona, patch: PersonaPatch, after: Persona)
  {
    && after.id == before.id
    && after.nombre == (if patch.nombre.Some? then patch.nombre.value else before.nombre)
    && after.apellido == (if patch.apellido.Some? then patch.apellido.value else before.apellido)
    && after.correo == (if patch.correo.Some? then patch.correo.value else before.correo)
  }

  /** Insertion shared by both create routes. */
  function InsertPersona(m: map<int, Persona>, nombre: string, apellido: string, correo: string)
    : (r: (map<int, Persona>, Persona))
    ensures r.1.id == NextId(m)
    ensures r.1.id !in m && forall k | k in m :: k < r.1.id
    ensures r.1 == Persona(r.1.id, nombre, apellido, correo)
    ensures OnlyKeyChanged(m, r.0, r.1.id) && r.0[r.1.id] == r.1
  {
    var p := Persona(NextId(m), nombre, apellido, correo);
    (m[p.id := p], p)
  }

  /** Update shared by both update routes: 400 for an empty update, then 404 for an
      unknown id, else the merge. */
  function UpdatePersona(m: map<int, Persona>, id: int, patch: PersonaPatch, en: Coleccion)
    : (r: Result<(map<int, Persona>, Persona), Error>)
    ensures patch.Empty() ==> r == Err(BadRequest(SinDatos))
    ensures !patch.Empty() && id !in m ==> r == Err(NotFound(en))
    ensures r.Ok? <==> !patch.Empty() && id in m
    ensures r.Ok? ==> Merged(m[id], patch, r.value.1)
    ensures r.Ok? ==> OnlyKeyChanged(m, r.value.0, id) && r.value.0.Keys == m.Keys && r.value.0[id] == r.value.1
  {
    if patch.Empty() then Err(BadRequest(SinDatos))
    else if id !in m then Err(NotFound(en))
    else
      var p := MergePersona(m[id], patch);
      Ok((m[id := p], p))
  }

  // ---------------------------------- Lector ----------------------------------

  /** POST /lector: inserts the reader under the next id; it cannot fail. */
  function CreateLector(db: Db, nombre: string, apellido: string, correo: string): (r: Outcome<Lector>)
    ensures r.Ok?
    ensures r.Ok? ==>
      var p := r.value.body;
      && p.id == NextId(db.lectores)
      && p.id !in db.lectores && (forall k | k in db.lectores :: k < p.id)
      && p == Persona(p.id, nombre, apellido, correo)
      && OnlyKeyChanged(db.lectores, r.value.db.lectores, p.id) && r.value.db.lectores[p.id] == p
      && r.value.db == db.(lectores := r.value.db.lectores)
    ensures r.Ok? && WellFormed(db) ==> WellFormed(r.value.db)
  {
    var (m, p) := InsertPersona(db.lectores, nombre, apellido, correo);
    Ok(Reply(db.(lectores := m), p))
  }

  /** PUT /lector/{lector_id}. */
  function UpdateLector(db: Db, id: int, patch: PersonaPatch): (r: Outcome<Lector>)
    ensures patch.Empty() ==> r == Err(BadRequest(SinDatos))
    ensures !patch.Empty() && id !in db.lectores ==> r == Err(NotFound(Lectores))
    ensures r.Ok? <==> !patch.Empty() && id in db.lectores
    ensures r.Ok? ==>
      && Merged(db.lectores[id], patch, r.value.body)
      && OnlyKeyChanged(db.lectores, r.value.db.lectores, id) && r.value.db.lectores.Keys == db.lectores.Keys
      && r.value.db.lectores[id] == r.value.body
      && r.value.db == db.(lectores := r.value.db.lectores)
    ensures r.Ok? && WellFormed(db) ==> WellFormed(r.value.db)
  {
    match UpdatePersona(db.lectores, id, patch, Lectores)
    case Err(e) => Err(e)
    case Ok((m, p)) => Ok(Reply(db.(lectores := m), p))
  }

  const LECTOR_ELIMINADO: string := "Lector eliminado exitosamente"

  /** DELETE /lector/{lector_id}: removes the reader; loans that reference it are kept. */
  function DeleteLector(db: Db, id: int): (r: Outcome<string>)
    ensures r.Err? <==> id !in db.lectores
    ensures r.Err? ==> r.error == NotFound(Lectores)
    ensures r.Ok? ==>
      && OnlyKeyRemoved(db.lectores, r.value.db.lectores, id)
      && id !in r.value.db.lectores
      && r.value.db == db.(lectores := r.value.db.lectores)
    ensures r.Ok? && WellFormed(db) ==> WellFormed(r.value.db)
  {
    if id !in db.lectores then Err(NotFound(Lectores))
    else Ok(Reply(db.(lectores := db.lectores - {id}), LECTOR_ELIMINADO))
  }

  // ------------------------------- Bibliotecario -------------------------------

  /** POST /bibliotecario: inserts the librarian under the next id; it cannot fail. */
  function CreateBibliotecario(db: Db, nombre: string, apellido: string, correo: string): (r: Outcome<Bibliotecario>)
    ensures r.Ok?
    ensures r.Ok? ==>
      var p := r.value.body;
      && p.id == NextId(db.bibliotecarios)
      && p.id !in db.bibliotecarios && (forall k | k in db.bibliotecarios :: k < p.id)
      && p == Persona(p.id, nombre, apellido, correo)
      && OnlyKeyChanged(db.bibliotecarios, r.value.db.bibliotecarios, p.id) && r.value.db.bibliotecarios[p.id] == p
      && r.value.db == db.(bibliotecarios := r.value.db.bibliotecarios)
    ensures r.Ok? && WellFormed(db) ==> WellFormed(r.value.db)
  {
    var (m, p) := InsertPersona(db.bibliotecarios, nombre, apellido, correo);
    Ok(Reply(db.(bibliotecarios := m), p))
  }

  /** PUT /bibliotecario/{bibliotecario_id}. */
  function UpdateBibliotecario(db: Db, id: int, patch: PersonaPatch): (r: Outcome<Bibliotecario>)
    ensures patch.Empty() ==> r == Err(BadRequest(SinDatos))
    ensures !patch.Empty() && id !in db.bibliotecarios ==> r == Err(NotFound(Bibliotecarios))
    ensures r.Ok? <==> !patch.Empty() && id in db.bibliotecarios
    ensures r.Ok? ==>
      && Merged(db.bibliotecarios[id], patch, r.value.body)
      && OnlyKeyChanged(db.bibliotecarios, r.value.db.bibliotecarios, id)
      && r.value.db.bibliotecarios.Keys == db.bibliotecarios.Keys
      && r.value.db.bibliotecarios[id] == r.value.body
      && r.value.db == db.(bibliotecarios := r.value.db.bibliotecarios)
    ensures r.Ok? && WellFormed(db) ==> WellFormed(r.value.db)
  {
    match UpdatePersona(db.bibliotecarios, id, patch, Bibliotecarios)
    case Err(e) => Err(e)
    case Ok((m, p)) => Ok(Reply(db.(bibliotecarios := m), p))
  }

  const BIBLIOTECARIO_ELIMINADO: string := "Bibliotecario eliminado exitosamente"

  /** DELETE /bibliotecario/{bibliotecario_id}: removes the librarian. */
  function DeleteBibliotecario(db: Db, id: int): (r: Outcome<string>)
    ensures r.Err? <==> id !in db.bibliotecarios
    ensures r.Err? ==> r.error == NotFound(Bibliotecarios)
    ensures r.Ok? ==>
      && OnlyKeyRemoved(db.bibliotecarios, r.value.db.bibliotecarios, id)
      && id !in r.value.db.bibliotecarios
      && r.value.db == db.(bibliotecarios := r.value.db.bibliotecarios)
    ensures r.Ok? && WellFormed(db) ==> WellFormed(r.value.db)
  {
    if id !in db.bibliotecarios then Err(NotFound(Bibliotecarios))
    else Ok(Reply(db.(bibliotecarios := db.bibliotecarios - {id}), BIBLIOTECARIO_ELIMINADO))
  }

  /** Deleting a reader right after creating it gives back the database exactly. */
  lemma {:induction false} CreateThenDeleteLector(db: Db, nombre: string, apellido: string, correo: string)
    ensures
      var c := CreateLector(db, nombre, apellido, correo).value;
      DeleteLector(c.db, c.body.id) == Ok(Reply(db, LECTOR_ELIMINADO))
  {
    var c := CreateLector(db, nombre, apellido, correo).value;
    InsertThenRemove(db.lectores, c.body);
  }

  /** Deleting a librarian right after creating it gives back the database exactly. */
  lemma {:induction false} CreateThenDeleteBibliotecario(db: Db, nombre: string, apellido: string, correo: string)
    ensures
      var c := CreateBibliotecario(db, nombre, apellido, correo).value;
      DeleteBibliotecario(c.db, c.body.id) == Ok(Reply(db, BIBLIOTECARIO_ELIMINADO))
  {
    var c := CreateBibliotecario(db, nombre, apellido, correo).value;
    InsertThenRemove(db.bibliotecarios, c.body);
  }

  /** Two readers created one after the other get consecutive ids. */
  lemma ConsecutiveLectorIds(db: Db, a: Persona, b: Persona)
    ensures
      var c1 := CreateLector(db, a.nombre, a.apellido, a.correo).value;
      var c2 := CreateLector(c1.db, b.nombre, b.apellido, b.correo).value;
      c2.body.id == c1.body.id + 1
  {
  }

  /** Sending the same reader update twice leaves the same reader as sending it once. */
  lemma {:induction false} UpdateLectorIdempotent(db: Db, id: int, patch: PersonaPatch)
    requires UpdateLector(db, id, patch).Ok?
    ensures
      var u := UpdateLector(db, id, patch).value;
      UpdateLector(u.db, id, patch) == Ok(u)
  {
    var u := UpdateLector(db, id, patch).value;
    assert MergePersona(u.db.lectores[id], patch) == u.body;
    assert u.db.lectores[id := u.body] == u.db.lectores;
  }

  /** Sending the same librarian update twice leaves the same librarian as sending it once. */
  lemma {:induction false} UpdateBibliotecarioIdempotent(db: Db, id: int, patch: PersonaPatch)
    requires UpdateBibliotecario(db, id, patch).Ok?
    ensures
      var u := UpdateBibliotecario(db, id, patch).value;
      UpdateBibliotecario(u.db, id, patch) == Ok(u)
  {
    var u := UpdateBibliotecario(db, id, patch).value;
    assert MergePersona(u.db.bibliotecarios[id], patch) == u.body;
    assert u.db.bibliotecarios[id := u.body] == u.db.bibliotecarios;
  }
}
