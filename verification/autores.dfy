/** The author routes: POST /autor/, PUT /autor/{id} and DELETE /autor/{id}. Both POST and
    PUT take a whole Autor body, all four fields required; the body's own id is never
    stored. */
module AutorService {
  import opened Wrappers
  import opened Store
  import opened Biblioteca

  /** The document POST /autor/ stores: the body under the next id. */
  function Stored(db: Db, body: Autor): (a: Autor)
    ensures a.id == NextId(db.autores)
    ensures a.id !in db.autores && forall k | k in db.autores :: k < a.id
    ensures a.(id := body.id) == body
  {
    body.(id := NextId(db.autores))
  }

  /** POST /autor/, answering with the stored document: a client can use the id it gets
      back to reach the author it created. */
  function CreateAutor(db: Db, body: Autor): (r: Outcome<Autor>)
    ensures r.Ok?
    ensures r.Ok? ==>
      var a := r.value.body;
      && a.id == NextId(db.autores)
      && a.id !in db.autores && (forall k | k in db.autores :: k < a.id)
      && a.nombre == body.nombre && a.apellido == body.apellido && a.biografia == body.biografia
      && OnlyKeyChanged(db.autores, r.value.db.autores, a.id)
      && r.value.db.autores[a.id] == a
      && r.value.db == db.(autores := r.value.db.autores)
    ensures r.Ok? && WellFormed(db) ==> WellFormed(r.value.db)
  {
    var a := Stored(db, body);
    Ok(Reply(db.(autores := db.autores[a.id := a]), a))
  }

  /** POST /autor/ as the route is written: the database changes exactly as in CreateAutor,
      but the id in the answer is the one the request body carried. */
  function CreateAutorAsWritten(db: Db, body: Autor): (r: Outcome<Autor>)
    ensures r.Ok?
    ensures r.Ok? ==> r.value.db == CreateAutor(db, body).value.db
    ensures r.Ok? ==> r.value.body == body
  {
    Ok(Reply(db.(autores := db.autores[Stored(db, body).id := Stored(db, body)]), body))
  }

  /** The id in the corrected answer always names the stored author. */
  lemma CreateAutorAnswerIsStored(db: Db, body: Autor)
    ensures
      var c := CreateAutor(db, body).value;
      c.body.id in c.db.autores && c.db.autores[c.body.id] == c.body
  {
  }

  /** The as-written answer can name no author at all: on an empty database a body with
      id 7 is stored as author 1, the answer says 7, and deleting author 7 then fails. */
  lemma CreateAutorAsWrittenAnswersWrongId()
    ensures
      var c := CreateAutorAsWritten(Vacia, Autor(7, "A", "B", "bio")).value;
      && c.body.id == 7
      && c.db.autores.Keys == {1}
      && DeleteAutor(c.db, c.body.id) == Err(NotFound(Autores))
  {
  }

  /** Worse, the as-written answer can name another author: with author 1 stored, a body
      with id 1 is stored as author 2, the answer says 1, and deleting author 1 removes the
      older author while the new one stays. */
  lemma {:induction false} CreateAutorAsWrittenAnswersOtherAuthor(nombre: string)
    ensures
      var db := Vacia.(autores := map[1 := Autor(1, nombre, "", "")]);
      var c := CreateAutorAsWritten(db, Autor(1, "A", "B", "bio")).value;
      && c.body.id == 1
      && c.db.autores.Keys == {1, 2}
      && c.db.autores[2] == Autor(2, "A", "B", "bio")
      && DeleteAutor(c.db, c.body.id).Ok?
      && DeleteAutor(c.db, c.body.id).value.db.autores == map[2 := Autor(2, "A", "B", "bio")]
  {
    var db := Vacia.(autores := map[1 := Autor(1, nombre, "", "")]);
    assert 1 in db.autores.Keys;
    NextIdUnique(db.autores, 2);
    var c := CreateAutorAsWritten(db, Autor(1, "A", "B", "bio")).value;
    assert c.db.autores == map[1 := Autor(1, nombre, "", ""), 2 := Autor(2, "A", "B", "bio")];
    assert c.db.autores - {1} == map[2 := Autor(2, "A", "B", "bio")];
  }

  /** PUT /autor/{id}: overwrites nombre, apellido and biografia with the body's; the body's
      id is dropped and the stored id kept. */
  function UpdateAutor(db: Db, id: int, body: Autor): (r: Outcome<Autor>)
    ensures r.Err? <==> id !in db.autores
    ensures r.Err? ==> r.error == NotFound(Autores)
    ensures r.Ok? ==>
      var a := r.value.body;
      && a.id == db.autores[id].id
      && a.nombre == body.nombre && a.apellido == body.apellido && a.biografia == body.biografia
      && OnlyKeyChanged(db.autores, r.value.db.autores, id) && r.value.db.autores.Keys == db.autores.Keys
      && r.value.db.autores[id] == a
      && r.value.db == db.(autores := r.value.db.autores)
    ensures r.Ok? && WellFormed(db) ==> WellFormed(r.value.db)
  {
    if id !in db.autores then Err(NotFound(Autores))
    else
      var a := body.(id := db.autores[id].id);
      Ok(Reply(db.(autores := db.autores[id := a]), a))
  }

  const AUTOR_ELIMINADO: string := "El autor se eliminó correctamente"

  /** DELETE /autor/{id}: removes the author. Books that reference it are kept. */
  function DeleteAutor(db: Db, id: int): (r: Outcome<string>)
    ensures r.Err? <==> id !in db.autores
    ensures r.Err? ==> r.error == NotFound(Autores)
    ensures r.Ok? ==>
      && OnlyKeyRemoved(db.autores, r.value.db.autores, id)
      && id !in r.value.db.autores
      && r.value.db == db.(autores := r.value.db.autores)
    ensures r.Ok? && WellFormed(db) ==> WellFormed(r.value.db)
  {
    if id !in db.autores then Err(NotFound(Autores))
    else Ok(Reply(db.(autores := db.autores - {id}), AUTOR_ELIMINADO))
  }

  /** Deleting an author right after creating it gives back the database exactly. */
  lemma {:induction false} CreateThenDeleteAutor(db: Db, body: Autor)
    ensures
      var c := CreateAutor(db, body).value;
      DeleteAutor(c.db, c.body.id) == Ok(Reply(db, AUTOR_ELIMINADO))
  {
    var c := CreateAutor(db, body).value;
    InsertThenRemove(db.autores, c.body);
  }

  /** Sending the same author body twice leaves the same author as sending it once. */
  lemma {:induction false} UpdateAutorIdempotent(db: Db, id: int, body: Autor)
    requires UpdateAutor(db, id, body).Ok?
    ensures
      var u := UpdateAutor(db, id, body).value;
      UpdateAutor(u.db, id, body) == Ok(u)
  {
    var u := UpdateAutor(db, id, body).value;
    assert body.(id := u.db.autores[id].id) == u.body;
    assert u.db.autores[id := u.body] == u.db.autores;
  }
}
