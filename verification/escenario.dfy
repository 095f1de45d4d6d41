/** A complete session on an empty database: an author, a book by that author, a reader and
    a librarian are created, the book is lent, a second loan of it is refused, and returning
    the first loan makes the book available again. */
module Escenario {
  import opened Wrappers
  import opened Biblioteca
  import opened PrestamoService
  import opened LibroService
  import opened PersonaService
  import opened AutorService

  lemma LendRefuseReturn(now: int, portada: string, credencial: string)
    ensures
      var autor := CreateAutor(Vacia, Autor(0, "A", "B", "bio")).value;
      var libro := CreateLibro(autor.db, "T", autor.body.id, "", true, Uploaded(portada)).value;
      var lector := CreateLector(libro.db, "R", "S", "r@x").value;
      var biblio := CreateBibliotecario(lector.db, "L", "M", "l@x").value;
      var prestamo := CreatePrestamo(biblio.db, lector.body.id, libro.body.id, biblio.body.id,
                                     now, Uploaded(credencial));
      && autor.body.id == 1 && libro.body.id == 1 && lector.body.id == 1 && biblio.body.id == 1
      && prestamo.Ok?
      && prestamo.value.body.id == 1
      && prestamo.value.body.fechaDevolucion == now + 3 * 86400
      && !prestamo.value.db.libros[1].inventario
      && CreatePrestamo(prestamo.value.db, 1, 1, 1, now, Uploaded(credencial))
         == Err(BadRequest(NoDisponible))
      && DeletePrestamo(prestamo.value.db, 1).Ok?
      && DeletePrestamo(prestamo.value.db, 1).value.db.libros[1].inventario
  {
  }
}
