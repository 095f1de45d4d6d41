/** The documents of the five collections of the "biblioteca_digital" database, the
    database as a whole, and the errors a route can answer with.

    Dates are whole seconds on one clock, so a loan period of three days is an exact
    offset. Each document keeps its own "id", which is also its key in the map. */
module Biblioteca {
  import opened Wrappers

  const SEGUNDOS_POR_DIA: int := 86400
  const DIAS_DE_PRESTAMO: int := 3

  /** How long after fecha_prestamo a loan is due. */
  const PLAZO_PRESTAMO: int := DIAS_DE_PRESTAMO * SEGUNDOS_POR_DIA

  datatype Prestamo = Prestamo(
    id: int,
    lectorId: int,
    libroId: int,
    fechaPrestamo: int,
    fechaDevolucion: int,
    bibliotecarioId: int,
    fotoCredencial: string)

  datatype Libro = Libro(
    id: int,
    titulo: string,
    autorId: int,
    descripcion: string,
    imagenPortada: string,
    inventario: bool)

  /** Readers (Lector) and librarians (Bibliotecario) have the same four fields. */
  datatype Persona = Persona(id: int, nombre: string, apellido: string, correo: string)

  type Lector = Persona
  type Bibliotecario = Persona

  datatype Autor = Autor(id: int, nombre: string, apellido: string, biografia: string)

  /** The whole database: one map per collection, keyed by the application id. */
  datatype Db = Db(
    prestamos: map<int, Prestamo>,
    libros: map<int, Libro>,
    lectores: map<int, Lector>,
    bibliotecarios: map<int, Bibliotecario>,
    autores: map<int, Autor>)

  const Vacia: Db := Db(map[], map[], map[], map[], map[])

  /** The collection a missing document was looked up in. */
  datatype Coleccion = Prestamos | Libros | Lectores | Bibliotecarios | Autores

  datatype Motivo =
    | SinDatos        // an update that supplies no field and no file
    | NoDisponible    // a loan of a book whose inventario flag is false

  /** The HTTP errors a route raises: 404, 400 and 500 respectively. */
  datatype Error =
    | NotFound(en: Coleccion)
    | BadRequest(motivo: Motivo)
    | Internal        // the object store refused the upload

  /** What the object store did with an uploaded image: the public URL it stored it under,
      or a failure (missing credentials or any other upload error). */
  datatype Upload = Uploaded(url: string) | UploadFailed

  /** A successful route: the database after it, and the body it answers with. */
  datatype Reply<T> = Reply(db: Db, body: T)

  type Outcome<T> = Result<Reply<T>, Error>

  /** Every document is stored under its own id. */
  ghost predicate WellFormed(db: Db)
  {
    && (forall k | k in db.prestamos :: db.prestamos[k].id == k)
    && (forall k | k in db.libros :: db.libros[k].id == k)
    && (forall k | k in db.lectores :: db.lectores[k].id == k)
    && (forall k | k in db.bibliotecarios :: db.bibliotecarios[k].id == k)
    && (forall k | k in db.autores :: db.autores[k].id == k)
  }

  /** m' is m with the document under key k replaced (or added) and nothing else touched. */
  ghost predicate OnlyKeyChanged<V>(m: map<int, V>, m': map<int, V>, k: int)
  {
    && m'.Keys == m.Keys + {k}
    && forall j | j in m && j != k :: m'[j] == m[j]
  }

  /** m' is m without key k and nothing else touched. */
  ghost predicate OnlyKeyRemoved<V>(m: map<int, V>, m': map<int, V>, k: int)
  {
    && m'.Keys == m.Keys - {k}
    && forall j | j in m' :: m'[j] == m[j]
  }
}
