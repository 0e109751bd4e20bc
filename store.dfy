/** The book table behind the six routes of index.js (69-199): records keyed by
    an integer `id`, at most one record per `isbn` (index.js:40), and the
    handlers' outcomes. */
module Store {
  import opened Validation

  /** A stored `Libro` row (index.js:23-54). */
  datatype Book = Book(
    id: int,
    titulo: string,
    autor: string,
    isbn: string,
    categoria: string,
    estado: string,
    fechaCreacion: string)

  /** Why a POST or PUT answered 400. */
  datatype Rejection =
    | InvalidData     // validation failed: "Datos inválidos"
    | DuplicateId     // the primary key is taken
    | DuplicateIsbn   // the unique isbn index rejects the row
    | StoreFailure    // any other error the store raised

  /** What a handler answers. */
  datatype Outcome<T> =
    | Ok(value: T)
    | Created(value: T)
    | NotFound
    | BadRequest(reason: Rejection)
    | ServerError

  /** The HTTP status code each outcome is sent with. */
  function Status<T>(o: Outcome<T>): (code: int)
    ensures 200 <= code < 300 <==> o.Ok? || o.Created?
    ensures code == 201 <==> o.Created?
    ensures code == 200 <==> o.Ok?
    ensures code == 404 <==> o.NotFound?
    ensures code == 400 <==> o.BadRequest?
    ensures code == 500 <==> o.ServerError?
  {
    match o
    case Ok(_) => 200
    case Created(_) => 201
    case NotFound => 404
    case BadRequest(_) => 400
    case ServerError => 500
  }

  // ---------------------------------------------------------------- records

  /** The supplied fields of `p` written over `b`; absent ones keep their value. */
  function Revised(b: Book, p: Payload): (r: Book)
    ensures r.id == b.id
    ensures Reflects(r, p)
    ensures Keeps(r, b, p)
  {
    b.(titulo := GetOr(p.titulo, b.titulo),
       autor := GetOr(p.autor, b.autor),
       isbn := GetOr(p.isbn, b.isbn),
       categoria := GetOr(p.categoria, b.categoria),
       estado := GetOr(p.estado, b.estado),
       fechaCreacion := GetOr(p.fechaCreacion, b.fechaCreacion))
  }

  function GetOr(o: Option<string>, d: string): (r: string)
  {
    if o.Some? then o.value else d
  }

  /** Every field `p` supplies is the one `b` holds. */
  predicate Reflects(b: Book, p: Payload)
  {
    && (p.titulo.Some? ==> b.titulo == p.titulo.value)
    && (p.autor.Some? ==> b.autor == p.autor.value)
    && (p.isbn.Some? ==> b.isbn == p.isbn.value)
    && (p.categoria.Some? ==> b.categoria == p.categoria.value)
    && (p.estado.Some? ==> b.estado == p.estado.value)
    && (p.fechaCreacion.Some? ==> b.fechaCreacion == p.fechaCreacion.value)
  }

  /** Every field `p` leaves out is the one `prior` held. */
  predicate Keeps(b: Book, prior: Book, p: Payload)
  {
    && (p.titulo.None? ==> b.titulo == prior.titulo)
    && (p.autor.None? ==> b.autor == prior.autor)
    && (p.isbn.None? ==> b.isbn == prior.isbn)
    && (p.categoria.None? ==> b.categoria == prior.categoria)
    && (p.estado.None? ==> b.estado == prior.estado)
    && (p.fechaCreacion.None? ==> b.fechaCreacion == prior.fechaCreacion)
  }

  /** The row a POST inserts under `key`; `now` is the creation time the store
      fills in when the payload gives none. */
  function NewBook(p: Payload, key: int, now: string): (b: Book)
    ensures b.id == key && Reflects(b, p)
    ensures p.fechaCreacion.None? ==> b.fechaCreacion == now
  {
    Revised(Book(key, "", "", "", "", "", now), p)
  }

  // ---------------------------------------------------------------- the table

  /** The range of a 64-bit SQLite rowid, which an INTEGER PRIMARY KEY is. */
  const MinRowId: int := -0x8000_0000_0000_0000
  const MaxRowId: int := 0x7FFF_FFFF_FFFF_FFFF

  predicate InRowIdRange(k: int)
  {
    MinRowId <= k <= MaxRowId
  }

  /** Each record sits under its own id. */
  predicate KeyedById(m: map<int, Book>)
  {
    forall k :: k in m ==> m[k].id == k
  }

  /** No two records share an isbn. */
  predicate IsbnUnique(m: map<int, Book>)
  {
    forall j, k :: j in m && k in m && m[j].isbn == m[k].isbn ==> j == k
  }

  /** Some record other than the one under `key` holds `isbn`. */
  predicate IsbnClash(m: map<int, Book>, isbn: string, key: int)
  {
    exists k :: k in m && k != key && m[k].isbn == isbn
  }

  // ---------------------------------------------------------------- search

  /** A filter counts only when it is given and not empty (`if (titulo)`). */
  predicate Active(f: Option<string>)
  {
    f.Some? && f.value != ""
  }

  predicate Contains(s: string, sub: string)
  {
    exists i :: 0 <= i <= |s| && sub <= s[i..]
  }

  predicate Satisfies(v: string, f: Option<string>)
  {
    Active(f) ==> Contains(v, f.value)
  }

  /** The query string of GET /libros/buscar. */
  datatype Query = Query(titulo: Option<string>, autor: Option<string>, categoria: Option<string>)

  /** The query with no filter at all: what GET /libros asks for. */
  const Everything := Query(None, None, None)

  /** The `where` object the search handler builds, applied to one record. */
  predicate Matches(b: Book, q: Query)
  {
    Satisfies(b.titulo, q.titulo) && Satisfies(b.autor, q.autor) && Satisfies(b.categoria, q.categoria)
  }

  predicate IdsIncreasing(rows: seq<Book>)
  {
    forall i, j :: 0 <= i < j < |rows| ==> rows[i].id < rows[j].id
  }

  /** `rows` is the answer to `q` over the table `m`: the matching records,
      each once, in increasing id order (a scan of the table). */
  ghost predicate Lists(rows: seq<Book>, m: map<int, Book>, q: Query)
  {
    && IdsIncreasing(rows)
    && forall b :: b in rows <==> b.id in m && m[b.id] == b && Matches(b, q)
  }

  /** The records of `rows` that match `q`, in order. */
  function Where(rows: seq<Book>, q: Query): (r: seq<Book>)
    ensures forall b :: b in r <==> b in rows && Matches(b, q)
    ensures IdsIncreasing(rows) ==> IdsIncreasing(r)
    decreases |rows|
  {
    if rows == [] then []
    else if Matches(rows[0], q) then
      var rest := Where(rows[1..], q);
      if IdsIncreasing(rows) then HeadLeast(rows); [rows[0]] + rest else [rows[0]] + rest
    else Where(rows[1..], q)
  }

  /** In an id-ordered sequence the first record has the least id. */
  lemma HeadLeast(rows: seq<Book>)
    requires IdsIncreasing(rows) && rows != []
    ensures forall x :: x in rows[1..] ==> rows[0].id < x.id
  {
  }

  /** The catalog: the `Libros` table of the store. */
  class Catalog {
    var books: map<int, Book>
    /** The id the next unkeyed insert receives (the AUTOINCREMENT counter). */
    var nextId: int

    ghost predicate Valid()
      reads this
    {
      && KeyedById(books)
      && IsbnUnique(books)
      && (forall k :: k in books ==> k < nextId)
    }

    constructor ()
      ensures Valid() && books == map[] && nextId == 1
    {
      books := map[];
      nextId := 1;
    }

    /** The store's `findAll({ where })`. */
    method FindAll(q: Query) returns (rows: seq<Book>)
      requires Valid()
      ensures Lists(rows, books, q)
    {
      var rest := books.Keys;
      rows := [];
      while rest != {}
        invariant rest <= books.Keys
        invariant IdsIncreasing(rows)
        invariant forall b, k :: b in rows && k in rest ==> b.id < k
        invariant forall b :: b in rows <==>
          b.id in books && b.id !in rest && books[b.id] == b && Matches(b, q)
        decreases rest
      {
        HasLeast(rest);
        var k :| k in rest && forall j :: j in rest ==> k <= j;
        if Matches(books[k], q) {
          rows := rows + [books[k]];
        }
        rest := rest - {k};
      }
    }

    /** GET /libros (index.js:69-76). */
    method ListAll(fault: bool) returns (r: Outcome<seq<Book>>)
      requires Valid()
      ensures fault ==> r == ServerError
      ensures !fault ==> r.Ok? && Lists(r.value, books, Everything)
    {
      if fault {
        return ServerError;
      }
      var rows := FindAll(Everything);
      return Ok(rows);
    }

    /** GET /libros/:id (index.js:78-88). */
    method GetById(id: int, fault: bool) returns (r: Outcome<Book>)
      requires Valid()
      ensures fault ==> r == ServerError
      ensures !fault && id in books ==> r == Ok(books[id]) && r.value.id == id
      ensures !fault && id !in books ==> r == NotFound
    {
      if fault {
        return ServerError;
      }
      if id !in books {
        return NotFound;
      }
      return Ok(books[id]);
    }

    /** POST /libros (index.js:90-128): validate, then insert. `now` is the
        clock's reading, used when no `fecha_creacion` is supplied. */
    method Create(p: Payload, iso: string -> bool, now: string, fault: bool) returns (r: Outcome<Book>)
      requires Valid()
      modifies this
      ensures Valid()
      ensures !r.Created? ==> books == old(books) && nextId == old(nextId)
      ensures !ValidPayload(p, iso) ==> r == BadRequest(InvalidData)
      ensures ValidPayload(p, iso) && fault ==> r == BadRequest(StoreFailure)
      ensures ValidPayload(p, iso) && !fault ==>
        var key := if p.id.Some? then IntValue(p.id.value) else old(nextId);
        if !InRowIdRange(key) then r == BadRequest(StoreFailure)
        else if key in old(books) then r == BadRequest(DuplicateId)
        else if IsbnClash(old(books), p.isbn.value, key) then r == BadRequest(DuplicateIsbn)
        else r == Created(NewBook(p, key, now)) && books == old(books)[key := r.value]
      ensures r.Created? ==> r.value.id !in old(books) && Reflects(r.value, p)
      ensures r.Created? && p.id.None? ==> r.value.id == old(nextId)
      ensures r.Created? ==>
        nextId == if r.value.id >= old(nextId) then r.value.id + 1 else old(nextId)
    {
      ChainsAcceptIff(p, iso);
      if !Accepts(PostChains(), p, iso) {
        return BadRequest(InvalidData);
      }
      if fault {
        return BadRequest(StoreFailure);
      }
      var key := if p.id.Some? then IntValue(p.id.value) else nextId;
      if !InRowIdRange(key) {
        return BadRequest(StoreFailure);
      }
      if key in books {
        return BadRequest(DuplicateId);
      }
      if IsbnClash(books, p.isbn.value, key) {
        return BadRequest(DuplicateIsbn);
      }
      var b := NewBook(p, key, now);
      books := books[key := b];
      if key >= nextId {
        nextId := key + 1;
      }
      return Created(b);
    }

    /** PUT /libros/:id (index.js:130-171): validate, look the record up, then
        write the supplied fields over it. */
    method Update(id: int, p: Payload, iso: string -> bool, fault: bool) returns (r: Outcome<Book>)
      requires Valid()
      modifies this`books
      ensures Valid()
      ensures !r.Ok? ==> books == old(books)
      ensures !ValidPayload(p, iso) ==> r == BadRequest(InvalidData)
      ensures ValidPayload(p, iso) && fault ==> r == BadRequest(StoreFailure)
      ensures ValidPayload(p, iso) && !fault && id !in old(books) ==> r == NotFound
      ensures ValidPayload(p, iso) && !fault && id in old(books) ==>
        if IsbnClash(old(books), p.isbn.value, id) then r == BadRequest(DuplicateIsbn)
        else r == Ok(Revised(old(books)[id], p)) && books == old(books)[id := r.value]
      ensures r.Ok? ==> r.value.id == id && Reflects(r.value, p)
      ensures forall k :: k in old(books) && k != id ==> k in books && books[k] == old(books)[k]
      ensures books.Keys == old(books).Keys
    {
      ChainsAcceptIff(p, iso);
      if !Accepts(PutChains(), p, iso) {
        PostAndPutAgree(p, iso);
        return BadRequest(InvalidData);
      }
      PostAndPutAgree(p, iso);
      if fault {
        return BadRequest(StoreFailure);
      }
      if id !in books {
        return NotFound;
      }
      if IsbnClash(books, p.isbn.value, id) {
        return BadRequest(DuplicateIsbn);
      }
      var b := Revised(books[id], p);
      books := books[id := b];
      return Ok(b);
    }

    /** DELETE /libros/:id (index.js:173-185). */
    method Delete(id: int, fault: bool) returns (r: Outcome<()>)
      requires Valid()
      modifies this`books
      ensures Valid()
      ensures fault ==> r == ServerError && books == old(books)
      ensures !fault && id !in old(books) ==> r == NotFound && books == old(books)
      ensures !fault && id in old(books) ==> r == Ok(()) && books == old(books) - {id}
      ensures !fault ==> id !in books
    {
      if fault {
        return ServerError;
      }
      if id !in books {
        return NotFound;
      }
      books := books - {id};
      return Ok(());
    }

    /** GET /libros/buscar (index.js:187-199). */
    method Search(q: Query, fault: bool) returns (r: Outcome<seq<Book>>)
      requires Valid()
      ensures fault ==> r == ServerError
      ensures !fault ==> r.Ok? && Lists(r.value, books, q)
    {
      if fault {
        return ServerError;
      }
      var rows := FindAll(q);
      return Ok(rows);
    }
  }

  // ---------------------------------------------------------------- lemmas

  /** Every non-empty finite set of ids has a least element. */
  lemma {:induction false} HasLeast(s: set<int>)
    requires s != {}
    ensures exists k :: k in s && forall j :: j in s ==> k <= j
  {
    if forall y :: y !in s {
      assert false;
    }
    var x :| x in s;
    if s != {x} {
      var rest := s - {x};
      HasLeast(rest);
      var y :| y in rest && forall j :: j in rest ==> y <= j;
      var least := if x < y then x else y;
      forall j | j in s ensures least <= j {
        if j != x { assert j in rest; }
      }
      assert least in s;
    } else {
      assert forall j :: j in s ==> x <= j;
    }
  }

  /** Past its first record, an id-ordered sequence holds exactly the other records. */
  lemma TailMembers(a: seq<Book>)
    requires IdsIncreasing(a) && a != []
    ensures forall x :: x in a[1..] <==> x in a && x != a[0]
  {
  }

  lemma EmptyTogether(a: seq<Book>, b: seq<Book>)
    requires forall x :: x in a <==> x in b
    ensures a == [] <==> b == []
  {
    if a != [] { assert a[0] in b; }
    if b != [] { assert b[0] in a; }
  }

  /** Two id-ordered sequences holding the same records are the same sequence. */
  lemma {:induction false} SameSortedRows(a: seq<Book>, b: seq<Book>)
    requires IdsIncreasing(a) && IdsIncreasing(b)
    requires forall x :: x in a <==> x in b
    ensures a == b
    decreases |a|
  {
    EmptyTogether(a, b);
    if a != [] {
      TailMembers(a);
      TailMembers(b);
      HeadLeast(a);
      HeadLeast(b);
      assert a[0] in b;
      assert b[0] in a;
      assert a[0] == b[0];
      SameSortedRows(a[1..], b[1..]);
      assert a == [a[0]] + a[1..];
      assert b == [b[0]] + b[1..];
    }
  }

  /** A query has exactly one answer over a given table. */
  lemma ListsIsUnique(a: seq<Book>, b: seq<Book>, m: map<int, Book>, q: Query)
    requires Lists(a, m, q) && Lists(b, m, q)
    ensures a == b
  {
    SameSortedRows(a, b);
  }

  /** The answer to a search is the full listing with the search's conditions
      applied, so it is always part of the catalog. */
  lemma SearchFiltersListing(all: seq<Book>, found: seq<Book>, m: map<int, Book>, q: Query)
    requires Lists(all, m, Everything) && Lists(found, m, q)
    ensures found == Where(all, q)
    ensures forall b :: b in found ==> b in all
  {
    assert Lists(Where(all, q), m, q);
    ListsIsUnique(found, Where(all, q), m, q);
  }

  /** A search whose filters are all absent or empty answers every record. */
  lemma BlankSearchListsAll(rows: seq<Book>, m: map<int, Book>, q: Query)
    requires !Active(q.titulo) && !Active(q.autor) && !Active(q.categoria)
    requires Lists(rows, m, q)
    ensures Lists(rows, m, Everything)
    ensures KeyedById(m) ==> forall k :: k in m ==> m[k] in rows
  {
  }
}
