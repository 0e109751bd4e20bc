/** A client of the catalog: the request sequence a reader of the API would
    try first, checked against the handlers' contracts alone. */
module Walkthrough {
  import opened Validation
  import opened Store

  function Sample(): (p: Payload)
  {
    Payload(Some("Rayuela"), Some("Julio Cortázar"), Some("9788437604572"),
            Some("novela"), Some("disponible"), None, None)
  }

  lemma SampleIsValid(iso: string -> bool)
    ensures ValidPayload(Sample(), iso)
  {
  }

  /** A fresh catalog holding the sample book under id 1. */
  method Seeded(iso: string -> bool, now: string) returns (c: Catalog, b: Book)
    ensures fresh(c) && c.Valid() && c.books == map[1 := b] && c.nextId == 2
    ensures b == NewBook(Sample(), 1, now)
  {
    c := new Catalog();
    SampleIsValid(iso);
    var r := c.Create(Sample(), iso, now, false);
    b := r.value;
  }

  method CreateThenGet(iso: string -> bool, now: string)
  {
    var c, b := Seeded(iso, now);
    var g := c.GetById(1, false);
    assert g == Ok(b) && b.titulo == "Rayuela" && b.estado == "disponible";
  }

  method DuplicateIsbnRefused(iso: string -> bool, now: string)
  {
    var c, b := Seeded(iso, now);
    var other := Sample().(titulo := Some("Otro libro"));
    SampleIsValid(iso);
    assert ValidPayload(other, iso);
    assert 1 in c.books && c.books[1].isbn == other.isbn.value;
    var again := c.Create(other, iso, now, false);
    assert again == BadRequest(DuplicateIsbn);
    assert c.books == map[1 := b];
  }

  method InvalidFieldsRefused(iso: string -> bool, now: string)
  {
    var c, b := Seeded(iso, now);
    var john := Sample().(autor := Some("John3"), isbn := Some("1234567890"));
    assert "John3"[4] == '3';
    DigitInAuthorRejected(john, iso);
    ChainsAcceptIff(john, iso);
    var r := c.Create(john, iso, now, false);
    assert r == BadRequest(InvalidData);
    var scifi := Sample().(categoria := Some("sci-fi"), isbn := Some("1234567890"));
    assert "sci-fi" !in Categorias;
    UnknownCategoryRejected(scifi, iso);
    ChainsAcceptIff(scifi, iso);
    r := c.Create(scifi, iso, now, false);
    assert r == BadRequest(InvalidData);
  }

  method UpdateThenGet(iso: string -> bool, now: string)
  {
    var c, b := Seeded(iso, now);
    var loan := Sample().(estado := Some("prestado"));
    SampleIsValid(iso);
    assert Estados[1] == "prestado";
    assert ValidPayload(loan, iso);
    var u := c.Update(1, loan, iso, false);
    assert u.Ok? && u.value.estado == "prestado";
    var g := c.GetById(1, false);
    assert g.Ok? && g.value.estado == "prestado";
  }

  method DeleteThenGet(iso: string -> bool, now: string)
  {
    var c, b := Seeded(iso, now);
    var d := c.Delete(1, false);
    assert d == Ok(());
    var g := c.GetById(1, false);
    assert g == NotFound;
  }

  /** AUTOINCREMENT does not hand a deleted id out again. */
  method DeleteThenCreate(iso: string -> bool, now: string)
  {
    var c, b := Seeded(iso, now);
    var d := c.Delete(1, false);
    SampleIsValid(iso);
    var r := c.Create(Sample(), iso, now, false);
    assert r.Created? && r.value.id == 2 && c.nextId == 3;
  }

  method SearchByTitle(iso: string -> bool, now: string)
  {
    var c, b := Seeded(iso, now);
    var q := Query(Some("Rayu"), None, None);
    var found := c.Search(q, false);
    assert "Rayu" <= b.titulo[0..];
    assert Lists([b], c.books, q);
    ListsIsUnique(found.value, [b], c.books, q);
    assert found == Ok([b]);
    var all := c.ListAll(false);
    assert Lists([b], c.books, Everything);
    ListsIsUnique(all.value, [b], c.books, Everything);
    assert all == Ok([b]);
  }
}
