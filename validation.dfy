/** The field rules that the POST and PUT handlers of the book API run on a
    request body before touching the store (index.js:93-113 and 133-153).

    A rule chain is kept as data (`Chain`, one per `body(...)` line) and run by
    a small interpreter (`Accepts`), as express-validator runs it; `ValidPayload`
    is an independent, direct statement of what the chains accept, and
    `ChainsAcceptIff` proves the two agree. */
module Validation {

  datatype Option<T> = None | Some(value: T)

  /** A request body: each field is either absent (`undefined` in the request)
      or carries its text. */
  datatype Payload = Payload(
    titulo: Option<string>,
    autor: Option<string>,
    isbn: Option<string>,
    categoria: Option<string>,
    estado: Option<string>,
    fechaCreacion: Option<string>,
    id: Option<string>)

  datatype Field = Titulo | Autor | Isbn | Categoria | Estado | FechaCreacion | Id

  function Get(p: Payload, f: Field): (v: Option<string>)
  {
    match f
    case Titulo => p.titulo
    case Autor => p.autor
    case Isbn => p.isbn
    case Categoria => p.categoria
    case Estado => p.estado
    case FechaCreacion => p.fechaCreacion
    case Id => p.id
  }

  /** The fifteen category labels a book may carry. */
  const Categorias: seq<string> :=
    ["novela", "cuento", "poesía", "ensayo", "teatro", "biografía", "historia", "infantil",
     "fantasía", "ciencia ficción", "misterio", "romance", "aventura", "autoayuda", "otro"]

  /** The two loan states a book may be in. */
  const Estados: seq<string> := ["disponible", "prestado"]

  /** `\d` of a JavaScript regular expression: an ASCII decimal digit. */
  predicate IsDigit(c: char)
  {
    '0' <= c <= '9'
  }

  predicate NoDigit(s: string)
  {
    forall i :: 0 <= i < |s| ==> !IsDigit(s[i])
  }

  /** One or more decimal digits and nothing else. */
  predicate Digits(s: string)
  {
    |s| > 0 && forall i :: 0 <= i < |s| ==> IsDigit(s[i])
  }

  /** Integer text: an optional sign followed by one or more digits
      (leading zeros allowed). */
  predicate IsIntText(s: string)
  {
    if |s| > 0 && (s[0] == '+' || s[0] == '-') then Digits(s[1..]) else Digits(s)
  }

  function DigitsValue(s: string): (n: nat)
    requires Digits(s) || s == []
    decreases |s|
  {
    if s == [] then 0
    else DigitsValue(s[..|s| - 1]) * 10 + (s[|s| - 1] as int - '0' as int)
  }

  /** The integer an `id` text denotes once it reaches the store. */
  function IntValue(s: string): (n: int)
    requires IsIntText(s)
    ensures s[0] == '-' ==> n <= 0
    ensures s[0] != '-' ==> n >= 0
  {
    if s[0] == '-' then -(DigitsValue(s[1..]) as int)
    else if s[0] == '+' then DigitsValue(s[1..])
    else DigitsValue(s)
  }

  /** A leading zero does not change the value of a digit string. */
  lemma {:induction false} LeadingZeroValue(s: string)
    requires Digits(s)
    ensures Digits("0" + s) && DigitsValue("0" + s) == DigitsValue(s)
    decreases |s|
  {
    var z := "0" + s;
    assert z[..|z| - 1] == "0" + s[..|s| - 1];
    assert z[|z| - 1] == s[|s| - 1];
    if |s| == 1 {
      assert s[..0] == [];
      assert "0"[..0] == [];
    } else {
      LeadingZeroValue(s[..|s| - 1]);
    }
  }

  /** Id texts that differ only by leading zeros or a sign name the same key:
      "007", "+7" and "7" are one id, and so are "-0" and "0". */
  lemma IdTextsAlike(s: string)
    requires Digits(s)
    ensures IsIntText("0" + s) && IntValue("0" + s) == IntValue(s)
    ensures IsIntText("+" + s) && IntValue("+" + s) == IntValue(s)
    ensures IsIntText("-" + s) && IntValue("-" + s) == -IntValue(s)
  {
    LeadingZeroValue(s);
    assert ("+" + s)[1..] == s;
    assert ("-" + s)[1..] == s;
  }

  /** One check of a chain. */
  datatype Check =
    | NotEmpty                        // .notEmpty()
    | NoDigits                        // .matches(/^[^\d]+$/)
    | LengthIn(min: nat, max: nat)    // .isLength({ min, max })
    | Numeric                         // .isNumeric()
    | IsIn(allowed: seq<string>)      // .isIn([...])
    | Iso8601                         // .isISO8601()
    | IsInt                           // .isInt()

  /** A `body(field)` chain: its checks, and whether `.optional()` lets an
      absent field through. */
  datatype Chain = Chain(field: Field, optional: bool, checks: seq<Check>)

  predicate Passes(c: Check, v: string, iso: string -> bool)
  {
    match c
    case NotEmpty => v != ""
    case NoDigits => v != "" && NoDigit(v)
    case LengthIn(lo, hi) => lo <= |v| <= hi
    case Numeric => Digits(v)
    case IsIn(allowed) => v in allowed
    case Iso8601 => iso(v)
    case IsInt => IsIntText(v)
  }

  predicate AllPass(cs: seq<Check>, v: string, iso: string -> bool)
  {
    forall k :: 0 <= k < |cs| ==> Passes(cs[k], v, iso)
  }

  /** An absent field is read as the empty text, unless the chain is optional. */
  predicate ChainPasses(ch: Chain, p: Payload, iso: string -> bool)
  {
    match Get(p, ch.field)
    case None => ch.optional || AllPass(ch.checks, "", iso)
    case Some(v) => AllPass(ch.checks, v, iso)
  }

  /** A request passes validation when no check of any chain fails. */
  predicate Accepts(chains: seq<Chain>, p: Payload, iso: string -> bool)
  {
    forall k :: 0 <= k < |chains| ==> ChainPasses(chains[k], p, iso)
  }

  /** One chain per payload field, each field checked once; only the date and
      the id may be left out. */
  predicate OnePerField(cs: seq<Chain>)
  {
    && |cs| == 7
    && (forall i, j :: 0 <= i < j < |cs| ==> cs[i].field != cs[j].field)
    && (forall k :: 0 <= k < |cs| ==> (cs[k].optional <==> cs[k].field in {FechaCreacion, Id}))
  }

  /** The chains of the POST /libros handler. */
  function PostChains(): (cs: seq<Chain>)
    ensures OnePerField(cs)
  {
    [
      Chain(Titulo, false, [NotEmpty]),
      Chain(Autor, false, [NotEmpty, NoDigits]),
      Chain(Isbn, false, [NotEmpty, LengthIn(10, 13), Numeric]),
      Chain(Categoria, false, [NotEmpty, IsIn(Categorias)]),
      Chain(Estado, false, [NotEmpty, IsIn(Estados)]),
      Chain(FechaCreacion, true, [Iso8601]),
      Chain(Id, true, [IsInt])
    ]
  }

  /** The chains of the PUT /libros/:id handler, written out separately there. */
  function PutChains(): (cs: seq<Chain>)
    ensures OnePerField(cs)
  {
    [
      Chain(Titulo, false, [NotEmpty]),
      Chain(Autor, false, [NotEmpty, NoDigits]),
      Chain(Isbn, false, [NotEmpty, LengthIn(10, 13), Numeric]),
      Chain(Categoria, false, [NotEmpty, IsIn(Categorias)]),
      Chain(Estado, false, [NotEmpty, IsIn(Estados)]),
      Chain(FechaCreacion, true, [Iso8601]),
      Chain(Id, true, [IsInt])
    ]
  }

  predicate Required(o: Option<string>)
  {
    o.Some? && o.value != ""
  }

  /** What a valid book payload is, field by field. */
  predicate ValidPayload(p: Payload, iso: string -> bool)
  {
    && Required(p.titulo)
    && Required(p.autor) && NoDigit(p.autor.value)
    && p.isbn.Some? && 10 <= |p.isbn.value| <= 13 && Digits(p.isbn.value)
    && p.categoria.Some? && p.categoria.value in Categorias
    && p.estado.Some? && p.estado.value in Estados
    && (p.fechaCreacion.Some? ==> iso(p.fechaCreacion.value))
    && (p.id.Some? ==> IsIntText(p.id.value))
  }

  lemma NoEmptyLabel()
    ensures "" !in Categorias && "" !in Estados
  {
  }

  lemma AllPassOne(a: Check, v: string, iso: string -> bool)
    ensures AllPass([a], v, iso) <==> Passes(a, v, iso)
  {
    assert [a][0] == a;
  }

  lemma AllPassTwo(a: Check, b: Check, v: string, iso: string -> bool)
    ensures AllPass([a, b], v, iso) <==> Passes(a, v, iso) && Passes(b, v, iso)
  {
    assert [a, b][0] == a && [a, b][1] == b;
  }

  lemma AllPassThree(a: Check, b: Check, c: Check, v: string, iso: string -> bool)
    ensures AllPass([a, b, c], v, iso) <==> Passes(a, v, iso) && Passes(b, v, iso) && Passes(c, v, iso)
  {
    assert [a, b, c][0] == a && [a, b, c][1] == b && [a, b, c][2] == c;
  }

  /** A mandatory `notEmpty().isIn(labels)` chain accepts exactly the listed
      labels, the empty text being none of them. */
  lemma LabelChain(f: Field, labels: seq<string>, p: Payload, iso: string -> bool)
    requires "" !in labels
    ensures ChainPasses(Chain(f, false, [NotEmpty, IsIn(labels)]), p, iso)
        <==> Get(p, f).Some? && Get(p, f).value in labels
  {
    var v := if Get(p, f).Some? then Get(p, f).value else "";
    AllPassTwo(NotEmpty, IsIn(labels), v, iso);
  }

  lemma AcceptsSeven(c: seq<Chain>, p: Payload, iso: string -> bool)
    requires |c| == 7
    ensures Accepts(c, p, iso) <==>
      && ChainPasses(c[0], p, iso) && ChainPasses(c[1], p, iso) && ChainPasses(c[2], p, iso)
      && ChainPasses(c[3], p, iso) && ChainPasses(c[4], p, iso) && ChainPasses(c[5], p, iso)
      && ChainPasses(c[6], p, iso)
  {
  }

  lemma TituloChain(p: Payload, iso: string -> bool)
    ensures ChainPasses(PostChains()[0], p, iso) <==> Required(p.titulo)
  {
    AllPassOne(NotEmpty, if p.titulo.Some? then p.titulo.value else "", iso);
  }

  lemma AutorChain(p: Payload, iso: string -> bool)
    ensures ChainPasses(PostChains()[1], p, iso) <==> Required(p.autor) && NoDigit(p.autor.value)
  {
    AllPassTwo(NotEmpty, NoDigits, if p.autor.Some? then p.autor.value else "", iso);
  }

  lemma IsbnChain(p: Payload, iso: string -> bool)
    ensures ChainPasses(PostChains()[2], p, iso) <==>
      p.isbn.Some? && 10 <= |p.isbn.value| <= 13 && Digits(p.isbn.value)
  {
    AllPassThree(NotEmpty, LengthIn(10, 13), Numeric, if p.isbn.Some? then p.isbn.value else "", iso);
  }

  lemma CategoriaChain(p: Payload, iso: string -> bool)
    ensures ChainPasses(PostChains()[3], p, iso) <==> p.categoria.Some? && p.categoria.value in Categorias
  {
    NoEmptyLabel();
    LabelChain(Categoria, Categorias, p, iso);
  }

  lemma EstadoChain(p: Payload, iso: string -> bool)
    ensures ChainPasses(PostChains()[4], p, iso) <==> p.estado.Some? && p.estado.value in Estados
  {
    NoEmptyLabel();
    LabelChain(Estado, Estados, p, iso);
  }

  lemma OptionalChains(p: Payload, iso: string -> bool)
    ensures ChainPasses(PostChains()[5], p, iso) <==> (p.fechaCreacion.Some? ==> iso(p.fechaCreacion.value))
    ensures ChainPasses(PostChains()[6], p, iso) <==> (p.id.Some? ==> IsIntText(p.id.value))
  {
    if p.fechaCreacion.Some? { AllPassOne(Iso8601, p.fechaCreacion.value, iso); }
    if p.id.Some? { AllPassOne(IsInt, p.id.value, iso); }
  }

  /** The POST chains accept exactly the valid payloads. */
  lemma ChainsAcceptIff(p: Payload, iso: string -> bool)
    ensures Accepts(PostChains(), p, iso) <==> ValidPayload(p, iso)
  {
    AcceptsSeven(PostChains(), p, iso);
    TituloChain(p, iso);
    AutorChain(p, iso);
    IsbnChain(p, iso);
    CategoriaChain(p, iso);
    EstadoChain(p, iso);
    OptionalChains(p, iso);
  }

  /** POST and PUT accept the same payloads. */
  lemma PostAndPutAgree(p: Payload, iso: string -> bool)
    ensures Accepts(PostChains(), p, iso) <==> Accepts(PutChains(), p, iso)
  {
  }

  /** An author containing a digit is refused by both handlers. */
  lemma DigitInAuthorRejected(p: Payload, iso: string -> bool)
    requires p.autor.Some? && !NoDigit(p.autor.value)
    ensures !Accepts(PostChains(), p, iso) && !Accepts(PutChains(), p, iso)
  {
    ChainsAcceptIff(p, iso);
    PostAndPutAgree(p, iso);
  }

  /** A category outside the fifteen labels is refused by both handlers. */
  lemma UnknownCategoryRejected(p: Payload, iso: string -> bool)
    requires p.categoria.Some? && p.categoria.value !in Categorias
    ensures !Accepts(PostChains(), p, iso) && !Accepts(PutChains(), p, iso)
  {
    ChainsAcceptIff(p, iso);
    PostAndPutAgree(p, iso);
  }
}
