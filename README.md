# Book catalog API — verified model

The repository is a small Express + Sequelize service over one SQLite table
of books (`Libro`: `id`, `titulo`, `autor`, `isbn`, `categoria`, `estado`,
`fecha_creacion`). This project models the two parts of `index.js` that have
behaviour worth stating:

- **Validation** (`validation.dfy`, module `Validation`). The express-validator
  chains of the POST and PUT handlers are kept as data: one `Chain` per
  `body(...)` line, each a list of `Check`s, run by the interpreter `Accepts`.
  `ValidPayload` states directly, field by field, what a valid book payload is.
  `ChainsAcceptIff` proves that the two agree in both directions.
  `PostAndPutAgree` proves that the separately written POST and PUT chains
  accept the same payloads. The category list and the status list are the
  literal labels of the source.
- **The store** (`store.dfy`, module `Store`). The class `Catalog` holds the
  table as `books: map<int, Book>` plus the AUTOINCREMENT counter `nextId`.
  Its invariant `Valid()` says three things: each record sits under its own id,
  no two records share an isbn, and `nextId` is above every id in use. Each
  route handler is a method that returns an `Outcome`: `Ok`, `Created`,
  `NotFound`, `BadRequest(reason)` or `ServerError`. `Status` maps each to its
  HTTP code. Each mutating method keeps `Valid()` and states its whole new
  table against the old one. `GetById` answers the stored record or
  `NotFound`. The listing methods (`ListAll`, `Search`, and `FindAll` under
  them) state their answer with the predicate `Lists`: the matching records,
  each once, in increasing id order. `ListsIsUnique` proves that there is at
  most one such answer, and `FindAll` produces it. `SearchFiltersListing`
  proves that a search returns the full listing with its filters applied.
- `walkthrough.dfy` (module `Walkthrough`) is a client. It verifies the usual
  request sequences against the method contracts alone: create then get, a
  duplicate isbn, an author with a digit, the category `sci-fi`, update then
  get, delete then get, delete then create (the deleted id is not reused), and
  search.

Inputs the program takes from outside are parameters:
- `iso: string -> bool` is ISO 8601 validity (`isISO8601`).
- `now: string` is the clock reading behind `DataTypes.NOW`.
- `fault: bool` says that the database raised an error other than a
  constraint violation. That is the path of each handler's `catch`: 500 for
  list, get, delete and search, and 400 for create and update.

Assumptions about the libraries, whose code is not part of this model:
- An absent field reads as the empty text, and `optional()` skips only an
  absent field.
- `isNumeric` accepts one or more decimal digits. This follows the intent of
  the message at index.js:100.
- `isInt` accepts an optional sign followed by one or more digits.
- `isLength` counts characters.
- On insert, SQLite checks the primary key before the unique isbn index
  (`DuplicateId` is reported first).
- AUTOINCREMENT never hands out an id that was used before. An explicit id
  moves the counter past itself.
- A rowid is a signed 64-bit integer. An insert whose key falls outside that
  range fails in the store (an explicit id that large is not an integer to
  SQLite, and a counter past the largest rowid gives `SQLITE_FULL`), which is
  the 400 of the `catch`.
- A table scan returns rows in increasing id order.

## Model

| member | source | states |
|---|---|---|
| Validation.Passes | index.js:93-113 | the meaning of each validator call on a field's text: notEmpty, the digit-free pattern, isLength, isNumeric as one or more digits, isIn, isISO8601 as the `iso` parameter, and isInt as an optional sign before one or more digits (leading zeros allowed) |
| Validation.Accepts | index.js:116-118 | express-validator collects every chain's failures and the handler's `errors.isEmpty()` test: a payload passes iff no check of any chain fails, an absent field reading as the empty text unless its chain is optional (also index.js:156-158) |
| Validation.ChainsAcceptIff | index.js:93-113 | the POST chains accept a payload iff titulo is non-empty, autor is non-empty and digit-free, isbn has 10 to 13 characters and all are digits, categoria is one of the 15 labels, estado is disponible or prestado, a given fecha_creacion is ISO 8601 and a given id is integer text |
| Validation.PostAndPutAgree | index.js:133-153 | the PUT chains accept exactly the payloads the POST chains accept |
| Validation.TituloChain | index.js:93 | the titulo chain passes iff titulo is present and non-empty |
| Validation.AutorChain | index.js:94-96 | the autor chain passes iff autor is present, non-empty and has no digit |
| Validation.IsbnChain | index.js:97-100 | the isbn chain passes iff isbn is present, 10 to 13 characters long and all digits |
| Validation.CategoriaChain | index.js:101-104 | the categoria chain passes iff categoria is one of the 15 labels (the empty text is none of them) |
| Validation.EstadoChain | index.js:105-107 | the estado chain passes iff estado is disponible or prestado |
| Validation.OptionalChains | index.js:108-113 | an absent fecha_creacion or id passes; a present one must be ISO 8601 or integer text |
| Validation.DigitInAuthorRejected | index.js:94-96 | any author containing a digit is refused by POST and by PUT |
| Validation.UnknownCategoryRejected | index.js:101-104 | any category outside the 15 labels is refused by POST and by PUT |
| Validation.IntValue | index.js:111-113 | the integer an accepted id text stands for; a leading minus gives a value at most 0, otherwise at least 0 |
| Validation.LeadingZeroValue | index.js:111-113 | a leading zero leaves a digit string integer text with the same value |
| Validation.IdTextsAlike | index.js:111-113 | for every digit string s, "0"+s and "+"+s stand for the same id as s, and "-"+s for its negation, so `007`, `+7` and `7` are one id |
| Validation.PostChains | index.js:93-113 | the POST handler's seven `body(...)` chains, one per field, each field checked once, only fecha_creacion and id optional |
| Validation.PutChains | index.js:133-153 | the PUT handler's seven chains, with the same shape |
| Validation.ValidPayload | index.js:93-113 | the reference definition of a valid book payload, field by field, against which the chains are proved |
| Store.Matches | index.js:190-194 | a record meets the search's `where`: each given non-empty filter is contained in its column |
| Store.Status | index.js:69-199 | an outcome is sent with 201 iff it is Created, with 200 iff it is Ok (so a 2xx code iff either), with 404 iff it is NotFound, with 400 iff it is BadRequest, and with 500 iff it is ServerError |
| Store.Revised | index.js:165 | the updated record keeps its id, holds every field the body supplies, and keeps every field the body leaves out |
| Store.NewBook | index.js:121-122 | the inserted record has the chosen id, every supplied field, and the clock's time when no date is given |
| Store.Lists | index.js:71 | the reference definition of what a `findAll` returns (here and at line 194): exactly the stored records that match the query, each once, in increasing id order |
| Store.Where | index.js:190-194 | the records of a listing that satisfy every active filter, keeping the id order |
| Store.Catalog.Valid | index.js:24-41 | the table invariant: each record is stored under its own primary key, the isbn column is unique, and the AUTOINCREMENT counter is above every key |
| Store.Catalog.constructor | index.js:56-62 | on a new database file, the synced table starts empty with the id counter at 1, and the invariant holds |
| Store.Catalog.FindAll | index.js:71 | the answer holds exactly the records matching the query, each once, in increasing id order |
| Store.Catalog.ListAll | index.js:69-76 | every record, each once, in id order; ServerError when the store fails |
| Store.Catalog.GetById | index.js:78-88 | the stored record when the id is present, NotFound otherwise, ServerError when the store fails |
| Store.Catalog.Create | index.js:115-126 | an invalid payload gives BadRequest(InvalidData) before the store is touched; a taken id or isbn gives BadRequest with the table unchanged; a key outside the 64-bit rowid range gives BadRequest(StoreFailure); otherwise exactly one record is added under a fresh id, carrying the supplied fields, the isbn stays unique, and the counter moves past the new id, so a deleted id is never handed out again |
| Store.Catalog.Update | index.js:155-169 | invalid payload gives BadRequest(InvalidData), a missing id gives NotFound, an isbn held by another record gives BadRequest, each with the table unchanged; otherwise only that record changes, to the supplied fields; isbn uniqueness is kept |
| Store.Catalog.Delete | index.js:173-185 | a missing id gives NotFound with no change; otherwise exactly that record is removed and a later lookup finds nothing |
| Store.Catalog.Search | index.js:187-199 | the records whose titulo, autor and categoria contain the given non-empty filters, each once, in id order, all taken from the catalog |
| Store.ListsIsUnique | index.js:71 | a query over a table has at most one answer (FindAll produces it) |
| Store.SearchFiltersListing | index.js:189-194 | a search answers the full listing with its filters applied, so every record it returns is in the catalog |
| Store.BlankSearchListsAll | index.js:190-194 | a search whose filters are all absent or empty answers every record |

## Left out

- HTTP routing, JSON parsing and serialisation, `app.listen`, and logging (index.js:64-67, 201-203). Outcomes are mapped to status codes by `Status`, and response bodies are not modelled.
- The Sequelize/SQLite connection, `authenticate`, `sync`, and async execution (index.js:6-20, 56-62). These are foreign library calls. An unexpected database error is the `fault` parameter.
- Real ISO 8601 parsing (index.js:110). It is the `iso` parameter.
- Store.NewBook and Store.Revised keep `fecha_creacion` as the text the client sent, or the `now` text. The column is a `DATE` (index.js:50-53): how Sequelize parses and normalises a date into its stored and returned form is not modelled, so dates are opaque text.
- Restarting over an existing database file. `sync()` then keeps the old rows, and the catalog starts in some state that satisfies `Valid()`. No operation requires more than `Valid()`, so every contract covers that case too. The constructor models only the first start on a new file.
- `fecha_creacion` defaulting to `DataTypes.NOW` (index.js:52). The clock is the `now` parameter. The timestamps `createdAt`/`updatedAt` that Sequelize adds are left out too, because they read the clock.
- express-validator's exact `isNumeric`, which also takes a sign or a decimal point. The model accepts digits only.
- Body and query values that are not text, such as numbers, `null`, arrays or objects. Every field and every search filter is modelled as absent or a string. A repeated query parameter such as `?titulo=a&titulo=b` arrives as an array and becomes the filter `%a,b%`, and an empty array still counts as a given filter; neither is modelled.
- SQL `LIKE` semantics (index.js:191-193). SQLite ignores ASCII case, and `%` and `_` inside a filter act as wildcards. The model uses plain, case-sensitive substring containment.
- Column length limits such as `STRING(255)`. SQLite does not enforce them.
- Route shadowing: `/libros/buscar` is registered after `/libros/:id`. Express route matching is not modelled, and `Search` is its own operation.
- Path ids that are not integers. The methods take an `int` id. A non-numeric `:id` is NotFound at the store, which the model cannot express.
- Store.Catalog.Update: an `id` field in the PUT body is validated but never moves the record. The record keeps its path id, because how Sequelize rewrites a primary key from `update(req.body)` is not visible here.
- Concurrent requests. The store serialises them, which is out of scope.
