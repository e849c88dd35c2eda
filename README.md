# propertypp: the SQLite property store, modelled in Dafny

propertypp keeps typed settings under string keys. Each value is a string,
a 32-bit int, a 64-bit int, a double, a bool or a byte blob. A key keeps its
type for life. The SQLite back end (`src/sqlite.cpp`) keeps everything in one
table, `property_table(key STRING PRIMARY KEY, value BLOB, type INTEGER)`.
It offers four operations:

- `get` reads a row and refuses a type other than the stored one.
- `set` inserts a row. On a uniqueness violation it either reports
  `ALREADY_EXISTS` or, with `update`, overwrites the value of a row whose
  stored type matches.
- `del` deletes a row.
- `type` reads the stored type alone.

The model covers:

- **The value codec.** `set` turns a value into the text of the value
  column: strings verbatim, integers in decimal, bools as `"true"`/`"false"`,
  blobs in base64. `get` turns that text back with `std::stoi`,
  `std::stoll`, a comparison with `"false"`, or base64 decoding.
- **Tag enforcement.** `get` compares the requested tag with the integer in
  the type column, with no widening between int32 and int64.
- **Conflict resolution.** `set` tries the insert, then handles the
  constraint violation.
- **`del`, `type` and the two row callbacks.** `select_exec_cb` and
  `type_exec_cb` fill a `req_value`.

Modules:

- `Wrappers`: `Option`.
- `PropertyTypes`: status codes, the tag enumeration with its integer codes,
  and the value sum type.
- `Decimal`: `std::to_string`, and `strtol` as `std::stoi`, `std::stoll`
  and `atoi` use it.
- `Base64`: the encoding of section 4 of RFC 4648.
- `Codec`: the two switches, and the C-string read of a column.
- `SqliteStore`: the table, the `req_value` class with the callbacks, and
  the `Store` class with `get`, `set`, `del` and `type`.
- `Scenarios`: the test cases of `tests/sqlite_test.cpp`, plus a few more
  client sequences, run against a fresh store.

How the state is modelled:

- **The table** is a field `table: map<string, Row>` of the `Store` class.
  A `Row` is the value column's text together with the type column's
  integer.
- **Engine failures** are explicit parameters: one boolean for each engine
  call of `set` that can fail, a flag for the failing `sqlite3_exec` of
  `get` and `type`, and, for `del`, the sequence of results its
  `sqlite3_step` calls report.
- **The type column** is read back as the callbacks read it. The engine
  hands the column over as decimal text, and `atoi` reads it.
  `Decimal.AtoiToDecimal` proves that this recovers the stored integer.
- **The value column** is read through `std::string(argv[0])`, which stops
  at the first NUL (`Codec.CStr`).
- **The store invariant** `Store.Valid` says that every row is the row
  `set` writes for some value. `get` therefore never meets text that
  `std::stoi`, `std::stoll` or the base64 decoder would reject.

Where the code and the design description of the system disagree, the model
follows the code:

- **A failed insert prepare reports `OK`.** `set` starts with status `OK`,
  and a failing `sqlite3_prepare_v2` of the INSERT only logs
  (`src/sqlite.cpp:240-242`). `Store.Set` returns `Ok` and leaves the table
  alone.
- **A failed type query leaks its status.** When the type query inside
  `set` fails, its `UNKNOWN_ERROR` becomes `set`'s result
  (`src/sqlite.cpp:208-234`).
- **`del` reports `OK` even when its step fails.** The row then stays.
- **Malformed numeric text throws.** The design says such text surfaces as
  `UnknownError`. The code lets the exception of `std::stoi`/`std::stoll`
  escape. The model writes `None` for that case, and `Store.Valid` shows
  that it cannot arise from rows `set` wrote.
- **Strings with a NUL do not read back intact.** `std::string(argv[0])`
  truncates them (`Codec.NulTruncates`). `Codec.RoundTrip` therefore
  requires NUL-free strings.
- **The loop in `del`** is described under Findings.

## Model

| member | source | states |
|---|---|---|
| PropertyTypes.TagCode | include/export/base/propertypp/property.hpp:38-45 | every tag's code lies in 0..5, the range of the enumeration |
| PropertyTypes.TagFromCode | src/sqlite.cpp:24-27 | the cast of an integer read from the type column names a tag exactly when the integer is in 0..5, and that tag's code is the integer |
| PropertyTypes.TagCodeInverse | include/export/base/propertypp/property.hpp:38-45 | reading back a tag's code gives the tag; two tags have the same code only if they are the same tag |
| Decimal.ToDecimal | src/sqlite.cpp:161-170 | `std::to_string` of an integer is non-empty, starts with a minus sign or a digit, and contains no NUL |
| Decimal.ParseToDecimal | src/sqlite.cpp:103-112 | strtol reads back exactly the integer `std::to_string` wrote |
| Decimal.StoiToDecimal | src/sqlite.cpp:103-107 | `std::stoi` of the decimal text of an int32 succeeds and gives that int32 |
| Decimal.StollToDecimal | src/sqlite.cpp:108-112 | `std::stoll` of the decimal text of an int64 succeeds and gives that int64 |
| Decimal.AtoiToDecimal | src/sqlite.cpp:26 | `atoi` of the decimal text the engine produces for the type column gives back the stored integer |
| Base64.IndexChar | src/sqlite.cpp:183 | each of the 64 sextet values has an alphabet character that decodes back to it and that is neither padding nor NUL |
| Base64.Encode | src/sqlite.cpp:181-185 | the text of n bytes is 4·⌈n/3⌉ characters long |
| Base64.DecodeEncode | src/sqlite.cpp:125-131 | decoding the base64 text of any byte sequence, with NULs and non-UTF-8 bytes included, gives back exactly that sequence |
| Base64.EncodeNulFree | src/sqlite.cpp:194 | base64 text never contains a NUL, so the C-string read of the value column does not cut it |
| Codec.CStr | src/sqlite.cpp:25 | `std::string(argv[0])` keeps the longest NUL-free prefix: what it drops starts with a NUL, and a NUL-free string is kept whole |
| Codec.DecodePayload | src/sqlite.cpp:97-131 | a successful decode has the requested tag; the DOUBLE case never succeeds in the model |
| Codec.RoundTrip | src/sqlite.cpp:156-186 | what `set` writes for a value, read back by `get` at the value's own tag, is that value, for every value except strings with a NUL |
| Codec.ReadBackDefined | src/sqlite.cpp:97-131 | decoding what `set` wrote never fails (no exception from `std::stoi`, `std::stoll` or base64), and a string comes back as its prefix before the first NUL |
| Codec.NulTruncates | src/sqlite.cpp:25 | the string "val\0ue" is stored and reads back as "val" |
| Codec.BoolTokens | src/sqlite.cpp:176-180 | a bool is written as exactly "true" or "false", and "false" exactly for false |
| Codec.BoolDecoding | src/sqlite.cpp:118-124 | a bool payload reads as true unless it is exactly "false", and as false exactly when it is "false" |
| SqliteStore.EncodeRowReadable | src/sqlite.cpp:193-195 | the row `set` binds for a value is readable by `get`, and its type column names the value's tag |
| SqliteStore.EncodedReadable | src/sqlite.cpp:92-131 | every row that is some value's encoding has a type column naming a tag and a value column that decodes at that tag |
| SqliteStore.AutoResetNeverExits | src/sqlite.cpp:256 | if every step reports done, as with SQLite's automatic reset, then no step count lets `del`'s loop leave |
| SqliteStore.ReqValue.constructor | include/export/sqlite/propertypp/sqlite.hh:27-32 | a fresh `req_value` is not found, not valid, has an empty blob and the STRING type |
| SqliteStore.ReqValue.SelectRow | src/sqlite.cpp:15-33 | the row is marked found; with two columns it keeps the first cut at its NUL and `atoi` of the second, and it is valid exactly when there are two columns |
| SqliteStore.ReqValue.TypeRow | src/sqlite.cpp:35-52 | the row is marked found; with one column it keeps `atoi` of it, and it is valid exactly when there is one column |
| SqliteStore.Store.constructor | src/sqlite.cpp:56-76 | a store over a new database file has an empty table that satisfies the invariant |
| SqliteStore.Store.Get | src/sqlite.cpp:83-145 | UnknownError when the query fails; NotFound for an absent key; InvalidType when the stored code differs from the requested tag; otherwise Ok with a value that is the decoding of the stored text at that tag, which never fails under the invariant |
| SqliteStore.Store.Type | src/sqlite.cpp:267-317 | UnknownError when the query fails; NotFound for an absent key; otherwise Ok and the tag named by the stored code |
| SqliteStore.Store.Set | src/sqlite.cpp:147-245 | every branch of the insert-then-update protocol with its status and new table; the invariant is kept; keys are never removed and no stored type code ever changes |
| SqliteStore.Store.Del | src/sqlite.cpp:247-265 | as written, for an engine whose steps eventually report something other than done: Ok, and the key is gone exactly when the first step reported done; UnknownError and no change when the prepare fails |
| SqliteStore.Store.DelOnce | src/sqlite.cpp:247-265 | del with one step: Ok, and the key gone when the step reports done, for every engine behaviour; UnknownError and no change when the prepare fails |
| Scenarios.SetThenGet | tests/sqlite_test.cpp:56-86 | setting a new key and getting it at its own tag gives Ok, Ok and the value; the other rows stay unchanged |
| Scenarios.SetGetDelTest | tests/sqlite_test.cpp:49-90 | the five typed set/get pairs of the test all report Ok and read back the values set |
| Scenarios.SetUniqueTest | tests/sqlite_test.cpp:92-103 | a second set of a key without update reports AlreadyExists |
| Scenarios.SetUpdateGetTest | tests/sqlite_test.cpp:105-126 | Ok, AlreadyExists, then Ok with update, and get returns the updated string |
| Scenarios.SetCheckTypeTest | tests/sqlite_test.cpp:128-149 | a string read as an int32 gives InvalidType and no value; an update of the same type succeeds |
| Scenarios.SetKeepsOnConflict | src/sqlite.cpp:202-204 | after a refused set, get still returns the first value |
| Scenarios.TypeChangeRefused | src/sqlite.cpp:209-211 | an update to another type reports InvalidType, and the key still reads back its original string |
| Scenarios.NoWidening | src/sqlite.cpp:93-95 | an int32 property reads back at INT and is refused at INT64 |
| Scenarios.DelThenGet | src/sqlite.cpp:247-265 | deleting a stored key reports Ok, a get then reports NotFound, and deleting it again still reports Ok |

## Left out

- Doubles: the DOUBLE tag (code 3) is kept, but there is no double value. `std::to_string` and `std::stod` of floating point are not modelled, so a get at DOUBLE never returns Ok in the model.
- Base64: the header `tools/base64.hpp` is not part of this model. The codec is the standard padded encoding of section 4 of RFC 4648, assumed to be what that header implements.
- SQL text: statements are built by concatenating the key into the SQL. Keys holding a quote, or otherwise changing the statement, are outside the model: the model looks keys up exactly.
- Key affinity: the key column is declared STRING, which SQLite gives numeric affinity. Keys such as "0123" and "123" may then collide in the engine; the model compares keys as strings.
- The SQLite engine itself: `sqlite3_open` and table creation in the constructor, the destructor, statement preparation and binding are represented only by their outcomes (the failure flags and step results).
- Console and error-stream logging: left out, because it does not affect results.
- The locking wrapper around the handle and `shared_from_this`: concurrency is not modelled; every operation runs alone.
- The header-only variants of the interface in the other headers: not modelled; the store follows `src/sqlite.cpp`.
- `atoi` on text outside the range of int is undefined behaviour in C. The model reads the mathematical value; only the decimal text of stored codes 0..5 ever reaches it.
- Codec.RoundTrip: requires strings to be NUL-free, because the C-string read of the value column cuts a string at its first NUL.
- Codec.DecodePayload: an exception from `std::stoi` or `std::stoll` on malformed or out-of-range text is modelled as None. Store.Get then returns Ok with None, but the invariant rules that case out.
- SqliteStore.Store.Get: the out-parameter is None where the source leaves the caller's variable untouched.
- SqliteStore.Store.Del: its precondition is an assumption about the engine (some step eventually reports something other than done); see Findings.
- Scenarios.SetThenGet: does not state the stored row's contents, only that get returns the value and the other rows are unchanged.

## Findings

| source | as written | input that shows it | evidently intended | confidence | as-written member | corrected member |
|---|---|---|---|---|---|---|
| src/sqlite.cpp:256 | `while (sqlite3_step(stmt) == SQLITE_DONE) {}` steps the DELETE again for as long as it reports done | any `del` on SQLite 3.7.0 or later, whose automatic reset makes every further step run the DELETE again and report done; the loop never ends | step the DELETE once and return OK | medium, not executed | SqliteStore.Store.Del, SqliteStore.AutoResetNeverExits | SqliteStore.Store.DelOnce |
