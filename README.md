# Movie REST API: a verified model of its store, validator and origin policy

The service keeps a list of movie records in memory and serves CRUD over
HTTP. This project models the parts that make decisions:

- **MovieSchema** (`schema.dfy`): `movieSchema` and its two validators,
  `validateMovie` (full mode) and `validatePartialMovie` (partial mode).
  The input is a parsed JSON value (`Json.Value`). The result is either
  the object cut down to the schema's keys or the list of violations. The
  list follows the schema library's order: fields in declared order, and
  for a number every failing check of its chain (`int`, `min`, `max`,
  `positive`). Each rule also has a plain statement (`YearOk`, `GenreOk`,
  `ConformsFull`, `ConformsPartial`, ...). Lemmas prove the validator
  accepts a body exactly when that statement holds.
- **Cors** (`cors.dfy`): `ACCEPTED_ORIGINS` and the test
  `ACCEPTED_ORIGINS.includes(origin) || !origin`.
- **MovieStore** (`store.dfy`): the `movies` array as a `Store` class
  with a `seq` field. Each handler is a method. Every handler except
  `List`, which returns the sequence of movies itself, returns an
  `Outcome` in place of an HTTP response: `Found`/`Updated` for 200 with a record,
  `Created` for 201, `Deleted` for 200 with a message, `NotFound` for
  404 and `Invalid` for 400. The methods use the source's expressions as
  functions: `FilterByGenre` (filter/some), `Find`/`FindIndex`, `Merge`
  (object spread), `NewMovie` (`{id, ...data}`) and `RemoveAt` (`splice`).
  `push` and indexed assignment become updates of the `movies` field.

Things the source does that are easy to miss, and that the model keeps:

- Patch validates the body before it looks up the id. An invalid body gets
  400 even when the id does not exist.
- `!origin` is also true for an empty `Origin` header, so `Some("")` is
  allowed, just like an absent header.
- `if(genre)` is false for an empty query value, so `?genre=` lists every
  movie.
- Validated data contains only schema keys. It therefore never carries an
  `id`, so a patch cannot change a record's id and a create always uses the
  generated id.

The code accepts some values one might expect it to reject:

- `title` may be the empty string.
- `genre` may be an empty array.
- An empty `Origin` header is allowed.

## Model

| member | source | states |
|---|---|---|
| `MovieSchema.Validate` | schemas/movies.js:3-30 | A body that is not an object fails with one root issue. Every failure has at least one issue, and each issue is at the root or under a schema key. Accepted data has exactly the body's schema-key entries, unchanged, so extra keys are dropped. |
| `MovieSchema.ValidateMovie` | schemas/movies.js:24-26 | Full validation accepts a body exactly when it is an object conforming to `ConformsFull`, and then returns it cut down to the schema keys. |
| `MovieSchema.ValidatePartialMovie` | schemas/movies.js:28-30 | Partial validation accepts a body exactly when it is an object conforming to `ConformsPartial`, and then returns it cut down to the schema keys. |
| `MovieSchema.Strip` | schemas/movies.js:3-22 | The stripped record keeps exactly the input's keys that are schema keys, with their values unchanged. So an `id` or any other unknown key never survives. |
| `MovieSchema.CheckIssues` | schemas/movies.js:15-18 | A number's checks report nothing exactly when every check in the chain passes. Every issue they report is at that field's key. |
| `MovieSchema.ValidateAccepts` | schemas/movies.js:24-30 | Validation in either mode accepts exactly the objects that conform to the schema in that mode. Full mode requires every rule-obeying field except `rate`. Partial mode checks only the fields that are present. |
| `MovieSchema.GenreItemsIssues` | schemas/movies.js:8-9 | Every issue from the genre array's element checks is under `genre`. `GenreItemsIssuesEmpty` shows they report nothing exactly when every element is an enum tag. |
| `MovieSchema.GenreItemsIssuesEmpty` | schemas/movies.js:8-9 | The element checks of the genre array report nothing exactly when every element is a string in the enum. |
| `MovieSchema.GenreIssuesEmpty` | schemas/movies.js:8-14 | `genre` passes iff it is an array whose elements are all enum tags. The empty array passes. |
| `MovieSchema.YearRule` | schemas/movies.js:15 | `year` passes iff it is an integer with 1900 ≤ year ≤ 2025. |
| `MovieSchema.DurationRule` | schemas/movies.js:17 | `duration` passes iff it is an integer greater than 0. |
| `MovieSchema.RateRule` | schemas/movies.js:18 | `rate` passes iff it is a number with 0 ≤ rate ≤ 10. It need not be an integer. |
| `MovieSchema.FieldIssuesEmpty` | schemas/movies.js:3-22 | Each field's checks report nothing exactly when the value obeys that field's rule. |
| `MovieSchema.BodyIssuesEmpty` | schemas/movies.js:3-22 | An object reports no issue iff none of its seven fields does. |
| `MovieSchema.CleanIffConformsFull` | schemas/movies.js:3-22 | In full mode, no field reports an issue iff the object conforms to the full schema. |
| `MovieSchema.CleanIffConformsPartial` | schemas/movies.js:3-22 | In partial mode, no field reports an issue iff the object conforms to the partial schema. |
| `MovieSchema.KeyIssuesEmpty` | schemas/movies.js:3-22 | A key reports nothing iff it is present and valid, or absent and optional in the mode. |
| `MovieSchema.KeyIssuesAtKey` | schemas/movies.js:3-22 | Every issue a field reports lies under that field's key. |
| `MovieSchema.BodyIssuesAtSchemaKeys` | schemas/movies.js:3-22 | Every issue about an object's fields lies under one of the seven schema keys. |
| `MovieSchema.ValidatedConforms` | schemas/movies.js:25-29 | The data a validator returns conforms to the schema in its mode and never has an `id` key. |
| `MovieSchema.FullImpliesPartial` | schemas/movies.js:28-30 | Every fully valid body is partially valid, with the same data. |
| `MovieSchema.EmptyObjectPartialValid` | schemas/movies.js:29 | `{}` passes partial validation and yields `{}`. |
| `MovieSchema.EmptyObjectFullIssues` | schemas/movies.js:3-25 | `{}` fails full validation with one `Required` issue for each of title, genre, year, director, duration and poster, in that order. No issue is reported for `rate`. |
| `MovieSchema.MissingRequiredReported` | schemas/movies.js:3-25 | An object missing any required field fails full validation. The issues include `Required` at that field. |
| `MovieSchema.RateAbsentStaysAbsent` | schemas/movies.js:18 | An absent `rate` is accepted exactly when a valid rate in its place would be. No default is inserted. |
| `MovieSchema.Year1899Rejected` | schemas/movies.js:15 | In both full and partial validation, a `year` of 1899 always yields a `TooSmall` issue at `year`, whatever the rest of the body holds. |
| `MovieSchema.Name` | schemas/movies.js:3-22 | Every field's key is one of the schema's keys. |
| `Cors.IsAllowed` | app.js:21-32 | An origin is allowed iff it is absent, empty, or exactly one of the four accepted origins. |
| `Cors.ExtensionRejected` | app.js:32 | An accepted origin with anything appended is not allowed. There is no prefix or pattern match. |
| `Cors.PrefixRejected` | app.js:32 | A non-empty proper prefix of an accepted origin is not allowed. |
| `MovieStore.Lower` | app.js:38 | Lower-casing keeps the length and folds each character (ASCII). |
| `MovieStore.LowerIdempotent` | app.js:38 | Lower-casing twice is the same as lower-casing once. |
| `MovieStore.QueryCaseIrrelevant` | app.js:38 | Filtering by a query gives the same result as filtering by its lower-cased form. |
| `MovieStore.AnyTagMatches` | app.js:38 | `genre.some(g => g.toLowerCase() === query)` over the tags in order. `AnyTagMatchesIff` shows it holds iff some string tag lower-cases to the query. |
| `MovieStore.AnyTagMatchesIff` | app.js:38 | `genre.some(...)` holds iff some tag is a string whose lower-cased form equals the lower-cased query. |
| `MovieStore.FilterByGenre` | app.js:37-39 | The filter never returns more movies than are stored. |
| `MovieStore.MatchingIndices` | app.js:37-39 | The matching positions are positions of the store. |
| `MovieStore.MatchingIndicesSpec` | app.js:37-39 | The matching positions are strictly increasing. A position is among them iff the movie there has a genre equal to the query ignoring case. |
| `MovieStore.FilterSelectsInOrder` | app.js:37-39 | The filter's k-th result is the movie at the k-th matching position, and each result matches. So it returns exactly the matching movies in their stored order. |
| `MovieStore.FilterAllMatch` | app.js:37-39 | When every movie matches, the filter returns the list unchanged. |
| `MovieStore.FilterSameQuery` | app.js:38 | Two queries that match the same movies filter the same way. |
| `MovieStore.FindIndex` | app.js:87 | Returns -1 iff no movie has the id. Otherwise it returns the first position whose `id` is exactly the id. |
| `MovieStore.Find` | app.js:48 | The result is none exactly when `FindIndex` finds no movie with the id, and otherwise is a stored movie with that id. `FindAtFindIndex` shows it is the first such movie. |
| `MovieStore.FindAtFindIndex` | app.js:48 | `find` returns the movie at the position `findIndex` reports, or nothing when that position is -1. |
| `MovieStore.NewMovie` | app.js:66-69 | The new record has the validated data's keys plus `id`, keeps each data value, and its `id` is the generated id. |
| `MovieStore.AppendFreshKeepsUnique` | app.js:72 | Appending a record whose id is fresh keeps ids unique. |
| `MovieStore.AppendThenFind` | app.js:72 | After the append, the fresh id is found at the new last position. Ids that were found before are found at the same positions. |
| `MovieStore.Merge` | app.js:93-96 | The spread has the keys of both records. Patched keys take the patch's values and all other keys keep the record's values. |
| `MovieStore.MergeConforms` | app.js:93-98 | Merging partially valid data onto a fully valid record gives a fully valid record. |
| `MovieStore.PatchKeepsIds` | app.js:93-98 | Replacing one record by its merge with `id`-free data leaves every lookup by id unchanged, and keeps ids unique if they were. |
| `MovieStore.RemoveAt` | app.js:117 | `splice(i, 1)` shortens the list by one. Elements before `i` stay put and later ones move down one place. |
| `MovieStore.RemoveFirstThenFind` | app.js:111-117 | After removing the first movie with one id, the first match of any other id moves down one place if it came after the removed movie, and otherwise stays. |
| `MovieStore.DeleteThenNotFound` | app.js:111-117 | With unique ids, no movie has an id once the movie with that id is deleted. A later `find` returns nothing. |
| `MovieStore.RemoveKeepsUnique` | app.js:117 | Removing an element keeps ids unique. |
| `MovieStore.ConformingIsWellFormed` | schemas/movies.js:8-9 | A record whose genre passes the schema has a genre array of strings, which the filter can read. |
| `MovieStore.Store.constructor` | app.js:2 | The store starts with the loaded records. |
| `MovieStore.Store.List` | app.js:29-43 | A non-empty `genre` query returns the genre filter of the store. An absent or empty one returns the whole store. |
| `MovieStore.Store.Get` | app.js:45-54 | Returns the movie at the first position with the id, or `NotFound` when there is none. |
| `MovieStore.Store.Create` | app.js:56-75 | An invalid body gives `Invalid` with the issues and leaves the store unchanged. A valid one appends exactly `{id: newId, ...data}` and returns it. A fresh id keeps ids unique, and a store of fully valid records stays fully valid. |
| `MovieStore.Store.Patch` | app.js:77-102 | Validation comes first: an invalid body gives `Invalid` and leaves the store unchanged, whatever the id. An unknown id gives `NotFound` and leaves the store unchanged. Otherwise only the first match is replaced, by its merge with the data, and keeps its id. Every id lookup, id uniqueness and full validity are preserved. |
| `MovieStore.Store.Delete` | app.js:104-120 | An unknown id gives `NotFound` and leaves the store unchanged. Otherwise exactly the first match is removed and the rest keep their order. With unique ids they stay unique, and the id is no longer found. |

## Left out

- Express setup, routing, the `GET /` greeting, `res.json`/`res.status`/`res.header`/`res.send` and `app.listen`/`PORT`. This is HTTP I/O. `List` returns the sequence of movies, and every other handler returns an `Outcome`.
- Loading `movies.json`. The initial records are the constructor's argument.
- `crypto.randomUUID()`. It is random and foreign, so the new id is a parameter. Uniqueness is stated for the case where that id is fresh.
- URL syntax in `z.string().url()`. It is the parameter `isUrl` of the validators, because its parser is foreign code.
- The schema library's error messages and the `JSON.parse(result.error.message)` formatting. Issues keep only a path and a kind. `Required` and `NotInteger` are the library's `invalid_type` issues for a missing key and for a non-integer. `TooSmall`, `TooBig`, `InvalidEnumValue` and `InvalidUrl` are its `too_small`, `too_big`, `invalid_enum_value` and `invalid_string` issues.
- JavaScript numbers. They are exact reals here, so double rounding and `-0` are not modelled.
- Unicode case mapping in `toLowerCase`. Case folding covers ASCII only.
- The order of keys in JSON objects. Objects are maps.
- How the body parser treats a request that is not JSON. The body is any `Json.Value`, and a non-object fails validation at the root.
- A repeated `genre` query parameter. It arrives as an array, and `toLowerCase` throws on it. The query is modelled as an optional string.
- Which routes emit CORS headers: list, delete and the `OPTIONS` preflight with its `Access-Control-Allow-Methods` value. Only the origin decision is modelled.
- Concurrency: there is none, because one handler runs to completion before the next.
- MovieStore.Store.List: requires that every stored genre is an array of strings (`Valid`). The source's `some`/`toLowerCase` would throw on any other record. Every record that `Create` and `Patch` write satisfies this, and the constructor requires it of the loaded data.
