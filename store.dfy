/** The in-memory movie collection and the handlers that read and change
    it: list (optionally filtered by genre), get by id, create, patch and
    delete. A handler's HTTP response is modelled as an `Outcome`. */
module MovieStore {
  import opened Json
  import opened MovieSchema

  /** A stored movie is a JSON object. */
  type Movie = map<string, Value>

  /** What a handler answers: `Found`/`Updated` (200 with the record),
      `Created` (201 with the record), `Deleted` (200 with a message),
      `NotFound` (404) and `Invalid` (400 with the validation issues). */
  datatype Outcome =
    | Found(movie: Movie)
    | Created(movie: Movie)
    | Updated(movie: Movie)
    | Deleted
    | NotFound
    | Invalid(issues: seq<Issue>)

  // ---------------------------------------------------------------------
  // Genre filter
  // ---------------------------------------------------------------------

  /** ASCII case folding of one character. */
  function LowerChar(c: char): char {
    if 'A' <= c <= 'Z' then (c as int + 32) as char else c
  }

  /** Lower-casing, character by character. */
  function Lower(s: string): (r: string)
    ensures |r| == |s|
    ensures forall i :: 0 <= i < |s| ==> r[i] == LowerChar(s[i])
  {
    if s == [] then [] else [LowerChar(s[0])] + Lower(s[1..])
  }

  /** `tags.some(g => g.toLowerCase() === lq)`. */
  predicate AnyTagMatches(tags: seq<Value>, lq: string) {
    if tags == [] then false
    else (tags[0].Str? && Lower(tags[0].s) == lq) || AnyTagMatches(tags[1..], lq)
  }

  /** `some` holds iff some tag lower-cases to the query. */
  lemma {:induction false} AnyTagMatchesIff(tags: seq<Value>, lq: string)
    ensures AnyTagMatches(tags, lq) <==>
      exists i :: 0 <= i < |tags| && tags[i].Str? && Lower(tags[i].s) == lq
  {
    if tags != [] {
      AnyTagMatchesIff(tags[1..], lq);
      assert forall i :: 1 <= i < |tags| ==> tags[i] == tags[1..][i - 1];
      if !(tags[0].Str? && Lower(tags[0].s) == lq) && AnyTagMatches(tags[1..], lq) {
        var j :| 0 <= j < |tags[1..]| && tags[1..][j].Str? && Lower(tags[1..][j].s) == lq;
        assert tags[j + 1] == tags[1..][j];
      }
    }
  }

  /** Some genre tag of the movie equals `q` ignoring case. */
  predicate HasGenre(m: Movie, q: string) {
    "genre" in m && m["genre"].Arr? && AnyTagMatches(m["genre"].items, Lower(q))
  }

  /** A record the filter can read: its `genre` is an array of strings. */
  predicate WellFormed(m: Movie) {
    && "genre" in m && m["genre"].Arr?
    && forall i :: 0 <= i < |m["genre"].items| ==> m["genre"].items[i].Str?
  }

  /** The stored movies with a matching genre, in store order. */
  function FilterByGenre(s: seq<Movie>, q: string): (r: seq<Movie>)
    ensures |r| <= |s|
  {
    if s == [] then []
    else
      var rest := FilterByGenre(s[..|s| - 1], q);
      if HasGenre(s[|s| - 1], q) then rest + [s[|s| - 1]] else rest
  }

  /** The positions of the matching movies, in increasing order. */
  ghost function MatchingIndices(s: seq<Movie>, q: string): (idx: seq<int>)
    ensures forall k :: 0 <= k < |idx| ==> 0 <= idx[k] < |s|
  {
    if s == [] then []
    else
      var rest := MatchingIndices(s[..|s| - 1], q);
      if HasGenre(s[|s| - 1], q) then rest + [|s| - 1] else rest
  }

  /** The matching positions are increasing, and a position is among them
      exactly when the movie there matches. */
  lemma {:induction false} MatchingIndicesSpec(s: seq<Movie>, q: string)
    ensures forall k, l :: 0 <= k < l < |MatchingIndices(s, q)| ==>
      MatchingIndices(s, q)[k] < MatchingIndices(s, q)[l]
    ensures forall i :: 0 <= i < |s| ==> (i in MatchingIndices(s, q) <==> HasGenre(s[i], q))
  {
    if s != [] {
      var n := |s| - 1;
      MatchingIndicesSpec(s[..n], q);
      assert forall i :: 0 <= i < n ==> s[..n][i] == s[i];
    }
  }

  /** The filter's k-th result is the movie at the k-th matching
      position: it keeps exactly the matching movies, in store order. */
  lemma {:induction false} FilterSelectsInOrder(s: seq<Movie>, q: string)
    ensures |MatchingIndices(s, q)| == |FilterByGenre(s, q)|
    ensures forall k :: 0 <= k < |MatchingIndices(s, q)| ==>
      FilterByGenre(s, q)[k] == s[MatchingIndices(s, q)[k]]
    ensures forall k :: 0 <= k < |FilterByGenre(s, q)| ==> HasGenre(FilterByGenre(s, q)[k], q)
  {
    if s != [] {
      var n := |s| - 1;
      var init := s[..n];
      FilterSelectsInOrder(init, q);
      var idx, r := MatchingIndices(init, q), FilterByGenre(init, q);
      var idx', r' := MatchingIndices(s, q), FilterByGenre(s, q);
      assert forall k :: 0 <= k < |idx| ==> init[idx[k]] == s[idx[k]];
      if HasGenre(s[n], q) {
        assert |idx'| == |idx| + 1 && |r'| == |r| + 1;
        assert forall k :: 0 <= k < |idx| ==> idx'[k] == idx[k] && r'[k] == r[k];
        assert idx'[|idx|] == n && r'[|r|] == s[n];
      } else {
        assert idx' == idx && r' == r;
      }
    }
  }

  /** When every movie matches, the filter returns the whole list. */
  lemma {:induction false} FilterAllMatch(s: seq<Movie>, q: string)
    requires forall i :: 0 <= i < |s| ==> HasGenre(s[i], q)
    ensures FilterByGenre(s, q) == s
  {
    if s != [] {
      FilterAllMatch(s[..|s| - 1], q);
    }
  }

  /** Lower-casing an already lower-cased string changes nothing. */
  lemma {:induction false} LowerIdempotent(s: string)
    ensures Lower(Lower(s)) == Lower(s)
  {
    if s != [] {
      LowerIdempotent(s[1..]);
    }
  }

  /** A query matches the same movies whatever its letter case. */
  lemma QueryCaseIrrelevant(s: seq<Movie>, q: string)
    ensures FilterByGenre(s, Lower(q)) == FilterByGenre(s, q)
  {
    LowerIdempotent(q);
    assert forall m :: HasGenre(m, Lower(q)) <==> HasGenre(m, q);
    FilterSameQuery(s, Lower(q), q);
  }

  lemma {:induction false} FilterSameQuery(s: seq<Movie>, q1: string, q2: string)
    requires forall m :: HasGenre(m, q1) <==> HasGenre(m, q2)
    ensures FilterByGenre(s, q1) == FilterByGenre(s, q2)
  {
    if s != [] {
      FilterSameQuery(s[..|s| - 1], q1, q2);
    }
  }

  // ---------------------------------------------------------------------
  // Lookup by id
  // ---------------------------------------------------------------------

  /** `movie.id === id`: the record has an `id` that is exactly this string. */
  predicate HasId(m: Movie, id: string) {
    "id" in m && m["id"] == Str(id)
  }

  /** `movies.findIndex(...)`: the first position with the id, or -1. */
  function FindIndex(s: seq<Movie>, id: string): (r: int)
    ensures -1 <= r < |s|
    ensures r == -1 <==> forall i :: 0 <= i < |s| ==> !HasId(s[i], id)
    ensures r >= 0 ==> HasId(s[r], id) && forall i :: 0 <= i < r ==> !HasId(s[i], id)
  {
    if s == [] then -1
    else if HasId(s[0], id) then 0
    else
      var r := FindIndex(s[1..], id);
      if r == -1 then -1 else r + 1
  }

  /** `movies.find(...)`: the first movie with the id, if any. */
  function Find(s: seq<Movie>, id: string): (r: Option<Movie>)
    ensures r.None? <==> FindIndex(s, id) == -1
    ensures r.Some? ==> HasId(r.value, id) && r.value in s
  {
    if s == [] then None
    else if HasId(s[0], id) then Some(s[0])
    else Find(s[1..], id)
  }

  /** `find` returns the element at the position `findIndex` reports. */
  lemma {:induction false} FindAtFindIndex(s: seq<Movie>, id: string)
    ensures Find(s, id) == if FindIndex(s, id) == -1 then None else Some(s[FindIndex(s, id)])
  {
    if s != [] && !HasId(s[0], id) {
      FindAtFindIndex(s[1..], id);
    }
  }

  predicate SameId(a: Movie, b: Movie) {
    "id" in a && "id" in b && a["id"] == b["id"]
  }

  /** No two stored movies carry the same `id`. */
  predicate UniqueIds(s: seq<Movie>) {
    forall i, j :: 0 <= i < |s| && 0 <= j < |s| && i != j ==> !SameId(s[i], s[j])
  }

  // ---------------------------------------------------------------------
  // Create: `{ id, ...data }` and `push`
  // ---------------------------------------------------------------------

  /** `{ id: newId, ...data }`. */
  function NewMovie(newId: string, data: Record): (r: Movie)
    ensures r.Keys == data.Keys + {"id"}
    ensures forall k :: k in data ==> r[k] == data[k]
    ensures "id" !in data ==> HasId(r, newId)
  {
    map["id" := Str(newId)] + data
  }

  /** Appending a movie whose id no stored movie has keeps ids unique. */
  lemma AppendFreshKeepsUnique(s: seq<Movie>, m: Movie, newId: string)
    requires UniqueIds(s) && FindIndex(s, newId) == -1 && HasId(m, newId)
    ensures UniqueIds(s + [m])
  {
    var t := s + [m];
    forall i, j | 0 <= i < |t| && 0 <= j < |t| && i != j
      ensures !SameId(t[i], t[j])
    {
      if i == |s| {
        assert !HasId(s[j], newId);
      } else if j == |s| {
        assert !HasId(s[i], newId);
      } else {
        assert !SameId(s[i], s[j]);
      }
    }
  }

  /** After a create with a fresh id, a lookup of that id finds the new
      movie, and lookups of ids that were already found are unaffected. */
  lemma AppendThenFind(s: seq<Movie>, m: Movie, newId: string, other: string)
    requires FindIndex(s, newId) == -1 && HasId(m, newId)
    ensures FindIndex(s + [m], newId) == |s|
    ensures FindIndex(s, other) >= 0 ==> FindIndex(s + [m], other) == FindIndex(s, other)
  {
    var t := s + [m];
    assert forall i :: 0 <= i < |s| ==> t[i] == s[i];
    assert t[|s|] == m;
  }

  // ---------------------------------------------------------------------
  // Patch: `{ ...movies[i], ...data }` and `movies[i] = ...`
  // ---------------------------------------------------------------------

  /** Object spread `{ ...m, ...d }`: keys of `d` overwrite, the others stay. */
  function Merge(m: Movie, d: Record): (r: Movie)
    ensures r.Keys == m.Keys + d.Keys
    ensures forall k :: k in d ==> r[k] == d[k]
    ensures forall k :: k in m && k !in d ==> r[k] == m[k]
  {
    m + d
  }

  /** Merging validated data onto a record that conforms to the full schema
      gives a record that still conforms. */
  lemma MergeConforms(m: Movie, d: Record, isUrl: string -> bool)
    requires ConformsFull(m, isUrl) && ConformsPartial(d, isUrl)
    ensures ConformsFull(Merge(m, d), isUrl)
  {
  }

  /** Replacing one record by its merge with data that has no `id` key
      leaves every lookup by id as it was, and ids unique if they were. */
  lemma PatchKeepsIds(s: seq<Movie>, i: nat, d: Record, x: string)
    requires i < |s| && "id" !in d
    ensures FindIndex(s[i := Merge(s[i], d)], x) == FindIndex(s, x)
    ensures UniqueIds(s) ==> UniqueIds(s[i := Merge(s[i], d)])
  {
    var t := s[i := Merge(s[i], d)];
    assert forall j :: 0 <= j < |s| ==> (HasId(t[j], x) <==> HasId(s[j], x));
    assert forall j, k :: 0 <= j < |s| && 0 <= k < |s| ==> (SameId(t[j], t[k]) <==> SameId(s[j], s[k]));
  }

  // ---------------------------------------------------------------------
  // Delete: `movies.splice(i, 1)`
  // ---------------------------------------------------------------------

  /** The sequence without its element at `i`; the rest keep their order. */
  function RemoveAt(s: seq<Movie>, i: nat): (r: seq<Movie>)
    requires i < |s|
    ensures |r| == |s| - 1
    ensures forall k :: 0 <= k < i ==> r[k] == s[k]
    ensures forall k :: i <= k < |r| ==> r[k] == s[k + 1]
  {
    s[..i] + s[i + 1..]
  }

  /** Removing the first movie with `id` moves the first match of any
      other id down by one if it lay after the removed one, and leaves it
      in place otherwise. */
  lemma RemoveFirstThenFind(s: seq<Movie>, id: string, other: string)
    requires FindIndex(s, id) >= 0 && other != id
    ensures var i, j := FindIndex(s, id), FindIndex(s, other);
      FindIndex(RemoveAt(s, i), other) == if j == -1 then -1 else if j < i then j else j - 1
  {
    var i, j := FindIndex(s, id), FindIndex(s, other);
    var t := RemoveAt(s, i);
    assert !HasId(s[i], other);
    if j == -1 {
      assert forall k :: 0 <= k < |t| ==> !HasId(t[k], other);
    } else if j < i {
      assert HasId(t[j], other);
    } else {
      assert HasId(t[j - 1], other);
      assert forall k :: 0 <= k < j - 1 ==> !HasId(t[k], other);
    }
  }

  /** With unique ids, once the movie with `id` is deleted no movie has it. */
  lemma DeleteThenNotFound(s: seq<Movie>, id: string)
    requires UniqueIds(s) && FindIndex(s, id) >= 0
    ensures FindIndex(RemoveAt(s, FindIndex(s, id)), id) == -1
    ensures Find(RemoveAt(s, FindIndex(s, id)), id) == None
  {
    var i := FindIndex(s, id);
    var t := RemoveAt(s, i);
    forall k | 0 <= k < |t|
      ensures !HasId(t[k], id)
    {
      var k' := if k < i then k else k + 1;
      assert t[k] == s[k'] && k' != i;
      assert !SameId(s[i], s[k']);
    }
    FindAtFindIndex(t, id);
  }

  /** Removing an element keeps ids unique. */
  lemma RemoveKeepsUnique(s: seq<Movie>, i: nat)
    requires i < |s| && UniqueIds(s)
    ensures UniqueIds(RemoveAt(s, i))
  {
    var t := RemoveAt(s, i);
    forall j, k | 0 <= j < |t| && 0 <= k < |t| && j != k
      ensures !SameId(t[j], t[k])
    {
      var j', k' := if j < i then j else j + 1, if k < i then k else k + 1;
      assert t[j] == s[j'] && t[k] == s[k'] && j' != k';
    }
  }

  /** Every stored movie conforms to the full schema. */
  predicate AllConform(s: seq<Movie>, isUrl: string -> bool) {
    forall i :: 0 <= i < |s| ==> ConformsFull(s[i], isUrl)
  }

  predicate AllWellFormed(s: seq<Movie>) {
    forall i :: 0 <= i < |s| ==> WellFormed(s[i])
  }

  /** Validated genre data is always readable by the filter. */
  lemma ConformingIsWellFormed(m: Movie)
    requires "genre" in m && GenreOk(m["genre"])
    ensures WellFormed(m)
  {
  }

  // ---------------------------------------------------------------------
  // The store and its handlers
  // ---------------------------------------------------------------------

  /** The module-level `movies` array. */
  class Store {
    var movies: seq<Movie>

    /** Every record has a genre array of strings, so filtering never fails. */
    ghost predicate Valid()
      reads this
    {
      AllWellFormed(movies)
    }

    /** The store as loaded at startup. */
    constructor (initial: seq<Movie>)
      requires AllWellFormed(initial)
      ensures Valid() && movies == initial
    {
      movies := initial;
    }

    /** GET /movies[?genre=G]. An absent or empty `genre` (both falsy)
        lists everything. */
    method List(genre: Option<string>) returns (r: seq<Movie>)
      requires Valid()
      ensures genre.Some? && genre.value != "" ==> r == FilterByGenre(movies, genre.value)
      ensures genre.None? || genre.value == "" ==> r == movies
    {
      if genre.Some? && genre.value != "" {
        r := FilterByGenre(movies, genre.value);
      } else {
        r := movies;
      }
    }

    /** GET /movies/:id. */
    method Get(id: string) returns (r: Outcome)
      ensures FindIndex(movies, id) == -1 ==> r == NotFound
      ensures FindIndex(movies, id) >= 0 ==> r == Found(movies[FindIndex(movies, id)])
    {
      var m := Find(movies, id);
      FindAtFindIndex(movies, id);
      if m.Some? {
        r := Found(m.value);
      } else {
        r := NotFound;
      }
    }

    /** POST /movies, with `newId` the freshly generated id. */
    method Create(body: Value, newId: string, isUrl: string -> bool) returns (r: Outcome)
      requires Valid()
      modifies this
      ensures Valid()
      ensures ValidateMovie(body, isUrl).Err? ==>
        r == Invalid(ValidateMovie(body, isUrl).issues) && movies == old(movies)
      ensures ValidateMovie(body, isUrl).Ok? ==>
        && r == Created(NewMovie(newId, ValidateMovie(body, isUrl).value))
        && HasId(r.movie, newId)
        && movies == old(movies) + [r.movie]
      ensures UniqueIds(old(movies)) && FindIndex(old(movies), newId) == -1 ==> UniqueIds(movies)
      ensures AllConform(old(movies), isUrl) ==> AllConform(movies, isUrl)
    {
      var result := ValidateMovie(body, isUrl);
      if result.Err? {
        return Invalid(result.issues);
      }
      ValidatedConforms(body, Full, isUrl);
      var newMovie := NewMovie(newId, result.value);
      ConformingIsWellFormed(newMovie);
      if UniqueIds(movies) && FindIndex(movies, newId) == -1 {
        AppendFreshKeepsUnique(movies, newMovie, newId);
      }
      movies := movies + [newMovie];
      r := Created(newMovie);
    }

    /** PATCH /movies/:id. The body is validated before the id is looked up. */
    method Patch(id: string, body: Value, isUrl: string -> bool) returns (r: Outcome)
      requires Valid()
      modifies this
      ensures Valid()
      ensures ValidatePartialMovie(body, isUrl).Err? ==>
        r == Invalid(ValidatePartialMovie(body, isUrl).issues) && movies == old(movies)
      ensures ValidatePartialMovie(body, isUrl).Ok? && FindIndex(old(movies), id) == -1 ==>
        r == NotFound && movies == old(movies)
      ensures ValidatePartialMovie(body, isUrl).Ok? && FindIndex(old(movies), id) >= 0 ==>
        var i := FindIndex(old(movies), id);
        var updated := Merge(old(movies)[i], ValidatePartialMovie(body, isUrl).value);
        && r == Updated(updated)
        && movies == old(movies)[i := updated]
        && HasId(updated, id)
      ensures forall x :: FindIndex(movies, x) == FindIndex(old(movies), x)
      ensures UniqueIds(old(movies)) ==> UniqueIds(movies)
      ensures AllConform(old(movies), isUrl) ==> AllConform(movies, isUrl)
    {
      var result := ValidatePartialMovie(body, isUrl);
      if result.Err? {
        return Invalid(result.issues);
      }
      var i := FindIndex(movies, id);
      if i == -1 {
        return NotFound;
      }
      ValidatedConforms(body, Partial, isUrl);
      var updated := Merge(movies[i], result.value);
      forall x {
        PatchKeepsIds(movies, i, result.value, x);
      }
      if AllConform(movies, isUrl) {
        MergeConforms(movies[i], result.value, isUrl);
      }
      assert WellFormed(updated);
      movies := movies[i := updated];
      r := Updated(updated);
    }

    /** DELETE /movies/:id. */
    method Delete(id: string) returns (r: Outcome)
      requires Valid()
      modifies this
      ensures Valid()
      ensures FindIndex(old(movies), id) == -1 ==> r == NotFound && movies == old(movies)
      ensures FindIndex(old(movies), id) >= 0 ==>
        r == Deleted && movies == RemoveAt(old(movies), FindIndex(old(movies), id))
      ensures UniqueIds(old(movies)) ==> UniqueIds(movies) && FindIndex(movies, id) == -1
    {
      var i := FindIndex(movies, id);
      if i == -1 {
        return NotFound;
      }
      if UniqueIds(movies) {
        DeleteThenNotFound(movies, id);
        RemoveKeepsUnique(movies, i);
      }
      movies := RemoveAt(movies, i);
      r := Deleted;
    }
  }
}
