/** The movie schema and its two validators (`validateMovie`,
    `validatePartialMovie`). Validation walks the schema's keys in their
    declared order and collects every violation it finds, the way the
    schema library does; on success it returns the input object cut down
    to the schema's keys. */
module MovieSchema {
  import opened Json

  /** The tags the `genre` enum admits. */
  const Genres: seq<string> := ["Crime", "Action", "Comedy", "Drama", "Horror", "Sci-fi", "Thriller"]

  /** The schema's fields. */
  datatype Field = Title | Genre | Year | Director | Duration | Rate | Poster

  /** The schema's keys. */
  const SchemaKeys: set<string> := {"title", "genre", "year", "director", "duration", "rate", "poster"}

  /** The key under which a field is found in a body. */
  function Name(fld: Field): (k: string)
    ensures k in SchemaKeys
  {
    match fld
    case Title => "title"
    case Genre => "genre"
    case Year => "year"
    case Director => "director"
    case Duration => "duration"
    case Rate => "rate"
    case Poster => "poster"
  }

  /** Full: every key but `rate` is required. Partial: every key is optional. */
  datatype Mode = Full | Partial

  datatype PathSegment = Key(name: string) | Index(index: nat)

  /** The kinds of violation the schema reports. `Required` is a missing
      required key; `NotInteger` a number with a fractional part. */
  datatype Code = Required | InvalidType | NotInteger | TooSmall | TooBig | InvalidEnumValue | InvalidUrl

  /** One violation: where it is (empty path = the body itself) and what it is. */
  datatype Issue = Issue(path: seq<PathSegment>, code: Code)

  datatype Result<T> = Ok(value: T) | Err(issues: seq<Issue>)

  /** A JSON object, by its fields. */
  type Record = map<string, Value>

  predicate IsInteger(x: real) {
    x.Floor as real == x
  }

  // ---------------------------------------------------------------------
  // The field rules, stated directly (the reference definition)
  // ---------------------------------------------------------------------

  predicate TitleOk(v: Value) { v.Str? }

  predicate GenreOk(v: Value) {
    v.Arr? && forall i :: 0 <= i < |v.items| ==> v.items[i].Str? && v.items[i].s in Genres
  }

  predicate YearOk(v: Value) { v.Num? && IsInteger(v.n) && 1900.0 <= v.n <= 2025.0 }

  predicate DirectorOk(v: Value) { v.Str? }

  predicate DurationOk(v: Value) { v.Num? && IsInteger(v.n) && v.n > 0.0 }

  predicate RateOk(v: Value) { v.Num? && 0.0 <= v.n <= 10.0 }

  predicate PosterOk(v: Value, isUrl: string -> bool) { v.Str? && isUrl(v.s) }

  /** A record the full schema accepts: all keys but `rate` present, every
      present key obeying its rule. Keys outside the schema are ignored. */
  predicate ConformsFull(f: Record, isUrl: string -> bool) {
    && "title" in f && TitleOk(f["title"])
    && "genre" in f && GenreOk(f["genre"])
    && "year" in f && YearOk(f["year"])
    && "director" in f && DirectorOk(f["director"])
    && "duration" in f && DurationOk(f["duration"])
    && ("rate" in f ==> RateOk(f["rate"]))
    && "poster" in f && PosterOk(f["poster"], isUrl)
  }

  /** A record the partial schema accepts: every present key obeys its rule. */
  predicate ConformsPartial(f: Record, isUrl: string -> bool) {
    && ("title" in f ==> TitleOk(f["title"]))
    && ("genre" in f ==> GenreOk(f["genre"]))
    && ("year" in f ==> YearOk(f["year"]))
    && ("director" in f ==> DirectorOk(f["director"]))
    && ("duration" in f ==> DurationOk(f["duration"]))
    && ("rate" in f ==> RateOk(f["rate"]))
    && ("poster" in f ==> PosterOk(f["poster"], isUrl))
  }

  predicate Conforms(f: Record, mode: Mode, isUrl: string -> bool) {
    if mode == Full then ConformsFull(f, isUrl) else ConformsPartial(f, isUrl)
  }

  // ---------------------------------------------------------------------
  // The validator, as the schema library runs it
  // ---------------------------------------------------------------------

  /** The checks chained after `number()`: `int()`, `min(b)`, `max(b)`,
      `positive()` (an exclusive minimum of 0). */
  datatype NumberCheck = IsInt | Min(bound: real, inclusive: bool) | Max(bound: real, inclusive: bool)

  const YearChecks: seq<NumberCheck> := [IsInt, Min(1900.0, true), Max(2025.0, true)]
  const DurationChecks: seq<NumberCheck> := [IsInt, Min(0.0, false)]
  const RateChecks: seq<NumberCheck> := [Min(0.0, true), Max(10.0, true)]

  predicate Passes(c: NumberCheck, x: real) {
    match c
    case IsInt => IsInteger(x)
    case Min(b, incl) => if incl then x >= b else x > b
    case Max(b, incl) => if incl then x <= b else x < b
  }

  function CheckCode(c: NumberCheck): Code {
    match c
    case IsInt => NotInteger
    case Min(_, _) => TooSmall
    case Max(_, _) => TooBig
  }

  /** Every check is run; each failing one adds an issue, in chain order. */
  function CheckIssues(key: string, x: real, checks: seq<NumberCheck>): (r: seq<Issue>)
    ensures r == [] <==> forall i :: 0 <= i < |checks| ==> Passes(checks[i], x)
    ensures forall i :: 0 <= i < |r| ==> r[i].path == [Key(key)]
  {
    if checks == [] then []
    else
      (if Passes(checks[0], x) then [] else [Issue([Key(key)], CheckCode(checks[0]))])
      + CheckIssues(key, x, checks[1..])
  }

  function NumberIssues(key: string, v: Value, checks: seq<NumberCheck>): seq<Issue> {
    if v.Num? then CheckIssues(key, v.n, checks) else [Issue([Key(key)], InvalidType)]
  }

  function StringIssues(key: string, v: Value): seq<Issue> {
    if v.Str? then [] else [Issue([Key(key)], InvalidType)]
  }

  /** The enum check on element `i` of the genre array. */
  function GenreItemIssues(item: Value, i: nat): seq<Issue> {
    if !item.Str? then [Issue([Key("genre"), Index(i)], InvalidType)]
    else if item.s in Genres then []
    else [Issue([Key("genre"), Index(i)], InvalidEnumValue)]
  }

  /** The element checks on `items[from..]`, in index order. */
  function GenreItemsIssues(items: seq<Value>, from: nat): (r: seq<Issue>)
    requires from <= |items|
    ensures forall k :: 0 <= k < |r| ==> |r[k].path| > 0 && r[k].path[0] == Key("genre")
    decreases |items| - from
  {
    if from == |items| then []
    else GenreItemIssues(items[from], from) + GenreItemsIssues(items, from + 1)
  }

  function GenreIssues(v: Value): seq<Issue> {
    if v.Arr? then GenreItemsIssues(v.items, 0) else [Issue([Key("genre")], InvalidType)]
  }

  function PosterIssues(v: Value, isUrl: string -> bool): seq<Issue> {
    if !v.Str? then [Issue([Key("poster")], InvalidType)]
    else if isUrl(v.s) then []
    else [Issue([Key("poster")], InvalidUrl)]
  }

  /** The rule of `fld` applied to a present value. */
  function FieldIssues(fld: Field, v: Value, isUrl: string -> bool): seq<Issue> {
    match fld
    case Title => StringIssues("title", v)
    case Genre => GenreIssues(v)
    case Year => NumberIssues("year", v, YearChecks)
    case Director => StringIssues("director", v)
    case Duration => NumberIssues("duration", v, DurationChecks)
    case Rate => NumberIssues("rate", v, RateChecks)
    case Poster => PosterIssues(v, isUrl)
  }

  predicate IsOptional(fld: Field, mode: Mode) {
    mode == Partial || fld == Rate
  }

  /** Issues for one field: a missing key is an issue only if required. */
  function KeyIssues(f: Record, fld: Field, mode: Mode, isUrl: string -> bool): seq<Issue> {
    if Name(fld) in f then FieldIssues(fld, f[Name(fld)], isUrl)
    else if IsOptional(fld, mode) then []
    else [Issue([Key(Name(fld))], Required)]
  }

  /** Issues for the whole object: each field's, in the order the schema
      declares the fields. */
  function BodyIssues(f: Record, mode: Mode, isUrl: string -> bool): seq<Issue> {
    KeyIssues(f, Title, mode, isUrl) + KeyIssues(f, Genre, mode, isUrl)
    + KeyIssues(f, Year, mode, isUrl) + KeyIssues(f, Director, mode, isUrl)
    + KeyIssues(f, Duration, mode, isUrl) + KeyIssues(f, Rate, mode, isUrl)
    + KeyIssues(f, Poster, mode, isUrl)
  }

  /** Every issue a field reports lies under that field's key. */
  lemma KeyIssuesAtKey(f: Record, fld: Field, mode: Mode, isUrl: string -> bool)
    ensures forall k :: 0 <= k < |KeyIssues(f, fld, mode, isUrl)| ==>
      var x := KeyIssues(f, fld, mode, isUrl)[k]; |x.path| > 0 && x.path[0] == Key(Name(fld))
  {
  }

  /** The record cut down to the schema's keys (unknown keys are stripped). */
  function Strip(f: Record): (r: Record)
    ensures forall k :: k in r <==> k in f && k in SchemaKeys
    ensures forall k :: k in r ==> r[k] == f[k]
    ensures "id" !in r
  {
    map k | k in f && k in SchemaKeys :: f[k]
  }

  /** `movieSchema.safeParse(v)` (Full) and `movieSchema.partial().safeParse(v)`
      (Partial). A body that is not an object fails at the root. The data
      returned has exactly the schema keys the body has, with the body's values. */
  function Validate(v: Value, mode: Mode, isUrl: string -> bool): (r: Result<Record>)
    ensures !v.Obj? ==> r == Err([Issue([], InvalidType)])
    ensures r.Err? ==> |r.issues| > 0
    ensures r.Err? ==> forall k :: 0 <= k < |r.issues| ==>
      r.issues[k].path == [] || (r.issues[k].path[0].Key? && r.issues[k].path[0].name in SchemaKeys)
    ensures r.Ok? ==> v.Obj?
    ensures r.Ok? ==> forall k :: k in r.value ==> k in SchemaKeys && k in v.fields && r.value[k] == v.fields[k]
    ensures r.Ok? ==> forall k :: k in v.fields && k in SchemaKeys ==> k in r.value
  {
    if !v.Obj? then Err([Issue([], InvalidType)])
    else
      var issues := BodyIssues(v.fields, mode, isUrl);
      BodyIssuesAtSchemaKeys(v.fields, mode, isUrl);
      if issues == [] then Ok(Strip(v.fields)) else Err(issues)
  }

  /** `validateMovie`: the full schema. It accepts a body exactly when the
      body is an object that conforms to `ConformsFull`. */
  function ValidateMovie(v: Value, isUrl: string -> bool): (r: Result<Record>)
    ensures r.Ok? <==> v.Obj? && ConformsFull(v.fields, isUrl)
    ensures r.Ok? ==> r.value == Strip(v.fields)
  {
    ValidateAccepts(v, Full, isUrl);
    Validate(v, Full, isUrl)
  }

  /** `validatePartialMovie`: the schema with every key optional. It accepts
      a body exactly when the body is an object that conforms to
      `ConformsPartial`. */
  function ValidatePartialMovie(v: Value, isUrl: string -> bool): (r: Result<Record>)
    ensures r.Ok? <==> v.Obj? && ConformsPartial(v.fields, isUrl)
    ensures r.Ok? ==> r.value == Strip(v.fields)
  {
    ValidateAccepts(v, Partial, isUrl);
    Validate(v, Partial, isUrl)
  }

  // ---------------------------------------------------------------------
  // Each rule reports nothing exactly when the value obeys it
  // ---------------------------------------------------------------------

  lemma {:induction false} GenreItemsIssuesEmpty(items: seq<Value>, from: nat)
    requires from <= |items|
    ensures GenreItemsIssues(items, from) == [] <==>
      forall i :: from <= i < |items| ==> items[i].Str? && items[i].s in Genres
    decreases |items| - from
  {
    if from < |items| {
      GenreItemsIssuesEmpty(items, from + 1);
      var head, tail := GenreItemIssues(items[from], from), GenreItemsIssues(items, from + 1);
      assert GenreItemsIssues(items, from) == head + tail;
      assert head == [] <==> items[from].Str? && items[from].s in Genres;
    }
  }

  lemma GenreIssuesEmpty(v: Value)
    ensures GenreIssues(v) == [] <==> GenreOk(v)
  {
    if v.Arr? {
      GenreItemsIssuesEmpty(v.items, 0);
    }
  }

  /** `year` passes iff it is an integer in [1900, 2025]. */
  lemma YearRule(v: Value)
    ensures NumberIssues("year", v, YearChecks) == [] <==> YearOk(v)
  {
    if v.Num? {
      assert YearChecks[0] == IsInt && YearChecks[1] == Min(1900.0, true) && YearChecks[2] == Max(2025.0, true);
    }
  }

  /** `duration` passes iff it is an integer greater than 0. */
  lemma DurationRule(v: Value)
    ensures NumberIssues("duration", v, DurationChecks) == [] <==> DurationOk(v)
  {
    if v.Num? {
      assert DurationChecks[0] == IsInt && DurationChecks[1] == Min(0.0, false);
    }
  }

  /** `rate` passes iff it is a number in [0, 10]; it need not be an integer. */
  lemma RateRule(v: Value)
    ensures NumberIssues("rate", v, RateChecks) == [] <==> RateOk(v)
  {
    if v.Num? {
      assert RateChecks[0] == Min(0.0, true) && RateChecks[1] == Max(10.0, true);
    }
  }

  predicate FieldOk(fld: Field, v: Value, isUrl: string -> bool) {
    match fld
    case Title => TitleOk(v)
    case Genre => GenreOk(v)
    case Year => YearOk(v)
    case Director => DirectorOk(v)
    case Duration => DurationOk(v)
    case Rate => RateOk(v)
    case Poster => PosterOk(v, isUrl)
  }

  lemma FieldIssuesEmpty(fld: Field, v: Value, isUrl: string -> bool)
    ensures FieldIssues(fld, v, isUrl) == [] <==> FieldOk(fld, v, isUrl)
  {
    match fld
    case Genre => GenreIssuesEmpty(v);
    case Year => YearRule(v);
    case Duration => DurationRule(v);
    case Rate => RateRule(v);
    case _ =>
  }

  /** Every issue about a body's fields lies under one of the schema's keys. */
  lemma BodyIssuesAtSchemaKeys(f: Record, mode: Mode, isUrl: string -> bool)
    ensures forall k :: 0 <= k < |BodyIssues(f, mode, isUrl)| ==>
      var x := BodyIssues(f, mode, isUrl)[k]; |x.path| > 0 && x.path[0].Key? && x.path[0].name in SchemaKeys
  {
    KeyIssuesAtKey(f, Title, mode, isUrl);
    KeyIssuesAtKey(f, Genre, mode, isUrl);
    KeyIssuesAtKey(f, Year, mode, isUrl);
    KeyIssuesAtKey(f, Director, mode, isUrl);
    KeyIssuesAtKey(f, Duration, mode, isUrl);
    KeyIssuesAtKey(f, Rate, mode, isUrl);
    KeyIssuesAtKey(f, Poster, mode, isUrl);
  }

  lemma KeyIssuesEmpty(f: Record, fld: Field, mode: Mode, isUrl: string -> bool)
    ensures KeyIssues(f, fld, mode, isUrl) == [] <==>
      if Name(fld) in f then FieldOk(fld, f[Name(fld)], isUrl) else IsOptional(fld, mode)
  {
    if Name(fld) in f {
      FieldIssuesEmpty(fld, f[Name(fld)], isUrl);
    }
  }

  // ---------------------------------------------------------------------
  // What the validators accept
  // ---------------------------------------------------------------------

  /** A body is accepted exactly when it is an object that conforms to the
      schema in the given mode. */
  lemma ValidateAccepts(v: Value, mode: Mode, isUrl: string -> bool)
    ensures Validate(v, mode, isUrl).Ok? <==> v.Obj? && Conforms(v.fields, mode, isUrl)
  {
    if v.Obj? {
      BodyIssuesEmpty(v.fields, mode, isUrl);
      if mode == Full {
        CleanIffConformsFull(v.fields, isUrl);
      } else {
        CleanIffConformsPartial(v.fields, isUrl);
      }
    }
  }

  /** No field reports an issue. */
  predicate AllFieldsClean(f: Record, mode: Mode, isUrl: string -> bool) {
    && KeyIssues(f, Title, mode, isUrl) == []
    && KeyIssues(f, Genre, mode, isUrl) == []
    && KeyIssues(f, Year, mode, isUrl) == []
    && KeyIssues(f, Director, mode, isUrl) == []
    && KeyIssues(f, Duration, mode, isUrl) == []
    && KeyIssues(f, Rate, mode, isUrl) == []
    && KeyIssues(f, Poster, mode, isUrl) == []
  }

  lemma BodyIssuesEmpty(f: Record, mode: Mode, isUrl: string -> bool)
    ensures BodyIssues(f, mode, isUrl) == [] <==> AllFieldsClean(f, mode, isUrl)
  {
  }

  lemma CleanIffConformsFull(f: Record, isUrl: string -> bool)
    ensures AllFieldsClean(f, Full, isUrl) <==> ConformsFull(f, isUrl)
  {
    KeyIssuesEmpty(f, Title, Full, isUrl);
    KeyIssuesEmpty(f, Genre, Full, isUrl);
    KeyIssuesEmpty(f, Year, Full, isUrl);
    KeyIssuesEmpty(f, Director, Full, isUrl);
    KeyIssuesEmpty(f, Duration, Full, isUrl);
    KeyIssuesEmpty(f, Rate, Full, isUrl);
    KeyIssuesEmpty(f, Poster, Full, isUrl);
  }

  lemma CleanIffConformsPartial(f: Record, isUrl: string -> bool)
    ensures AllFieldsClean(f, Partial, isUrl) <==> ConformsPartial(f, isUrl)
  {
    KeyIssuesEmpty(f, Title, Partial, isUrl);
    KeyIssuesEmpty(f, Genre, Partial, isUrl);
    KeyIssuesEmpty(f, Year, Partial, isUrl);
    KeyIssuesEmpty(f, Director, Partial, isUrl);
    KeyIssuesEmpty(f, Duration, Partial, isUrl);
    KeyIssuesEmpty(f, Rate, Partial, isUrl);
    KeyIssuesEmpty(f, Poster, Partial, isUrl);
  }

  /** The data a validator returns conforms to the schema itself. */
  lemma ValidatedConforms(v: Value, mode: Mode, isUrl: string -> bool)
    requires Validate(v, mode, isUrl).Ok?
    ensures Conforms(Validate(v, mode, isUrl).value, mode, isUrl)
    ensures "id" !in Validate(v, mode, isUrl).value
  {
    ValidateAccepts(v, mode, isUrl);
  }

  /** Every fully valid body is partially valid, with the same data. */
  lemma FullImpliesPartial(v: Value, isUrl: string -> bool)
    requires ValidateMovie(v, isUrl).Ok?
    ensures ValidatePartialMovie(v, isUrl) == ValidateMovie(v, isUrl)
  {
    ValidateAccepts(v, Full, isUrl);
    ValidateAccepts(v, Partial, isUrl);
  }

  /** The empty object passes partial validation and yields no data. */
  lemma EmptyObjectPartialValid(isUrl: string -> bool)
    ensures ValidatePartialMovie(Obj(map[]), isUrl) == Ok(map[])
  {
    ValidateAccepts(Obj(map[]), Partial, isUrl);
  }

  /** The empty object fails full validation with one `Required` issue per
      required key, in schema order. */
  lemma EmptyObjectFullIssues(isUrl: string -> bool)
    ensures ValidateMovie(Obj(map[]), isUrl) == Err([
      Issue([Key("title")], Required), Issue([Key("genre")], Required),
      Issue([Key("year")], Required), Issue([Key("director")], Required),
      Issue([Key("duration")], Required), Issue([Key("poster")], Required)])
  {
  }

  /** A body missing a required key fails full validation, and the issues
      include a `Required` issue at that key. */
  lemma MissingRequiredReported(v: Value, fld: Field, isUrl: string -> bool)
    requires v.Obj? && fld != Rate && Name(fld) !in v.fields
    ensures ValidateMovie(v, isUrl).Err?
    ensures Issue([Key(Name(fld))], Required) in ValidateMovie(v, isUrl).issues
  {
    assert KeyIssues(v.fields, fld, Full, isUrl) == [Issue([Key(Name(fld))], Required)];
  }

  /** Absent `rate` is not an error and no default is filled in. */
  lemma RateAbsentStaysAbsent(v: Value, mode: Mode, isUrl: string -> bool)
    requires v.Obj? && "rate" !in v.fields
    ensures Validate(v, mode, isUrl).Ok? <==>
      Validate(Obj(v.fields["rate" := Num(5.0)]), mode, isUrl).Ok?
    ensures Validate(v, mode, isUrl).Ok? ==> "rate" !in Validate(v, mode, isUrl).value
  {
    ValidateAccepts(v, mode, isUrl);
    ValidateAccepts(Obj(v.fields["rate" := Num(5.0)]), mode, isUrl);
  }

  /** A `year` of 1899 is rejected with a `TooSmall` issue at `year`,
      whatever the rest of the body holds. */
  lemma Year1899Rejected(f: Record, mode: Mode, isUrl: string -> bool)
    ensures var r := Validate(Obj(f["year" := Num(1899.0)]), mode, isUrl);
      r.Err? && Issue([Key("year")], TooSmall) in r.issues
  {
    var g := f["year" := Num(1899.0)];
    assert KeyIssues(g, Year, mode, isUrl) == [Issue([Key("year")], TooSmall)];
  }
}
