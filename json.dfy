/** Values as the HTTP layer hands them to the handlers: a parsed JSON
    document (a request body), plus the optional values that stand for a
    header or a query parameter that may be missing. */
module Json {

  /** A value that may be absent (`undefined` in the service). */
  datatype Option<T> = None | Some(value: T)

  /** A parsed JSON value. Numbers are exact reals; objects are maps from
      key to value (the order of keys is not part of the model). */
  datatype Value =
    | Null
    | Bool(b: bool)
    | Num(n: real)
    | Str(s: string)
    | Arr(items: seq<Value>)
    | Obj(fields: map<string, Value>)
}
