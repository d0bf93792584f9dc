/**
 * JSON objects as the scripts read them: a key is absent, present with `null`,
 * or present with a value. `dict.get` and Python truthiness are spelled out.
 */
module Json {
  import opened Wrappers

  datatype Field<T> = Absent | Null | Present(value: T)

  /** `d.get(key)` */
  function Get<T>(f: Field<T>): (r: Option<T>)
    ensures r.Some? <==> f.Present?
  {
    match f
    case Present(v) => Some(v)
    case _ => None
  }

  /** `d.get(key, default)`: the default only when the key is absent; `null` reads as None. */
  function GetOr<T>(f: Field<T>, default: T): (r: Option<T>)
    ensures f.Absent? ==> r == Some(default)
    ensures f.Null? ==> r == None
    ensures f.Present? ==> r == Some(f.value)
  {
    match f
    case Absent => Some(default)
    case Null => None
    case Present(v) => Some(v)
  }

  /** `bool(s)` for a string that may be None. */
  predicate Truthy(s: Option<string>) {
    s.Some? && s.value != ""
  }

  /** `a or b` for two strings that may be None. */
  function Or(a: Option<string>, b: Option<string>): (r: Option<string>)
    ensures Truthy(r) <==> Truthy(a) || Truthy(b)
    ensures Truthy(a) ==> r == a
  {
    if Truthy(a) then a else b
  }

  /** `s or ''` */
  function OrEmpty(s: Option<string>): (r: string)
    ensures r != "" <==> Truthy(s)
  {
    if Truthy(s) then s.value else ""
  }
}
