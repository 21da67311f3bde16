/**
 * Types shared across the admin panel: the `Id` type (a number or a
 * string), the JSON-shaped values records are made of, and the toast
 * notification state the pages keep.
 */
module Common {
  import Text

  datatype Option<T> = None | Some(value: T) {
    function GetOr(default: T): T
    {
      match this
      case Some(v) => v
      case None => default
    }
  }

  /** `type Id = number | string`; numbers are modelled as integers. */
  datatype Id = NumId(n: int) | StrId(s: string)

  /**
   * The property key an id addresses when it indexes a plain object:
   * a number is converted to its decimal text, a string is used as is.
   */
  function IdKey(id: Id): string
  {
    match id
    case NumId(n) => Text.IntToString(n)
    case StrId(s) => s
  }

  /** The number `3` and the string `"3"` address the same property. */
  lemma NumberAndStringIdsShareKey()
    ensures IdKey(NumId(3)) == IdKey(StrId("3"))
  {
  }

  /** Distinct numeric ids address distinct properties. */
  lemma NumericIdKeyInjective(a: int, b: int)
    requires IdKey(NumId(a)) == IdKey(NumId(b))
    ensures a == b
  {
    Text.IntToStringInjective(a, b);
  }

  /** A JSON value as `JSON.parse` can produce it (numbers as integers). */
  datatype Value =
    | Null
    | Bool(b: bool)
    | Num(n: int)
    | Str(s: string)
    | Arr(items: seq<Value>)
    | Obj(fields: map<string, Value>)

  /** A stored entity: a plain object from field names to values. */
  type Record = map<string, Value>

  function IdValue(id: Id): Value
  {
    match id
    case NumId(n) => Num(n)
    case StrId(s) => Str(s)
  }

  /** `T extends { id: Id }`: the record carries an `id` field that is a number or a string. */
  predicate HasId(r: Record)
  {
    "id" in r && (r["id"].Num? || r["id"].Str?)
  }

  function IdOf(r: Record): (id: Id)
    requires HasId(r)
    ensures IdValue(id) == r["id"]
  {
    if r["id"].Num? then NumId(r["id"].n) else StrId(r["id"].s)
  }

  datatype ToastType = Success | Error | Info | Warning

  /** The `{ open, type, message }` toast state a page holds. */
  datatype ToastState = ToastState(open: bool, kind: ToastType, message: string)

  const ClosedToast := ToastState(false, Success, "")
}
