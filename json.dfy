/** An already-decoded JSON document, and the few Python operations the runner applies to it:
  * subscripting by a string key or by index 0, the `in` test, and iteration. Each of them
  * fails exactly where Python raises (KeyError, IndexError or TypeError). */
module Json {
  import opened Wrappers

  /** A JSON value as `json.loads` returns it. Numbers are integers; objects are dictionaries. */
  datatype Json =
    | JNull
    | JBool(b: bool)
    | JNum(n: int)
    | JStr(s: string)
    | JArr(items: seq<Json>)
    | JObj(fields: map<string, Json>)

  /** The exception a subscript, an index or an iteration raises. */
  datatype JsonError =
    | KeyError(key: Json)    // a dictionary lacks the key
    | IndexError             // a list or string is too short
    | TypeError              // the value does not support the operation

  /** `v[key]` for a string key: only a dictionary can be subscripted by a string. */
  function Get(v: Json, key: string): Result<Json, JsonError> {
    match v
    case JObj(fields) => if key in fields then Success(fields[key]) else Failure(KeyError(JStr(key)))
    case _ => Failure(TypeError)
  }

  /** `v[0]`: the first element of a list, the first character of a string; a dictionary
    * with string keys never holds the integer key 0. */
  function First(v: Json): Result<Json, JsonError> {
    match v
    case JArr(items) => if |items| > 0 then Success(items[0]) else Failure(IndexError)
    case JStr(s) => if |s| > 0 then Success(JStr([s[0]])) else Failure(IndexError)
    case JObj(_) => Failure(KeyError(JNum(0)))
    case _ => Failure(TypeError)
  }

  /** The elements a Python `for` loop over `v` yields, for a loop that subscripts every
    * element by a string key. Iterating a non-empty dictionary or string yields strings
    * (its keys, its characters), whose first subscript raises TypeError; an empty one
    * yields nothing; a number, boolean or null is not iterable. */
  function Items(v: Json): Result<seq<Json>, JsonError> {
    match v
    case JArr(items) => Success(items)
    case JObj(fields) => if |fields| == 0 then Success([]) else Failure(TypeError)
    case JStr(s) => if |s| == 0 then Success([]) else Failure(TypeError)
    case _ => Failure(TypeError)
  }

  /** `sub` occurs in `s` starting at position `i`. */
  predicate OccursAt(sub: string, s: string, i: int) {
    0 <= i && i + |sub| <= |s| && s[i..i + |sub|] == sub
  }

  /** `sub` occurs as a contiguous part of `s`. */
  predicate IsSubstring(sub: string, s: string) {
    exists i | 0 <= i <= |s| :: OccursAt(sub, s, i)
  }

  /** Python's `key in v` for a string key: key membership in a dictionary, element
    * membership in a list, substring search in a string; anything else is not a container. */
  function Contains(v: Json, key: string): Result<bool, JsonError> {
    match v
    case JObj(fields) => Success(key in fields)
    case JArr(items) => Success(JStr(key) in items)
    case JStr(s) => Success(IsSubstring(key, s))
    case _ => Failure(TypeError)
  }
}
