/**
 * The slice of JavaScript's value model that the dependency core touches:
 * plain data values reached by property lookup, the errors the core throws,
 * and the Option/Result wrappers used to model a throw as a returned value.
 */
module JsValue {

  datatype Option<+T> = None | Some(value: T)

  /** A computation that either returns a value or throws `error`. */
  datatype Result<+T> = Ok(value: T) | Err(error: Error)

  /** A check that either passes or throws `error`. */
  datatype Outcome = Pass | Fail(error: Error)

  /**
   * Every error the core raises is a JavaScript `TypeError`; the constructor
   * records which one and what its message names.
   */
  datatype Error =
    | PathNotFound(selector: string, segment: string)   // resolver: a segment looked up to undefined
    | InvalidKey                                        // listenFor: the key is not a string
    | InvalidDependency(key: string, typeName: string)  // a dependency value is neither string nor function
    | NotASymbol                                        // Symbol.keyFor applied to a non-symbol action type
    | NullishState                                      // reading `entities` of an undefined or null state
    | NullishRead(property: string)                     // reading another property of undefined or null

  /**
   * A JavaScript data value. `Undefined` stands both for the value `undefined`
   * and for a property that is not there, exactly as a JavaScript lookup
   * cannot tell the two apart. Numbers are modelled as integers.
   */
  datatype Value =
    | Undefined
    | Null
    | Bool(b: bool)
    | Num(n: int)
    | Str(s: string)
    | Symbol(registered: bool, description: string)
    | Obj(fields: map<string, Value>)

  /** `v[key]`: the property `key` of an object, `undefined` for anything else. */
  function Get(v: Value, key: string): (r: Value)
    ensures v.Obj? && key in v.fields ==> r == v.fields[key]
    ensures !(v.Obj? && key in v.fields) ==> r == Undefined
  {
    if v.Obj? && key in v.fields then v.fields[key] else Undefined
  }

  /** The string-keyed own properties that `{...v}` copies out of `v`. */
  function Own(v: Value): (m: map<string, Value>)
    ensures v.Obj? ==> m == v.fields
    ensures !v.Obj? ==> m == map[]
  {
    if v.Obj? then v.fields else map[]
  }
}
