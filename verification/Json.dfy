/** JSON values as `serde_json` presents them, and the lookups the engine makes. */
module Json {
  import opened Prelude

  /** Numbers matter only as `as_u64` sees them. */
  datatype Value =
    | Null
    | Bool(b: bool)
    | UInt(n: nat)
    | OtherNumber(repr: string)
    | Str(s: string)
    | Arr(items: seq<Value>)
    | Obj(fields: map<string, Value>)
  {
    /** `v[key]`: a miss, or a value of another kind, reads as null. */
    function Get(key: string): Value {
      if Obj? && key in fields then fields[key] else Null
    }

    /** `v[i]` on an array. */
    function At(i: nat): Value {
      if Arr? && i < |items| then items[i] else Null
    }

    function AsStr(): Option<string> {
      if Str? then Some(s) else None
    }

    function StrOrEmpty(): string {
      if Str? then s else ""
    }

    /** `as_u64().unwrap_or(0)`; numbers outside u64 are carried as `OtherNumber`. */
    function IndexOrZero(): nat {
      if UInt? then n else 0
    }
  }

  /** `key.parse::<usize>()`: an optional plus sign, then at least one digit. */
  function ParseIndex(key: string): Option<nat> {
    var digits := if key != "" && key[0] == '+' then key[1..] else key;
    if digits != "" && AllDigits(digits) then Some(DigitsValue(digits)) else None
  }

  /** `resolve_path`: object keys by name, array elements by decimal index. */
  function ResolvePath(v: Value, path: seq<string>): Value
    decreases path
  {
    if path == [] then v
    else
      var next :=
        if v.Arr? then
          (match ParseIndex(path[0]) case Some(i) => v.At(i) case None => Null)
        else v.Get(path[0]);
      ResolvePath(next, path[1..])
  }
}
