/**
 * The JSON/YAML/CSV values the parsers receive (floating-point numbers are not modelled),
 * Python truthiness of such a value, and the alias-based field lookup the parsers share.
 */
module RawData {

  datatype Json =
    | JNull
    | JBool(b: bool)
    | JNum(n: int)
    | JStr(s: string)
    | JList(items: seq<Json>)
    | JDict(fields: map<string, Json>)

  /** Python's `bool(v)`. */
  predicate Truthy(v: Json) {
    match v
    case JNull => false
    case JBool(b) => b
    case JNum(n) => n != 0
    case JStr(s) => s != ""
    case JList(items) => |items| > 0
    case JDict(fields) => |fields| > 0
  }

  /**
   * `_normalize_field_name`: the value under the first alias, in list order, that is a key
   * of `raw`; `JNull` (Python's `None`) when none is. A key present with value null stops the search.
   */
  function Lookup(raw: map<string, Json>, aliases: seq<string>): Json {
    if |aliases| == 0 then JNull
    else if aliases[0] in raw then raw[aliases[0]]
    else Lookup(raw, aliases[1..])
  }

  /** The first alias that is present decides the result; no alias present gives `JNull`. */
  lemma {:induction false} LookupFirstPresent(raw: map<string, Json>, aliases: seq<string>, i: nat)
    requires i < |aliases| && aliases[i] in raw
    requires forall k :: 0 <= k < i ==> aliases[k] !in raw
    ensures Lookup(raw, aliases) == raw[aliases[i]]
  {
    if i > 0 {
      LookupFirstPresent(raw, aliases[1..], i - 1);
    }
  }

  lemma {:induction false} LookupNonePresent(raw: map<string, Json>, aliases: seq<string>)
    requires forall k :: 0 <= k < |aliases| ==> aliases[k] !in raw
    ensures Lookup(raw, aliases) == JNull
  {
    if |aliases| > 0 {
      LookupNonePresent(raw, aliases[1..]);
    }
  }

  /** `{k: v for k, v in raw.items() if k not in excluded}`. */
  function Without(raw: map<string, Json>, excluded: seq<string>): map<string, Json> {
    map k | k in raw && k !in excluded :: raw[k]
  }
}
