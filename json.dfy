/** Parsed JSON values, as far as the server looks at them: strings, objects
    (looked up with `dict.get`) and everything else (numbers, booleans,
    `null`, arrays), of which the server uses Python's truthiness and the
    text `str()` prints for it. */
module JsonValue {
  import opened Wrappers

  datatype Json =
    | JString(s: string)
    | JObject(fields: map<string, Json>)
    | JOther(truthy: bool, text: string)  // `text` is what Python's `str()` prints

  /** Python's `bool(v)` of the decoded value: an empty string or an empty
      object is false; other values carry their own truthiness (`0`, `false`,
      `null` and `[]` are false). */
  predicate Truthy(j: Json) {
    match j
    case JString(s) => s != []
    case JObject(m) => m != map[]
    case JOther(t, _) => t
  }

  /** The empty object `{}`, which the server uses for a missing profile. */
  const Empty: Json := JObject(map[])

  /** `d.get(key, default)` on a decoded object. */
  function GetOr(fields: map<string, Json>, key: string, default: Json): (r: Json)
    ensures key in fields ==> r == fields[key]
    ensures key !in fields ==> r == default
  {
    if key in fields then fields[key] else default
  }

  /** `d.get(k0) or d.get(k1) or ...`: the first value among `keys` that is
      present and truthy, if any. */
  function FirstTruthy(fields: map<string, Json>, keys: seq<string>): (r: Option<Json>)
    ensures r.Some? ==>
              Truthy(r.value) && exists i :: 0 <= i < |keys| && keys[i] in fields && fields[keys[i]] == r.value
    ensures r.None? ==> forall i :: 0 <= i < |keys| ==> !(keys[i] in fields && Truthy(fields[keys[i]]))
  {
    if keys == [] then None
    else if keys[0] in fields && Truthy(fields[keys[0]]) then Some(fields[keys[0]])
    else
      var r := FirstTruthy(fields, keys[1..]);
      assert r.Some? ==> exists i :: 0 <= i < |keys[1..]| && keys[1..][i] in fields && fields[keys[1..][i]] == r.value;
      r
  }

  /** The value `FirstTruthy` picks is the one under the earliest truthy key. */
  lemma {:induction false} FirstTruthyIsEarliest(fields: map<string, Json>, keys: seq<string>, i: nat)
    requires i < |keys| && keys[i] in fields && Truthy(fields[keys[i]])
    requires forall j :: 0 <= j < i ==> !(keys[j] in fields && Truthy(fields[keys[j]]))
    ensures FirstTruthy(fields, keys) == Some(fields[keys[i]])
  {
    if i > 0 {
      FirstTruthyIsEarliest(fields, keys[1..], i - 1);
    }
  }
}
