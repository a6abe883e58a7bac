/**
 * Document values as `json.loads` and `yaml.safe_load` produce them and as
 * `dataclasses.asdict` builds them: null, booleans, integers, floats,
 * strings, lists and string-keyed dictionaries.
 */
module Json {

  datatype Value =
    | JNull
    | JBool(b: bool)
    | JInt(i: int)
    | JFloat(f: real)
    | JString(s: string)
    | JArray(items: seq<Value>)
    | JObject(fields: map<string, Value>)
}
