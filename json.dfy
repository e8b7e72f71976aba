/**
 * The JSON-like values the engine handles: queries, records and patches are
 * Python dicts whose values are scalars, lists or further dicts.
 */
module JsonValues {

  datatype Json =
    | JNull
    | JBool(b: bool)
    | JInt(i: int)
    | JStr(s: string)
    | JList(items: seq<Json>)
    | JObj(fields: map<string, Json>)

  /** A dict: the type of records, patches and query levels. */
  type Object = map<string, Json>
}
