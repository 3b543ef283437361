/**
 * Already-decoded JSON values: the shape of what the assembler's decoder hands
 * to the translation pipeline. Decoding the document text is outside the model;
 * its outcome is represented by `Decoded`.
 */
module JsonValue {

  /**
   * A JSON value. An object is a dictionary from string keys to values, as the
   * decoder builds it: each key occurs once, and lookups are by key.
   */
  datatype Json =
    | JNull
    | JBool(b: bool)
    | JInt(i: int)
    | JString(s: string)
    | JArray(items: seq<Json>)
    | JObject(fields: map<string, Json>)

  /** The result of decoding the document text: a diagnostic, or the value. */
  datatype Decoded =
    | Malformed(diagnostic: string)
    | Document(value: Json)
}
