/**
 * The JSON that the sign-in handler stores as a session record and that the
 * middleware decodes again, kept abstract: a document is either an object
 * from keys to values or text that does not parse.
 */
module Json {
  import opened Tokens

  /**
   * The kinds of JSON value the session record distinguishes: a string
   * (kept as the `Token` it spells, so that a signed token stays abstract
   * and any other text is `Plain(text)`), `null`, and any other value (a
   * number, a boolean, an array or an object).
   */
  datatype Value = JString(s: Token) | JNull | JOther

  datatype Document = Object(fields: map<string, Value>) | Malformed(raw: string)

  /** `json.Marshal` of a `map[string]interface{}`. */
  function Marshal(fields: map<string, Value>): Document {
    Object(fields)
  }

  /** The value `json.Unmarshal` meets for `key`: an absent key acts as `null`, both leave the field as it was. */
  function Field(fields: map<string, Value>, key: string): Value {
    if key in fields then fields[key] else JNull
  }
}
