/** Values shared by every part of the model: optional values, the outcome of
    an operation that may fail, document ids and HTTP replies. */
module Common {

  datatype Option<+T> = None | Some(value: T)

  /** The outcome of a call that may throw: `Err` carries the error's message. */
  datatype Result<+T> = Ok(value: T) | Err(message: string)

  /** Document ids that the database assigns (MongoDB ObjectIds). */
  type ObjectId = nat

  /** An HTTP reply: the status code and a JSON body of a controller-specific shape. */
  datatype Reply<+B> = Reply(status: nat, body: B)

  /** JavaScript truthiness of an optional string request field:
      a missing field and the empty string are both falsy. */
  predicate Truthy(field: Option<string>)
  {
    field.Some? && field.value != ""
  }
}
