/** Shared value types of the quiz application: the question record and the
    screen-level state of the app, plus the small Option/Result wrappers used
    for the source's null values and thrown errors. */
module Types {

  /** An 8-bit unsigned value, one element of a `Uint8Array`. */
  type byte = x: int | 0 <= x < 256

  /** A value that may be absent (`null` or `undefined` in the source). */
  datatype Option<+T> = None | Some(value: T)

  /** The outcome of an operation that may throw: `Err` carries the error. */
  datatype Result<+T, +E> = Ok(value: T) | Err(error: E)

  /** One generated quiz question. Nothing guarantees four options or a
      correct index in range: the generator's output is taken as is. */
  datatype Question = Question(
    id: int,
    text: string,
    options: seq<string>,
    correctIndex: int,
    explanation: string)

  /** The screens the app moves between. */
  datatype AppState = WELCOME | CAMERA | CONFIG | GENERATING | QUIZ | RESULT | ERROR

  /** JavaScript truthiness of a `string | null`: absent and empty are both false. */
  predicate Truthy(s: Option<string>)
    ensures Truthy(s) <==> s != None && s != Some("")
  {
    s.Some? && s.value != ""
  }
}
