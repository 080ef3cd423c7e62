/** The value types shared by the debate runner and the report builder
    (agents/model.go). Go strings are byte strings: every `char` in a
    `string` here stands for one byte, so `|s|` is Go's `len(s)`. */
module Model {

  datatype Option<T> = None | Some(value: T)

  /** A Go `(T, error)` pair: either a value or the error's message. */
  datatype Result<T> = Ok(value: T) | Err(msg: string)

  /** A persona: its display name, its role label and its behavioural prompt. */
  datatype Agent = Agent(name: string, role: string, persona: string)

  /** One generated contribution: its text and a short tone label. */
  datatype Argument = Argument(content: string, tone: string)

  /** A transcript entry. The wall-clock timestamp is abstracted to a number. */
  datatype Message = Message(sender: string, argument: Argument, time: nat)

  /** The zero value `Argument{}` that a failed generation hands back. */
  const EmptyArgument: Argument := Argument("", "")
}
