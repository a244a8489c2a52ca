/** The JavaScript values the pages' `catch` blocks receive, and the shape of
    one awaited request to the hosted backend. */
module Js {

  datatype Option<T> = None | Some(value: T)

  /** The `message` property of a thrown value: a string, or absent
      (`undefined`, as on a thrown string). */
  datatype Message = Absent | Text(text: string)

  /** A thrown value: a bare string, or an error object with a `message`. */
  datatype Thrown = ThrownString(s: string) | ThrownError(message: Message)

  /** The outcome of one awaited request: it returned its data, it returned
      `{ error }` (the client reports a failure without throwing), or the
      awaited promise rejected with a thrown value. */
  datatype Reply<T> = Ok(value: T) | Failed(error: Message) | Rejected(thrown: Thrown)
  {
    /** The same outcome, carrying `v` when the request went through. */
    function Carrying<U>(v: U): (r: Reply<U>)
      ensures r.Ok? <==> Ok?
      ensures r.Ok? ==> r.value == v
      ensures Failed? ==> r == Failed(error)
      ensures Rejected? ==> r == Rejected(thrown)
    {
      match this
      case Ok(_) => Ok(v)
      case Failed(e) => Failed(e)
      case Rejected(t) => Rejected(t)
    }
  }

  /** The outcome of a request whose only result is success or failure. */
  type Outcome = Reply<()>

  /** What `if (error) throw error;` raises for a returned `{ error }`, and
      what `throw new Error(text)` raises. */
  function Raise(error: Message): Thrown
  {
    ThrownError(error)
  }

  /** `err.message` where the code reads it: a string, or `undefined`. */
  function MessageOf(t: Thrown): (m: Option<string>)
    ensures m.Some? <==> t.ThrownError? && t.message.Text?
    ensures m.Some? ==> m.value == t.message.text
  {
    match t
    case ThrownString(_) => None
    case ThrownError(Absent) => None
    case ThrownError(Text(s)) => Some(s)
  }

  /** `err.message || fallback`: the message when it is a non-empty string,
      the fallback otherwise (an empty string is falsy). */
  function MessageOr(t: Thrown, fallback: string): (text: string)
    ensures MessageOf(t).Some? && MessageOf(t).value != "" ==> text == MessageOf(t).value
    ensures MessageOf(t).None? || MessageOf(t).value == "" ==> text == fallback
  {
    match MessageOf(t)
    case Some(m) => if m != "" then m else fallback
    case None => fallback
  }

  /** The TypeError V8 throws when a property is read through `null`, as in
      `outage.community_id` after a read that found no row. */
  function NullPropertyRead(property: string): (t: Thrown)
    ensures MessageOf(t).Some? && MessageOf(t).value != ""
  {
    ThrownError(Text("Cannot read properties of null (reading '" + property + "')"))
  }
}
