/** Error values of the package: Go errors as produced by errors.New and
    errors.Wrapf, the internal server error and the sentinel that Bind
    reports for an invalid service instance. */
module Common {

  datatype Option<+T> = None | Some(value: T)

  /** A Go error value. `Root` is an error created with errors.New;
      `Wrapped` is what errors.Wrapf returns: a formatted message in front
      of the error it wraps. */
  datatype Error = Root(text: string) | Wrapped(message: string, cause: Error)
  {
    /** What Error() returns: a wrapper prints "message: " and then the text
        of the error it wraps. */
    function Text(): string
    {
      match this
      case Root(t) => t
      case Wrapped(m, c) => m + ": " + c.Text()
    }

    /** errors.Cause: unwraps every layer of wrapping. */
    function Cause(): (r: Error)
      ensures r.Root?
      ensures Root? ==> r == this
    {
      match this
      case Root(_) => this
      case Wrapped(_, c) => c.Cause()
    }
  }

  /** Wrapping keeps the cause and keeps the wrapped text as a suffix. */
  lemma WrapKeepsCause(message: string, e: Error)
    ensures Wrapped(message, e).Cause() == e.Cause()
    ensures var t := Wrapped(message, e).Text();
            |e.Text()| <= |t| && t[|t| - |e.Text()|..] == e.Text()
  {
  }

  /** The one error Bind reports (common.go, invalidInstanceErr). */
  const InvalidInstance: Error := Root("无效的服务实例，服务实例必须是结构体指针")

  const StatusInternalServerError: int := 500

  /** internalError embeds an error and implements the Err interface
      (Code, Message, Error). */
  datatype InternalError = InternalError(wrapped: Error)
  {
    function Code(): int
    {
      StatusInternalServerError
    }

    function Message(): string
    {
      "unknown server error"
    }

    function ErrorText(): string
    {
      wrapped.Text()
    }
  }

  /** Whatever error is wrapped, an internal error reports the same code
      and message; only its error text depends on what it wraps, and it
      is that text unchanged. */
  lemma InternalErrorContract(e: InternalError, f: InternalError)
    ensures e.Code() == f.Code() == StatusInternalServerError
    ensures e.Message() == f.Message() == "unknown server error"
    ensures e.ErrorText() == e.wrapped.Text()
    ensures e.ErrorText() == f.ErrorText() <== e.wrapped.Text() == f.wrapped.Text()
  {
  }
}
