/** Go `error` values as the service produces and inspects them: the
    sentinels it compares against, the `%w` wrapping of fmt.Errorf, the
    unwrap chain that errors.Is follows, and the text an error prints. */
module GoErrors {

  datatype GoError =
    | ErrNoRows                           // sql.ErrNoRows
    | ErrNotFound                         // repository.ErrNotFound
    | UnknownIdType                       // isDefault's "unknown ID type"
    | Wrapped(context: string, cause: GoError)  // fmt.Errorf("<context>: %w", cause)
    | Failure(message: string)            // any other error, known by its text

  /** errors.Is: `e` is `target` or wraps it, at any depth. */
  predicate Is(e: GoError, target: GoError)
  {
    e == target || (e.Wrapped? && Is(e.cause, target))
  }

  /** err.Error(). */
  function ErrorText(e: GoError): string
  {
    match e
    case ErrNoRows => "sql: no rows in result set"
    case ErrNotFound => "entity not found"
    case UnknownIdType => "unknown ID type"
    case Wrapped(context, cause) => context + ": " + ErrorText(cause)
    case Failure(message) => message
  }
}
