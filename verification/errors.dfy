/** Go `error` values as the modelled code builds them, and Go's
    `(value, error)` return pairs. Errors are compared by value: two errors
    are equal when they have the same text and the same wrapping. Go's `==`
    on two `fmt.Errorf` results compares their identity instead, so equal
    errors here are ones a caller cannot tell apart by `Error()` text or by
    unwrapping, not ones Go's `==` calls equal. */
module Errors {
  import opened Wrappers

  /** `Message` is an error made by `fmt.Errorf` without `%w`;
      `Wrapped` is one made with `%w`, which keeps `inner` for `errors.Is`. */
  datatype Error = Message(text: string) | Wrapped(context: string, inner: Error)

  /** `fmt.Errorf(context + ": %w", inner)` */
  function Wrap(context: string, inner: Error): (e: Error)
    ensures Unwrap(e) == Some(inner)
    ensures Is(e, inner)
    ensures e != inner
  {
    Wrapped(context, inner)
  }

  /** `errors.Unwrap` */
  function Unwrap(e: Error): Option<Error> {
    if e.Wrapped? then Some(e.inner) else None
  }

  /** `errors.Is`: `target` is `e` or lies on the chain of errors `e` wraps. */
  predicate Is(e: Error, target: Error) {
    e == target || (e.Wrapped? && Is(e.inner, target))
  }

  /** A Go result pair `(value, err)`; `err == None` is Go's `err == nil`. */
  datatype Ret<T> = Ret(value: T, err: Option<Error>) {
    predicate Ok() {
      err.None?
    }
  }
}
