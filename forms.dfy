/**
 * What the form pages share: a validation issue as a schema reports it, an error thrown by an
 * API call as the handlers read it, and the toast a handler shows.
 */
module Forms {
  import opened Wrappers
  import opened Text

  /** A failed rule: the field it is attached to, and its message (`None`: the schema library's own wording). */
  datatype Issue = Issue(path: string, message: Option<string>)

  /** A thrown error as the handlers read it: `error?.message` and `error?.response?.data?.message`. */
  datatype ErrorValue = ErrorValue(message: Option<string>, responseMessage: Option<string>)

  /** The outcome of an awaited API call. */
  datatype ApiResult = Ok | Err(error: ErrorValue)

  datatype Toast = SuccessToast(text: string) | ErrorToast(text: string)

  /**
   * What one press of a form's submit button leads to: the schema's issues (shown under the
   * fields), the request sent, the toast shown and the route pushed.
   */
  datatype Outcome<P> = Outcome(issues: seq<Issue>, sent: Option<P>, toast: Option<Toast>, navigateTo: Option<string>)

  /** `handleSubmit` with failing values: the issues are shown and nothing else happens. */
  function Rejected<P>(issues: seq<Issue>): Outcome<P> {
    Outcome(issues, None, None, None)
  }

  /** `z.string().min(n, message)` on one field: an issue when the text is shorter than `n`. */
  function MinLength(path: string, s: string, n: nat, message: string): (r: seq<Issue>)
    ensures r == [] <==> |s| >= n
    ensures r != [] ==> r == [Issue(path, Some(message))]
  {
    if |s| < n then [Issue(path, Some(message))] else []
  }

  /** `z.string().max(n, message)`. */
  function MaxLength(path: string, s: string, n: nat, message: string): (r: seq<Issue>)
    ensures r == [] <==> |s| <= n
    ensures r != [] ==> r == [Issue(path, Some(message))]
  {
    if |s| > n then [Issue(path, Some(message))] else []
  }

  /** `error?.response?.data?.message || error?.message || fallback`: the server's message first. */
  function ServerFirstMessage(e: ErrorValue, fallback: string): (r: string)
    ensures Truthy(e.responseMessage) ==> r == e.responseMessage.value
    ensures !Truthy(e.responseMessage) && Truthy(e.message) ==> r == e.message.value
    ensures !Truthy(e.responseMessage) && !Truthy(e.message) ==> r == fallback
  {
    if Truthy(e.responseMessage) then e.responseMessage.value else OrElse(e.message, fallback)
  }

  /** With a non-empty fallback the message shown is never empty. */
  lemma ServerFirstMessageNonEmpty(e: ErrorValue, fallback: string)
    requires fallback != ""
    ensures ServerFirstMessage(e, fallback) != ""
  {
  }
}
