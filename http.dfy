/**
 * The parts of the HTTP boundary the handlers touch: the cookie jar of one
 * request/response, form fields, and the results handlers return.
 */
module Http {
  import opened Common

  const SessionCookie: string := "session"
  const ResetCookie: string := "password_reset_session"
  const EmailVerificationCookie: string := "email_verification"

  /**
   * A cookie as the response leaves it: a value with an optional expiry, or
   * a deletion, which the code writes as an empty value with `maxAge: 0`.
   */
  datatype Cookie = Cookie(value: string, expires: Option<Millis>, maxAgeZero: bool)

  const Cleared: Cookie := Cookie("", None, true)

  class Cookies {
    var jar: map<string, Cookie>

    constructor (initial: map<string, Cookie>)
      ensures jar == initial
    {
      jar := initial;
    }

    /** `cookies.get(name) ?? null`. */
    function Get(name: string): (r: Option<string>)
      reads this
      ensures r.Some? <==> name in jar
      ensures r.Some? ==> r.value == jar[name].value
    {
      if name in jar then Some(jar[name].value) else None
    }

    /** `cookies.set(name, value, { expires, ... })`. */
    method Set(name: string, value: string, expires: Millis)
      modifies this
      ensures jar == old(jar)[name := Cookie(value, Some(expires), false)]
    {
      jar := jar[name := Cookie(value, Some(expires), false)];
    }

    /** `cookies.set(name, '', { maxAge: 0, ... })`. */
    method Delete(name: string)
      modifies this
      ensures jar == old(jar)[name := Cleared]
    {
      jar := jar[name := Cleared];
    }
  }

  /** An entry of a submitted form: absent, a text value, or an uploaded file. */
  datatype FormField = Missing | Text(text: string) | Upload

  /** The entry when `typeof value === 'string'`. */
  function AsString(f: FormField): (r: Option<string>)
    ensures r.Some? <==> f.Text?
    ensures r.Some? ==> r.value == f.text
  {
    if f.Text? then Some(f.text) else None
  }

  /** `value?.toString()`: a file turns into the text "[object File]". */
  function ToStringOrNone(f: FormField): (r: Option<string>)
    ensures r.None? <==> f.Missing?
    ensures f.Text? ==> r == Some(f.text)
    ensures f.Upload? ==> r == Some("[object File]")
  {
    match f
    case Missing => None
    case Text(s) => Some(s)
    case Upload => Some("[object File]")
  }

  /** An email the handler sends: the address and the code in it. */
  datatype Mail = Mail(to: string, code: string)

  /** What a page action or load returns. */
  datatype PageResult =
    | Redirect(location: string)              // `redirect(302, location)`
    | Failure(status: nat, message: string)   // `fail(status, { ...: { message } })`
    | Message(message: string)                // a plain `{ ...: { message } }` object
    | PageData(email: string, isPasswordReset: bool)
    | ResetData(email: string)                // the reset-password page's `{ email }`
    | Crash                                   // an exception escapes the handler
}
