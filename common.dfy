/** Option, Result and the exceptions the converter and the authorization storage can raise. */
module Common {

  datatype Option<+T> = None | Some(value: T)

  /** One constructor per exception of the source, with the value that caused it. */
  datatype Failure =
    // JSONException from JSONObject.getJSONArray on a value that is not an array
    | NotAnArray(key: string)
    // JSONException from JSONObject.get on a key the object does not hold
    | KeyNotFound(key: string)
    // UnderlyingStorageException: a repeat's JSON value is neither a string nor an array
    | BadRepeatValue(id: string)
    // NullPointerException: the record has no services record path for the section
    | MissingSection(section: string)
    // ArrayIndexOutOfBoundsException while splitting the services record path
    | MalformedDescriptor(descriptor: string)
    // NullPointerException: an extracted group has no element for a child's services tag
    | MissingChildList(tag: string)
    // ArrayIndexOutOfBoundsException: the URN decoder returned fewer than six parts
    | UrnTooShort(urn: string)
    // IllegalArgumentException from URLDecoder.decode on a malformed escape
    | UrlDecodeFailed(text: string)
    // the full retrieval of the record failed (not found or a services error)
    | FetchFailed(path: string)

  /** A computed value, or the exception that aborted the computation. */
  datatype Result<+T> = Ok(value: T) | Err(failure: Failure)

  /** What a void Java method ends with: normal return, or an exception. */
  datatype Outcome = Pass | Fail(failure: Failure)

  function OutcomeOf<T>(r: Result<T>): (o: Outcome)
    ensures o.Pass? <==> r.Ok?
    ensures r.Err? ==> o == Fail(r.failure)
  {
    match r
    case Ok(_) => Pass
    case Err(e) => Fail(e)
  }
}
