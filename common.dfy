/** Outcomes and the sequence search shared by the backend handlers and the checkout page. */
module Common {

  datatype Option<T> = None | Some(value: T)

  /** The failures a backend handler can end in. */
  datatype Error =
    | DuplicateEmail      // signup: 400 "existing user found with this email"
    | InvalidCredentials  // login: 400 "please try with correct email/password"
    | Unauthenticated     // fetchuser: 401 "Please authenticate using a valid token"
    | UserNotFound        // the token's user has no record: the handler throws on a null record
    | ValidationFailed    // a required product field is empty: the save is rejected

  datatype Result<T> = Ok(value: T) | Err(error: Error)

  /**
   * The position of the first element satisfying `p`, as a store lookup with an
   * equality filter returns the first matching record.
   */
  function FirstWhere<T>(s: seq<T>, p: T -> bool): (r: Option<nat>)
    ensures r.Some? ==> r.value < |s| && p(s[r.value])
    ensures r.Some? ==> forall j :: 0 <= j < r.value ==> !p(s[j])
    ensures r.None? ==> forall j :: 0 <= j < |s| ==> !p(s[j])
  {
    if s == [] then None
    else if p(s[0]) then Some(0)
    else
      match FirstWhere(s[1..], p)
      case None => None
      case Some(j) => Some(j + 1)
  }
}
