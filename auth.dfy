/** Bearer tokens and the `fetchuser` gate in front of the cart endpoints. */
module Auth {
  import opened Common

  /**
   * A signed token carrying `{user: {id}}`. The signature is abstracted to the
   * secret it was signed with: verification succeeds exactly when the secret matches.
   */
  datatype Token = Token(userId: nat, secret: string)

  /** Verification of a token against the server's secret (no expiry is checked). */
  function Verify(t: Token, secret: string): (r: Option<nat>)
    ensures r.Some? <==> t.secret == secret
    ensures r.Some? ==> r.value == t.userId
  {
    if t.secret == secret then Some(t.userId) else None
  }

  /** Signing a payload for a user; the result verifies under that secret only. */
  function Sign(userId: nat, secret: string): (t: Token)
    ensures Verify(t, secret) == Some(userId)
    ensures forall other :: other != secret ==> Verify(t, other) == None
  {
    Token(userId, secret)
  }

  /**
   * The `fetchuser` middleware: an absent `auth-token` header or one that fails
   * verification is answered with 401; otherwise the embedded user id is passed on.
   */
  function FetchUser(header: Option<Token>, secret: string): (r: Result<nat>)
    ensures r.Ok? <==> header.Some? && header.value.secret == secret
    ensures r.Ok? ==> r.value == header.value.userId
    ensures r.Err? ==> r.error == Unauthenticated
  {
    match header
    case None => Err(Unauthenticated)
    case Some(t) =>
      match Verify(t, secret)
      case None => Err(Unauthenticated)
      case Some(id) => Ok(id)
  }
}
