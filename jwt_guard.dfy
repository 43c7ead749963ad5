/** `JwtAuthGuard.handleRequest`: the accept/throw decision taken after the
    strategy has run. */
module JwtGuard {
  import opened Base

  const AccessDenied := "Access Denied: "
  const InvalidToken := "Invalid Token"

  /** `err` is what the strategy threw, `user` what it produced (None for a
      falsy value) and `infoMessage` the message passport attached. An error
      wins over a user; with neither, the request is refused with the info
      message, or 'Invalid Token' when that is missing or empty. */
  function HandleRequest<U>(err: Option<Thrown>, user: Option<U>, infoMessage: Option<string>): (r: Result<U, Thrown>)
    ensures r.Ok? <==> err.None? && user.Some?
    ensures r.Ok? ==> r.value == user.value
    ensures err.Some? ==> r == Err(err.value)
    ensures err.None? && user.None? && infoMessage.Some? && infoMessage.value != "" ==>
      r == Err(Http(Unauthorized(AccessDenied + infoMessage.value)))
    ensures err.None? && user.None? && (infoMessage.None? || infoMessage.value == "") ==>
      r == Err(Http(Unauthorized(AccessDenied + InvalidToken)))
  {
    if err.Some? || user.None? then
      var reason := if infoMessage.Some? && infoMessage.value != "" then infoMessage.value else InvalidToken;
      Err(if err.Some? then err.value else Http(Unauthorized(AccessDenied + reason)))
    else
      Ok(user.value)
  }
}
