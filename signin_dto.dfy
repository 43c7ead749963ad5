/** The field checks `SignInDto` declares. */
module SignInDtoRules {
  import opened Validators

  datatype SignInDto = SignInDto(identifier: JsValue, password: JsValue)

  /** The messages of the failing checks; empty when the body is accepted. */
  function Errors(dto: SignInDto): (e: set<string>)
    ensures e == {} <==> dto.identifier.Str? && dto.identifier.s != "" && dto.password.Str? && dto.password.s != ""
    ensures dto.password.Str? && |dto.password.s| >= 1 ==> "Password cannot be empty" !in e && "Password must be a string" !in e
  {
    (if IsString(dto.identifier) then {} else {"identifier must be a string"})
    + (if IsNotEmpty(dto.identifier) then {} else {"Email or username is required"})
    + (if IsString(dto.password) then {} else {"Password must be a string"})
    + (if IsNotEmpty(dto.password) then {} else {"Password cannot be empty"})
  }
}
