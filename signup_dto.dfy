/** The field checks `SignUpDto` declares. */
module SignUpDtoRules {
  import opened Validators

  datatype SignUpDto = SignUpDto(name: JsValue, userName: JsValue, email: JsValue, password: JsValue)

  /** `name` and `userName`: non-empty strings. */
  function RequiredStringErrors(v: JsValue, notString: string, empty: string): (e: set<string>)
    ensures e == {} <==> v.Str? && v.s != ""
  {
    (if IsString(v) then {} else {notString}) + (if IsNotEmpty(v) then {} else {empty})
  }

  function EmailErrors(email: JsValue, isEmail: string -> bool): (e: set<string>)
    ensures e == {} <==> email.Str? && email.s != "" && isEmail(email.s)
  {
    (if IsNotEmpty(email) then {} else {"Email cannot be empty"})
    + (if IsEmail(email, isEmail) then {} else {"Email format is invalid"})
  }

  function PasswordErrors(password: JsValue): (e: set<string>)
    ensures e == {} <==> password.Str? && ValidatorLength(password.s) >= 8
    ensures ("Password must be at least 8 characters" in e) <==> !MinLength(password, 8)
  {
    (if IsString(password) then {} else {"Password must be a string"})
    + (if IsNotEmpty(password) then {} else {"Password cannot be empty"})
    + (if MinLength(password, 8) then {} else {"Password must be at least 8 characters"})
  }

  /** The messages of the failing checks; empty when the body is accepted. */
  function Errors(dto: SignUpDto, isEmail: string -> bool): (e: set<string>)
    ensures e == {} <==>
      && dto.name.Str? && dto.name.s != ""
      && dto.userName.Str? && dto.userName.s != ""
      && dto.email.Str? && dto.email.s != "" && isEmail(dto.email.s)
      && dto.password.Str? && ValidatorLength(dto.password.s) >= 8
  {
    RequiredStringErrors(dto.name, "Name must be a string", "Name cannot be empty")
    + RequiredStringErrors(dto.userName, "Username must be a string", "Username cannot be empty")
    + EmailErrors(dto.email, isEmail)
    + PasswordErrors(dto.password)
  }

  /** The password has a lower bound only: an accepted password stays
      accepted however much longer it is made. */
  lemma PasswordHasNoUpperBound(dto: SignUpDto, isEmail: string -> bool, more: string)
    requires dto.password.Str? && Errors(dto, isEmail) == {}
    ensures Errors(dto.(password := Str(dto.password.s + more)), isEmail) == {}
  {
    MinLengthExtends(dto.password.s, more, 8);
  }
}
