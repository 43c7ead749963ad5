/** The field checks `UpdateProfileDto` under src/dtos declares. Every field
    is optional: a missing one (null or undefined) skips all its checks. */
module UpdateProfileDtoRules {
  import opened Validators

  datatype UpdateProfileDto = UpdateProfileDto(name: JsValue, userName: JsValue, email: JsValue, password: JsValue)

  const EmailInvalid := "Please provide a valid email address"
  const EmailNotCom := "Email must be a valid email address ending in .com"

  /** What `^[\w.%+-]+@[A-Za-z0-9.-]+\.com$` accepts: a non-empty local part,
      '@', a non-empty domain, and ".com". */
  ghost predicate ComEmailPattern(s: string)
  {
    exists local: string, domain: string ::
      && local != [] && domain != []
      && AllIn(local, InLocalClass) && AllIn(domain, InDomainClass)
      && s == local + "@" + domain + ".com"
  }

  /** The pattern, decided by splitting at the first '@'. */
  function MatchesComEmail(s: string): (r: bool)
    ensures r ==> ComEmailPattern(s)
  {
    var at := IndexOf(s, '@');
    if 0 < at && at + 6 <= |s| && s[|s| - 4..] == ".com"
       && AllIn(s[..at], InLocalClass) && AllIn(s[at + 1..|s| - 4], InDomainClass)
    then
      assert s == s[..at] + "@" + s[at + 1..|s| - 4] + ".com";
      true
    else false
  }

  /** The local part has no '@', so an address of the pattern splits at its
      first '@' and the decision finds it. */
  lemma ComEmailPatternMatches(s: string)
    ensures ComEmailPattern(s) ==> MatchesComEmail(s)
  {
    if ComEmailPattern(s) {
      var local, domain :| && local != [] && domain != []
        && AllIn(local, InLocalClass) && AllIn(domain, InDomainClass)
        && s == local + "@" + domain + ".com";
      var at := IndexOf(s, '@');
      assert s[|local|] == '@';
      assert at == |local|;
      assert s[..at] == local;
      assert s[at + 1..|s| - 4] == domain;
      assert s[|s| - 4..] == ".com";
    }
  }

  /** An address the pattern accepts holds exactly one '@': there is one, and
      none follows the first. */
  lemma ComEmailHasOneAt(s: string)
    requires MatchesComEmail(s)
    ensures IndexOf(s, '@') < |s|
    ensures '@' !in s[IndexOf(s, '@') + 1..]
  {
    var at := IndexOf(s, '@');
    var domain := s[at + 1..|s| - 4];
    assert s[at + 1..] == domain + s[|s| - 4..];
    AllInExcludes(domain, InDomainClass, '@');
  }

  function NameErrors(name: JsValue): (e: set<string>)
    ensures e == {} <==> IsMissing(name) || Length(name, 2, 50)
  {
    if IsMissing(name) then {}
    else
      (if IsString(name) then {} else {"Name must be a string"})
      + (if Length(name, 2, 50) then {} else {"Name must be between 2 and 50 characters"})
  }

  function UserNameErrors(userName: JsValue): (e: set<string>)
    ensures e == {} <==> IsMissing(userName) || Length(userName, 3, 20)
  {
    if IsMissing(userName) then {}
    else
      (if IsString(userName) then {} else {"UserName must be a string"})
      + (if Length(userName, 3, 20) then {} else {"UserName must be between 3 and 20 characters"})
  }

  function PasswordErrors(password: JsValue): (e: set<string>)
    ensures e == {} <==> IsMissing(password) || MinLength(password, 8)
  {
    if IsMissing(password) then {}
    else
      (if IsString(password) then {} else {"password must be a string"})
      + (if MinLength(password, 8) then {} else {"Password must have a minimum of 8 characters"})
  }

  function EmailErrors(email: JsValue, isEmail: string -> bool): (e: set<string>)
    ensures e == {} <==> IsMissing(email) || (email.Str? && isEmail(email.s) && ComEmailPattern(email.s))
  {
    if IsMissing(email) then {}
    else if !email.Str? then {EmailInvalid, EmailNotCom}
    else
      ComEmailPatternMatches(email.s);
      (if isEmail(email.s) then {} else {EmailInvalid})
      + (if MatchesComEmail(email.s) then {} else {EmailNotCom})
  }

  /** The messages of the failing checks; empty when the body is accepted. */
  function Errors(dto: UpdateProfileDto, isEmail: string -> bool): (e: set<string>)
    ensures e == {} <==>
      && NameErrors(dto.name) == {} && UserNameErrors(dto.userName) == {}
      && EmailErrors(dto.email, isEmail) == {} && PasswordErrors(dto.password) == {}
    ensures IsMissing(dto.name) && IsMissing(dto.userName) && IsMissing(dto.email) && IsMissing(dto.password) ==> e == {}
  {
    NameErrors(dto.name) + UserNameErrors(dto.userName) + EmailErrors(dto.email, isEmail) + PasswordErrors(dto.password)
  }

  /** An ordinary address passes the pattern check. */
  lemma ComAddressMatches()
    ensures MatchesComEmail("a@b.com")
  {
    ComEmailPatternMatches("a@b.com");
    assert "a@b.com" == "a" + "@" + "b" + ".com";
  }
}
