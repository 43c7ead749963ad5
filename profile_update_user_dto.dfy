/** The field checks of the `UpdateProfileDto` variant under
    src/user-blog/profile-dto. Its name, userName and password checks are the
    ones of src/dtos/update.user.dto.ts; only the email pattern differs, and
    that pattern has no '@' in it. */
module ProfileDtoRules {
  import opened Validators
  import opened UpdateProfileDtoRules

  /** What `^[a-zA-Z0-9._%+-]+\.com$` accepts: a non-empty run of the class,
      then ".com". */
  ghost predicate ProfileEmailPattern(s: string)
  {
    exists local: string :: local != [] && AllIn(local, InLocalClass) && s == local + ".com"
  }

  function MatchesProfileEmail(s: string): (r: bool)
    ensures r <==> ProfileEmailPattern(s)
  {
    if |s| >= 5 && s[|s| - 4..] == ".com" && AllIn(s[..|s| - 4], InLocalClass) then
      assert s == s[..|s| - 4] + ".com";
      true
    else
      ProfileEmailSplit(s);
      false
  }

  /** An address of the pattern ends in ".com" after a non-empty run of the
      class. */
  lemma ProfileEmailSplit(s: string)
    ensures ProfileEmailPattern(s) ==>
      |s| >= 5 && s[|s| - 4..] == ".com" && AllIn(s[..|s| - 4], InLocalClass)
  {
    if ProfileEmailPattern(s) {
      var local :| local != [] && AllIn(local, InLocalClass) && s == local + ".com";
      assert s[..|s| - 4] == local;
    }
  }

  function EmailErrors(email: JsValue, isEmail: string -> bool): (e: set<string>)
    ensures e == {} <==> IsMissing(email) || (email.Str? && isEmail(email.s) && ProfileEmailPattern(email.s))
  {
    if IsMissing(email) then {}
    else if !email.Str? then {EmailInvalid, EmailNotCom}
    else
      (if isEmail(email.s) then {} else {EmailInvalid})
      + (if MatchesProfileEmail(email.s) then {} else {EmailNotCom})
  }

  /** The messages of the failing checks; empty when the body is accepted. */
  function Errors(dto: UpdateProfileDto, isEmail: string -> bool): (e: set<string>)
    ensures e == {} <==>
      && NameErrors(dto.name) == {} && UserNameErrors(dto.userName) == {}
      && EmailErrors(dto.email, isEmail) == {} && PasswordErrors(dto.password) == {}
    ensures IsMissing(dto.name) && IsMissing(dto.userName) && IsMissing(dto.email) && IsMissing(dto.password) ==> e == {}
  {
    NameErrors(dto.name) + UserNameErrors(dto.userName) + EmailErrors(dto.email, isEmail) + PasswordErrors(dto.password)
  }

  /** No string the pattern accepts contains '@'. */
  lemma ProfileEmailHasNoAt(s: string)
    ensures MatchesProfileEmail(s) ==> '@' !in s
  {
  }

  /** The two variants disagree on an ordinary address. */
  lemma VariantsDisagree()
    ensures MatchesComEmail("a@b.com")
    ensures !MatchesProfileEmail("a@b.com")
  {
    ComAddressMatches();
    ProfileEmailHasNoAt("a@b.com");
    assert "a@b.com"[1] == '@';
  }

  /** With an email check that, like validator.js's, accepts only strings
      holding an '@', this variant refuses every body that supplies an email:
      no profile update carrying an email can pass it. */
  lemma SuppliedEmailAlwaysRefused(dto: UpdateProfileDto, isEmail: string -> bool)
    requires forall s :: isEmail(s) ==> '@' in s
    requires !IsMissing(dto.email)
    ensures Errors(dto, isEmail) != {}
    ensures EmailInvalid in Errors(dto, isEmail) || EmailNotCom in Errors(dto, isEmail)
  {
    if dto.email.Str? {
      ProfileEmailHasNoAt(dto.email.s);
    }
  }
}
