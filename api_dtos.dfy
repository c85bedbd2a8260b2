/**
 * The request DTOs of the ASP.NET back end and their data-annotation
 * validation, which `[ApiController]` runs before an action: any failing field
 * answers 400 with a validation problem and the action does not run.
 *
 * A string property is `Option<string>`: `None` is a JSON `null`; a property
 * left out of the JSON keeps its initialiser, `string.Empty`, which is
 * `Some("")`. The `[EmailAddress]` and `[Url]` checks are the parameters
 * `isEmail` and `isUrl`.
 */
module ApiDtos {
  import opened Wrappers
  import opened Text

  /** The title ASP.NET gives the validation problem. */
  const ValidationFailed := "One or more validation errors occurred."

  /** `string.Empty`: the value of a property the JSON left out. */
  const Omitted: Option<string> := Some("")

  // ---------------------------------------------------------------------------
  // The attributes
  // ---------------------------------------------------------------------------

  /** The UTF-16 code units of one character: two for a character outside the Basic Multilingual Plane. */
  function Utf16Units(c: char): nat {
    if c as int > 0xFFFF then 2 else 1
  }

  /** `string.Length`, which the length attributes measure: UTF-16 code units, not characters. */
  function Utf16Length(s: string): (n: nat)
    ensures |s| <= n <= 2 * |s|
  {
    if s == [] then 0 else Utf16Units(s[0]) + Utf16Length(s[1..])
  }

  /** Within the Basic Multilingual Plane the length in code units is the number of characters. */
  lemma {:induction false} BmpUtf16Length(s: string)
    requires forall i | 0 <= i < |s| :: s[i] as int <= 0xFFFF
    ensures Utf16Length(s) == |s|
  {
    if s != [] {
      BmpUtf16Length(s[1..]);
    }
  }

  /** `[Required]` on a string: not null, not empty, not only white space. */
  predicate Required(v: Option<string>) {
    v.Some? && !IsWhiteSpaceOnly(v.value)
  }

  /** `[StringLength(max, MinimumLength = min)]`: null passes. */
  predicate LengthBetween(v: Option<string>, min: nat, max: nat) {
    v.None? || min <= Utf16Length(v.value) <= max
  }

  /** `[MaxLength(max)]`: null passes. */
  predicate MaxLength(v: Option<string>, max: nat) {
    v.None? || Utf16Length(v.value) <= max
  }

  /** `[MinLength(min)]`: null passes. */
  predicate MinLength(v: Option<string>, min: nat) {
    v.None? || Utf16Length(v.value) >= min
  }

  /** `[EmailAddress]` and `[Url]`: null passes, anything else is the format check. */
  predicate Format(check: string -> bool, v: Option<string>) {
    v.None? || check(v.value)
  }

  // ---------------------------------------------------------------------------
  // RegisterDto
  // ---------------------------------------------------------------------------

  datatype RegisterDto = RegisterDto(username: Option<string>, email: Option<string>, password: Option<string>)

  predicate UsernameValid(d: RegisterDto) {
    Required(d.username) && LengthBetween(d.username, 3, 50)
  }

  predicate RegisterEmailValid(d: RegisterDto, isEmail: string -> bool) {
    Required(d.email) && Format(isEmail, d.email) && MaxLength(d.email, 100)
  }

  predicate PasswordValid(d: RegisterDto) {
    Required(d.password) && LengthBetween(d.password, 6, 100)
  }

  /** The fields of a `RegisterDto` that fail validation. */
  function RegisterErrors(d: RegisterDto, isEmail: string -> bool): (r: seq<string>)
    ensures "Username" in r <==> !UsernameValid(d)
    ensures "Email" in r <==> !RegisterEmailValid(d, isEmail)
    ensures "Password" in r <==> !PasswordValid(d)
    ensures r == [] <==> UsernameValid(d) && RegisterEmailValid(d, isEmail) && PasswordValid(d)
  {
    (if UsernameValid(d) then [] else ["Username"]) +
    (if RegisterEmailValid(d, isEmail) then [] else ["Email"]) +
    (if PasswordValid(d) then [] else ["Password"])
  }

  predicate RegisterValid(d: RegisterDto, isEmail: string -> bool) {
    RegisterErrors(d, isEmail) == []
  }

  /** A password passes registration exactly when it is not blank and has 6 to 100 UTF-16 code units. */
  lemma PasswordBounds(d: RegisterDto)
    requires d.password.Some? && !IsWhiteSpaceOnly(d.password.value)
    ensures PasswordValid(d) <==> 6 <= Utf16Length(d.password.value) <= 100
  {
  }

  /** Three emoji are six code units: a long enough password, though only three characters. */
  lemma AstralPasswordPasses(d: RegisterDto)
    requires d.password == Some("\U{1F600}\U{1F600}\U{1F600}")
    ensures |d.password.value| == 3 && PasswordValid(d)
  {
    var pw := d.password.value;
    assert Utf16Length(pw[2..]) == 2;
    assert pw[1..][1..] == pw[2..];
    assert Utf16Length(pw[1..]) == 4;
    assert !IsWhiteSpace(pw[0]);
  }

  /** A registration that leaves out any field is refused: the omitted value is empty. */
  lemma OmittedRegisterFieldFails(d: RegisterDto, isEmail: string -> bool)
    requires d.username == Omitted || d.email == Omitted || d.password == Omitted
    ensures !RegisterValid(d, isEmail)
  {
    assert Omitted.Some? && IsWhiteSpaceOnly(Omitted.value);
  }

  // ---------------------------------------------------------------------------
  // LoginDto
  // ---------------------------------------------------------------------------

  datatype LoginDto = LoginDto(email: Option<string>, password: Option<string>)

  /** `LoginDto`: a required, well-formed email and a required password of any length. */
  function LoginErrors(d: LoginDto, isEmail: string -> bool): (r: seq<string>)
    ensures "Email" in r <==> !(Required(d.email) && Format(isEmail, d.email))
    ensures "Password" in r <==> !Required(d.password)
    ensures r == [] <==> Required(d.email) && Format(isEmail, d.email) && Required(d.password)
  {
    (if Required(d.email) && Format(isEmail, d.email) then [] else ["Email"]) +
    (if Required(d.password) then [] else ["Password"])
  }

  predicate LoginValid(d: LoginDto, isEmail: string -> bool) {
    LoginErrors(d, isEmail) == []
  }

  /** Login has no password length bound: a password too short to register with still passes validation. */
  lemma ShortPasswordPassesLogin(email: string, password: string, isEmail: string -> bool)
    requires !IsWhiteSpaceOnly(email) && isEmail(email) && !IsWhiteSpaceOnly(password) && Utf16Length(password) < 6
    ensures LoginValid(LoginDto(Some(email), Some(password)), isEmail)
    ensures !PasswordValid(RegisterDto(Some("user"), Some(email), Some(password)))
  {
  }

  // ---------------------------------------------------------------------------
  // UpdateProfileDto
  // ---------------------------------------------------------------------------

  datatype UpdateProfileDto = UpdateProfileDto(bio: Option<string>, location: Option<string>, avatarUrl: Option<string>)

  /** `UpdateProfileDto`: every field optional; bio up to 500, location up to 100, avatar a URL of up to 255 code units. */
  function UpdateProfileErrors(d: UpdateProfileDto, isUrl: string -> bool): (r: seq<string>)
    ensures "Bio" in r <==> d.bio.Some? && Utf16Length(d.bio.value) > 500
    ensures "Location" in r <==> d.location.Some? && Utf16Length(d.location.value) > 100
    ensures "AvatarUrl" in r <==> d.avatarUrl.Some? && (!isUrl(d.avatarUrl.value) || Utf16Length(d.avatarUrl.value) > 255)
    ensures d.bio.None? && d.location.None? && d.avatarUrl.None? ==> r == []
  {
    (if LengthBetween(d.bio, 0, 500) then [] else ["Bio"]) +
    (if LengthBetween(d.location, 0, 100) then [] else ["Location"]) +
    (if Format(isUrl, d.avatarUrl) && LengthBetween(d.avatarUrl, 0, 255) then [] else ["AvatarUrl"])
  }

  predicate UpdateProfileValid(d: UpdateProfileDto, isUrl: string -> bool) {
    UpdateProfileErrors(d, isUrl) == []
  }

  // ---------------------------------------------------------------------------
  // CreatePublicationDto
  // ---------------------------------------------------------------------------

  datatype CreatePublicationDto = CreatePublicationDto(content: Option<string>)

  /**
   * `CreatePublicationDto`: `[Required]` and `[MinLength(1)]` on the content.
   * The minimum length adds nothing to `[Required]`, and there is no maximum.
   */
  function CreatePublicationErrors(d: CreatePublicationDto): (r: seq<string>)
    ensures r == [] <==> d.content.Some? && !IsWhiteSpaceOnly(d.content.value)
    ensures d.content == Omitted ==> r == ["Content"]
  {
    if Required(d.content) && MinLength(d.content, 1) then [] else ["Content"]
  }

  predicate CreatePublicationValid(d: CreatePublicationDto) {
    CreatePublicationErrors(d) == []
  }
}
