/**
 * `Controllers/AuthController.cs`: registration and login on the ASP.NET back
 * end. `BCrypt.HashPassword` and `BCrypt.Verify` are the parameters `hash` and
 * `verify`; `TokenService.CreateToken` is `createToken`. The DTO is validated
 * before either action runs.
 */
module ApiAuth {
  import opened Wrappers
  import opened Http
  import opened ApiDb
  import opened ApiDtos

  const UsernameTaken := "Nome de usuário já existe."
  const EmailTaken := "Email já cadastrado."
  const BadCredentials := "Email ou senha inválidos."

  /** `LoginResponseDto`: a token and the user, never the password hash. */
  datatype LoginResponse = LoginResponse(token: string, user: UserDto)

  predicate HasUsername(users: seq<User>, username: string) {
    exists u | u in users :: u.username == username
  }

  predicate HasEmail(users: seq<User>, email: string) {
    exists u | u in users :: u.email == email
  }

  /** The checks `Register` makes before it writes, in their order: the DTO, the username, then the email. */
  function RegisterCheck(users: seq<User>, dto: RegisterDto, isEmail: string -> bool): (r: Option<Response<LoginResponse>>)
    ensures r == Some(Refusal(400, ValidationFailed)) <==> !RegisterValid(dto, isEmail)
    ensures r == Some(Refusal(400, UsernameTaken)) <==> RegisterValid(dto, isEmail) && HasUsername(users, dto.username.value)
    ensures r == Some(Refusal(400, EmailTaken)) <==>
              RegisterValid(dto, isEmail) && !HasUsername(users, dto.username.value) && HasEmail(users, dto.email.value)
    ensures r.None? <==>
              RegisterValid(dto, isEmail) && !HasUsername(users, dto.username.value) && !HasEmail(users, dto.email.value)
  {
    if !RegisterValid(dto, isEmail) then Some(Refusal(400, ValidationFailed))
    else if HasUsername(users, dto.username.value) then Some(Refusal(400, UsernameTaken))
    else if HasEmail(users, dto.email.value) then Some(Refusal(400, EmailTaken))
    else None
  }

  /** The new user: the DTO's username and email, the hashed password, both times `now`. */
  function NewUser(id: int, dto: RegisterDto, hash: string -> string, now: Instant): (u: User)
    requires dto.username.Some? && dto.email.Some? && dto.password.Some?
    ensures u.id == id && u.username == dto.username.value && u.email == dto.email.value
    ensures u.passwordHash == hash(dto.password.value) && u.createdAt == now && u.updatedAt == now
  {
    User(id, dto.username.value, dto.email.value, hash(dto.password.value), now, now)
  }

  /** `new Profile()` attached to the new user: every content field null. */
  function EmptyProfile(id: int, userId: int, now: Instant): (p: Profile)
    ensures p.id == id && p.userId == userId && p.bio.None? && p.location.None? && p.avatarUrl.None?
  {
    Profile(id, userId, None, None, None, now, now)
  }

  /**
   * `Register`: the checks' refusal with nothing added; else exactly one user
   * with one empty profile, answered with a token and the user's DTO.
   */
  method Register(db: AppDb, dto: RegisterDto, isEmail: string -> bool, hash: string -> string,
                  createToken: User -> string, now: Instant) returns (r: Response<LoginResponse>)
    requires db.Valid()
    modifies db
    ensures db.Valid()
    ensures var check := RegisterCheck(old(db.users), dto, isEmail);
      (check.Some? ==>
         (r == check.value && db.users == old(db.users) && db.profiles == old(db.profiles) &&
          db.nextUserId == old(db.nextUserId) && db.nextProfileId == old(db.nextProfileId))) &&
      (check.None? ==>
         var u := NewUser(old(db.nextUserId), dto, hash, now);
         (db.users == old(db.users) + [u] && db.profiles == old(db.profiles) + [EmptyProfile(old(db.nextProfileId), u.id, now)] &&
          db.nextUserId == old(db.nextUserId) + 1 && db.nextProfileId == old(db.nextProfileId) + 1 &&
          r == Reply(200, LoginResponse(createToken(u), ToUserDto(u)))))
    ensures db.publications == old(db.publications) && db.chatMessages == old(db.chatMessages)
    ensures db.nextPublicationId == old(db.nextPublicationId)
  {
    var check := RegisterCheck(db.users, dto, isEmail);
    if check.Some? {
      return check.value;
    }
    var u := NewUser(db.nextUserId, dto, hash, now);
    db.users := db.users + [u];
    db.nextUserId := db.nextUserId + 1;
    db.profiles := db.profiles + [EmptyProfile(db.nextProfileId, u.id, now)];
    db.nextProfileId := db.nextProfileId + 1;
    r := Reply(200, LoginResponse(createToken(u), ToUserDto(u)));
  }

  /** Registration keeps usernames and emails unique. */
  lemma RegisterKeepsUnique(users: seq<User>, dto: RegisterDto, isEmail: string -> bool, id: int, hash: string -> string, now: Instant)
    requires RegisterCheck(users, dto, isEmail).None?
    requires forall i, j | 0 <= i < j < |users| :: users[i].username != users[j].username && users[i].email != users[j].email
    ensures var users' := users + [NewUser(id, dto, hash, now)];
      forall i, j | 0 <= i < j < |users'| :: users'[i].username != users'[j].username && users'[i].email != users'[j].email
  {
    var users' := users + [NewUser(id, dto, hash, now)];
    forall i, j | 0 <= i < j < |users'|
      ensures users'[i].username != users'[j].username && users'[i].email != users'[j].email
    {
      if j == |users| {
        assert users'[i] == users[i] && users[i] in users;
      }
    }
  }

  /**
   * `Login`: 400 for an invalid DTO; the same 401 for an unknown email and for
   * a password that does not verify; else the token and the found user's DTO.
   */
  function Login(users: seq<User>, dto: LoginDto, isEmail: string -> bool, verify: (string, string) -> bool,
                 createToken: User -> string): (r: Response<LoginResponse>)
    ensures r == Refusal(400, ValidationFailed) <==> !LoginValid(dto, isEmail)
    ensures r == Refusal(401, BadCredentials) <==>
              LoginValid(dto, isEmail) &&
              (FindUserByEmail(users, dto.email.value).None? ||
               !verify(dto.password.value, FindUserByEmail(users, dto.email.value).value.passwordHash))
    ensures r.Reply? ==> var u := FindUserByEmail(users, dto.email.value).value;
              r == Reply(200, LoginResponse(createToken(u), ToUserDto(u))) && u.email == dto.email.value &&
              verify(dto.password.value, u.passwordHash)
  {
    if !LoginValid(dto, isEmail) then Refusal(400, ValidationFailed)
    else
      var u := FindUserByEmail(users, dto.email.value);
      if u.None? || !verify(dto.password.value, u.value.passwordHash) then Refusal(401, BadCredentials)
      else Reply(200, LoginResponse(createToken(u.value), ToUserDto(u.value)))
  }

  /** An unknown email and a wrong password cannot be told apart by the answer. */
  lemma FailedLoginsAreIndistinguishable(unknown: seq<User>, known: seq<User>, dto: LoginDto, isEmail: string -> bool,
                                         verify: (string, string) -> bool, createToken: User -> string)
    requires LoginValid(dto, isEmail)
    requires FindUserByEmail(unknown, dto.email.value).None?
    requires FindUserByEmail(known, dto.email.value).Some?
    requires !verify(dto.password.value, FindUserByEmail(known, dto.email.value).value.passwordHash)
    ensures Login(unknown, dto, isEmail, verify, createToken) == Login(known, dto, isEmail, verify, createToken)
  {
  }

  lemma {:induction false} FindUserByEmailAppend(users: seq<User>, u: User)
    requires !HasEmail(users, u.email)
    ensures FindUserByEmail(users + [u], u.email) == Some(u)
  {
    if users != [] {
      assert users[0] in users;
      assert (users + [u])[1..] == users[1..] + [u];
      assert !HasEmail(users[1..], u.email) by {
        forall v | v in users[1..] ensures v.email != u.email {
          assert v in users;
        }
      }
      FindUserByEmailAppend(users[1..], u);
    }
  }

  /**
   * Whoever just registered can log in with the same email and password, when
   * `verify` accepts a password against its own hash: the answer carries a
   * token for the new user and the same DTO registration answered with.
   */
  lemma RegisteredUserCanLogIn(users: seq<User>, dto: RegisterDto, isEmail: string -> bool, id: int, hash: string -> string,
                               verify: (string, string) -> bool, createToken: User -> string, now: Instant)
    requires RegisterCheck(users, dto, isEmail).None?
    requires verify(dto.password.value, hash(dto.password.value))
    ensures var u := NewUser(id, dto, hash, now);
      Login(users + [u], LoginDto(dto.email, dto.password), isEmail, verify, createToken) ==
      Reply(200, LoginResponse(createToken(u), ToUserDto(u)))
  {
    var u := NewUser(id, dto, hash, now);
    FindUserByEmailAppend(users, u);
  }
}
