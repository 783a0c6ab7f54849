/** The login decision. The user lookup, the password check and the token
    generator are outside the model: the lookup arrives as its result, the
    other two as functions. */
module AuthService {
  import opened Common
  import opened UserService

  datatype LoginRequest = LoginRequest(username: string, password: string)

  datatype LoginResponse = LoginResponse(token: string, user: UserRecord)

  const BadCredentials: string := "用户名或密码错误"
  const UserDisabled: string := "用户已被禁用"

  /** Login: an unknown user and a wrong password give the same error; any
      other lookup error is passed up; a disabled account is refused before
      its password is checked; a token failure is passed up; otherwise the
      token is issued for the user's identity and name. */
  function Login(
    req: LoginRequest,
    lookup: Result<UserRecord>,
    checkPassword: (UserRecord, string) -> bool,
    generateToken: (nat, string) -> Result<string>): (r: Result<LoginResponse>)
    ensures lookup == Err(NotFound) ==> r == Err(Text(BadCredentials))
    ensures lookup.Err? && lookup.error != NotFound ==> r == Err(lookup.error)
    ensures lookup.Ok? && !lookup.value.isActive ==> r == Err(Text(UserDisabled))
    ensures lookup.Ok? && lookup.value.isActive && !checkPassword(lookup.value, req.password) ==>
      r == Err(Text(BadCredentials))
    ensures r.Ok? <==>
      && lookup.Ok? && lookup.value.isActive && checkPassword(lookup.value, req.password)
      && generateToken(lookup.value.id, lookup.value.username).Ok?
    ensures r.Ok? ==>
      r.value == LoginResponse(generateToken(lookup.value.id, lookup.value.username).value, lookup.value)
    ensures lookup.Ok? && lookup.value.isActive && checkPassword(lookup.value, req.password) && r.Err? ==>
      generateToken(lookup.value.id, lookup.value.username) == Err(r.error)
  {
    match lookup
    case Err(e) => if e == NotFound then Err(Text(BadCredentials)) else Err(e)
    case Ok(user) =>
      if !user.isActive then Err(Text(UserDisabled))
      else if !checkPassword(user, req.password) then Err(Text(BadCredentials))
      else match generateToken(user.id, user.username)
        case Err(e) => Err(e)
        case Ok(token) => Ok(LoginResponse(token, user))
  }

  /** A caller cannot tell an unknown username from a wrong password. */
  lemma UnknownUserLooksLikeWrongPassword(
    req: LoginRequest,
    user: UserRecord,
    checkPassword: (UserRecord, string) -> bool,
    generateToken: (nat, string) -> Result<string>)
    requires user.isActive && !checkPassword(user, req.password)
    ensures Login(req, Err(NotFound), checkPassword, generateToken)
         == Login(req, Ok(user), checkPassword, generateToken)
  {
  }

  /** A disabled account is refused whatever password is given: the check
      comes before the password is looked at. */
  lemma DisabledBeforePassword(
    req: LoginRequest,
    user: UserRecord,
    check1: (UserRecord, string) -> bool,
    check2: (UserRecord, string) -> bool,
    generateToken: (nat, string) -> Result<string>)
    requires !user.isActive
    ensures Login(req, Ok(user), check1, generateToken) == Login(req, Ok(user), check2, generateToken)
  {
  }
}
