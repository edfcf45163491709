/** AuthRepositoryImpl: turns what the identity provider did into an
    `AuthResult` or a `User`. Every provider call is an input outcome. */
module Repository {
  import opened Wrappers
  import opened Model

  /** What the identity provider reports about a signed-in account. */
  datatype ProviderUser = ProviderUser(displayName: Option<string>, email: Option<string>)

  const RegistrationFailed := "Registration failed"
  const LoginFailed := "Login failed"

  /** `firebaseUser?.displayName ?: ""`: the id the repository gives a user. */
  function IdOf(u: Option<ProviderUser>): (id: string)
    ensures u.Some? && u.value.displayName.Some? ==> id == u.value.displayName.value
    ensures u.None? || u.value.displayName.None? ==> id == ""
  {
    if u.Some? then u.value.displayName.GetOr("") else ""
  }

  /** `register(user)`. `create` is what creating the account did; it is only
      attempted when the user has a password. `current` is the provider's
      current user, read afterwards. */
  function Register(user: User, create: Outcome<()>, current: Option<ProviderUser>): (r: AuthResult)
    ensures r.Error? <==> user.password.Some? && create.Threw?
    ensures r.Error? ==> r.message == create.message.GetOr(RegistrationFailed)
    ensures r.Success? ==> r.user.email == user.email && r.user.password == user.password
    ensures r.Success? ==> r.user.id == IdOf(current)
  {
    if user.password.Some? && create.Threw? then
      AuthResult.Error(create.message.GetOr(RegistrationFailed))
    else
      AuthResult.Success(User(IdOf(current), user.email, user.password))
  }

  /** `login(email, password)`. `signIn` is what signing in did; when it
      returns, it carries the provider's (nullable) user. */
  function Login(email: string, password: string, signIn: Outcome<Option<ProviderUser>>): (r: AuthResult)
    ensures r.Error? <==> signIn.Threw?
    ensures r.Error? ==> r.message == signIn.message.GetOr(LoginFailed)
    ensures r.Success? ==> r.user.email == email && r.user.password == Some(password)
    ensures r.Success? ==> r.user.id == IdOf(signIn.value)
  {
    match signIn
    case Returned(u) => AuthResult.Success(User(IdOf(u), email, Some(password)))
    case Threw(m) => AuthResult.Error(m.GetOr(LoginFailed))
  }

  /** `loginAnonymously()`: no try/catch, so a provider exception reaches the
      caller as it was thrown. */
  function LoginAnonymously(signIn: Outcome<Option<ProviderUser>>): (r: Outcome<User>)
    ensures r.Threw? <==> signIn.Threw?
    ensures r.Threw? ==> r.message == signIn.message
    ensures r.Returned? ==> r.value.password == Some("") && r.value.id == IdOf(signIn.value)
    ensures r.Returned? && signIn.value.Some? ==> r.value.email == signIn.value.value.email.GetOr("")
    ensures r.Returned? && signIn.value.None? ==> r.value.email == ""
  {
    match signIn
    case Returned(u) =>
      var email := if u.Some? then u.value.email.GetOr("") else "";
      Returned(User(IdOf(u), email, Some("")))
    case Threw(m) => Threw(m)
  }

  /** `getCurrentUser()`: the provider's current user, without a password. */
  function GetCurrentUser(current: Option<ProviderUser>): (r: Option<User>)
    ensures r.Some? <==> current.Some?
    ensures r.Some? ==> r.value.password.None?
    ensures r.Some? ==> r.value.id == current.value.displayName.GetOr("")
    ensures r.Some? ==> r.value.email == current.value.email.GetOr("")
  {
    match current
    case Some(p) => Some(User(p.displayName.GetOr(""), p.email.GetOr(""), None))
    case None => None
  }
}
