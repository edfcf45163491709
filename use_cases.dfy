/** AuthUseCases: one-line forwarders to the repository, and the definition
    of "logged in". */
module UseCases {
  import opened Wrappers
  import opened Model
  import Repository

  /** `register(user)`: the repository's answer, unchanged. */
  function Register(user: User, create: Outcome<()>, current: Option<Repository.ProviderUser>): (r: AuthResult)
    ensures r == Repository.Register(user, create, current)
    ensures r.Success? ==> r.user.email == user.email && r.user.password == user.password
  {
    Repository.Register(user, create, current)
  }

  /** `login(email, password)`: the credentials reach the repository as given
      and its answer comes back unchanged. */
  function Login(email: string, password: string, signIn: Outcome<Option<Repository.ProviderUser>>): (r: AuthResult)
    ensures r == Repository.Login(email, password, signIn)
    ensures r.Success? ==> r.user.email == email && r.user.password == Some(password)
  {
    Repository.Login(email, password, signIn)
  }

  /** `loginAnonymously()`: the repository's user, or its exception. */
  function LoginAnonymously(signIn: Outcome<Option<Repository.ProviderUser>>): (r: Outcome<User>)
    ensures r == Repository.LoginAnonymously(signIn)
    ensures r.Threw? <==> signIn.Threw?
  {
    Repository.LoginAnonymously(signIn)
  }

  /** `isUserLoggedIn()`: whether the repository reports a current user. */
  function IsUserLoggedIn(current: Option<Repository.ProviderUser>): (r: bool)
    ensures r <==> current.Some?
  {
    Repository.GetCurrentUser(current) != None
  }
}
