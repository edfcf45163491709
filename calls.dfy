/** The use-case calls the view models launch in `viewModelScope`, and what
    such a call delivers when it finishes. */
module Calls {
  import opened Wrappers
  import opened Model
  import Repository
  import UseCases

  /** A launched call, with the arguments its coroutine captured. */
  datatype Call = LoginCall(email: string, password: string) | RegisterCall(user: User) | AnonymousCall

  /** How a launched call finished: `login` and `register` return an
      `AuthResult`, `loginAnonymously` a `User`, and any of them may throw. */
  datatype Completion =
    | ResultReturned(result: AuthResult)
    | UserReturned(user: User)
    | Failed(message: Option<string>)

  /** The completion has the type the call's use case returns. */
  predicate Matches(call: Call, c: Completion) {
    match c
    case ResultReturned(_) => !call.AnonymousCall?
    case UserReturned(_) => call.AnonymousCall?
    case Failed(_) => true
  }

  /** The calls still running once the `i`-th of them has finished. */
  function Without(pending: seq<Call>, i: nat): (r: seq<Call>)
    requires i < |pending|
    ensures |r| == |pending| - 1
  {
    pending[..i] + pending[i + 1..]
  }

  /** The identity provider's answers a call may consult. */
  datatype Provider = Provider(
    signIn: Outcome<Option<Repository.ProviderUser>>,
    create: Outcome<()>,
    current: Option<Repository.ProviderUser>)

  /** What a call delivers when it runs through the use cases and the
      repository against the given provider. Login and register never throw,
      because the repository catches every provider exception for them. */
  function Perform(call: Call, p: Provider): (c: Completion)
    ensures Matches(call, c)
    ensures !call.AnonymousCall? ==> c.ResultReturned?
    ensures call.LoginCall? ==> (c.result.Error? <==> p.signIn.Threw?)
    ensures call.AnonymousCall? ==> (c.Failed? <==> p.signIn.Threw?)
    ensures call.AnonymousCall? && c.Failed? ==> c.message == p.signIn.message
  {
    match call
    case LoginCall(email, password) => ResultReturned(UseCases.Login(email, password, p.signIn))
    case RegisterCall(user) => ResultReturned(UseCases.Register(user, p.create, p.current))
    case AnonymousCall =>
      match UseCases.LoginAnonymously(p.signIn)
      case Returned(u) => UserReturned(u)
      case Threw(m) => Failed(m)
  }
}
