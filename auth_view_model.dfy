/** AuthViewModel: the combined state holder. An `AuthEvent` publishes
    `Loading` (or the password-mismatch error) and launches a use-case call;
    the call's completion publishes `Success` or `Error`. Construction
    launches the logged-in check. */
module CombinedAuth {
  import opened Wrappers
  import opened Calls
  import Model
  import Repository
  import UseCases

  datatype AuthEvent =
    | Login(email: string, password: string)
    | Register(username: string, email: string, password: string, confirmPassword: string)
    | LoginAnonymous

  datatype AuthUiState = Idle | Loading | Success(message: string) | Error(errorMessage: string)

  const LoggedInMessage := "Logged in successfully"
  const RegisteredMessage := "Registered successfully"
  const AnonymousMessage := "Logged in anonymously"
  const PasswordsDoNotMatch := "Passwords do not match"
  const UnexpectedError := "An unexpected error occurred"

  /** The states a finished operation leaves behind. */
  predicate Terminal(s: AuthUiState) {
    s.Success? || s.Error?
  }

  /** `handleAuthResult`: a repository answer as a UI state. */
  function HandleAuthResult(result: Model.AuthResult, successMessage: string): (s: AuthUiState)
    ensures Terminal(s)
    ensures s.Success? <==> result.Success?
    ensures s.Success? ==> s.message == successMessage
    ensures s.Error? ==> s.errorMessage == result.message
  {
    match result
    case Success(_) => AuthUiState.Success(successMessage)
    case Error(m) => AuthUiState.Error(m)
  }

  /** `handleError`: a caught exception as a UI state. */
  function HandleError(message: Option<string>): (s: AuthUiState)
    ensures s.Error?
    ensures message.Some? ==> s.errorMessage == message.value
    ensures message.None? ==> s.errorMessage == UnexpectedError
  {
    AuthUiState.Error(message.GetOr(UnexpectedError))
  }

  /** The use-case call an event launches. */
  function Launched(e: AuthEvent): (c: Option<Call>)
    ensures c.None? <==> e.Register? && e.password != e.confirmPassword
    ensures e.Login? ==> c == Some(LoginCall(e.email, e.password))
    ensures e.Register? && c.Some? ==> c.value == RegisterCall(Model.User(e.username, e.email, Some(e.password)))
    ensures e.LoginAnonymous? ==> c == Some(AnonymousCall)
  {
    match e
    case Login(email, password) => Some(LoginCall(email, password))
    case Register(username, email, password, confirmPassword) =>
      if password != confirmPassword then None
      else Some(RegisterCall(Model.User(username, email, Some(password))))
    case LoginAnonymous => Some(AnonymousCall)
  }

  /** The state `onEvent` publishes before its call runs: `Loading` exactly
      when a call is launched, the mismatch error otherwise. */
  function Dispatched(e: AuthEvent): (s: AuthUiState)
    ensures s == Loading <==> Launched(e).Some?
    ensures s != Loading ==> s == AuthUiState.Error(PasswordsDoNotMatch)
  {
    match e
    case Register(_, _, password, confirmPassword) =>
      if password != confirmPassword then AuthUiState.Error(PasswordsDoNotMatch) else Loading
    case _ => Loading
  }

  /** The fixed message each operation reports on success. */
  function SuccessMessage(call: Call): string {
    match call
    case LoginCall(_, _) => LoggedInMessage
    case RegisterCall(_) => RegisteredMessage
    case AnonymousCall => AnonymousMessage
  }

  /** The call returned, and what it returned is not an `AuthResult.Error`. */
  predicate Succeeded(c: Completion) {
    c.UserReturned? || (c.ResultReturned? && c.result.Success?)
  }

  /** The state the coroutine of `call` publishes when it finishes with `c`. */
  function Finished(call: Call, c: Completion): (s: AuthUiState)
    requires Matches(call, c)
    ensures Terminal(s)
    ensures s.Success? <==> Succeeded(c)
    ensures s.Success? ==> s.message == SuccessMessage(call)
    ensures c.ResultReturned? && c.result.Error? ==> s == AuthUiState.Error(c.result.message)
    ensures c.Failed? ==> s == AuthUiState.Error(c.message.GetOr(UnexpectedError))
  {
    match c
    case Failed(m) => HandleError(m)
    case UserReturned(_) => AuthUiState.Success(AnonymousMessage)
    case ResultReturned(result) =>
      HandleAuthResult(result, if call.LoginCall? then LoggedInMessage else RegisteredMessage)
  }

  /** The view model's state: the published UI state, the logged-in flag,
      whether the logged-in check is still running, and the calls launched
      by events that have not finished. */
  datatype Vm = Vm(ui: AuthUiState, loggedIn: bool, checking: bool, pending: seq<Call>)

  /** At the start of `init`, before the logged-in check has run. */
  const Initial := Vm(Idle, false, true, [])

  /** One thing that can happen to the view model. */
  datatype Step =
    | Send(event: AuthEvent)
    | Finish(index: nat, completion: Completion)
    | CheckFinished(current: Option<Repository.ProviderUser>)

  /** A completion belongs to a running call; the check finishes once. */
  predicate Enabled(s: Vm, step: Step) {
    match step
    case Send(_) => true
    case Finish(i, c) => i < |s.pending| && Matches(s.pending[i], c)
    case CheckFinished(_) => s.checking
  }

  /** `Loading` is shown only while some call runs, `Idle` only before any
      event, and the logged-in flag stays false until the check finishes. */
  predicate Inv(s: Vm) {
    && (s.ui == Loading ==> |s.pending| > 0)
    && (s.ui == Idle ==> s.pending == [])
    && (s.checking ==> !s.loggedIn)
  }

  function Next(s: Vm, step: Step): (t: Vm)
    requires Enabled(s, step)
    ensures Inv(s) ==> Inv(t)
    ensures step.Send? ==> t.ui == Dispatched(step.event) && t.loggedIn == s.loggedIn
    ensures step.Send? && Launched(step.event).None? ==> t.pending == s.pending
    ensures step.Send? && Launched(step.event).Some? ==> t.pending == s.pending + [Launched(step.event).value]
    ensures step.Finish? ==> Terminal(t.ui) && t.loggedIn == s.loggedIn && |t.pending| == |s.pending| - 1
    ensures step.CheckFinished? ==> t.loggedIn == step.current.Some? && !t.checking
    ensures step.CheckFinished? ==> t.ui == s.ui && t.pending == s.pending
  {
    match step
    case Send(e) =>
      var launched := if Launched(e).Some? then [Launched(e).value] else [];
      s.(ui := Dispatched(e), pending := s.pending + launched)
    case Finish(i, c) =>
      s.(ui := Finished(s.pending[i], c), pending := Without(s.pending, i))
    case CheckFinished(current) =>
      s.(loggedIn := UseCases.IsUserLoggedIn(current), checking := false)
  }

  /** The state after `steps`, or None when one of them cannot happen. */
  function Run(s: Vm, steps: seq<Step>): (r: Option<Vm>)
    requires Inv(s)
    ensures r.Some? ==> Inv(r.value)
    decreases |steps|
  {
    if steps == [] then Some(s)
    else if Enabled(s, steps[0]) then Run(Next(s, steps[0]), steps[1..])
    else None
  }

  /** Once anything has been published, `Idle` never comes back. */
  lemma {:induction false} NeverIdleAgain(s: Vm, steps: seq<Step>)
    requires Inv(s) && s.ui != Idle
    ensures Run(s, steps).Some? ==> Run(s, steps).value.ui != Idle
    decreases |steps|
  {
    if steps != [] && Enabled(s, steps[0]) {
      NeverIdleAgain(Next(s, steps[0]), steps[1..]);
    }
  }

  /** After the check has finished, nothing changes the logged-in flag:
      logging in through `onEvent` never sets it. */
  lemma {:induction false} LoggedInSettled(s: Vm, steps: seq<Step>)
    requires Inv(s) && !s.checking
    ensures Run(s, steps).Some? ==> Run(s, steps).value.loggedIn == s.loggedIn
    decreases |steps|
  {
    if steps != [] && Enabled(s, steps[0]) {
      LoggedInSettled(Next(s, steps[0]), steps[1..]);
    }
  }

  /** A provider failure on login reaches the UI as the repository's message
      (or "Login failed"): the view model's own fallback for a null message
      is never used for login. */
  lemma LoginFailureMessage(email: string, password: string, p: Provider)
    requires p.signIn.Threw?
    ensures Finished(LoginCall(email, password), Perform(LoginCall(email, password), p))
         == AuthUiState.Error(p.signIn.message.GetOr(Repository.LoginFailed))
  {
  }

  class AuthViewModel {
    var uiState: AuthUiState
    var isUserLoggedIn: bool
    /** The logged-in check has not finished; true only inside `init`. */
    var checking: bool
    /** The coroutines events launched that have not finished. */
    var pending: seq<Call>

    function State(): Vm
      reads this
    {
      Vm(uiState, isUserLoggedIn, checking, pending)
    }

    /** Runs `init`. The check it launches never suspends (reading the
        provider's current user is not a suspending call), so it finishes
        before construction returns; `current` is the provider's current user. */
    constructor (current: Option<Repository.ProviderUser>)
      ensures State() == Next(Initial, CheckFinished(current))
      ensures uiState == Idle && pending == [] && !checking
      ensures isUserLoggedIn == current.Some?
    {
      uiState := Idle;
      isUserLoggedIn := false;
      checking := true;
      pending := [];
      new;
      CheckIfUserLoggedIn(current);
    }

    /** `checkIfUserLoggedIn`: the flag becomes the use case's answer for the
        provider's current user. */
    method CheckIfUserLoggedIn(current: Option<Repository.ProviderUser>)
      requires checking
      modifies this
      ensures State() == Next(old(State()), CheckFinished(current))
      ensures isUserLoggedIn == current.Some?
    {
      isUserLoggedIn := UseCases.IsUserLoggedIn(current);
      checking := false;
    }

    method OnEvent(event: AuthEvent)
      modifies this
      ensures State() == Next(old(State()), Send(event))
    {
      match event
      case Login(email, password) => HandleLogin(email, password);
      case Register(username, email, password, confirmPassword) =>
        HandleRegister(username, email, password, confirmPassword);
      case LoginAnonymous => HandleAnonymousLogin();
    }

    method HandleLogin(email: string, password: string)
      modifies this
      ensures uiState == Loading && pending == old(pending) + [LoginCall(email, password)]
      ensures isUserLoggedIn == old(isUserLoggedIn) && checking == old(checking)
    {
      uiState := Loading;
      pending := pending + [LoginCall(email, password)];
    }

    method HandleRegister(username: string, email: string, password: string, confirmPassword: string)
      modifies this
      ensures password != confirmPassword ==> uiState == AuthUiState.Error(PasswordsDoNotMatch) && pending == old(pending)
      ensures password == confirmPassword ==> uiState == Loading
      ensures password == confirmPassword ==>
        pending == old(pending) + [RegisterCall(Model.User(username, email, Some(password)))]
      ensures isUserLoggedIn == old(isUserLoggedIn) && checking == old(checking)
    {
      if password != confirmPassword {
        uiState := AuthUiState.Error(PasswordsDoNotMatch);
        return;
      }
      uiState := Loading;
      pending := pending + [RegisterCall(Model.User(username, email, Some(password)))];
    }

    method HandleAnonymousLogin()
      modifies this
      ensures uiState == Loading && pending == old(pending) + [AnonymousCall]
      ensures isUserLoggedIn == old(isUserLoggedIn) && checking == old(checking)
    {
      uiState := Loading;
      pending := pending + [AnonymousCall];
    }

    /** The `index`-th running call finishes with `c`. */
    method FinishCall(index: nat, c: Completion)
      requires index < |pending| && Matches(pending[index], c)
      modifies this
      ensures State() == Next(old(State()), Finish(index, c))
      ensures Terminal(uiState)
    {
      var call := pending[index];
      pending := Without(pending, index);
      match c
      case Failed(m) =>
        uiState := HandleError(m);
      case UserReturned(_) =>
        uiState := AuthUiState.Success(AnonymousMessage);
      case ResultReturned(result) =>
        if call.LoginCall? {
          uiState := HandleAuthResult(result, LoggedInMessage);
        } else {
          uiState := HandleAuthResult(result, RegisteredMessage);
        }
    }
  }
}
