/** LoginViewModel: a `LoginUiState` record that each coroutine updates with
    field-preserving copies, first when it starts and again when its call
    finishes. What the call returns is discarded. */
module LoginState {
  import opened Wrappers
  import opened Calls

  datatype LoginUiState = LoginUiState(isLoading: bool, errorMessage: Option<string>, success: bool)

  const InitialUi := LoginUiState(false, None, false)
  const LoginFailed := "Login failed"
  const AnonymousLoginFailed := "Anonymous login failed"

  /** The message used when the exception of `call` has none. */
  function FailureFallback(call: Call): string {
    if call.AnonymousCall? then AnonymousLoginFailed else LoginFailed
  }

  /** The copy a coroutine publishes before calling the use case. */
  function Started(s: LoginUiState): (r: LoginUiState)
    ensures r.isLoading && r.errorMessage.None?
    ensures r.success == s.success
  {
    s.(isLoading := true, errorMessage := None)
  }

  /** The copy published when `call` finishes with `c`: a returned call is a
      success whatever it returned, a thrown one sets the message. */
  function Completed(s: LoginUiState, call: Call, c: Completion): (r: LoginUiState)
    ensures !r.isLoading
    ensures !c.Failed? ==> r.success && r.errorMessage == s.errorMessage
    ensures c.Failed? ==> r.success == s.success
    ensures c.Failed? ==> r.errorMessage == Some(c.message.GetOr(FailureFallback(call)))
  {
    match c
    case Failed(m) => s.(isLoading := false, errorMessage := Some(m.GetOr(FailureFallback(call))))
    case _ => s.(isLoading := false, success := true)
  }

  /** The record and the calls launched and not yet finished. */
  datatype LoginVm = LoginVm(ui: LoginUiState, pending: seq<Call>)

  const Initial := LoginVm(InitialUi, [])

  datatype LoginStep =
    | StartLogin(email: string, password: string)
    | StartAnonymous
    | FinishCall(index: nat, completion: Completion)

  predicate Enabled(s: LoginVm, step: LoginStep) {
    step.FinishCall? ==> step.index < |s.pending| && Matches(s.pending[step.index], step.completion)
  }

  /** The loading flag is up only while a call runs, and an error message is
      never shown together with it. */
  predicate Inv(s: LoginVm) {
    && (s.ui.isLoading ==> |s.pending| > 0)
    && (s.ui.errorMessage.Some? ==> !s.ui.isLoading)
  }

  function Next(s: LoginVm, step: LoginStep): (t: LoginVm)
    requires Enabled(s, step)
    ensures Inv(s) ==> Inv(t)
    ensures step.StartLogin? ==> t.pending == s.pending + [LoginCall(step.email, step.password)]
    ensures step.StartAnonymous? ==> t.pending == s.pending + [AnonymousCall]
    ensures !step.FinishCall? ==> t.ui == Started(s.ui)
    ensures step.FinishCall? ==> t.ui == Completed(s.ui, s.pending[step.index], step.completion)
    ensures step.FinishCall? ==> |t.pending| == |s.pending| - 1
  {
    match step
    case StartLogin(email, password) =>
      LoginVm(Started(s.ui), s.pending + [LoginCall(email, password)])
    case StartAnonymous =>
      LoginVm(Started(s.ui), s.pending + [AnonymousCall])
    case FinishCall(i, c) =>
      LoginVm(Completed(s.ui, s.pending[i], c), Without(s.pending, i))
  }

  /** The state after `steps`, or None when one of them cannot happen. */
  function Run(s: LoginVm, steps: seq<LoginStep>): (r: Option<LoginVm>)
    requires Inv(s)
    ensures r.Some? ==> Inv(r.value)
    decreases |steps|
  {
    if steps == [] then Some(s)
    else if Enabled(s, steps[0]) then Run(Next(s, steps[0]), steps[1..])
    else None
  }

  /** Nothing ever resets `success`: once a call has returned, the record
      reports success for good, even after later failures. */
  lemma {:induction false} SuccessIsSticky(s: LoginVm, steps: seq<LoginStep>)
    requires Inv(s) && s.ui.success
    ensures Run(s, steps).Some? ==> Run(s, steps).value.ui.success
    decreases |steps|
  {
    if steps != [] && Enabled(s, steps[0]) {
      SuccessIsSticky(Next(s, steps[0]), steps[1..]);
    }
  }

  /** When no call is running, the loading flag is down. */
  lemma IdleWhenNothingRuns(s: LoginVm, steps: seq<LoginStep>)
    requires Inv(s)
    requires Run(s, steps).Some? && Run(s, steps).value.pending == []
    ensures !Run(s, steps).value.ui.isLoading
  {
  }

  /** Two overlapping calls: the first to finish lowers the loading flag
      while the second still runs. */
  lemma OverlapClearsLoadingEarly(email: string, password: string, c: Completion)
    requires Matches(LoginCall(email, password), c)
    ensures var r := Run(Initial, [StartLogin(email, password), StartAnonymous, FinishCall(0, c)]);
            r.Some? && !r.value.ui.isLoading && r.value.pending == [AnonymousCall]
  {
    var s1 := Next(Initial, StartLogin(email, password));
    var s2 := Next(s1, StartAnonymous);
    assert s2.pending == [LoginCall(email, password), AnonymousCall];
    var s3 := Next(s2, FinishCall(0, c));
    assert s3.pending == [AnonymousCall];
    assert Run(s3, []) == Some(s3);
    assert Run(s2, [FinishCall(0, c)]) == Some(s3);
    assert [StartAnonymous, FinishCall(0, c)][1..] == [FinishCall(0, c)];
    assert Run(s1, [StartAnonymous, FinishCall(0, c)]) == Some(s3);
    assert [StartLogin(email, password), StartAnonymous, FinishCall(0, c)][1..] == [StartAnonymous, FinishCall(0, c)];
  }

  class LoginViewModel {
    var uiState: LoginUiState
    /** The coroutines launched and not yet finished. */
    var pending: seq<Call>

    function State(): LoginVm
      reads this
    {
      LoginVm(uiState, pending)
    }

    constructor ()
      ensures State() == Initial
    {
      uiState := InitialUi;
      pending := [];
    }

    /** `login`: the coroutine starts and calls the login use case. */
    method Login(email: string, password: string)
      modifies this
      ensures State() == Next(old(State()), StartLogin(email, password))
    {
      uiState := uiState.(isLoading := true, errorMessage := None);
      pending := pending + [LoginCall(email, password)];
    }

    /** `loginAnonymous`: the coroutine starts and calls the anonymous use case. */
    method LoginAnonymous()
      modifies this
      ensures State() == Next(old(State()), StartAnonymous)
    {
      uiState := uiState.(isLoading := true, errorMessage := None);
      pending := pending + [AnonymousCall];
    }

    /** The `index`-th running call finishes with `c`. */
    method FinishCall(index: nat, c: Completion)
      requires index < |pending| && Matches(pending[index], c)
      modifies this
      ensures State() == Next(old(State()), LoginStep.FinishCall(index, c))
      ensures !uiState.isLoading
    {
      var call := pending[index];
      pending := Without(pending, index);
      if c.Failed? {
        var fallback := if call.AnonymousCall? then AnonymousLoginFailed else LoginFailed;
        uiState := uiState.(isLoading := false, errorMessage := Some(c.message.GetOr(fallback)));
      } else {
        uiState := uiState.(isLoading := false, success := true);
      }
    }
  }
}
