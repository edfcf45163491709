/** RegisterViewModel: a loading flag raised when a coroutine starts and
    lowered in `finally`, and a success or error callback per call. */
module RegisterState {
  import opened Wrappers
  import opened Calls
  import Model

  /** The callback a finished call invokes. */
  datatype Callback = OnSuccess | OnError(message: string)

  const RegistrationFailed := "Registration failed"
  const AnonymousLoginFailed := "Anonymous login failed"

  /** The message passed to `onError` when the exception of `call` has none. */
  function FailureFallback(call: Call): string {
    if call.AnonymousCall? then AnonymousLoginFailed else RegistrationFailed
  }

  /** The callback invoked when `call` finishes with `c`: `onSuccess` whenever
      the use case returned, whatever it returned; `onError` only when it threw. */
  function Invoked(call: Call, c: Completion): (cb: Callback)
    ensures cb.OnError? <==> c.Failed?
    ensures cb.OnError? ==> cb.message == c.message.GetOr(FailureFallback(call))
  {
    match c
    case Failed(m) => OnError(m.GetOr(FailureFallback(call)))
    case _ => OnSuccess
  }

  /** The loading flag and the calls launched and not yet finished. */
  datatype RegisterVm = RegisterVm(isLoading: bool, pending: seq<Call>)

  const Initial := RegisterVm(false, [])

  datatype RegisterStep =
    | StartRegister(username: string, email: string, password: string)
    | StartAnonymous
    | FinishCall(index: nat, completion: Completion)

  predicate Enabled(s: RegisterVm, step: RegisterStep) {
    step.FinishCall? ==> step.index < |s.pending| && Matches(s.pending[step.index], step.completion)
  }

  /** The loading flag is up only while a call runs. */
  predicate Inv(s: RegisterVm) {
    s.isLoading ==> |s.pending| > 0
  }

  function Next(s: RegisterVm, step: RegisterStep): (t: RegisterVm)
    requires Enabled(s, step)
    ensures Inv(s) ==> Inv(t)
    ensures t.isLoading <==> !step.FinishCall?
    ensures step.StartRegister? ==>
      t.pending == s.pending + [RegisterCall(Model.User(step.username, step.email, Some(step.password)))]
    ensures step.StartAnonymous? ==> t.pending == s.pending + [AnonymousCall]
    ensures step.FinishCall? ==> t.pending == Without(s.pending, step.index)
  {
    match step
    case StartRegister(username, email, password) =>
      RegisterVm(true, s.pending + [RegisterCall(Model.User(username, email, Some(password)))])
    case StartAnonymous =>
      RegisterVm(true, s.pending + [AnonymousCall])
    case FinishCall(i, _) =>
      RegisterVm(false, Without(s.pending, i))
  }

  /** The state after `steps`, or None when one of them cannot happen. */
  function Run(s: RegisterVm, steps: seq<RegisterStep>): (r: Option<RegisterVm>)
    requires Inv(s)
    ensures r.Some? ==> Inv(r.value)
    decreases |steps|
  {
    if steps == [] then Some(s)
    else if Enabled(s, steps[0]) then Run(Next(s, steps[0]), steps[1..])
    else None
  }

  /** The callbacks the finished calls of `steps` invoke, in order. */
  function Callbacks(s: RegisterVm, steps: seq<RegisterStep>): (cbs: seq<Callback>)
    decreases |steps|
  {
    if steps == [] || !Enabled(s, steps[0]) then []
    else
      var rest := Callbacks(Next(s, steps[0]), steps[1..]);
      match steps[0]
      case FinishCall(i, c) => [Invoked(s.pending[i], c)] + rest
      case _ => rest
  }

  /** The number of completions in `steps` that threw. */
  function Throws(steps: seq<RegisterStep>): nat {
    if steps == [] then 0
    else (if steps[0].FinishCall? && steps[0].completion.Failed? then 1 else 0) + Throws(steps[1..])
  }

  /** The number of `onError` invocations in `cbs`. */
  function ErrorCount(cbs: seq<Callback>): nat {
    if cbs == [] then 0
    else (if cbs[0].OnError? then 1 else 0) + ErrorCount(cbs[1..])
  }

  /** Over any run, `onError` is invoked exactly once per call that threw and
      never otherwise. */
  lemma {:induction false} ErrorsExactlyFromThrows(s: RegisterVm, steps: seq<RegisterStep>)
    requires Inv(s) && Run(s, steps).Some?
    ensures ErrorCount(Callbacks(s, steps)) == Throws(steps)
    decreases |steps|
  {
    if steps != [] {
      var t := Next(s, steps[0]);
      ErrorsExactlyFromThrows(t, steps[1..]);
      var rest := Callbacks(t, steps[1..]);
      if steps[0].FinishCall? {
        var cb := Invoked(s.pending[steps[0].index], steps[0].completion);
        assert Callbacks(s, steps) == [cb] + rest;
        assert ([cb] + rest)[1..] == rest;
      }
    }
  }

  class RegisterViewModel {
    var isLoading: bool
    /** The coroutines launched and not yet finished. */
    var pending: seq<Call>

    function State(): RegisterVm
      reads this
    {
      RegisterVm(isLoading, pending)
    }

    constructor ()
      ensures State() == Initial
    {
      isLoading := false;
      pending := [];
    }

    /** `register`: the coroutine raises the flag and calls the register use
        case with the user built from the arguments as given. */
    method Register(username: string, email: string, password: string)
      modifies this
      ensures State() == Next(old(State()), StartRegister(username, email, password))
    {
      isLoading := true;
      pending := pending + [RegisterCall(Model.User(username, email, Some(password)))];
    }

    /** `registerAnonymous`: the coroutine raises the flag and calls the
        anonymous use case. */
    method RegisterAnonymous()
      modifies this
      ensures State() == Next(old(State()), StartAnonymous)
    {
      isLoading := true;
      pending := pending + [AnonymousCall];
    }

    /** The `index`-th running call finishes with `c`; `cb` is the callback
        it invokes before `finally` lowers the flag. */
    method FinishCall(index: nat, c: Completion) returns (call: Call, cb: Callback)
      requires index < |pending| && Matches(pending[index], c)
      modifies this
      ensures call == old(pending[index])
      ensures State() == Next(old(State()), RegisterStep.FinishCall(index, c))
      ensures cb == Invoked(call, c)
    {
      call := pending[index];
      pending := Without(pending, index);
      if c.Failed? {
        var fallback := if call.AnonymousCall? then AnonymousLoginFailed else RegistrationFailed;
        cb := OnError(c.message.GetOr(fallback));
      } else {
        cb := OnSuccess;
      }
      isLoading := false;
    }
  }
}
