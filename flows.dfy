/** Whole flows through a screen, its view model, the use cases and the
    repository, for one answer of the identity provider each. */
module Flows {
  import opened Wrappers
  import opened Calls
  import LoginState
  import LoginForm
  import RegisterState
  import RegisterForm

  /** A sign-in the provider rejects still takes the login screen home: the
      repository turns the exception into an `AuthResult.Error`, the view
      model discards it and reports success, and no message is shown. */
  method RejectedSignInNavigatesHome(email: string, password: string, error: Option<string>, emptyFieldsError: string)
    returns (navigatesHome: bool, shown: string, vmError: Option<string>)
    requires email != "" && password != ""
    ensures navigatesHome && shown == "" && vmError.None?
  {
    var vm := new LoginState.LoginViewModel();
    var screen := new LoginForm.LoginScreen(emptyFieldsError);
    screen.EditUsernameOrEmail(email);
    screen.EditPassword(password);
    screen.ClickLogin(vm);
    assert vm.pending == [LoginCall(email, password)];
    var c := Perform(vm.pending[0], Provider(Threw(error), Returned(()), None));
    vm.FinishCall(0, c);
    navigatesHome := screen.ObserveState(vm);
    shown := screen.errorMessage;
    vmError := vm.uiState.errorMessage;
  }

  /** A failed anonymous sign-in on the login screen: the view model records
      the message, but the screen neither shows it nor navigates. */
  method AnonymousFailureNotShown(error: Option<string>, emptyFieldsError: string)
    returns (navigatesHome: bool, shown: string, vmError: Option<string>)
    ensures !navigatesHome && shown == ""
    ensures vmError == Some(error.GetOr(LoginState.AnonymousLoginFailed))
  {
    var vm := new LoginState.LoginViewModel();
    var screen := new LoginForm.LoginScreen(emptyFieldsError);
    screen.ClickAnonymous(vm);
    assert vm.pending == [AnonymousCall];
    var c := Perform(vm.pending[0], Provider(Threw(error), Returned(()), None));
    vm.FinishCall(0, c);
    navigatesHome := screen.ObserveState(vm);
    shown := screen.errorMessage;
    vmError := vm.uiState.errorMessage;
  }

  /** An account creation the provider rejects still runs `onRegistered`:
      the repository answers `AuthResult.Error`, which the view model ignores. */
  method RejectedRegistrationNavigatesHome(
    username: string, email: string, password: string,
    error: Option<string>, texts: RegisterForm.RegisterTexts)
    returns (navigatesHome: bool, shown: string, loading: bool)
    requires username != "" && email != "" && password != ""
    ensures navigatesHome && shown == "" && !loading
  {
    var vm := new RegisterState.RegisterViewModel();
    var screen := new RegisterForm.RegisterScreen(texts);
    screen.Edit(RegisterForm.RegisterFields(username, email, password, password));
    screen.ClickRegister(vm);
    assert |vm.pending| == 1;
    var c := Perform(vm.pending[0], Provider(Returned(None), Threw(error), None));
    var call, cb := vm.FinishCall(0, c);
    navigatesHome := screen.Deliver(call, cb);
    shown := screen.errorMessage;
    loading := vm.isLoading;
  }

  /** A failed anonymous sign-in on the register screen: `onError` is
      invoked with the message, and the screen drops it. */
  method AnonymousRegistrationFailureSwallowed(error: Option<string>, texts: RegisterForm.RegisterTexts)
    returns (navigatesHome: bool, shown: string, loading: bool, passed: RegisterState.Callback)
    ensures !navigatesHome && shown == "" && !loading
    ensures passed == RegisterState.OnError(error.GetOr(RegisterState.AnonymousLoginFailed))
  {
    var vm := new RegisterState.RegisterViewModel();
    var screen := new RegisterForm.RegisterScreen(texts);
    screen.ClickAnonymous(vm);
    assert vm.pending == [AnonymousCall];
    var c := Perform(vm.pending[0], Provider(Threw(error), Returned(()), None));
    var call;
    call, passed := vm.FinishCall(0, c);
    navigatesHome := screen.Deliver(call, passed);
    shown := screen.errorMessage;
    loading := vm.isLoading;
  }

  /** The login screen's fields are flagged after a click with an empty
      field, and only then, until the snackbar has shown the message. */
  method RejectedClickFlagsFieldsUntilShown(usernameOrEmail: string, password: string, emptyFieldsError: string)
    returns (flaggedAfterClick: bool, flaggedAfterSnackbar: bool)
    requires emptyFieldsError != ""
    ensures flaggedAfterClick <==> usernameOrEmail == "" || password == ""
    ensures !flaggedAfterSnackbar
  {
    var vm := new LoginState.LoginViewModel();
    var screen := new LoginForm.LoginScreen(emptyFieldsError);
    screen.EditUsernameOrEmail(usernameOrEmail);
    screen.EditPassword(password);
    screen.ClickLogin(vm);
    flaggedAfterClick := LoginForm.FieldsInError(screen.errorMessage);
    screen.SnackbarShown();
    flaggedAfterSnackbar := LoginForm.FieldsInError(screen.errorMessage);
  }
}
