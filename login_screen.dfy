/** LoginScreen: the Login-button validation, the `isError`/`enabled`
    predicates, the local error message the snackbar shows and clears, and
    the navigation on success. Rendering is not modelled. */
module LoginForm {
  import opened Wrappers
  import opened LoginState

  /** What pressing the Login button does. */
  datatype LoginClick = SubmitLogin(email: string, password: string) | RejectLogin(message: string)

  /** The Login button's rule: both fields filled, or the empty-fields text. */
  function OnLoginClick(usernameOrEmail: string, password: string, emptyFieldsError: string): (r: LoginClick)
    ensures r.SubmitLogin? <==> usernameOrEmail != "" && password != ""
    ensures r.SubmitLogin? ==> r.email == usernameOrEmail && r.password == password
    ensures r.RejectLogin? ==> r.message == emptyFieldsError
  {
    if usernameOrEmail != "" && password != "" then SubmitLogin(usernameOrEmail, password)
    else RejectLogin(emptyFieldsError)
  }

  /** Both text fields are drawn in error exactly while a message is pending. */
  predicate FieldsInError(errorMessage: string)
    ensures FieldsInError(errorMessage) <==> |errorMessage| > 0
  {
    errorMessage != ""
  }

  /** The text fields and the three buttons accept input only while no call
      is loading. */
  predicate ControlsEnabled(ui: LoginUiState)
    ensures ControlsEnabled(ui) <==> ui.isLoading == false
  {
    !ui.isLoading
  }

  /** Whenever no call is running, the screen's controls are enabled. */
  lemma ControlsEnabledWhenNothingRuns(s: LoginVm)
    requires Inv(s) && s.pending == []
    ensures ControlsEnabled(s.ui)
  {
  }

  class LoginScreen {
    var usernameOrEmail: string
    var password: string
    /** The local message the snackbar shows; the view model's own
        `errorMessage` is never read. */
    var errorMessage: string
    /** The resolved `error_empty_fields` string resource. */
    const emptyFieldsError: string

    constructor (emptyFieldsError: string)
      ensures usernameOrEmail == "" && password == "" && errorMessage == ""
      ensures this.emptyFieldsError == emptyFieldsError
    {
      usernameOrEmail := "";
      password := "";
      errorMessage := "";
      this.emptyFieldsError := emptyFieldsError;
    }

    method EditUsernameOrEmail(value: string)
      modifies this
      ensures usernameOrEmail == value
      ensures password == old(password) && errorMessage == old(errorMessage)
    {
      usernameOrEmail := value;
    }

    method EditPassword(value: string)
      modifies this
      ensures password == value
      ensures usernameOrEmail == old(usernameOrEmail) && errorMessage == old(errorMessage)
    {
      password := value;
    }

    /** The Login button (enabled only while nothing loads): a valid form
        starts `login` with the fields as typed, an invalid one sets the
        local message and leaves the view model alone. */
    method ClickLogin(vm: LoginViewModel)
      requires ControlsEnabled(vm.uiState)
      modifies this, vm
      ensures usernameOrEmail == old(usernameOrEmail) && password == old(password)
      ensures OnLoginClick(old(usernameOrEmail), old(password), emptyFieldsError).SubmitLogin? ==>
        && vm.State() == Next(old(vm.State()), StartLogin(old(usernameOrEmail), old(password)))
        && errorMessage == old(errorMessage)
      ensures OnLoginClick(old(usernameOrEmail), old(password), emptyFieldsError).RejectLogin? ==>
        && vm.State() == old(vm.State())
        && errorMessage == emptyFieldsError
    {
      if usernameOrEmail != "" && password != "" {
        vm.Login(usernameOrEmail, password);
      } else {
        errorMessage := emptyFieldsError;
      }
    }

    /** The anonymous button (enabled only while nothing loads). */
    method ClickAnonymous(vm: LoginViewModel)
      requires ControlsEnabled(vm.uiState)
      modifies vm
      ensures vm.State() == Next(old(vm.State()), StartAnonymous)
    {
      vm.LoginAnonymous();
    }

    /** The snackbar has shown the message: it is cleared. */
    method SnackbarShown()
      modifies this
      ensures errorMessage == ""
      ensures usernameOrEmail == old(usernameOrEmail) && password == old(password)
    {
      if errorMessage != "" {
        errorMessage := "";
      }
    }

    /** The effect keyed on the view model's state: `onLoggedIn` fires
        exactly when it reports success. */
    method ObserveState(vm: LoginViewModel) returns (loggedIn: bool)
      ensures loggedIn <==> vm.uiState.success
    {
      loggedIn := false;
      if vm.uiState.success {
        loggedIn := true;
      }
    }
  }
}
