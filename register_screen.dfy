/** RegisterScreen: the Register-button validation, the per-field `isError`
    predicates, the local error message the snackbar shows and clears, and
    the callbacks the screen hands to the view model. Rendering is not
    modelled. */
module RegisterForm {
  import opened Wrappers
  import opened Calls
  import opened RegisterState

  /** The four text fields. */
  datatype RegisterFields = RegisterFields(username: string, email: string, password: string, confirmPassword: string)

  /** The resolved `passwords_dont_match` and `complete_all_fields` resources. */
  datatype RegisterTexts = RegisterTexts(passwordsDontMatch: string, completeAllFields: string)

  /** What pressing the Register button does. */
  datatype RegisterClick =
    | SubmitRegistration(username: string, email: string, password: string)
    | RejectRegistration(message: string)

  /** One of the four fields is still empty. */
  predicate AnyEmpty(f: RegisterFields)
    ensures AnyEmpty(f) <==> "" in [f.username, f.email, f.password, f.confirmPassword]
  {
    f.username == "" || f.email == "" || f.password == "" || f.confirmPassword == ""
  }

  /** The Register button's rule: an empty field wins over a mismatch, and
      only a complete form with equal passwords is submitted. */
  function OnRegisterClick(f: RegisterFields, texts: RegisterTexts): (r: RegisterClick)
    ensures AnyEmpty(f) ==> r == RejectRegistration(texts.completeAllFields)
    ensures r.SubmitRegistration? <==> !AnyEmpty(f) && f.password == f.confirmPassword
    ensures r.SubmitRegistration? ==> r == SubmitRegistration(f.username, f.email, f.password)
    ensures !AnyEmpty(f) && f.password != f.confirmPassword ==> r == RejectRegistration(texts.passwordsDontMatch)
  {
    if f.email != "" && f.password != "" && f.confirmPassword != "" && f.username != "" then
      if f.password == f.confirmPassword then SubmitRegistration(f.username, f.email, f.password)
      else RejectRegistration(texts.passwordsDontMatch)
    else
      RejectRegistration(texts.completeAllFields)
  }

  /** A field is drawn in error when it is empty while a message is pending. */
  predicate FieldInError(value: string, errorMessage: string)
    ensures FieldInError(value, errorMessage) <==> |value| == 0 && |errorMessage| > 0
  {
    value == "" && errorMessage != ""
  }

  /** Some field is drawn in error: exactly when a field is empty while a
      message is pending. */
  predicate SomeFieldInError(f: RegisterFields, errorMessage: string)
    ensures SomeFieldInError(f, errorMessage) <==> AnyEmpty(f) && errorMessage != ""
  {
    || FieldInError(f.username, errorMessage)
    || FieldInError(f.email, errorMessage)
    || FieldInError(f.password, errorMessage)
    || FieldInError(f.confirmPassword, errorMessage)
  }

  /** After a rejected click, some field is flagged exactly when the form had
      an empty field: a password mismatch shows its message but flags no
      field. (The resource texts are taken to be non-empty.) */
  lemma RejectionFlagsOnlyEmptyFields(f: RegisterFields, texts: RegisterTexts)
    requires texts.passwordsDontMatch != "" && texts.completeAllFields != ""
    requires OnRegisterClick(f, texts).RejectRegistration?
    ensures SomeFieldInError(f, OnRegisterClick(f, texts).message) <==> AnyEmpty(f)
  {
  }

  class RegisterScreen {
    var fields: RegisterFields
    /** The local message the snackbar shows. */
    var errorMessage: string
    const texts: RegisterTexts

    constructor (texts: RegisterTexts)
      ensures fields == RegisterFields("", "", "", "") && errorMessage == ""
      ensures this.texts == texts
    {
      fields := RegisterFields("", "", "", "");
      errorMessage := "";
      this.texts := texts;
    }

    /** A field's `onValueChange`. */
    method Edit(value: RegisterFields)
      modifies this
      ensures fields == value && errorMessage == old(errorMessage)
    {
      fields := value;
    }

    /** The Register button (enabled only while nothing loads): a valid form
        starts `register` with the fields as typed, an invalid one sets the
        local message and leaves the view model alone. */
    method ClickRegister(vm: RegisterViewModel)
      requires !vm.isLoading
      modifies this, vm
      ensures fields == old(fields)
      ensures OnRegisterClick(old(fields), texts).SubmitRegistration? ==>
        && vm.State() == Next(old(vm.State()), StartRegister(old(fields).username, old(fields).email, old(fields).password))
        && errorMessage == old(errorMessage)
      ensures OnRegisterClick(old(fields), texts).RejectRegistration? ==>
        && vm.State() == old(vm.State())
        && errorMessage == OnRegisterClick(old(fields), texts).message
    {
      if fields.email != "" && fields.password != "" && fields.confirmPassword != "" && fields.username != "" {
        if fields.password == fields.confirmPassword {
          vm.Register(fields.username, fields.email, fields.password);
        } else {
          errorMessage := texts.passwordsDontMatch;
        }
      } else {
        errorMessage := texts.completeAllFields;
      }
    }

    /** The anonymous button (enabled only while nothing loads). */
    method ClickAnonymous(vm: RegisterViewModel)
      requires !vm.isLoading
      modifies vm
      ensures vm.State() == Next(old(vm.State()), StartAnonymous)
    {
      vm.RegisterAnonymous();
    }

    /** A finished call runs the callback the screen handed over: success
        navigates home; a registration error becomes the local message; an
        anonymous error is swallowed. */
    method Deliver(call: Call, cb: Callback) returns (navigateHome: bool)
      modifies this
      ensures navigateHome <==> cb.OnSuccess?
      ensures fields == old(fields)
      ensures errorMessage == (if cb.OnError? && !call.AnonymousCall? then cb.message else old(errorMessage))
    {
      navigateHome := false;
      match cb
      case OnSuccess =>
        navigateHome := true;
      case OnError(m) =>
        if !call.AnonymousCall? {
          errorMessage := m;
        }
    }

    /** The snackbar has shown the message: it is cleared. */
    method SnackbarShown()
      modifies this
      ensures errorMessage == "" && fields == old(fields)
    {
      if errorMessage != "" {
        errorMessage := "";
      }
    }
  }
}
