# Login-With-Compose: authentication state coordination

A Dafny model of the authentication layer of a small Android app with login,
registration and anonymous sign-in. It covers the layer between the screens
and the identity provider (Firebase Auth):

- **Repository** (`AuthRepositoryImpl`): turns what the provider did into an
  `AuthResult` or a `User`, using fixed default messages.
- **Use cases** (`AuthUseCases`): forward to the repository. "Logged in"
  means "the repository reports a current user".
- **AuthViewModel**: the combined state holder, `Idle -> Loading ->
  Success | Error`, with a password-confirmation guard.
- **LoginViewModel**: a `LoginUiState` record updated by field-preserving
  copies.
- **RegisterViewModel**: a loading flag cleared in `finally`, plus success and
  error callbacks.
- **LoginScreen / RegisterScreen**: the button validation, the
  `isError`/`enabled` predicates, the local error message that the snackbar
  shows and then clears, and navigation on success.

Every provider call is an input outcome:
`Outcome<T> = Returned(T) | Threw(message: Option<string>)`. `Calls.Provider`
groups the provider's answers for one call. `Calls.Perform` runs a call
through the use cases and the repository.

Each view model launches its use-case call in a coroutine. The model splits
this into two steps:

- A *start* step publishes the loading state and appends the call to the
  `pending` field, which lists the calls still running.
- A *finish* step names the index of a pending call and what the call
  delivered (`Calls.Completion`).

Overlapping calls can therefore be expressed. Each view model has two parts:

- A pure specification: a state datatype, `Next`, and `Run` over a sequence
  of steps. `Run` keeps an invariant, proved by recursion.
- A class whose methods are proved to implement `Next`.

`AuthViewModel` maps the `AuthResult` it receives to success or error
(AuthViewModel.kt:47-48). `LoginViewModel` and `RegisterViewModel` call the
same use cases but discard the result (LoginViewModel.kt:24,
RegisterViewModel.kt:31).

Several proved properties expose behaviour of the app as written:

- The login and register view models discard the `AuthResult`. The repository
  catches every provider exception for login and register. So a rejected
  sign-in or account creation still reports success, and the screen navigates
  home (`Flows.RejectedSignInNavigatesHome`,
  `Flows.RejectedRegistrationNavigatesHome`).
- `LoginUiState.success` is never reset (`LoginState.SuccessIsSticky`).
- When two calls overlap, the first one to finish clears the loading flag
  while the other is still running (`LoginState.OverlapClearsLoadingEarly`).
  The screens disable their buttons while loading, so this overlap needs a
  caller that gets past that guard, for example a second tap before the
  screen has recomposed.
- `AuthViewModel.isUserLoggedIn` is only the answer of the startup check,
  which finishes inside `init`. Logging in through events never changes it
  (`CombinedAuth.LoggedInSettled`).

## Model

| member | source | states |
|---|---|---|
| Repository.Register | data/src/main/java/com/rayadev/data/repository/AuthRepositoryImpl.kt:13-21 | the result is an error exactly when the user has a password and account creation threw, with the exception's message or "Registration failed"; on success the user keeps the input email and password, and its id is the provider's display name or "" |
| Repository.Login | data/src/main/java/com/rayadev/data/repository/AuthRepositoryImpl.kt:23-31 | the result is an error exactly when sign-in threw, with the exception's message or "Login failed"; on success the user carries the input email and password and the provider's display name (or "") as id |
| Repository.LoginAnonymously | data/src/main/java/com/rayadev/data/repository/AuthRepositoryImpl.kt:33-37 | a provider exception propagates with its message unchanged; otherwise the user has password "", and id and email from the provider or "" when it reports none |
| Repository.GetCurrentUser | data/src/main/java/com/rayadev/data/repository/AuthRepositoryImpl.kt:39-43 | the result is present exactly when the provider has a current user; it then has no password, and id and email from the provider or "" |
| Repository.IdOf | data/src/main/java/com/rayadev/data/repository/AuthRepositoryImpl.kt:17-36 | the id the repository gives a user is the provider's display name, or "" when there is no user or no display name |
| UseCases.Register | domain/src/main/java/com/rayadev/domain/usecase/AuthUseCases.kt:11-13 | returns the repository's result unchanged; a success keeps the given email and password |
| UseCases.Login | domain/src/main/java/com/rayadev/domain/usecase/AuthUseCases.kt:15-17 | passes email and password through and returns the repository's result unchanged |
| UseCases.LoginAnonymously | domain/src/main/java/com/rayadev/domain/usecase/AuthUseCases.kt:19-21 | returns the repository's user, or its exception, unchanged; it throws exactly when the provider threw |
| UseCases.IsUserLoggedIn | domain/src/main/java/com/rayadev/domain/usecase/AuthUseCases.kt:23-25 | true exactly when the provider has a current user |
| Calls.Perform | data/src/main/java/com/rayadev/data/repository/AuthRepositoryImpl.kt:13-37 | what a launched call delivers through the use cases and the repository: always the right type for the call; login and register never throw; a login result is an error exactly when the provider threw; anonymous login throws exactly when the provider threw, with its message |
| CombinedAuth.HandleAuthResult | presentation/src/main/java/com/rayadev/presentation/auth/AuthViewModel.kt:83-92 | terminal state; Success with the operation's message exactly when the result is a success; otherwise Error with the result's message unchanged |
| CombinedAuth.HandleError | presentation/src/main/java/com/rayadev/presentation/auth/AuthViewModel.kt:94-97 | an Error carrying the exception's message, or "An unexpected error occurred" when it is null |
| CombinedAuth.Launched | presentation/src/main/java/com/rayadev/presentation/auth/AuthViewModel.kt:35-76 | no call is launched exactly for a Register event whose passwords differ; otherwise the launched call carries the event's email and password, or `User(username, email, password)` |
| CombinedAuth.Dispatched | presentation/src/main/java/com/rayadev/presentation/auth/AuthViewModel.kt:43-72 | an event publishes Loading exactly when it launches a call, and "Passwords do not match" otherwise |
| CombinedAuth.Finished | presentation/src/main/java/com/rayadev/presentation/auth/AuthViewModel.kt:45-97 | a finished call publishes a terminal state: Success exactly when the call returned something other than `AuthResult.Error`, with "Logged in successfully", "Registered successfully" or "Logged in anonymously" (whatever user the anonymous call returned); the result's own message for `AuthResult.Error`; the exception's message or the fallback for a thrown call |
| CombinedAuth.Next | presentation/src/main/java/com/rayadev/presentation/auth/AuthViewModel.kt:29-97 | one step keeps the invariant (Loading only while a call runs, Idle only before any event, logged-in false until the check finishes); an event adds its call; a completion leaves a terminal state and removes its call; the check sets the flag to whether a current user exists |
| CombinedAuth.Run | presentation/src/main/java/com/rayadev/presentation/auth/AuthViewModel.kt:19-97 | the invariant holds after every possible sequence of steps |
| CombinedAuth.NeverIdleAgain | presentation/src/main/java/com/rayadev/presentation/auth/AuthViewModel.kt:19-97 | once anything has been published, Idle never returns |
| CombinedAuth.LoggedInSettled | presentation/src/main/java/com/rayadev/presentation/auth/AuthViewModel.kt:22-33 | after the check finishes, no step changes `isUserLoggedIn` |
| CombinedAuth.LoginFailureMessage | presentation/src/main/java/com/rayadev/presentation/auth/AuthViewModel.kt:43-53 | a provider failure on login reaches the UI as Error with the provider's message or "Login failed"; the view model's fallback is never used for login |
| CombinedAuth.AuthViewModel.constructor | presentation/src/main/java/com/rayadev/presentation/auth/AuthViewModel.kt:19-33 | `init` runs the logged-in check to completion, since it never suspends: the view model starts Idle with no call running and `isUserLoggedIn` equal to whether the provider has a current user |
| CombinedAuth.AuthViewModel.CheckIfUserLoggedIn | presentation/src/main/java/com/rayadev/presentation/auth/AuthViewModel.kt:29-33 | is the CheckFinished step: the flag becomes the use case's answer, whether a current user exists, and nothing else changes |
| CombinedAuth.AuthViewModel.OnEvent | presentation/src/main/java/com/rayadev/presentation/auth/AuthViewModel.kt:35-41 | dispatching an event is exactly the Send step of `Next` |
| CombinedAuth.AuthViewModel.HandleLogin | presentation/src/main/java/com/rayadev/presentation/auth/AuthViewModel.kt:43-53 | sets Loading and launches the login call with the given credentials |
| CombinedAuth.AuthViewModel.HandleRegister | presentation/src/main/java/com/rayadev/presentation/auth/AuthViewModel.kt:55-69 | mismatched passwords set "Passwords do not match" and launch nothing; otherwise sets Loading and launches register with `User(username, email, password)` |
| CombinedAuth.AuthViewModel.HandleAnonymousLogin | presentation/src/main/java/com/rayadev/presentation/auth/AuthViewModel.kt:71-81 | sets Loading and launches the anonymous call |
| CombinedAuth.AuthViewModel.FinishCall | presentation/src/main/java/com/rayadev/presentation/auth/AuthViewModel.kt:45-97 | a call's completion is exactly the Finish step of `Next` and leaves Success or Error |
| LoginState.Started | presentation/src/main/java/com/rayadev/presentation/auth/LoginViewModel.kt:20-23 | starting raises `isLoading`, clears `errorMessage` and keeps `success` |
| LoginState.Completed | presentation/src/main/java/com/rayadev/presentation/auth/LoginViewModel.kt:23-31 | `isLoading` is lowered; a returned call sets `success` whatever it returned and keeps the message; a thrown one keeps `success` and sets the message or "Login failed" / "Anonymous login failed" |
| LoginState.Next | presentation/src/main/java/com/rayadev/presentation/auth/LoginViewModel.kt:17-48 | one step keeps the invariant: `isLoading` only while a call runs, never together with an error message |
| LoginState.Run | presentation/src/main/java/com/rayadev/presentation/auth/LoginViewModel.kt:17-48 | the invariant holds after every possible sequence of steps |
| LoginState.SuccessIsSticky | presentation/src/main/java/com/rayadev/presentation/auth/LoginViewModel.kt:22-45 | once `success` is true it stays true, even through later failures |
| LoginState.IdleWhenNothingRuns | presentation/src/main/java/com/rayadev/presentation/auth/LoginViewModel.kt:22-45 | when no call is running, `isLoading` is false |
| LoginState.OverlapClearsLoadingEarly | presentation/src/main/java/com/rayadev/presentation/auth/LoginViewModel.kt:20-48 | with a login and an anonymous call overlapping, the first to finish lowers `isLoading` while the other still runs |
| LoginState.LoginViewModel.constructor | presentation/src/main/java/com/rayadev/presentation/auth/LoginViewModel.kt:17 | starts with `isLoading=false`, no message, `success=false` and no call |
| LoginState.LoginViewModel.Login | presentation/src/main/java/com/rayadev/presentation/auth/LoginViewModel.kt:20-33 | is the StartLogin step: loading raised, message cleared, login call launched with the given credentials |
| LoginState.LoginViewModel.LoginAnonymous | presentation/src/main/java/com/rayadev/presentation/auth/LoginViewModel.kt:35-48 | is the StartAnonymous step |
| LoginState.LoginViewModel.FinishCall | presentation/src/main/java/com/rayadev/presentation/auth/LoginViewModel.kt:23-46 | is the FinishCall step; `isLoading` is false afterwards |
| RegisterState.Invoked | presentation/src/main/java/com/rayadev/presentation/auth/RegisterViewModel.kt:30-34 | `onError` is invoked exactly when the call threw, with the message or "Registration failed" / "Anonymous login failed"; `onSuccess` whenever it returned, even with `AuthResult.Error` |
| RegisterState.Next | presentation/src/main/java/com/rayadev/presentation/auth/RegisterViewModel.kt:21-54 | `isLoading` is true after a start and false after every finish; the register call carries `User(username, email, password)` as given; the invariant (loading only while a call runs) is kept |
| RegisterState.Run | presentation/src/main/java/com/rayadev/presentation/auth/RegisterViewModel.kt:18-54 | the invariant holds after every possible sequence of steps |
| RegisterState.ErrorsExactlyFromThrows | presentation/src/main/java/com/rayadev/presentation/auth/RegisterViewModel.kt:30-34 | over any run, `onError` runs exactly once per call that threw and never otherwise |
| RegisterState.RegisterViewModel.constructor | presentation/src/main/java/com/rayadev/presentation/auth/RegisterViewModel.kt:18 | `isLoading` starts false with no call running |
| RegisterState.RegisterViewModel.Register | presentation/src/main/java/com/rayadev/presentation/auth/RegisterViewModel.kt:21-39 | is the StartRegister step |
| RegisterState.RegisterViewModel.RegisterAnonymous | presentation/src/main/java/com/rayadev/presentation/auth/RegisterViewModel.kt:42-54 | is the StartAnonymous step |
| RegisterState.RegisterViewModel.FinishCall | presentation/src/main/java/com/rayadev/presentation/auth/RegisterViewModel.kt:30-37 | is the FinishCall step and returns the call and the callback it invokes |
| LoginForm.OnLoginClick | presentation/src/main/java/com/rayadev/presentation/auth/LoginScreen.kt:126-132 | submits exactly when both fields are non-empty, with the fields as typed; otherwise the empty-fields message |
| LoginForm.FieldsInError | presentation/src/main/java/com/rayadev/presentation/auth/LoginScreen.kt:85-106 | both text fields are flagged exactly when the local message is non-empty |
| LoginForm.ControlsEnabled | presentation/src/main/java/com/rayadev/presentation/auth/LoginScreen.kt:87-193 | the fields and the three buttons are enabled exactly when the view model is not loading |
| LoginForm.ControlsEnabledWhenNothingRuns | presentation/src/main/java/com/rayadev/presentation/auth/LoginScreen.kt:87-193 | whenever no call is running, the controls are enabled |
| LoginForm.LoginScreen.constructor | presentation/src/main/java/com/rayadev/presentation/auth/LoginScreen.kt:40-42 | all fields and the message start empty |
| LoginForm.LoginScreen.EditUsernameOrEmail | presentation/src/main/java/com/rayadev/presentation/auth/LoginScreen.kt:80 | sets that field only |
| LoginForm.LoginScreen.EditPassword | presentation/src/main/java/com/rayadev/presentation/auth/LoginScreen.kt:94 | sets that field only |
| LoginForm.LoginScreen.ClickLogin | presentation/src/main/java/com/rayadev/presentation/auth/LoginScreen.kt:126-138 | only while not loading: a valid form starts `login` with the fields, an invalid one sets the empty-fields message and leaves the view model unchanged |
| LoginForm.LoginScreen.ClickAnonymous | presentation/src/main/java/com/rayadev/presentation/auth/LoginScreen.kt:181-185 | only while not loading: starts `loginAnonymous`, the screen unchanged |
| LoginForm.LoginScreen.SnackbarShown | presentation/src/main/java/com/rayadev/presentation/auth/LoginScreen.kt:197-202 | the shown message is cleared to "" |
| LoginForm.LoginScreen.ObserveState | presentation/src/main/java/com/rayadev/presentation/auth/LoginScreen.kt:232-236 | `onLoggedIn` fires exactly when the view model reports success |
| RegisterForm.AnyEmpty | presentation/src/main/java/com/rayadev/presentation/auth/RegisterScreen.kt:152 | some field is still empty: the negation of the button's first test |
| RegisterForm.FieldInError | presentation/src/main/java/com/rayadev/presentation/auth/RegisterScreen.kt:90-136 | a field is flagged exactly when it is empty and the message is non-empty |
| RegisterForm.SomeFieldInError | presentation/src/main/java/com/rayadev/presentation/auth/RegisterScreen.kt:90-136 | some field is flagged exactly when some field is empty and the message is non-empty |
| RegisterForm.OnRegisterClick | presentation/src/main/java/com/rayadev/presentation/auth/RegisterScreen.kt:151-161 | an empty field rejects with "complete all fields" before the password check; only a complete form with equal passwords submits `(username, email, password)`; otherwise "passwords don't match" |
| RegisterForm.RejectionFlagsOnlyEmptyFields | presentation/src/main/java/com/rayadev/presentation/auth/RegisterScreen.kt:90-160 | after a rejected click some field is flagged exactly when one was empty: a mismatch shows its message but flags no field |
| RegisterForm.RegisterScreen.constructor | presentation/src/main/java/com/rayadev/presentation/auth/RegisterScreen.kt:43-47 | all fields and the message start empty |
| RegisterForm.RegisterScreen.Edit | presentation/src/main/java/com/rayadev/presentation/auth/RegisterScreen.kt:85-131 | sets the fields and leaves the message |
| RegisterForm.RegisterScreen.ClickRegister | presentation/src/main/java/com/rayadev/presentation/auth/RegisterScreen.kt:150-169 | only while not loading: a valid form starts `register` with the fields, an invalid one sets the rule's message and leaves the view model unchanged |
| RegisterForm.RegisterScreen.ClickAnonymous | presentation/src/main/java/com/rayadev/presentation/auth/RegisterScreen.kt:211-222 | only while not loading: starts `registerAnonymous` |
| RegisterForm.RegisterScreen.Deliver | presentation/src/main/java/com/rayadev/presentation/auth/RegisterScreen.kt:154-219 | success navigates home; a registration error becomes the local message; an anonymous error leaves the message unchanged |
| RegisterForm.RegisterScreen.SnackbarShown | presentation/src/main/java/com/rayadev/presentation/auth/RegisterScreen.kt:234-239 | the shown message is cleared to "" |
| Flows.RejectedSignInNavigatesHome | presentation/src/main/java/com/rayadev/presentation/auth/LoginViewModel.kt:23-25 | with both fields filled and the provider rejecting the sign-in, the login screen navigates home, shows nothing, and the view model holds no error |
| Flows.AnonymousFailureNotShown | presentation/src/main/java/com/rayadev/presentation/auth/LoginScreen.kt:197-202 | a failed anonymous sign-in sets the view model's message, but the screen shows nothing and does not navigate |
| Flows.RejectedRegistrationNavigatesHome | presentation/src/main/java/com/rayadev/presentation/auth/RegisterViewModel.kt:30-32 | with the provider rejecting account creation, `onRegistered` still navigates home, nothing is shown and loading is over |
| Flows.AnonymousRegistrationFailureSwallowed | presentation/src/main/java/com/rayadev/presentation/auth/RegisterScreen.kt:212-219 | a failed anonymous sign-in on the register screen calls `onError` with its message, which the screen drops: no message, no navigation, loading over |
| Flows.RejectedClickFlagsFieldsUntilShown | presentation/src/main/java/com/rayadev/presentation/auth/LoginScreen.kt:85-202 | after a Login click both fields are flagged exactly when one was empty (given a non-empty resource text); once the snackbar has shown the message, no field is flagged |

## Left out

- Firebase itself: the provider's calls are inputs (`Calls.Provider`). `getCurrentUser` reads `FirebaseAuth.getInstance()` rather than the injected instance, which the model treats as the same provider.
- Coroutines and `StateFlow`: each launch is one start step and one finish step, except the logged-in check, which never suspends and so finishes inside `init`. The view models' `viewModelScope` is assumed to run a coroutine's body up to its first suspension right away, which is the default dispatcher's behaviour. Cancellation is not modelled, except as an exception with an optional message.
- Overlapping calls in `AuthViewModel` are modelled. Which coroutine finishes first is the choice of the finish step.
- Callbacks are assumed not to throw. In the source, an exception thrown by `onSuccess` would itself reach `onError`.
- `isUserLoggedIn` in the use cases is assumed not to throw, because reading the provider's current user does not.
- String resources are parameters of the screens (`LoginScreen.emptyFieldsError`, `RegisterTexts`). Their texts are not known. `RegisterForm.RejectionFlagsOnlyEmptyFields` assumes they are not empty.
- Rendering: themes, colours, the progress bar, the snackbar layout and the password-visibility toggles. The snackbar is reduced to "shown, then cleared".
- Navigation, dependency injection, `MainActivity` and `HomeScreen`, including its sign-out. Navigation is reduced to a boolean "navigates home".
- The source's disabling of the buttons while loading is modelled as a precondition of the click methods (`ClickLogin`, `ClickAnonymous`, `ClickRegister`).
- The text fields are modelled as `enabled` under the same rule (`LoginForm.ControlsEnabled`), but not as objects that refuse input.
