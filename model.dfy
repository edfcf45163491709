/** The domain records shared by every layer (domain/model). */
module Model {
  import opened Wrappers

  /** An account as the app sees it; `password` is nullable. */
  datatype User = User(id: string, email: string, password: Option<string>)

  /** The two-variant answer of the repository's login and register. */
  datatype AuthResult = Success(user: User) | Error(message: string)
}
