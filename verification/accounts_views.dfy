/** The backend's register, login and logout endpoints, as maps from the
    outcome of validation and authentication to a status and a JSON body.
    Token minting and the user's serialized form are parameters. */
module AccountsViews {
  import opened Wrappers
  import opened PyValues
  import opened AccountsModels
  import opened AccountsSerializers

  /** A serialized user, as the user serializer outputs it. */
  type UserRep = map<string, PyValue>

  /** A response body: the token with the user, the serializer's field
      errors, an `error` message, a `message`, or the framework's `detail`
      message for a request the permission check refuses. */
  datatype ResponseBody =
    | TokenAndUser(token: string, user: UserRep)
    | FieldErrors(errors: map<string, seq<string>>)
    | ErrorBody(error: string)
    | MessageBody(message: string)
    | DetailBody(detail: string)

  datatype Response = Response(status: int, body: ResponseBody)

  /** The top-level keys of a JSON body. */
  function Keys(b: ResponseBody): set<string> {
    match b
    case TokenAndUser(_, _) => {"token", "user"}
    case FieldErrors(errors) => errors.Keys
    case ErrorBody(_) => {"error"}
    case MessageBody(_) => {"message"}
    case DetailBody(_) => {"detail"}
  }

  /** `is_valid()` followed by `validated_data` or `errors`. */
  datatype Validation<T> = Valid(data: T) | Invalid(errors: map<string, seq<string>>)

  const NonFieldErrors: string := "non_field_errors"

  /** The keys the user serializer can report errors under. */
  predicate RegisterErrorKeys(errors: map<string, seq<string>>) {
    forall k :: k in errors ==> k in InputFields() || k == NonFieldErrors
  }

  /** The keys the login serializer can report errors under. */
  predicate LoginErrorKeys(errors: map<string, seq<string>>) {
    forall k :: k in errors ==> k in {"email", "password", NonFieldErrors}
  }

  /** `RegisterView.post`: valid data is saved through the user
      serializer's `create` and answered with a token and the user. */
  function RegisterPost(v: Validation<map<string, Entry>>, normalize: string -> string,
                        mint: StoredUser -> string, represent: StoredUser -> UserRep): (r: Response)
    requires v.Valid? ==> WellFormed(v.data)
    requires v.Invalid? ==> RegisterErrorKeys(v.errors)
    ensures r.status == 400 <==> v.Invalid?
    ensures v.Invalid? ==> r.body == FieldErrors(v.errors)
    ensures r.status == 201 <==> v.Valid?
    ensures r.status == 201 ==>
      var u := Create(v.data, normalize).user; r.body == TokenAndUser(mint(u), represent(u))
    ensures r.status in {201, 400}
  {
    match v
    case Invalid(errors) => Response(400, FieldErrors(errors))
    case Valid(data) =>
      var created := Create(data, normalize);
      Response(201, TokenAndUser(mint(created.user), represent(created.user)))
  }

  datatype Credentials = Credentials(email: string, password: string)

  const InvalidCredentials: string := "Invalid email or password"

  /** `LoginView.post`: `authenticate` is a parameter returning the user or
      `None`. */
  function LoginPost(v: Validation<Credentials>, authenticate: Credentials -> Option<StoredUser>,
                     mint: StoredUser -> string, represent: StoredUser -> UserRep): (r: Response)
    requires v.Invalid? ==> LoginErrorKeys(v.errors)
    ensures r.status == 400 <==> v.Invalid?
    ensures r.status == 401 <==> v.Valid? && authenticate(v.data).None?
    ensures r.status == 401 ==> r.body == ErrorBody(InvalidCredentials)
    ensures r.status == 200 <==> v.Valid? && authenticate(v.data).Some?
    ensures r.status == 200 ==>
      var u := authenticate(v.data).value; r.body == TokenAndUser(mint(u), represent(u))
    ensures v.Invalid? ==> r.body == FieldErrors(v.errors)
  {
    match v
    case Invalid(errors) => Response(400, FieldErrors(errors))
    case Valid(c) =>
      match authenticate(c)
      case Some(u) => Response(200, TokenAndUser(mint(u), represent(u)))
      case None => Response(401, ErrorBody(InvalidCredentials))
  }

  /** What authentication made of a request before the view runs: a user,
      no credentials at all, or credentials it rejected with a message. */
  datatype RequestAuth = Authenticated | NoCredentials | RejectedCredentials(detail: string)

  const NotAuthenticatedDetail: string := "Authentication credentials were not provided."

  /** `LogoutView.post` behind its `IsAuthenticated` permission: an
      authenticated request gets the success message (no token is revoked);
      any other is refused before the view runs, with 401 when the
      configured authenticator sends a challenge header and 403 otherwise. */
  function LogoutPost(auth: RequestAuth, challenges: bool): (r: Response)
    ensures r.status == 200 <==> auth.Authenticated?
    ensures r.status == 200 ==> r.body == MessageBody("Successfully logged out")
    ensures r.status != 200 ==> r.status == (if challenges then 401 else 403) && Keys(r.body) == {"detail"}
    ensures auth.NoCredentials? ==> r.body == DetailBody(NotAuthenticatedDetail)
    ensures auth.RejectedCredentials? ==> r.body == DetailBody(auth.detail)
  {
    var refused := if challenges then 401 else 403;
    match auth
    case Authenticated => Response(200, MessageBody("Successfully logged out"))
    case NoCredentials => Response(refused, DetailBody(NotAuthenticatedDetail))
    case RejectedCredentials(detail) => Response(refused, DetailBody(detail))
  }

  /** No field error key is one of the response keys the client reads. */
  lemma ErrorKeysAreFields(errors: map<string, seq<string>>, login: bool)
    requires if login then LoginErrorKeys(errors) else RegisterErrorKeys(errors)
    ensures "token" !in errors && "user" !in errors && "message" !in errors
  {
    assert forall f :: f in DeclaredFields ==> f != "token" && f != "user" && f != "message";
  }

  /** Registration answers with a token and a user exactly on success, and
      none of its bodies has a `message` key. */
  lemma RegisterBodyKeys(v: Validation<map<string, Entry>>, normalize: string -> string,
                         mint: StoredUser -> string, represent: StoredUser -> UserRep)
    requires v.Valid? ==> WellFormed(v.data)
    requires v.Invalid? ==> RegisterErrorKeys(v.errors)
    ensures var r := RegisterPost(v, normalize, mint, represent);
      (Keys(r.body) == {"token", "user"} <==> r.status == 201)
      && "message" !in Keys(r.body)
  {
    if v.Invalid? {
      ErrorKeysAreFields(v.errors, false);
    }
  }

  /** Login answers with a token and a user exactly on success, and none of
      its bodies has a `message` key. */
  lemma LoginBodyKeys(w: Validation<Credentials>, authenticate: Credentials -> Option<StoredUser>,
                      mint: StoredUser -> string, represent: StoredUser -> UserRep)
    requires w.Invalid? ==> LoginErrorKeys(w.errors)
    ensures var r := LoginPost(w, authenticate, mint, represent);
      (Keys(r.body) == {"token", "user"} <==> r.status == 200)
      && "message" !in Keys(r.body)
  {
    if w.Invalid? {
      ErrorKeysAreFields(w.errors, true);
    }
  }
}
