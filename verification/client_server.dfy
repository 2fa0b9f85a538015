/** How the client store reads the backend's register and login responses:
    `response.ok` is a 2xx status, and the body's `token`, `user` and
    `message` keys become the store's payload. */
module ClientServer {
  import opened Wrappers
  import opened AuthStore
  import opened AccountsModels
  import opened AccountsSerializers
  import opened AccountsViews

  /** `response.ok`. */
  predicate Ok(status: int) {
    200 <= status <= 299
  }

  /** The store's view of a backend response. `decode` stands for reading a
      serialized user as the client's user object. Every body the views
      send is JSON, so `response.json()` does not throw. */
  function ToOutcome(r: Response, decode: UserRep -> Option<User>): (o: Outcome)
    ensures o.Responded?
    ensures o.ok <==> Ok(r.status)
    ensures o.body.token.Some? <==> r.body.TokenAndUser?
    ensures o.body.message.Some? ==> "message" in Keys(r.body)
  {
    match r.body
    case TokenAndUser(token, user) => Responded(Ok(r.status), Body(Some(token), decode(user), None))
    case MessageBody(m) => Responded(Ok(r.status), Body(None, None, Some(m)))
    case ErrorBody(_) => Responded(Ok(r.status), Body(None, None, None))
    case FieldErrors(_) => Responded(Ok(r.status), Body(None, None, None))
    case DetailBody(_) => Responded(Ok(r.status), Body(None, None, None))
  }

  /** A registration the backend refuses as invalid leaves the session's
      identity alone and shows the client's own fallback message, since the
      backend's error bodies have no `message` key. */
  lemma RegisterRefusalShowsFallback(s: Session, errors: map<string, seq<string>>,
                                     normalize: string -> string, mint: StoredUser -> string,
                                     represent: StoredUser -> UserRep,
                                     decode: UserRep -> Option<User>)
    requires RegisterErrorKeys(errors)
    ensures var r := Register(s, ToOutcome(RegisterPost(Invalid(errors), normalize, mint, represent), decode));
      r.error == Some("Registration failed") && SameIdentity(r, s) && !r.isLoading
  {
    RegisterBodyKeys(Invalid(errors), normalize, mint, represent);
  }

  /** A login the backend refuses, for invalid input or for unknown
      credentials, shows the client's fallback message, not the backend's
      `error` text. */
  lemma LoginRefusalShowsFallback(s: Session, w: Validation<Credentials>,
                                  authenticate: Credentials -> Option<StoredUser>,
                                  mint: StoredUser -> string, represent: StoredUser -> UserRep,
                                  decode: UserRep -> Option<User>)
    requires w.Invalid? ==> LoginErrorKeys(w.errors)
    requires w.Invalid? || authenticate(w.data).None?
    ensures var r := Login(s, ToOutcome(LoginPost(w, authenticate, mint, represent), decode));
      r.error == Some("Login failed") && SameIdentity(r, s) && !r.isLoading
  {
    LoginBodyKeys(w, authenticate, mint, represent);
  }

  /** A login the backend accepts installs the minted token and the decoded
      user and authenticates the session. */
  lemma LoginAcceptanceAuthenticates(s: Session, c: Credentials,
                                     authenticate: Credentials -> Option<StoredUser>,
                                     mint: StoredUser -> string, represent: StoredUser -> UserRep,
                                     decode: UserRep -> Option<User>)
    requires authenticate(c).Some?
    ensures var u := authenticate(c).value;
      var r := Login(s, ToOutcome(LoginPost(Valid(c), authenticate, mint, represent), decode));
      r.isAuthenticated && r.token == Some(mint(u)) && r.user == decode(represent(u)) && r.error == None
  {
  }

  /** A registration the backend accepts installs the minted token and the
      decoded user and authenticates the session. */
  lemma RegisterAcceptanceAuthenticates(s: Session, vd: map<string, Entry>,
                                        normalize: string -> string, mint: StoredUser -> string,
                                        represent: StoredUser -> UserRep,
                                        decode: UserRep -> Option<User>)
    requires WellFormed(vd)
    ensures var u := Create(vd, normalize).user;
      var r := Register(s, ToOutcome(RegisterPost(Valid(vd), normalize, mint, represent), decode));
      r.isAuthenticated && r.token == Some(mint(u)) && r.user == decode(represent(u)) && r.error == None
  {
  }
}
