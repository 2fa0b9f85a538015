/** The client's persisted session store: a record of five fields changed
    only by the start and outcome steps of `login` and `register`, by
    `logout` and by `clearError`, of which three fields are persisted. */
module AuthStore {
  import opened Wrappers
  import opened Roles
  import opened JsText

  datatype User = User(id: string, email: string, name: string, role: Role)

  datatype Session = Session(
    token: Option<string>,
    user: Option<User>,
    isAuthenticated: bool,
    isLoading: bool,
    error: Option<string>)

  /** The store's state before any transition. */
  const Initial := Session(None, None, false, false, None)

  /** The parsed JSON body of a login or registration response, as far as the
      store reads it; `None` stands for a missing property. */
  datatype Body = Body(token: Option<string>, user: Option<User>, message: Option<string>)

  /** What a `catch` receives: an `Error` object with its message, or a
      thrown value that is not an `Error`. */
  datatype Thrown = ErrorObject(message: string) | NonError

  /** The abstract outcome of `fetch` followed by `response.json()`: a
      response with its `ok` flag and body, or an exception thrown by either. */
  datatype Outcome = Responded(ok: bool, body: Body) | Threw(thrown: Thrown)

  predicate Succeeded(o: Outcome) {
    o.Responded? && o.ok
  }

  /** The fields a failed attempt must leave alone. */
  predicate SameIdentity(a: Session, b: Session) {
    a.token == b.token && a.user == b.user && a.isAuthenticated == b.isAuthenticated
  }

  /** The message a failed attempt stores: the body's `message` or the
      fallback for a response that is not ok (it is thrown as an `Error` and
      caught again), the message of a caught `Error`, or the fallback for
      anything else that was thrown. */
  function FailureMessage(o: Outcome, fallback: string): string
    requires !Succeeded(o)
  {
    match o
    case Responded(_, body) => Or(body.message, fallback)
    case Threw(ErrorObject(m)) => m
    case Threw(NonError) => fallback
  }

  /** The first `set` of an attempt: loading, with the error cleared. */
  function BeginAttempt(s: Session): (r: Session)
    ensures r.isLoading && r.error == None
    ensures SameIdentity(r, s)
  {
    s.(isLoading := true, error := None)
  }

  /** The second `set` of an attempt, in the `try` or in the `catch`. */
  function FinishAttempt(s: Session, o: Outcome, fallback: string): (r: Session)
    ensures !r.isLoading
    ensures Succeeded(o) ==>
      r == s.(token := o.body.token, user := o.body.user, isAuthenticated := true, isLoading := false)
    ensures !Succeeded(o) ==>
      SameIdentity(r, s) && r.error == Some(FailureMessage(o, fallback))
  {
    if Succeeded(o) then
      s.(token := o.body.token, user := o.body.user, isAuthenticated := true, isLoading := false)
    else
      s.(isLoading := false, error := Some(FailureMessage(o, fallback)))
  }

  function LoginStart(s: Session): Session {
    BeginAttempt(s)
  }

  function LoginFinish(s: Session, o: Outcome): Session {
    FinishAttempt(s, o, "Login failed")
  }

  function RegisterStart(s: Session): Session {
    BeginAttempt(s)
  }

  function RegisterFinish(s: Session, o: Outcome): Session {
    FinishAttempt(s, o, "Registration failed")
  }

  /** A whole `login` call: whatever the payload holds, success installs the
      body's token and user and clears loading with no error; failure leaves
      token, user and the authenticated flag as they were and records the
      message; in no case is the store left loading. */
  function Login(s: Session, o: Outcome): (r: Session)
    ensures !r.isLoading
    ensures Succeeded(o) ==>
      && r.token == o.body.token && r.user == o.body.user
      && r.isAuthenticated && r.error == None
    ensures !Succeeded(o) ==> SameIdentity(r, s) && r.error == Some(FailureMessage(o, "Login failed"))
    ensures r.isAuthenticated ==> Succeeded(o) || s.isAuthenticated
  {
    LoginFinish(LoginStart(s), o)
  }

  /** A whole `register` call, with the same contract as `login` and its own
      fallback message. */
  function Register(s: Session, o: Outcome): (r: Session)
    ensures !r.isLoading
    ensures Succeeded(o) ==>
      && r.token == o.body.token && r.user == o.body.user
      && r.isAuthenticated && r.error == None
    ensures !Succeeded(o) ==> SameIdentity(r, s) && r.error == Some(FailureMessage(o, "Registration failed"))
    ensures r.isAuthenticated ==> Succeeded(o) || s.isAuthenticated
  {
    RegisterFinish(RegisterStart(s), o)
  }

  /** `logout`: drops token, user, authentication and error; the loading
      flag is not touched. */
  function Logout(s: Session): (r: Session)
    ensures r.token == None && r.user == None && !r.isAuthenticated && r.error == None
    ensures r.isLoading == s.isLoading
  {
    s.(token := None, user := None, isAuthenticated := false, error := None)
  }

  /** `clearError`: the error goes, nothing else changes. */
  function ClearError(s: Session): (r: Session)
    ensures r.error == None
    ensures SameIdentity(r, s) && r.isLoading == s.isLoading
  {
    s.(error := None)
  }

  /** Logging out twice is logging out once, and so for clearing the error. */
  lemma LogoutAndClearErrorIdempotent(s: Session)
    ensures Logout(Logout(s)) == Logout(s)
    ensures ClearError(ClearError(s)) == ClearError(s)
  {
  }

  /** The persisted record under the storage key `auth-storage`. */
  datatype Persisted = Persisted(token: Option<string>, user: Option<User>, isAuthenticated: bool)

  /** Rehydration, taken as the persisted fields merged over the initial
      state (the persistence middleware itself is not modelled). */
  function Rehydrate(p: Persisted): Session {
    Initial.(token := p.token, user := p.user, isAuthenticated := p.isAuthenticated)
  }

  /** `partialize`: exactly token, user and the authenticated flag survive a
      reload; loading and error come back at their initial values. */
  function Partialize(s: Session): (p: Persisted)
    ensures Rehydrate(p) == s.(isLoading := false, error := None)
    ensures SameIdentity(Rehydrate(p), s)
  {
    Persisted(s.token, s.user, s.isAuthenticated)
  }

  /** Persisting a rehydrated record gives the record back. */
  lemma PersistRoundTrip(p: Persisted)
    ensures Partialize(Rehydrate(p)) == p
  {
  }

  /** Every completed attempt ends in exactly one of two clean states:
      authenticated with no error, or an error with the previous identity. */
  lemma AttemptEndsClean(s: Session, o: Outcome)
    ensures var r := Login(s, o);
      (Succeeded(o) && r.isAuthenticated && r.error == None) ||
      (!Succeeded(o) && r.error.Some? && SameIdentity(r, s))
  {
  }

  /** From a logged-out session a failed attempt never authenticates. */
  lemma FailedAttemptStaysLoggedOut(s: Session, o: Outcome)
    requires !s.isAuthenticated && !Succeeded(o)
    ensures !Login(s, o).isAuthenticated && !Register(s, o).isAuthenticated
  {
  }
}
