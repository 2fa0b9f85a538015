/** The client's HTTP helpers: turning a response into its body or a
    single error message, and building request headers with the store's
    token for the calls that need it. */
module Api {
  import opened Wrappers
  import opened JsText
  import opened AuthStore

  /** `handleResponse`: an ok response yields its body untouched; any other
      is an error whose message is the body's `message`, or else the
      response's status text. */
  function HandleResponse(ok: bool, statusText: string, data: Body): (r: Result<Body, string>)
    ensures ok <==> r.Success?
    ensures r.Success? ==> r.value == data
    ensures r.Failure? && Truthy(data.message) ==> r.error == data.message.value
    ensures r.Failure? && !Truthy(data.message) ==> r.error == statusText
  {
    if !ok then Failure(Or(data.message, statusText)) else Success(data)
  }

  /** The store's failure message for a response is the helper's message
      with the status text replaced by the store's own fallback. */
  lemma StoreMessageMatchesHelper(s: Session, data: Body)
    ensures Login(s, Responded(false, data)).error ==
            Some(HandleResponse(false, "Login failed", data).error)
    ensures Register(s, Responded(false, data)).error ==
            Some(HandleResponse(false, "Registration failed", data).error)
  {
  }

  /** `getHeaders`: always the JSON content type; the bearer token only when
      asked for and the store's token is a non-empty string. */
  function GetHeaders(requiresAuth: bool, token: Option<string>): (h: map<string, string>)
    ensures "Content-Type" in h && h["Content-Type"] == "application/json"
    ensures "Authorization" in h <==> requiresAuth && Truthy(token)
    ensures "Authorization" in h ==> h["Authorization"] == "Bearer " + token.value
    ensures h.Keys <= {"Content-Type", "Authorization"}
  {
    var base := map["Content-Type" := "application/json"];
    if requiresAuth && Truthy(token) then base["Authorization" := "Bearer " + token.value] else base
  }

  datatype Endpoint = AuthLogin | AuthRegister | EmployeeData | ManagerData

  /** Whether a call asks `getHeaders` for authorization. */
  function RequiresAuth(e: Endpoint): (b: bool)
    ensures b <==> e == EmployeeData || e == ManagerData
  {
    match e
    case AuthLogin => false
    case AuthRegister => false
    case EmployeeData => true
    case ManagerData => true
  }

  /** The headers a call sends, given the store's state when it is made. */
  function RequestHeaders(e: Endpoint, s: Session): (h: map<string, string>)
    ensures (e == AuthLogin || e == AuthRegister) ==> "Authorization" !in h
    ensures (e == EmployeeData || e == ManagerData) ==>
              ("Authorization" in h <==> Truthy(s.token))
    ensures "Authorization" in h ==> h["Authorization"] == "Bearer " + s.token.value
    ensures "Content-Type" in h && h["Content-Type"] == "application/json"
  {
    GetHeaders(RequiresAuth(e), s.token)
  }

  /** After logout no call carries a token, whichever endpoint it is. */
  lemma NoAuthorizationAfterLogout(e: Endpoint, s: Session)
    ensures "Authorization" !in RequestHeaders(e, Logout(s))
  {
  }
}
