/** The in-memory authentication service used during development: a user
    list searched by case-insensitive email, registration that appends with
    the next sequential id, tokens that are the base64 text of a JSON
    payload expiring a day after issue, and token validation with the
    JWT decoder against a clock reading. */
module MockAuth {
  import opened Wrappers
  import opened Roles
  import opened JsText
  import JsonText
  import Base64

  datatype Account = Account(id: string, name: string, email: string, password: string, role: Role)

  /** The seeded user list. */
  const InitialUsers: seq<Account> := [
    Account("1", "John Employee", "employee@example.com", "password123", Employee),
    Account("2", "Jane Manager", "manager@example.com", "password123", Manager)
  ]

  /** Seconds in the token's lifetime: 60 * 60 * 24. */
  const TokenLifetime: int := 86400

  /** The claims `generateToken` puts in a token. */
  datatype TokenPayload = TokenPayload(sub: string, name: string, email: string, role: Role, exp: int)

  /** The payload for an account at the clock reading `now` in
      milliseconds: the expiry is the current second, rounded down, plus one
      day. */
  function Payload(a: Account, now: int): (p: TokenPayload)
    ensures p.sub == a.id && p.name == a.name && p.email == a.email && p.role == a.role
    ensures now < p.exp * 1000 - (TokenLifetime - 1) * 1000
    ensures p.exp * 1000 - TokenLifetime * 1000 <= now
  {
    TokenPayload(a.id, a.name, a.email, a.role, now / 1000 + TokenLifetime)
  }

  /** The payload's members in the order of the object literal. */
  function PayloadMembers(p: TokenPayload): seq<(string, JsonText.Value)> {
    [("sub", JsonText.Str(p.sub)), ("name", JsonText.Str(p.name)), ("email", JsonText.Str(p.email)),
     ("role", JsonText.Str(RoleName(p.role))), ("exp", JsonText.Num(p.exp))]
  }

  lemma PayloadMembersLatin1(p: TokenPayload)
    ensures JsonText.MembersLatin1(PayloadMembers(p)) <==> Latin1(p.sub) && Latin1(p.name) && Latin1(p.email)
  {
    var m := PayloadMembers(p);
    assert m[0].1.s == p.sub && m[1].1.s == p.name && m[2].1.s == p.email;
    if Latin1(p.sub) && Latin1(p.name) && Latin1(p.email) {
      assert Latin1(RoleName(p.role));
      forall i | 0 <= i < |m| ensures Latin1(m[i].0) && (m[i].1.Str? ==> Latin1(m[i].1.s)) {
      }
    }
  }

  /** `JSON.stringify(payload)`: it fits in a byte per character exactly
      when the id, name and email do, the role and expiry always being
      ASCII. */
  function PayloadJson(p: TokenPayload): (j: string)
    ensures Latin1(j) <==> Latin1(p.sub) && Latin1(p.name) && Latin1(p.email)
  {
    PayloadMembersLatin1(p);
    JsonText.Stringify(PayloadMembers(p))
  }

  /** `generateToken`: the payload's JSON text in base64. `btoa` throws,
      giving `None`, exactly when the account's id, name or email has a
      character above U+00FF. The token is a single base64 string: it holds
      no dot, and decoding it gives back the JSON text. */
  function GenerateToken(a: Account, now: int): (t: Option<string>)
    ensures t.Some? <==> Latin1(a.id) && Latin1(a.name) && Latin1(a.email)
    ensures t.Some? ==> '.' !in t.value
    ensures t.Some? ==> Base64.Decode(t.value) == Some(PayloadJson(Payload(a, now)))
  {
    Base64.Btoa(PayloadJson(Payload(a, now)))
  }

  /** The index of a string's first dot, if any. */
  function FirstDot(t: string): (r: Option<nat>)
    ensures r.None? <==> '.' !in t
    ensures r.Some? ==> r.value < |t| && t[r.value] == '.' && '.' !in t[..r.value]
  {
    if t == [] then None
    else if t[0] == '.' then Some(0)
    else
      match FirstDot(t[1..])
      case None => None
      case Some(k) =>
        assert t[..k + 1] == [t[0]] + t[1..][..k];
        Some(k + 1)
  }

  /** The text before the first dot, or all of it when there is none. */
  function UpToDot(t: string): (r: string)
    ensures |r| <= |t| && r == t[..|r|] && '.' !in r
    ensures |r| == |t| || t[|r|] == '.'
  {
    match FirstDot(t)
    case None => t
    case Some(k) => t[..k]
  }

  /** `token.split(".")[1]`: the text after the first dot up to the next
      one; absent when the token has no dot. */
  function PayloadPart(token: string): (r: Option<string>)
    ensures r.None? <==> '.' !in token
  {
    match FirstDot(token)
    case None => None
    case Some(k) => Some(UpToDot(token[k + 1..]))
  }

  /** A header, payload and signature joined by dots, with no dot in the
      first two, have that payload as their payload part. */
  lemma PayloadPartOfJwt(header: string, payload: string, signature: string)
    requires '.' !in header && '.' !in payload
    ensures PayloadPart(header + "." + payload + "." + signature) == Some(payload)
  {
    var t := header + "." + payload + "." + signature;
    assert t[|header|] == '.';
    var k := FirstDot(t).value;
    assert k == |header|;
    var after := t[k + 1..];
    assert after == payload + "." + signature;
    var r := UpToDot(after);
    assert after[|payload|] == '.';
    assert |r| == |payload|;
    assert r == payload;
  }

  /** `jwtDecode(token).exp`. The library base64url-decodes and parses the
      payload part; `readExp` stands for that and for reading `exp`, giving
      `None` where it throws or there is no numeric `exp`. Without a payload
      part the library throws before any decoding. */
  function DecodedExp(token: string, readExp: string -> Option<int>): (r: Option<int>)
    ensures '.' !in token ==> r.None?
    ensures '.' in token ==> r == readExp(PayloadPart(token).value)
  {
    match PayloadPart(token)
    case None => None
    case Some(part) => readExp(part)
  }

  /** `validateToken` at the clock reading `now`: valid strictly before the
      expiry instant, and invalid whenever decoding throws. */
  function ValidateToken(token: string, now: int, readExp: string -> Option<int>): (ok: bool)
    ensures ok <==> DecodedExp(token, readExp).Some? && now < DecodedExp(token, readExp).value * 1000
  {
    match DecodedExp(token, readExp)
    case None => false
    case Some(exp) => exp * 1000 > now
  }

  /** A token from `generateToken` never validates, at any time and whatever
      the decoder makes of a payload part: it has no dot, so `jwtDecode`
      finds no payload part and throws. */
  lemma GeneratedTokenNeverValidates(a: Account, now: int, later: int, readExp: string -> Option<int>)
    ensures GenerateToken(a, now).Some? ==> !ValidateToken(GenerateToken(a, now).value, later, readExp)
  {
  }

  predicate SameEmail(a: Account, email: string) {
    Lower(a.email) == Lower(email)
  }

  /** `users.find` by case-insensitive email: the index of the first match. */
  function FindByEmail(users: seq<Account>, email: string): (r: Option<nat>)
    ensures r.Some? ==> r.value < |users| && SameEmail(users[r.value], email)
    ensures r.Some? ==> forall k :: 0 <= k < r.value ==> !SameEmail(users[k], email)
    ensures r.None? <==> forall k :: 0 <= k < |users| ==> !SameEmail(users[k], email)
  {
    if users == [] then None
    else if SameEmail(users[0], email) then Some(0)
    else match FindByEmail(users[1..], email)
      case None => None
      case Some(i) => Some(i + 1)
  }

  const InvalidCredentials := "Invalid email or password"
  const EmailTaken := "User with this email already exists"

  /** What the service throws: an `Error` with its message, or the
      `InvalidCharacterError` of `btoa`. */
  datatype Thrown = ErrorMessage(message: string) | InvalidCharacterError

  /** The first user with the email has exactly this password. */
  predicate CredentialsMatch(users: seq<Account>, email: string, password: string) {
    FindByEmail(users, email).Some? && users[FindByEmail(users, email).value].password == password
  }

  /** `login`: an unknown email and a wrong password fail with the same
      message; otherwise the first user with the email gets a token, unless
      `btoa` throws on that user's fields. */
  function Login(users: seq<Account>, email: string, password: string, now: int)
    : (r: Result<string, Thrown>)
    ensures r == Failure(ErrorMessage(InvalidCredentials)) <==> !CredentialsMatch(users, email, password)
    ensures CredentialsMatch(users, email, password) ==>
      var t := GenerateToken(users[FindByEmail(users, email).value], now);
      && (r.Success? <==> t.Some?)
      && (r.Success? ==> r.value == t.value)
      && (r.Failure? ==> r.error == InvalidCharacterError)
  {
    match FindByEmail(users, email)
    case None => Failure(ErrorMessage(InvalidCredentials))
    case Some(i) =>
      if users[i].password != password then Failure(ErrorMessage(InvalidCredentials))
      else
        match GenerateToken(users[i], now)
        case None => Failure(InvalidCharacterError)
        case Some(t) => Success(t)
  }

  /** The user list after a call to `register`, and what the call returned
      or threw. */
  datatype Registration = Registration(users: seq<Account>, result: Result<string, Thrown>)

  /** The account `register` appends. */
  function NewAccount(users: seq<Account>, name: string, email: string, password: string, role: Role): Account {
    Account(DecimalString(|users| + 1), name, email, password, role)
  }

  /** `register`: refused, with the list unchanged, when the email is taken
      in any letter case. Otherwise exactly one account with the next id is
      appended, and only then is its token generated, so a `btoa` failure
      leaves the account stored. */
  function Register(users: seq<Account>, name: string, email: string, password: string,
                    role: Role, now: int): (r: Registration)
    ensures r.result == Failure(ErrorMessage(EmailTaken)) <==>
            exists k :: 0 <= k < |users| && SameEmail(users[k], email)
    ensures r.result == Failure(ErrorMessage(EmailTaken)) ==> r.users == users
    ensures r.result != Failure(ErrorMessage(EmailTaken)) ==>
      var t := GenerateToken(NewAccount(users, name, email, password, role), now);
      && r.users == users + [NewAccount(users, name, email, password, role)]
      && (r.result.Success? <==> t.Some?)
      && (r.result.Success? ==> r.result.value == t.value)
      && (r.result.Failure? ==> r.result.error == InvalidCharacterError)
  {
    if FindByEmail(users, email).Some? then Registration(users, Failure(ErrorMessage(EmailTaken)))
    else
      var newUser := NewAccount(users, name, email, password, role);
      match GenerateToken(newUser, now)
      case None => Registration(users + [newUser], Failure(InvalidCharacterError))
      case Some(t) => Registration(users + [newUser], Success(t))
  }

  /** A registration whose token cannot be encoded still stores the
      account, so registering the same email again is refused as taken. */
  lemma RetryAfterEncodingFailureIsRefused(users: seq<Account>, name: string, email: string,
                                           password: string, role: Role, now: int,
                                           name': string, password': string, role': Role, now': int)
    requires Register(users, name, email, password, role, now).result == Failure(InvalidCharacterError)
    ensures Register(Register(users, name, email, password, role, now).users,
                     name', email, password', role', now').result == Failure(ErrorMessage(EmailTaken))
  {
    var after := Register(users, name, email, password, role, now).users;
    assert SameEmail(after[|users|], email);
  }

  /** Account ids are the decimal strings "1", "2", ... in order. */
  predicate IdsSequential(users: seq<Account>) {
    forall i :: 0 <= i < |users| ==> users[i].id == DecimalString(i + 1)
  }

  /** No two accounts share an email up to letter case. */
  predicate EmailsDistinct(users: seq<Account>) {
    forall i, j :: 0 <= i < j < |users| ==> Lower(users[i].email) != Lower(users[j].email)
  }

  predicate Valid(users: seq<Account>) {
    IdsSequential(users) && EmailsDistinct(users)
  }

  lemma InitialValid()
    ensures Valid(InitialUsers)
  {
    assert DecimalString(1) == "1";
    assert DecimalString(2) == "2";
    assert Lower(InitialUsers[0].email)[0] != Lower(InitialUsers[1].email)[0];
  }

  /** Registration keeps the user list valid, whether it succeeds, is
      refused or throws after appending. */
  lemma RegisterPreservesValid(users: seq<Account>, name: string, email: string, password: string,
                               role: Role, now: int)
    requires Valid(users)
    ensures Valid(Register(users, name, email, password, role, now).users)
  {
    if FindByEmail(users, email).None? {
      AppendKeepsValid(users, NewAccount(users, name, email, password, role));
    }
  }

  /** Appending an account with the next id and an email no account has up
      to letter case keeps the list valid. */
  lemma AppendKeepsValid(users: seq<Account>, a: Account)
    requires Valid(users) && a.id == DecimalString(|users| + 1)
    requires forall k :: 0 <= k < |users| ==> !SameEmail(users[k], a.email)
    ensures Valid(users + [a])
  {
    AppendKeepsIds(users, a);
    AppendKeepsEmails(users, a);
  }

  lemma AppendKeepsIds(users: seq<Account>, a: Account)
    requires IdsSequential(users) && a.id == DecimalString(|users| + 1)
    ensures IdsSequential(users + [a])
  {
    var u' := users + [a];
    forall i | 0 <= i < |u'| ensures u'[i].id == DecimalString(i + 1) {
      if i < |users| {
        assert u'[i] == users[i];
      } else {
        assert i == |users| && u'[i] == a;
      }
    }
  }

  lemma AppendKeepsEmails(users: seq<Account>, a: Account)
    requires EmailsDistinct(users)
    requires forall k :: 0 <= k < |users| ==> !SameEmail(users[k], a.email)
    ensures EmailsDistinct(users + [a])
  {
    var u' := users + [a];
    assert forall k :: 0 <= k < |users| ==> u'[k] == users[k];
  }

  /** In a valid list ids are unique. */
  lemma IdsUnique(users: seq<Account>, i: int, j: int)
    requires Valid(users) && 0 <= i < j < |users|
    ensures users[i].id != users[j].id
  {
    DecimalStringInjective(i + 1, j + 1);
  }

  /** In a valid list sign-in is refused with the credentials message
      exactly when no account has the email up to letter case together with
      exactly the password. */
  lemma LoginIffCredentialsMatch(users: seq<Account>, email: string, password: string, now: int)
    requires Valid(users)
    ensures Login(users, email, password, now) != Failure(ErrorMessage(InvalidCredentials)) <==>
            exists k :: 0 <= k < |users| && SameEmail(users[k], email) && users[k].password == password
  {
    var f := FindByEmail(users, email);
    if f.Some? {
      forall k | 0 <= k < |users| && SameEmail(users[k], email)
        ensures k == f.value
      {
      }
    }
  }
}
