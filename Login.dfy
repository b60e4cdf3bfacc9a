/** The demo login endpoint `POST /auth/login` (backend/app.js:58-87). The JWT library's
    `sign` is an oracle given as a parameter; the clock is the parameter `nowMs`
    (`Date.now()`, in milliseconds). */
module Login {

  import opened Wrappers
  import opened Auth

  /** The single password the demo check accepts, for any user name. */
  const DemoPassword: string := "demo123"

  /** The `expiresIn` option passed to `jwt.sign` and echoed in the response. */
  const TokenLifetime: string := "24h"

  /** What the handler hands to `jwt.sign` besides the server secret. */
  datatype SignRequest = SignRequest(payload: Claims, expiresIn: string)

  /** `jwt.sign(payload, JWT_SECRET, { expiresIn })`: the token, or `None` where it throws. */
  type Signer = SignRequest -> Option<string>

  datatype LoginResponse =
    | Issued(token: string, expiresIn: string)   // 200 { token, expiresIn }
    | Rejected(status: int, error: string)       // 400, 401 or 500 { error }

  /** `Math.floor(Date.now() / 1000)`; Dafny's `/` by a positive divisor is floor division. */
  function IssuedAt(nowMs: int): (secs: int)
    ensures secs * 1000 <= nowMs < secs * 1000 + 1000
  {
    nowMs / 1000
  }

  /** The request the handler signs for `username` at time `nowMs`: the user name as both
      `sub` and `username`, the current second as `iat`, a 24-hour lifetime. */
  function TokenRequest(username: JsonField, nowMs: int): (req: SignRequest)
    ensures req.payload.sub == username && req.payload.username == username
    ensures req.payload.iat * 1000 <= nowMs < req.payload.iat * 1000 + 1000
    ensures req.expiresIn == "24h"
  {
    SignRequest(Claims(username, username, IssuedAt(nowMs)), TokenLifetime)
  }

  /** The handler of `POST /auth/login`. `username` and `password` are the members of the
      parsed body (both `Absent` when there is no body). A signing failure, and a user name
      that throws when formatted into the log line after signing, are answered 500. */
  function HandleLogin(username: JsonField, password: JsonField, nowMs: int, sign: Signer): (r: LoginResponse)
    ensures !Truthy(username) || !Truthy(password) ==> r == Rejected(400, "Username and password required")
    ensures Truthy(username) && Truthy(password) && password != JString(DemoPassword) ==>
      r == Rejected(401, "Invalid credentials")
    ensures Truthy(username) && password == JString(DemoPassword) && sign(TokenRequest(username, nowMs)).None? ==>
      r == Rejected(500, "Login failed")
    ensures Truthy(username) && password == JString(DemoPassword) && !Printable(username) ==>
      r == Rejected(500, "Login failed")
    ensures r.Issued? <==>
      && Truthy(username) && Printable(username) && password == JString(DemoPassword)
      && sign(TokenRequest(username, nowMs)).Some?
    ensures r.Issued? ==>
      && r.expiresIn == TokenLifetime
      && Some(r.token) == sign(SignRequest(Claims(username, username, IssuedAt(nowMs)), "24h"))
  {
    if !Truthy(username) || !Truthy(password) then Rejected(400, "Username and password required")
    else if password != JString(DemoPassword) then Rejected(401, "Invalid credentials")
    else
      match sign(TokenRequest(username, nowMs))
      case None => Rejected(500, "Login failed")
      case Some(token) =>
        if !Printable(username) then Rejected(500, "Login failed")
        else Issued(token, TokenLifetime)
  }

  /** Any non-empty user name is accepted with the demo password, and the token is the one
      signed for exactly that name. */
  lemma DemoPasswordIssuesToken(name: string, nowMs: int, sign: Signer)
    requires name != ""
    requires sign(TokenRequest(JString(name), nowMs)).Some?
    ensures HandleLogin(JString(name), JString("demo123"), nowMs, sign)
         == Issued(sign(TokenRequest(JString(name), nowMs)).value, "24h")
  {
  }

  /** A truthy password that is not the string 'demo123' (the number 123, "Demo123",
      "demo123 ") is refused with 401 for every non-empty user name. */
  lemma OtherPasswordRefused(name: string, password: JsonField, nowMs: int, sign: Signer)
    requires name != ""
    requires Truthy(password) && password != JString(DemoPassword)
    ensures HandleLogin(JString(name), password, nowMs, sign) == Rejected(401, "Invalid credentials")
    ensures HandleLogin(JString(name), JString("demo123 "), nowMs, sign).status == 401
    ensures HandleLogin(JString(name), JOther(true, true), nowMs, sign).status == 401
  {
  }

  /** Missing or empty fields are 400 whatever the other field holds, before the
      password is compared. */
  lemma MissingFieldIsBadRequest(field: JsonField, nowMs: int, sign: Signer)
    ensures HandleLogin(Absent, field, nowMs, sign).status == 400
    ensures HandleLogin(JString(""), field, nowMs, sign).status == 400
    ensures HandleLogin(field, Absent, nowMs, sign).status == 400
    ensures HandleLogin(field, JString(""), nowMs, sign).status == 400
  {
  }
}
