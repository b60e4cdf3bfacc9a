/** Bearer-token handling shared by every protected endpoint: `verifyTokenFromHeader`
    (backend/app.js:49-55). The JWT library is not modelled: its `verify` is an oracle
    given as a parameter. */
module Auth {

  import opened Wrappers
  import opened Text

  /** A member of a parsed JSON request body, reduced to what the handlers observe:
      absent (`undefined`), a string, or any other JSON value with its JavaScript
      truthiness (`null`, `0` and `false` are falsy; other numbers, `true`, objects and
      arrays are truthy) and whether a template literal can turn it into a string (it
      cannot for an object such as `{"toString": 1}`, whose conversion throws a
      TypeError, nor for an array holding one). */
  datatype JsonField = Absent | JString(s: string) | JOther(truthy: bool, printable: bool)

  /** JavaScript truthiness of a body member: `!field` is `!Truthy(field)`. */
  predicate Truthy(f: JsonField)
  {
    match f
    case Absent => false
    case JString(s) => s != ""
    case JOther(t, _) => t
  }

  /** Whether `${field}` in a template literal yields a string rather than throwing;
      `undefined` prints as "undefined". */
  predicate Printable(f: JsonField)
  {
    f.JOther? ==> f.printable
  }

  /** The payload the login endpoint signs and `jwt.verify` hands back. */
  datatype Claims = Claims(sub: JsonField, username: JsonField, iat: int)

  /** `jwt.verify(token, JWT_SECRET)`: the payload, or `None` where the library throws
      (bad signature, malformed token, expired token). */
  type Verifier = string -> Option<Claims>

  /** Why `verifyTokenFromHeader` throws: the 'missing token' error it raises itself, or
      whatever `jwt.verify` raises. */
  datatype AuthError = MissingToken | InvalidToken

  /** The token part of the `authorization` header: field 1 of `header.split(' ')`.
      An absent or empty header, or one whose field 1 is missing or empty, is a
      'missing token'. The scheme word (field 0) is never looked at. */
  function ExtractToken(header: Option<string>): (r: Result<string, AuthError>)
    ensures r.Failure? ==> r.error == MissingToken
    ensures r.Success? ==> header.Some? && r.value != "" && ' ' !in r.value
  {
    if header.None? || header.value == "" then Failure(MissingToken)
    else
      var fields := Split(header.value, ' ');
      if |fields| < 2 || fields[1] == "" then Failure(MissingToken)
      else Success(fields[1])
  }

  /** The shape of a header from which a token is extracted: a scheme word without
      spaces, one space, the token, and then nothing or a further space. */
  ghost predicate HeaderCarries(h: string, scheme: string, token: string, rest: string)
  {
    && h == scheme + " " + token + rest
    && ' ' !in scheme && ' ' !in token && token != ""
    && (rest == "" || rest[0] == ' ')
  }

  /** Whatever the scheme word and whatever follows a second space, the token between
      the first and the second space is the one extracted. */
  lemma ExtractTokenComplete(scheme: string, token: string, rest: string)
    requires HeaderCarries(scheme + " " + token + rest, scheme, token, rest)
    ensures ExtractToken(Some(scheme + " " + token + rest)) == Success(token)
  {
    var h := scheme + " " + token + rest;
    assert h == scheme + [' '] + (token + rest);
    SplitAfterField(scheme, ' ', token + rest);
    if rest == "" {
      assert token + rest == token;
      SplitWithoutSeparator(token, ' ');
    } else {
      assert token + rest == token + [' '] + rest[1..];
      SplitAfterField(token, ' ', rest[1..]);
    }
  }

  /** Every extracted token comes from a header of that shape. */
  lemma ExtractTokenSound(header: Option<string>)
    requires ExtractToken(header).Success?
    ensures exists scheme, rest :: HeaderCarries(header.value, scheme, ExtractToken(header).value, rest)
  {
    var h := header.value;
    var fields := Split(h, ' ');
    var token := fields[1];
    assert Join(fields, ' ') == fields[0] + " " + Join(fields[1..], ' ');
    var rest := if |fields| == 2 then "" else " " + Join(fields[2..], ' ');
    if |fields| == 2 {
      assert Join(fields[1..], ' ') == token;
    } else {
      assert fields[1..][1..] == fields[2..];
      assert Join(fields[1..], ' ') == token + " " + Join(fields[2..], ' ');
    }
    assert h == fields[0] + " " + token + rest;
    assert HeaderCarries(h, fields[0], token, rest);
  }

  /** The 'missing token' cases: no header, a header without a space (such as
      "Bearer"), and a header whose first space is followed at once by another space
      or by nothing (such as "Bearer  x" or "Bearer "). */
  lemma MissingTokenCases(scheme: string, rest: string)
    requires ' ' !in scheme
    ensures ExtractToken(None) == Failure(MissingToken)
    ensures ExtractToken(Some(scheme)) == Failure(MissingToken)
    ensures ExtractToken(Some(scheme + " ")) == Failure(MissingToken)
    ensures ExtractToken(Some(scheme + "  " + rest)) == Failure(MissingToken)
  {
    SplitWithoutSeparator(scheme, ' ');
    assert scheme + " " == scheme + [' '] + "";
    SplitAfterField(scheme, ' ', "");
    assert scheme + "  " + rest == scheme + [' '] + (" " + rest);
    SplitAfterField(scheme, ' ', " " + rest);
    assert " " + rest == "" + [' '] + rest;
    SplitAfterField("", ' ', rest);
  }

  /** `verifyTokenFromHeader`: the claims of the extracted token, or the error thrown. */
  function VerifyTokenFromHeader(header: Option<string>, verify: Verifier): (r: Result<Claims, AuthError>)
    ensures r.Success? <==> ExtractToken(header).Success? && verify(ExtractToken(header).value).Some?
    ensures r.Success? ==> r.value == verify(ExtractToken(header).value).value
    ensures r == Failure(MissingToken) <==> ExtractToken(header).Failure?
  {
    match ExtractToken(header)
    case Failure(e) => Failure(e)
    case Success(token) =>
      match verify(token)
      case None => Failure(InvalidToken)
      case Some(claims) => Success(claims)
  }

  /** The scheme word is never checked: any space-free word in front of the token gives
      the same outcome ("Bearer", "Basic" or "x" alike). */
  lemma SchemeIgnored(scheme1: string, scheme2: string, token: string, rest: string, verify: Verifier)
    requires HeaderCarries(scheme1 + " " + token + rest, scheme1, token, rest)
    requires ' ' !in scheme2
    ensures VerifyTokenFromHeader(Some(scheme1 + " " + token + rest), verify)
         == VerifyTokenFromHeader(Some(scheme2 + " " + token + rest), verify)
    ensures VerifyTokenFromHeader(Some(scheme1 + " " + token + rest), verify).Success?
        <==> verify(token).Some?
  {
    ExtractTokenComplete(scheme1, token, rest);
    ExtractTokenComplete(scheme2, token, rest);
  }

  /** A caller gets past the first statements of a protected handler: the token verifies
      and the `username` claim can be formatted into the handler's log line (an
      unprintable one makes that line throw). */
  predicate Accepted(header: Option<string>, verify: Verifier)
  {
    VerifyTokenFromHeader(header, verify).Success? && Printable(VerifyTokenFromHeader(header, verify).value.username)
  }
}
