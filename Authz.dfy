/** The nginx `auth_request` endpoint `GET /authz/media` (backend/app.js:90-122): the
    credential check, then the path check, then the method check, each terminal on
    failure. The decision reads three request headers and changes no state. */
module MediaAuthz {

  import opened Wrappers
  import opened Text
  import opened Auth

  /** The path prefix the proxy forwards for media downloads. */
  const AudioPrefix: string := "/v1/audio/"

  /** The read-only methods the proxy may forward. */
  const AllowedMethods: seq<string> := ["GET", "HEAD", "OPTIONS"]

  /** The outcome of one authorization subrequest. */
  datatype Decision =
    | Allow(filePath: string)   // 200 'OK'; filePath is what the handler extracts and logs
    | Unauthorized              // 401 'unauthorized'
    | InvalidPath               // 403 'invalid path'
    | MethodNotAllowed          // 403 'method not allowed'

  /** The HTTP status the handler answers a decision with. */
  function Status(d: Decision): int
  {
    match d
    case Allow(_) => 200
    case Unauthorized => 401
    case InvalidPath => 403
    case MethodNotAllowed => 403
  }

  /** A header read with a JavaScript `||` default: absent and empty both give `default`. */
  function HeaderOr(h: Option<string>, default: string): string
  {
    if h.Some? && h.value != "" then h.value else default
  }

  /** `/^\/v1\/audio\/.+/.test(uri)`: the prefix, then at least one character that `.`
      matches. The pattern is not anchored at the end, so only the first character after
      the prefix matters. */
  predicate PathMatches(uri: string): (matches: bool)
    ensures matches <==>
      exists rest :: uri == AudioPrefix + rest && rest != "" && !IsLineTerminator(rest[0])
  {
    var matches := |uri| > |AudioPrefix| && uri[..|AudioPrefix|] == AudioPrefix
                   && !IsLineTerminator(uri[|AudioPrefix|]);
    assert matches ==> uri == AudioPrefix + uri[|AudioPrefix|..];
    matches
  }

  /** `uri.replace(/^\/v1\/audio\//, '')`: drops the prefix where it stands at the start. */
  function StripAudioPrefix(uri: string): (path: string)
    ensures AudioPrefix <= uri ==> AudioPrefix + path == uri
    ensures !(AudioPrefix <= uri) ==> path == uri
  {
    if AudioPrefix <= uri then uri[|AudioPrefix|..] else uri
  }

  /** The handler of `GET /authz/media`. `auth`, `originalUri` and `originalMethod` are the
      `authorization`, `x-original-uri` and `x-original-method` request headers. A token
      whose `username` claim cannot be formatted into the log line is 401 like a bad one. */
  function Authorize(auth: Option<string>, verify: Verifier,
                     originalUri: Option<string>, originalMethod: Option<string>): (d: Decision)
    ensures d.Allow? <==>
      && Accepted(auth, verify)
      && PathMatches(HeaderOr(originalUri, ""))
      && HeaderOr(originalMethod, "GET") in AllowedMethods
    ensures d.Allow? ==>
      && HeaderOr(originalUri, "") == AudioPrefix + d.filePath
      && d.filePath != "" && !IsLineTerminator(d.filePath[0])
    ensures d.Unauthorized? <==> !Accepted(auth, verify)
  {
    match VerifyTokenFromHeader(auth, verify)
    case Failure(_) => Unauthorized
    case Success(user) =>
      if !Printable(user.username) then Unauthorized
      else
        var uri := HeaderOr(originalUri, "");
        var verb := HeaderOr(originalMethod, "GET");
        if !PathMatches(uri) then InvalidPath
        else if verb !in AllowedMethods then MethodNotAllowed
        else Allow(StripAudioPrefix(uri))
  }

  /** The handler only ever answers 200, 401 or 403, and 200 exactly when the credential,
      the path and the method all pass. */
  lemma AuthorizeStatus(auth: Option<string>, verify: Verifier,
                        originalUri: Option<string>, originalMethod: Option<string>)
    ensures Status(Authorize(auth, verify, originalUri, originalMethod)) in {200, 401, 403}
    ensures Status(Authorize(auth, verify, originalUri, originalMethod)) == 200 <==>
      && VerifyTokenFromHeader(auth, verify).Success?
      && Printable(VerifyTokenFromHeader(auth, verify).value.username)
      && PathMatches(HeaderOr(originalUri, ""))
      && HeaderOr(originalMethod, "GET") in AllowedMethods
    ensures Status(Authorize(auth, verify, originalUri, originalMethod)) == 401 <==>
      !Accepted(auth, verify)
  {
  }

  /** A failed credential is answered 401 whatever the URI and the method. */
  lemma TokenFailureFirst(auth: Option<string>, verify: Verifier,
                          originalUri: Option<string>, originalMethod: Option<string>)
    requires VerifyTokenFromHeader(auth, verify).Failure?
    ensures Authorize(auth, verify, originalUri, originalMethod) == Unauthorized
    ensures Status(Authorize(auth, verify, originalUri, originalMethod)) == 401
  {
  }

  /** A verified token whose `username` claim throws when formatted into the log line is
      answered 401 as well, whatever the URI and the method. */
  lemma UnprintableUserUnauthorized(auth: Option<string>, verify: Verifier,
                                    originalUri: Option<string>, originalMethod: Option<string>)
    requires VerifyTokenFromHeader(auth, verify).Success?
    requires !Printable(VerifyTokenFromHeader(auth, verify).value.username)
    ensures Authorize(auth, verify, originalUri, originalMethod) == Unauthorized
  {
  }

  /** With an accepted credential, a URI the pattern rejects is answered 403 'invalid
      path' whatever the method, so a bad path and a bad method together give the path
      error. */
  lemma PathCheckedBeforeMethod(auth: Option<string>, verify: Verifier,
                                originalUri: Option<string>, originalMethod: Option<string>)
    requires Accepted(auth, verify)
    requires !PathMatches(HeaderOr(originalUri, ""))
    ensures Authorize(auth, verify, originalUri, originalMethod) == InvalidPath
    ensures Status(Authorize(auth, verify, originalUri, originalMethod)) == 403
  {
  }

  /** An absent or empty `x-original-uri` is read as '' and never passes. */
  lemma MissingUriForbidden(auth: Option<string>, verify: Verifier, originalMethod: Option<string>)
    requires Accepted(auth, verify)
    ensures Authorize(auth, verify, None, originalMethod) == InvalidPath
    ensures Authorize(auth, verify, Some(""), originalMethod) == InvalidPath
  {
  }

  /** A URI whose character after the prefix is a line terminator, or the bare prefix,
      fails the pattern (`.+` needs one character other than a line terminator). */
  lemma PrefixAloneForbidden(auth: Option<string>, verify: Verifier, c: char, more: string,
                             originalMethod: Option<string>)
    requires Accepted(auth, verify)
    requires IsLineTerminator(c)
    ensures Authorize(auth, verify, Some(AudioPrefix), originalMethod) == InvalidPath
    ensures Authorize(auth, verify, Some(AudioPrefix + [c] + more), originalMethod) == InvalidPath
  {
    assert (AudioPrefix + [c] + more)[|AudioPrefix|] == c;
  }

  /** With an accepted credential and a valid path, a method outside GET, HEAD and OPTIONS
      is 403 'method not allowed'; this also holds for lower-case spellings such as "get". */
  lemma MethodOutsideAllowList(auth: Option<string>, verify: Verifier,
                               originalUri: Option<string>, verb: string)
    requires Accepted(auth, verify)
    requires PathMatches(HeaderOr(originalUri, ""))
    requires verb != "" && verb !in AllowedMethods
    ensures Authorize(auth, verify, originalUri, Some(verb)) == MethodNotAllowed
    ensures Authorize(auth, verify, originalUri, Some("POST")) == MethodNotAllowed
    ensures Authorize(auth, verify, originalUri, Some("get")) == MethodNotAllowed
  {
  }

  /** An absent or empty `x-original-method` is read as GET and passes. */
  lemma MissingMethodMeansGet(auth: Option<string>, verify: Verifier, originalUri: Option<string>)
    ensures Authorize(auth, verify, originalUri, None) == Authorize(auth, verify, originalUri, Some("GET"))
    ensures Authorize(auth, verify, originalUri, Some("")) == Authorize(auth, verify, originalUri, Some("GET"))
  {
  }

  /** Every URI of the form prefix + path whose path starts with a character other than a
      line terminator is granted to an accepted credential with an allowed method, and the
      extracted file path is exactly that path. */
  lemma AuthorizePrefixedPath(auth: Option<string>, verify: Verifier, path: string,
                              originalMethod: Option<string>)
    requires Accepted(auth, verify)
    requires path != "" && !IsLineTerminator(path[0])
    requires HeaderOr(originalMethod, "GET") in AllowedMethods
    ensures Authorize(auth, verify, Some(AudioPrefix + path), originalMethod) == Allow(path)
  {
    var uri := AudioPrefix + path;
    assert uri[..|AudioPrefix|] == AudioPrefix;
    assert uri[|AudioPrefix|] == path[0];
    assert uri[|AudioPrefix|..] == path;
  }
}
