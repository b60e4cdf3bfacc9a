/** Upload and listing: `POST /media/upload` (backend/app.js:125-160) and
    `GET /media/list` (backend/app.js:163-193). The object store is an oracle for
    `putObject`, and the `listObjects` stream is given as the objects it emits in
    arrival order and whether it ended with an error. The clock is the parameter `now`. */
module Media {

  import opened Wrappers
  import opened Text
  import opened Auth
  import opened MediaAuthz

  newtype byte = x: int | 0 <= x < 256

  /** `date.getMonth()`, which counts January as 0. */
  type MonthIndex = m: int | 0 <= m < 12

  /** The two parts of `new Date()` the upload handler reads. */
  datatype CalendarDate = CalendarDate(fullYear: int, monthIndex: MonthIndex)

  /** What multer leaves in `req.file`. */
  datatype UploadedFile = UploadedFile(originalName: string, buffer: seq<byte>, mimetype: string)

  /** The arguments of `putObject` besides the bucket. */
  datatype PutRequest = PutRequest(key: string, data: seq<byte>, size: nat, contentType: string)

  /** `minioClient.putObject`: true when the write succeeds, false when it rejects. */
  type ObjectStore = PutRequest -> bool

  datatype UploadResponse =
    | Stored(key: string, downloadPath: string)   // 200 { success: true, key, downloadPath }
    | UploadRejected(status: int, error: string)  // 400 or 401 { error }

  /** `String(date.getMonth() + 1).padStart(2, '0')`. */
  function MonthField(monthIndex: MonthIndex): (mm: string)
    ensures |mm| == 2 && AllDigits(mm) && DecimalValue(mm) == monthIndex + 1
  {
    var digits := NatToDecimal(monthIndex + 1);
    var mm := PadStart(digits, 2, '0');
    assert |digits| <= 2 by {
      if |digits| > 2 {
        DecimalAtLeast(digits);
      }
    }
    if |digits| == 2 then mm
    else
      assert mm == ['0'] + digits;
      assert mm[..1] == ['0'];
      assert mm[1..] == digits;
      mm
  }

  /** A numeral of three or more digits, without a leading zero, is at least 100. */
  lemma {:induction false} DecimalAtLeast(s: string)
    requires AllDigits(s) && |s| > 2 && s[0] != '0'
    ensures DecimalValue(s) >= 100
  {
    if |s| == 3 {
      assert s[..2][..1] == [s[0]];
    } else {
      DecimalAtLeast(s[..|s| - 1]);
    }
  }

  /** The pieces a storage key is made of. */
  datatype KeyParts = KeyParts(year: int, month: nat, filename: string)

  /** Reads a storage key back: the year before the first '/', a two-digit month between
      the first and the second '/', and everything after the second '/' as the file name. */
  function ParseStorageKey(key: string): Option<KeyParts>
  {
    var fields := Split(key, '/');
    if |fields| < 3 || |fields[1]| != 2 || !AllDigits(fields[1]) then None
    else
      match ParseInt(fields[0])
      case None => None
      case Some(year) => Some(KeyParts(year, DecimalValue(fields[1]), Join(fields[2..], '/')))
  }

  /** Every key `ParseStorageKey` accepts is `fields[0]/fields[1]/rest` of its parts. */
  lemma ParsedKeyShape(key: string)
    requires ParseStorageKey(key).Some?
    ensures var fields := Split(key, '/');
      key == fields[0] + "/" + fields[1] + "/" + ParseStorageKey(key).value.filename
  {
    var fields := Split(key, '/');
    assert fields[1..][1..] == fields[2..];
    assert Join(fields[1..], '/') == fields[1] + "/" + Join(fields[2..], '/');
  }

  /** `ParseStorageKey` is injective: two keys with the same year, month and file name are
      the same text. So the parse round trip in `StorageKey`'s contract fixes the key
      exactly, and not only up to a differently written year or month. */
  lemma ParseStorageKeyInjective(key1: string, key2: string)
    requires ParseStorageKey(key1).Some?
    requires ParseStorageKey(key1) == ParseStorageKey(key2)
    ensures key1 == key2
  {
    var f1, f2 := Split(key1, '/'), Split(key2, '/');
    ParsedKeyShape(key1);
    ParsedKeyShape(key2);
    ParseIntCanonical(f1[0]);
    ParseIntCanonical(f2[0]);
    DecimalSameLength(f1[1], f2[1]);
  }

  /** The object key of an upload: `year/MM/filename`. The format is unambiguous: year,
      month (1 to 12) and file name come back out of the key whatever the file name holds,
      so every key has at least two '/' separators; and a key starts with a digit of the
      year or its minus sign, never with a line terminator. */
  function StorageKey(now: CalendarDate, filename: string): (key: string)
    ensures ParseStorageKey(key) == Some(KeyParts(now.fullYear, now.monthIndex + 1, filename))
    ensures |Split(key, '/')| >= 3
    ensures key != "" && !IsLineTerminator(key[0])
  {
    KeyFacts(now, filename);
    IntToDecimal(now.fullYear) + "/" + MonthField(now.monthIndex) + "/" + filename
  }

  /** The facts `StorageKey` promises, about the expression it computes. */
  lemma KeyFacts(now: CalendarDate, filename: string)
    ensures var key := IntToDecimal(now.fullYear) + "/" + MonthField(now.monthIndex) + "/" + filename;
      && ParseStorageKey(key) == Some(KeyParts(now.fullYear, now.monthIndex + 1, filename))
      && |Split(key, '/')| >= 3
      && key != "" && !IsLineTerminator(key[0])
  {
    var year, mm := IntToDecimal(now.fullYear), MonthField(now.monthIndex);
    KeyFieldsRoundTrip(year, mm, filename);
    IntToDecimalRoundTrip(now.fullYear);
  }

  /** A year numeral and a two-digit month joined with a file name read back apart. */
  lemma KeyFieldsRoundTrip(year: string, mm: string, filename: string)
    requires |year| >= 1 && (IsDigit(year[0]) || year[0] == '-') && '/' !in year
    requires |mm| == 2 && AllDigits(mm)
    ensures var fields := Split(year + "/" + mm + "/" + filename, '/');
      && fields == [year, mm] + Split(filename, '/')
      && ParseStorageKey(year + "/" + mm + "/" + filename)
         == (match ParseInt(year)
             case None => None
             case Some(y) => Some(KeyParts(y, DecimalValue(mm), filename)))
    ensures (year + "/" + mm + "/" + filename)[0] == year[0]
  {
    assert '/' !in mm by {
      forall i | 0 <= i < |mm| ensures mm[i] != '/' { assert IsDigit(mm[i]); }
    }
    var key := year + "/" + mm + "/" + filename;
    assert key == year + ['/'] + (mm + ['/'] + filename);
    SplitAfterField(year, '/', mm + ['/'] + filename);
    SplitAfterField(mm, '/', filename);
    assert Split(key, '/')[2..] == Split(filename, '/');
  }

  /** The key of an upload is the only text that parses to its year, month and file
      name. */
  lemma StorageKeyDeterminedByParts(now: CalendarDate, filename: string, key: string)
    requires ParseStorageKey(key) == Some(KeyParts(now.fullYear, now.monthIndex + 1, filename))
    ensures key == StorageKey(now, filename)
  {
    ParseStorageKeyInjective(StorageKey(now, filename), key);
  }

  /** `/v1/audio/${key}`: the path the proxy authorizes and serves the object under. It
      passes the path pattern exactly when the key is non-empty and does not start with a
      line terminator, and stripping the prefix gives the key back; with the prefix at its
      start, that makes the path exactly `/v1/audio/` followed by the key. */
  function DownloadPath(key: string): (path: string)
    ensures AudioPrefix <= path
    ensures PathMatches(path) <==> key != "" && !IsLineTerminator(key[0])
    ensures StripAudioPrefix(path) == key
  {
    var path := AudioPrefix + key;
    assert path[..|AudioPrefix|] == AudioPrefix;
    assert |path| > |AudioPrefix| ==> path[|AudioPrefix|] == key[0];
    assert path[|AudioPrefix|..] == key;
    path
  }

  /** A January 2025 upload of 'sample.wav' is stored under '2025/01/sample.wav'. */
  lemma StorageKeyExample()
    ensures StorageKey(CalendarDate(2025, 0), "sample.wav") == "2025/01/sample.wav"
  {
    ExampleKeyText();
  }

  /** The text `StorageKeyExample` is about, computed without the key's own contract. */
  lemma ExampleKeyText()
    ensures IntToDecimal(2025) + "/" + MonthField(0) + "/" + "sample.wav" == "2025/01/sample.wav"
  {
    ExampleYearText();
    ExampleMonthText();
  }

  /** `String(2025)` is "2025". */
  lemma ExampleYearText()
    ensures IntToDecimal(2025) == "2025"
  {
    assert NatToDecimal(2) == "2";
    assert NatToDecimal(20) == NatToDecimal(2) + [DigitChar(0)] == "20";
    assert NatToDecimal(202) == NatToDecimal(20) + [DigitChar(2)] == "202";
    assert NatToDecimal(2025) == NatToDecimal(202) + [DigitChar(5)] == "2025";
  }

  /** January's month field is "01". */
  lemma ExampleMonthText()
    ensures MonthField(0) == "01"
  {
    assert NatToDecimal(1) == "1";
  }

  /** The handler of `POST /media/upload`. The credential is checked first; any thrown
      error is answered 401: a bad token, a `username` claim that throws when formatted
      into the log line that follows the file check (before anything is written), or a
      failed write. */
  function Upload(auth: Option<string>, verify: Verifier, file: Option<UploadedFile>,
                  now: CalendarDate, put: ObjectStore): (r: UploadResponse)
    ensures VerifyTokenFromHeader(auth, verify).Failure? ==>
      r == UploadRejected(401, "Unauthorized or upload failed")
    ensures VerifyTokenFromHeader(auth, verify).Success? && file.Some? && !Accepted(auth, verify) ==>
      r == UploadRejected(401, "Unauthorized or upload failed")
    ensures VerifyTokenFromHeader(auth, verify).Success? && file.None? ==>
      r == UploadRejected(400, "No file uploaded")
    ensures (Accepted(auth, verify) && file.Some?
             && !put(PutRequest(StorageKey(now, file.value.originalName), file.value.buffer,
                                |file.value.buffer|, file.value.mimetype))) ==>
      r == UploadRejected(401, "Unauthorized or upload failed")
    ensures r.Stored? <==>
      && Accepted(auth, verify) && file.Some?
      && put(PutRequest(StorageKey(now, file.value.originalName), file.value.buffer,
                        |file.value.buffer|, file.value.mimetype))
    ensures r.Stored? ==>
      && r.key == StorageKey(now, file.value.originalName)
      && r.downloadPath == AudioPrefix + r.key
  {
    match VerifyTokenFromHeader(auth, verify)
    case Failure(_) => UploadRejected(401, "Unauthorized or upload failed")
    case Success(user) =>
      if file.None? then UploadRejected(400, "No file uploaded")
      else if !Printable(user.username) then UploadRejected(401, "Unauthorized or upload failed")
      else
        var key := StorageKey(now, file.value.originalName);
        if put(PutRequest(key, file.value.buffer, |file.value.buffer|, file.value.mimetype))
        then Stored(key, DownloadPath(key))
        else UploadRejected(401, "Unauthorized or upload failed")
  }

  /** The download path an upload returns, presented to the authorization endpoint with
      the same credential and any allowed method, is granted, and the extracted file
      path is the storage key (even when the file name contains a newline). */
  lemma UploadedPathAuthorizes(auth: Option<string>, verify: Verifier, file: Option<UploadedFile>,
                               now: CalendarDate, put: ObjectStore, originalMethod: Option<string>)
    requires Upload(auth, verify, file, now, put).Stored?
    requires HeaderOr(originalMethod, "GET") in AllowedMethods
    ensures Authorize(auth, verify, Some(Upload(auth, verify, file, now, put).downloadPath), originalMethod)
         == Allow(Upload(auth, verify, file, now, put).key)
  {
    var r := Upload(auth, verify, file, now, put);
    AuthorizePrefixedPath(auth, verify, r.key, originalMethod);
  }

  /** One object as the `listObjects` stream emits it. */
  datatype ObjectInfo = ObjectInfo(name: string, size: nat, lastModified: int)

  /** One element of the `files` array of the list response. */
  datatype FileEntry = FileEntry(key: string, size: nat, lastModified: int, downloadPath: string)

  /** Everything the `listObjects` stream delivers: its 'data' events in order, then
      'end' (`failed` false) or 'error' (`failed` true). */
  datatype ObjectListing = ObjectListing(objects: seq<ObjectInfo>, failed: bool)

  datatype ListResponse =
    | Listed(files: seq<FileEntry>)             // 200 { success: true, files }
    | ListRejected(status: int, error: string)  // 401 or 500 { error }
    | Unanswered                                // the 'end' listener throws before replying

  /** The 'data' callback's mapping of an object to an entry. */
  function EntryOf(obj: ObjectInfo): FileEntry
  {
    FileEntry(obj.name, obj.size, obj.lastModified, DownloadPath(obj.name))
  }

  /** An entry's download path is granted for an accepted credential and an allowed
      method, with the object's name as file path, for every name that is non-empty and
      does not start with a line terminator. */
  lemma ListedEntryAuthorizes(obj: ObjectInfo, auth: Option<string>, verify: Verifier,
                              originalMethod: Option<string>)
    requires obj.name != "" && !IsLineTerminator(obj.name[0])
    requires Accepted(auth, verify)
    requires HeaderOr(originalMethod, "GET") in AllowedMethods
    ensures Authorize(auth, verify, Some(EntryOf(obj).downloadPath), originalMethod) == Allow(obj.name)
  {
    AuthorizePrefixedPath(auth, verify, obj.name, originalMethod);
  }

  /** The handler of `GET /media/list`: after the credential check, each 'data' event
      pushes one entry onto `files`; 'error' answers 500, and 'end' logs the user name and
      answers with the entries. A `username` claim that throws when formatted makes the
      'end' listener throw outside the handler's `try`, so no reply is sent. */
  method ListMedia(auth: Option<string>, verify: Verifier, listing: ObjectListing) returns (r: ListResponse)
    ensures VerifyTokenFromHeader(auth, verify).Failure? ==>
      r == ListRejected(401, "Unauthorized or list failed")
    ensures VerifyTokenFromHeader(auth, verify).Success? && listing.failed ==>
      r == ListRejected(500, "List failed")
    ensures r == Unanswered <==>
      VerifyTokenFromHeader(auth, verify).Success? && !listing.failed && !Accepted(auth, verify)
    ensures r.Listed? <==> Accepted(auth, verify) && !listing.failed
    ensures r.Listed? ==>
      && |r.files| == |listing.objects|
      && forall i :: 0 <= i < |r.files| ==>
           && r.files[i] == EntryOf(listing.objects[i])
           && r.files[i].key == listing.objects[i].name
           && r.files[i].size == listing.objects[i].size
           && r.files[i].lastModified == listing.objects[i].lastModified
           && r.files[i].downloadPath == DownloadPath(listing.objects[i].name)
  {
    var user := VerifyTokenFromHeader(auth, verify);
    if user.Failure? {
      return ListRejected(401, "Unauthorized or list failed");
    }
    var files: seq<FileEntry> := [];
    var i := 0;
    while i < |listing.objects|
      invariant 0 <= i <= |listing.objects|
      invariant |files| == i
      invariant forall j :: 0 <= j < i ==> files[j] == EntryOf(listing.objects[j])
    {
      files := files + [EntryOf(listing.objects[i])];
      i := i + 1;
    }
    if listing.failed {
      return ListRejected(500, "List failed");
    }
    if !Printable(user.value.username) {
      return Unanswered;
    }
    r := Listed(files);
  }
}
