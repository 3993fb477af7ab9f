/**
 * The upload handler: check the shared password, then for each requested file build its
 * object key and signed-field set and ask the storage service for a presigned POST.
 * Any raised exception turns the whole response into a 500 carrying the exception text.
 */
module Handler {
  import opened Outcomes
  import opened ObjectKeys
  import opened Responses

  /** Lifetime in seconds of every presigned POST. */
  const UrlExpiration: nat := 3600
  const DefaultContentType := "application/octet-stream"
  const SuccessMessage := "Presigned POST URLs generated"
  const Unauthorized := "Unauthorized"

  /** One element of the request's `files` list; `None` means the key is absent. */
  datatype FileEntry = FileEntry(name: Option<string>, contentType: Option<string>)

  /** What `json.loads` made of the request body. */
  datatype Payload =
    | Object(password: Option<string>, files: Option<seq<FileEntry>>)
    | NotObject(typeName: string)   // valid JSON that is not an object: it has no `.get`
    | Malformed(reason: string)     // json.loads raised

  /** The event; `body == None` when the event has no "body" key, which the handler reads as "{}". */
  datatype Event = Event(body: Option<Payload>)

  /** The exceptions the handler's `try` block can catch. */
  datatype Fault =
    | BadBody(reason: string)
    | NoGetAttribute(typeName: string)
    | MissingKey(key: string)
    | IssuerError(reason: string)

  /** The arguments of one `generate_presigned_post` call. */
  datatype PresignRequest = PresignRequest(
    bucket: string,
    key: string,
    fields: map<string, string>,
    conditions: seq<map<string, string>>,
    expiresIn: nat)

  /** What the storage service returns: the POST target and the form fields to send with it. */
  datatype Presigned = Presigned(url: string, fields: map<string, string>)

  /**
   * The storage service's presigner, answering the call at the given position in the handler's
   * sequence of calls; it either answers or raises with a message. Each call is answered on its
   * own, so two equal requests in one batch may get different answers, or only one may fail.
   */
  type Issuer = (nat, PresignRequest) -> Result<Presigned, string>

  /** The clock reading taken while the file at the given position is handled. */
  type Clock = nat -> Reading

  /** `str(e)` for each caught exception. */
  function Describe(f: Fault): string {
    match f
    case BadBody(reason) => reason
    case NoGetAttribute(t) => "'" + t + "' object has no attribute 'get'"
    case MissingKey(k) => "'" + k + "'"
    case IssuerError(reason) => reason
  }

  /** `json.loads(event.get("body", "{}"))`. */
  function PayloadOf(event: Event): Payload {
    event.body.GetOr(Object(None, None))
  }

  function ContentType(f: FileEntry): string {
    f.contentType.GetOr(DefaultContentType)
  }

  function SignedFields(ctype: string): map<string, string> {
    map["acl" := "private", "Content-Type" := ctype]
  }

  function Conditions(ctype: string): seq<map<string, string>> {
    [map["acl" := "private"], map["Content-Type" := ctype]]
  }

  /** The arguments of the presign call for one object key and content type. */
  function PresignFor(bucket: string, key: string, ctype: string): PresignRequest {
    PresignRequest(bucket, key, SignedFields(ctype), Conditions(ctype), UrlExpiration)
  }

  /** What happens before the loop: the body is read, the secret looked up and compared. */
  datatype Admission = Raised(fault: Fault) | Denied | Admitted(files: seq<FileEntry>)

  /** `secret` is the `UPLOAD_PASSWORD` environment value, `None` when it is not set. */
  function Admit(event: Event, secret: Option<string>): Admission {
    match PayloadOf(event)
    case Malformed(reason) => Raised(BadBody(reason))
    case NotObject(t) => Raised(NoGetAttribute(t))
    case Object(password, files) =>
      match secret
      case None => Raised(MissingKey("UPLOAD_PASSWORD"))
      case Some(s) => if password != Some(s) then Denied else Admitted(files.GetOr([]))
  }

  /** The outcome of one loop iteration and the presign calls it made (none or one). */
  datatype Step = Step(grant: Result<Grant, Fault>, calls: seq<PresignRequest>)

  /** One iteration of the loop for the file at position `i`. */
  function Attempt(bucket: string, clock: Clock, issuer: Issuer, i: nat, f: FileEntry): Step {
    match f.name
    case None => Step(Err(MissingKey("name")), [])
    case Some(name) =>
      var request := PresignFor(bucket, Key(clock(i), name), ContentType(f));
      match issuer(i, request)
      case Err(reason) => Step(Err(IssuerError(reason)), [request])
      case Ok(p) => Step(Ok(Grant(name, p.url, p.fields, request.key)), [request])
  }

  /**
   * What one iteration does. A file without a name raises `KeyError('name')` before any call.
   * Otherwise exactly one presign call is made: for the key built from this iteration's clock
   * reading and the raw name, with `acl: private` and the file's content type (by default
   * `application/octet-stream`) both as signed fields and as conditions, valid for 3600 seconds.
   * It succeeds exactly when the issuer answers, and the grant then carries the name, the key
   * that was signed, and the issuer's url and fields unchanged; an issuer fault is re-raised.
   */
  lemma AttemptShape(bucket: string, clock: Clock, issuer: Issuer, i: nat, f: FileEntry)
    ensures var s := Attempt(bucket, clock, issuer, i, f);
      f.name.None? ==> s == Step(Err(MissingKey("name")), [])
    ensures var s, ctype := Attempt(bucket, clock, issuer, i, f), f.contentType.GetOr("application/octet-stream");
      f.name.Some? ==>
        && |s.calls| == 1
        && s.calls[0].bucket == bucket
        && s.calls[0].key == Key(clock(i), f.name.value)
        && s.calls[0].fields == map["acl" := "private", "Content-Type" := ctype]
        && s.calls[0].conditions == [map["acl" := "private"], map["Content-Type" := ctype]]
        && s.calls[0].expiresIn == 3600
        && (s.grant.Ok? <==> issuer(i, s.calls[0]).Ok?)
        && (s.grant.Ok? ==>
              s.grant.value == Grant(f.name.value, issuer(i, s.calls[0]).value.url, issuer(i, s.calls[0]).value.fields, s.calls[0].key))
        && (s.grant.Err? ==> s.grant.error == IssuerError(issuer(i, s.calls[0]).error))
  {
  }

  /** The grants accumulated by the loop and the calls made, or the first exception raised. */
  datatype Batch = Batch(grants: Result<seq<Grant>, Fault>, calls: seq<PresignRequest>)

  /** The body of the loop, given the position of the file and the file. */
  type Iteration = (nat, FileEntry) -> Step

  /** The handler's loop body for one deployment, clock and issuer. */
  function IterationOf(bucket: string, clock: Clock, issuer: Issuer): Iteration {
    (i: nat, f: FileEntry) => Attempt(bucket, clock, issuer, i, f)
  }

  /** An iteration that goes through has made exactly one presign call. */
  ghost predicate OneCallPerGrant(iterate: Iteration) {
    forall i: nat, f: FileEntry :: iterate(i, f).grant.Ok? ==> |iterate(i, f).calls| == 1
  }

  /**
   * The loop over `files`, stated on its prefixes: the last file is handled after all the
   * others, and only if none of them raised.
   */
  function Build(iterate: Iteration, files: seq<FileEntry>): Batch
    decreases |files|
  {
    if files == [] then Batch(Ok([]), [])
    else
      var n := |files| - 1;
      var earlier := Build(iterate, files[..n]);
      match earlier.grants
      case Err(_) => earlier
      case Ok(grants) =>
        var step := iterate(n, files[n]);
        match step.grant
        case Err(fault) => Batch(Err(fault), earlier.calls + step.calls)
        case Ok(grant) => Batch(Ok(grants + [grant]), earlier.calls + step.calls)
  }

  /** The response `lambda_handler` returns. */
  function Handle(event: Event, secret: Option<string>, bucket: string, clock: Clock, issuer: Issuer): Response {
    match Admit(event, secret)
    case Raised(fault) => ErrorResponse(500, Describe(fault))
    case Denied => ErrorResponse(403, Unauthorized)
    case Admitted(files) =>
      match Build(IterationOf(bucket, clock, issuer), files).grants
      case Err(fault) => ErrorResponse(500, Describe(fault))
      case Ok(grants) => SuccessResponse(Generated(SuccessMessage, grants))
  }

  /** The presign calls `lambda_handler` makes, in order. */
  function IssuerCalls(event: Event, secret: Option<string>, bucket: string, clock: Clock, issuer: Issuer): seq<PresignRequest> {
    match Admit(event, secret)
    case Admitted(files) => Build(IterationOf(bucket, clock, issuer), files).calls
    case _ => []
  }

  /** Once the loop has raised, the later files change nothing: no more calls, no grants. */
  lemma {:induction false} FailureIsFinal(iterate: Iteration, files: seq<FileEntry>, k: nat)
    requires k <= |files|
    requires Build(iterate, files[..k]).grants.Err?
    ensures Build(iterate, files) == Build(iterate, files[..k])
    decreases |files| - k
  {
    if k == |files| {
      assert files[..k] == files;
    } else {
      assert files[..k + 1][..k] == files[..k];
      FailureIsFinal(iterate, files, k + 1);
    }
  }

  /** One more iteration of the loop, after the files before position `k` went through. */
  lemma NextIteration(iterate: Iteration, files: seq<FileEntry>, k: nat)
    requires k < |files|
    requires Build(iterate, files[..k]).grants.Ok?
    ensures var earlier, step := Build(iterate, files[..k]), iterate(k, files[k]);
      Build(iterate, files[..k + 1]) ==
        match step.grant
        case Err(fault) => Batch(Err(fault), earlier.calls + step.calls)
        case Ok(grant) => Batch(Ok(earlier.grants.value + [grant]), earlier.calls + step.calls)
  {
    assert files[..k + 1][..k] == files[..k] && files[..k + 1][k] == files[k];
  }

  /**
   * All or nothing: the loop completes exactly when every file's iteration succeeds, and
   * then it has one grant and one call per file, in input order.
   */
  lemma {:induction false} BuildSucceeds(iterate: Iteration, files: seq<FileEntry>)
    requires OneCallPerGrant(iterate)
    ensures Build(iterate, files).grants.Ok? <==> forall i :: 0 <= i < |files| ==> iterate(i, files[i]).grant.Ok?
    ensures var b := Build(iterate, files);
      b.grants.Ok? ==>
        && |b.grants.value| == |files| && |b.calls| == |files|
        && forall i :: 0 <= i < |files| ==> iterate(i, files[i]) == Step(Ok(b.grants.value[i]), [b.calls[i]])
    decreases |files|
  {
    if files != [] {
      var n := |files| - 1;
      var front := files[..n];
      BuildSucceeds(iterate, front);
      var earlier, step, b := Build(iterate, front), iterate(n, files[n]), Build(iterate, files);
      if earlier.grants.Err? {
        assert b == earlier;
        var i :| 0 <= i < n && !iterate(i, front[i]).grant.Ok?;
        assert front[i] == files[i];
      } else if step.grant.Ok? {
        assert b.grants.value == earlier.grants.value + [step.grant.value];
        assert b.calls == earlier.calls + step.calls;
        forall i | 0 <= i < |files|
          ensures iterate(i, files[i]) == Step(Ok(b.grants.value[i]), [b.calls[i]])
        {
          if i < n {
            assert front[i] == files[i];
            assert b.grants.value[i] == earlier.grants.value[i] && b.calls[i] == earlier.calls[i];
          }
        }
      }
    }
  }

  /** The handler's iteration calls the issuer once for every file it grants. */
  lemma HandlerMakesOneCallPerGrant(bucket: string, clock: Clock, issuer: Issuer)
    ensures OneCallPerGrant(IterationOf(bucket, clock, issuer))
  {
  }

  /**
   * First failure wins: when file `k` is the first whose iteration raises, the loop raises
   * that exception, and the calls made are one per earlier file plus file `k`'s own (if any).
   */
  lemma FirstFailureWins(iterate: Iteration, files: seq<FileEntry>, k: nat)
    requires OneCallPerGrant(iterate)
    requires k < |files|
    requires forall i :: 0 <= i < k ==> iterate(i, files[i]).grant.Ok?
    requires iterate(k, files[k]).grant.Err?
    ensures var b := Build(iterate, files);
      && b.grants == Err(iterate(k, files[k]).grant.error)
      && |b.calls| == k + |iterate(k, files[k]).calls|
      && (forall i :: 0 <= i < k ==> iterate(i, files[i]).calls == [b.calls[i]])
      && b.calls[k..] == iterate(k, files[k]).calls
  {
    var front := files[..k];
    assert forall i :: 0 <= i < k ==> front[i] == files[i];
    BuildSucceeds(iterate, front);
    NextIteration(iterate, files, k);
    FailureIsFinal(iterate, files, k + 1);
    var b, earlier := Build(iterate, files), Build(iterate, front);
    forall i | 0 <= i < k
      ensures iterate(i, files[i]).calls == [b.calls[i]]
    {
      assert b.calls[i] == earlier.calls[i];
    }
  }

  /**
   * The password gate. The response is 403 exactly when the body is an object, the secret is
   * set, and the body's password (absent counts as `None`) differs from it; such a response
   * is `{"error": "Unauthorized"}` and no presign call is made, whatever `files` holds.
   */
  lemma ForbiddenExactlyOnWrongPassword(event: Event, secret: Option<string>, bucket: string, clock: Clock, issuer: Issuer)
    ensures Handle(event, secret, bucket, clock, issuer).statusCode == 403 <==>
      PayloadOf(event).Object? && secret.Some? && PayloadOf(event).password != Some(secret.value)
    ensures Handle(event, secret, bucket, clock, issuer).statusCode == 403 ==>
      && Handle(event, secret, bucket, clock, issuer).body == Failed("Unauthorized")
      && IssuerCalls(event, secret, bucket, clock, issuer) == []
  {
  }

  /**
   * The body is read before anything else: an unparsable body, or JSON that is not an object
   * (it has no `.get`), raises and gives a 500 carrying the exception text, with no call,
   * whatever the secret. More generally, a presign call is made only after the password check.
   */
  lemma BodyFaultsAreServerErrors(reason: string, typeName: string, event: Event, secret: Option<string>, bucket: string, clock: Clock, issuer: Issuer)
    ensures Handle(Event(Some(Malformed(reason))), secret, bucket, clock, issuer) == ErrorResponse(500, reason)
    ensures Handle(Event(Some(NotObject(typeName))), secret, bucket, clock, issuer) ==
      ErrorResponse(500, "'" + typeName + "' object has no attribute 'get'")
    ensures IssuerCalls(Event(Some(Malformed(reason))), secret, bucket, clock, issuer) == []
    ensures IssuerCalls(Event(Some(NotObject(typeName))), secret, bucket, clock, issuer) == []
    ensures IssuerCalls(event, secret, bucket, clock, issuer) != [] ==> Admit(event, secret).Admitted?
  {
  }

  /** A body without a password, or an event without a "body" key, is refused whenever the secret is set. */
  lemma MissingPasswordForbidden(files: Option<seq<FileEntry>>, secret: string, bucket: string, clock: Clock, issuer: Issuer)
    ensures Handle(Event(Some(Object(None, files))), Some(secret), bucket, clock, issuer) == ErrorResponse(403, "Unauthorized")
    ensures Handle(Event(None), Some(secret), bucket, clock, issuer) == ErrorResponse(403, "Unauthorized")
    ensures IssuerCalls(Event(Some(Object(None, files))), Some(secret), bucket, clock, issuer) == []
    ensures IssuerCalls(Event(None), Some(secret), bucket, clock, issuer) == []
  {
  }

  /** Without `UPLOAD_PASSWORD` the lookup raises inside the `try`: a 500 naming the variable, no calls. */
  lemma MissingSecretIsServerError(password: Option<string>, files: Option<seq<FileEntry>>, bucket: string, clock: Clock, issuer: Issuer)
    ensures Handle(Event(Some(Object(password, files))), None, bucket, clock, issuer) == ErrorResponse(500, "'UPLOAD_PASSWORD'")
    ensures IssuerCalls(Event(Some(Object(password, files))), None, bucket, clock, issuer) == []
  {
    assert Admit(Event(Some(Object(password, files))), None) == Raised(MissingKey("UPLOAD_PASSWORD"));
  }

  /** With the right password and no files (absent or empty), the answer is 200 with an empty list. */
  lemma NoFilesSucceeds(secret: string, files: Option<seq<FileEntry>>, bucket: string, clock: Clock, issuer: Issuer)
    requires files == None || files == Some([])
    ensures var event := Event(Some(Object(Some(secret), files)));
      && Handle(event, Some(secret), bucket, clock, issuer) == SuccessResponse(Generated("Presigned POST URLs generated", []))
      && IssuerCalls(event, Some(secret), bucket, clock, issuer) == []
  {
  }

  /**
   * Grant `g` and call `q` answer file `f` at position `i`: the grant is named as the file; its
   * key is that iteration's clock reading followed by the raw name; the call signed that key in
   * `bucket` with `acl: private` and the file's content type (by default
   * `application/octet-stream`) as fields and as conditions, for 3600 seconds; and the grant's
   * url and fields are the issuer's answer to that call, unchanged.
   */
  predicate AnswersFile(bucket: string, clock: Clock, issuer: Issuer, i: nat, f: FileEntry, g: Grant, q: PresignRequest) {
    var ctype := f.contentType.GetOr("application/octet-stream");
    && f.name == Some(g.name)
    && g.key == Key(clock(i), g.name)
    && q == PresignRequest(bucket, g.key, map["acl" := "private", "Content-Type" := ctype],
                           [map["acl" := "private"], map["Content-Type" := ctype]], 3600)
    && issuer(i, q) == Ok(Presigned(g.url, g.fields))
  }

  /**
   * A 200 answers every file: its body is the fixed message with one grant per file, in input
   * order, and one call was made per file, each answering that file.
   */
  lemma SuccessAnswersEveryFile(event: Event, secret: Option<string>, bucket: string, clock: Clock, issuer: Issuer)
    requires Handle(event, secret, bucket, clock, issuer).statusCode == 200
    ensures Admit(event, secret).Admitted?
    ensures var files := Admit(event, secret).files;
      var body := Handle(event, secret, bucket, clock, issuer).body;
      var calls := IssuerCalls(event, secret, bucket, clock, issuer);
      && body == Generated("Presigned POST URLs generated", body.files)
      && |body.files| == |files| && |calls| == |files|
      && forall i :: 0 <= i < |files| ==> AnswersFile(bucket, clock, issuer, i, files[i], body.files[i], calls[i])
  {
    var files := Admit(event, secret).files;
    var iterate := IterationOf(bucket, clock, issuer);
    HandlerMakesOneCallPerGrant(bucket, clock, issuer);
    BuildSucceeds(iterate, files);
    var b := Build(iterate, files);
    assert Handle(event, secret, bucket, clock, issuer).body == Generated(SuccessMessage, b.grants.value);
    assert IssuerCalls(event, secret, bucket, clock, issuer) == b.calls;
    forall i | 0 <= i < |files|
      ensures AnswersFile(bucket, clock, issuer, i, files[i], b.grants.value[i], b.calls[i])
    {
      assert iterate(i, files[i]) == Attempt(bucket, clock, issuer, i, files[i]);
      AttemptShape(bucket, clock, issuer, i, files[i]);
    }
  }

  /**
   * The 200 case exactly: the password check passes and every file has a name and is
   * presigned without a fault.
   */
  lemma SuccessExactlyWhenEveryFileIssued(event: Event, secret: Option<string>, bucket: string, clock: Clock, issuer: Issuer)
    ensures Handle(event, secret, bucket, clock, issuer).statusCode == 200 <==>
      && Admit(event, secret).Admitted?
      && forall i :: 0 <= i < |Admit(event, secret).files| ==>
           var f := Admit(event, secret).files[i];
           f.name.Some? && issuer(i, PresignFor(bucket, Key(clock(i), f.name.value), ContentType(f))).Ok?
  {
    if Admit(event, secret).Admitted? {
      HandlerMakesOneCallPerGrant(bucket, clock, issuer);
      BuildSucceeds(IterationOf(bucket, clock, issuer), Admit(event, secret).files);
    }
  }

  /**
   * No partial results: if file `k` is the first to raise (no name, or a presign fault), the
   * response is a 500 carrying that exception's text and no grant from the earlier files, and
   * no call is made for any file after it.
   */
  lemma FaultAbortsBatch(secret: string, files: seq<FileEntry>, bucket: string, clock: Clock, issuer: Issuer, k: nat)
    requires k < |files|
    requires forall i :: 0 <= i < k ==> Attempt(bucket, clock, issuer, i, files[i]).grant.Ok?
    requires Attempt(bucket, clock, issuer, k, files[k]).grant.Err?
    ensures var event := Event(Some(Object(Some(secret), Some(files))));
      && Handle(event, Some(secret), bucket, clock, issuer) ==
           ErrorResponse(500, Describe(Attempt(bucket, clock, issuer, k, files[k]).grant.error))
      && |IssuerCalls(event, Some(secret), bucket, clock, issuer)| <= k + 1
    ensures files[k].name.None? ==>
      Handle(Event(Some(Object(Some(secret), Some(files)))), Some(secret), bucket, clock, issuer) == ErrorResponse(500, "'name'")
  {
    HandlerMakesOneCallPerGrant(bucket, clock, issuer);
    FirstFailureWins(IterationOf(bucket, clock, issuer), files, k);
  }

  /**
   * Each presign call is answered on its own: two files with the same name and the same clock
   * reading make two equal requests, and when only the second one raises, the batch still
   * aborts with a 500 carrying that second exception's text, after both calls were made.
   */
  lemma RepeatedFileCanFailAlone(secret: string, f: FileEntry, bucket: string, clock: Clock, issuer: Issuer)
    requires f.name.Some? && clock(0) == clock(1)
    requires var q := PresignFor(bucket, Key(clock(0), f.name.value), ContentType(f));
      issuer(0, q).Ok? && issuer(1, q).Err?
    ensures var event := Event(Some(Object(Some(secret), Some([f, f]))));
      var q := PresignFor(bucket, Key(clock(0), f.name.value), ContentType(f));
      && Handle(event, Some(secret), bucket, clock, issuer) == ErrorResponse(500, issuer(1, q).error)
      && IssuerCalls(event, Some(secret), bucket, clock, issuer) == [q, q]
  {
    var iterate := IterationOf(bucket, clock, issuer);
    AttemptShape(bucket, clock, issuer, 0, f);
    AttemptShape(bucket, clock, issuer, 1, f);
    assert iterate(0, [f, f][0]) == Attempt(bucket, clock, issuer, 0, f);
    assert iterate(1, [f, f][1]) == Attempt(bucket, clock, issuer, 1, f);
    HandlerMakesOneCallPerGrant(bucket, clock, issuer);
    FirstFailureWins(iterate, [f, f], 1);
  }

  /** Every response carries the three CORS headers, and its status is 200, 403 or 500. */
  lemma EveryResponseHasCors(event: Event, secret: Option<string>, bucket: string, clock: Clock, issuer: Issuer)
    ensures Handle(event, secret, bucket, clock, issuer).headers == CorsHeaders()
    ensures Handle(event, secret, bucket, clock, issuer).statusCode in {200, 403, 500}
    ensures Handle(event, secret, bucket, clock, issuer).statusCode == 200 <==>
      Handle(event, secret, bucket, clock, issuer).body.Generated?
  {
  }

  /**
   * `lambda_handler`, step by step: early returns stand for the `try` block's raise and
   * `except` clause. It returns the response and the presign calls made, in order.
   */
  method LambdaHandler(event: Event, secret: Option<string>, bucket: string, clock: Clock, issuer: Issuer)
    returns (response: Response, calls: seq<PresignRequest>)
    ensures response == Handle(event, secret, bucket, clock, issuer)
    ensures calls == IssuerCalls(event, secret, bucket, clock, issuer)
  {
    calls := [];
    var body := PayloadOf(event);
    if body.Malformed? {
      response := ErrorResponse(500, Describe(BadBody(body.reason)));
      return;
    }
    if body.NotObject? {
      response := ErrorResponse(500, Describe(NoGetAttribute(body.typeName)));
      return;
    }
    var password := body.password;
    var files := body.files.GetOr([]);
    if secret.None? {
      response := ErrorResponse(500, Describe(MissingKey("UPLOAD_PASSWORD")));
      return;
    }
    if password != Some(secret.value) {
      response := ErrorResponse(403, Unauthorized);
      return;
    }

    var grants;
    grants, calls := IssueGrants(bucket, clock, issuer, files);
    match grants
    case Err(fault) =>
      response := ErrorResponse(500, Describe(fault));
    case Ok(generatedUrls) =>
      response := SuccessResponse(Generated(SuccessMessage, generatedUrls));
  }

  /**
   * The loop of `lambda_handler`: one presign call per file, in input order, stopping at the
   * first file that raises. It returns the grants (or that exception) and the calls it made.
   */
  method IssueGrants(bucket: string, clock: Clock, issuer: Issuer, files: seq<FileEntry>)
    returns (grants: Result<seq<Grant>, Fault>, calls: seq<PresignRequest>)
    ensures Batch(grants, calls) == Build(IterationOf(bucket, clock, issuer), files)
  {
    calls := [];
    var generatedUrls: seq<Grant> := [];
    var i := 0;
    while i < |files|
      invariant i <= |files|
      invariant Build(IterationOf(bucket, clock, issuer), files[..i]) == Batch(Ok(generatedUrls), calls)
    {
      var file := files[i];
      NextIteration(IterationOf(bucket, clock, issuer), files, i);
      if file.name.None? {
        FailureIsFinal(IterationOf(bucket, clock, issuer), files, i + 1);
        return Err(MissingKey("name")), calls;
      }
      var key := Key(clock(i), file.name.value);
      var ctype := file.contentType.GetOr(DefaultContentType);
      var request := PresignFor(bucket, key, ctype);
      assert Attempt(bucket, clock, issuer, i, file).calls == [request];
      calls := calls + [request];
      var presigned := issuer(i, request);
      if presigned.Err? {
        FailureIsFinal(IterationOf(bucket, clock, issuer), files, i + 1);
        return Err(IssuerError(presigned.error)), calls;
      }
      generatedUrls := generatedUrls + [Grant(file.name.value, presigned.value.url, presigned.value.fields, key)];
      i := i + 1;
    }
    assert files[..i] == files;
    grants := Ok(generatedUrls);
  }
}
