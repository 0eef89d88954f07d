/** GlobalExceptionHandler: every exception that escapes a controller is
    answered with an ErrorResponse by the handler declared for its most
    specific class. */
module ExceptionHandler {
  import opened Wrappers
  import opened Text
  import opened Decimal
  import opened Dates
  import opened Errors
  import opened Sequences

  /** LocalDateTime.now(), supplied by the caller. */
  datatype Timestamp = Timestamp(date: Date, secondOfDay: int)

  datatype ErrorResponse = ErrorResponse(timestamp: Timestamp, status: int, error: string, message: string, path: string)

  /** ResponseEntity: a body and the HTTP status it is sent with. */
  datatype ResponseEntity = ResponseEntity(body: ErrorResponse, status: int)

  // ---- handler resolution ------------------------------------------------

  /** The classes named by an @ExceptionHandler, in declaration order. */
  function HandledClasses(): seq<ExceptionClass> {
    [ResourceNotFoundException, InvalidLanguageException, DomainException,
     UseCaseExecutionException, ApplicationException, JsonReadException,
     DataSourceException, InfrastructureException, IllegalArgumentException,
     Exception]
  }

  predicate Handled(c: ExceptionClass) {
    c in HandledClasses()
  }

  /** Spring's choice of handler: starting from the exception's own class,
      the first class up the superclass chain that has a handler. The
      catch-all handler for java.lang.Exception ends every chain. */
  function HandlerFor(c: ExceptionClass): (r: ExceptionClass)
    ensures Handled(r) && r in Lineage(c)
    ensures exists k :: FirstMatchAt(Lineage(c), Handled, k) && Lineage(c)[k] == r
    decreases Depth(c)
  {
    if Handled(c) then
      assert FirstMatchAt(Lineage(c), Handled, 0);
      c
    else
      var r := HandlerFor(Superclass(c));
      assert Lineage(c) == [c] + Lineage(Superclass(c));
      assert forall k :: FirstMatchAt(Lineage(Superclass(c)), Handled, k) ==> FirstMatchAt(Lineage(c), Handled, k + 1);
      r
  }

  /** The handler each class resolves to: all but three classes have
      their own. */
  lemma HandlerForTable(c: ExceptionClass)
    ensures HandlerFor(c) == match c
      case InvalidAggregateStateException => DomainException
      case IllegalStateException | RuntimeException => Exception
      case _ => c
  {
    match c
    case InvalidAggregateStateException =>
      assert !Handled(c);
    case IllegalStateException =>
      assert !Handled(c) && !Handled(RuntimeException);
    case RuntimeException =>
      assert !Handled(c);
    case _ =>
  }

  /** The (status, error, message) each handler method writes. */
  datatype Verdict = Verdict(status: int, error: string, message: string)

  function VerdictOf(handler: ExceptionClass, e: Failure): Verdict {
    match handler
    case ResourceNotFoundException => Verdict(404, "Not Found", Message(e))
    case InvalidLanguageException => Verdict(400, "Bad Request", Message(e))
    case DomainException => Verdict(422, "Business Rule Violation", Message(e))
    case UseCaseExecutionException => Verdict(500, "Use Case Execution Failed", Message(e))
    case ApplicationException => Verdict(500, "Application Error", Message(e))
    case JsonReadException => Verdict(500, "Data Source Error", "Failed to read configuration data")
    case DataSourceException => Verdict(500, "Data Source Error", "Failed to access data source")
    case InfrastructureException => Verdict(500, "Infrastructure Error", "A technical error occurred")
    case IllegalArgumentException => Verdict(400, "Bad Request", Message(e))
    case _ => Verdict(500, "Internal Server Error", "An unexpected error occurred")
  }

  // ---- request path ------------------------------------------------------

  /** String.replace(target, ""): every occurrence of target, scanning left
      to right without overlaps, removed. */
  function RemoveAll(s: string, target: string): (r: string)
    requires |target| > 0
    ensures |r| <= |s|
  {
    if |s| < |target| then s
    else if s[..|target|] == target then RemoveAll(s[|target|..], target)
    else [s[0]] + RemoveAll(s[1..], target)
  }

  /** extractPath: the request description with "uri=" removed. */
  function ExtractPath(description: string): (r: string)
    ensures |r| <= |description|
  {
    RemoveAll(description, "uri=")
  }

  /** A string without target is left alone. */
  lemma {:induction false} RemoveAllAbsent(s: string, target: string)
    requires |target| > 0 && !Contains(s, target)
    ensures RemoveAll(s, target) == s
  {
    if |s| >= |target| {
      assert s[..|target|] != target;
      RemoveAllAbsent(s[1..], target);
    }
  }

  /** The servlet description "uri=/path" yields "/path". */
  lemma ExtractPathOfUri(path: string)
    requires !Contains(path, "uri=")
    ensures ExtractPath("uri=" + path) == path
  {
    assert ("uri=" + path)[..4] == "uri=";
    assert ("uri=" + path)[4..] == path;
    RemoveAllAbsent(path, "uri=");
  }

  // ---- the response ------------------------------------------------------

  /** The response entity for an exception raised while serving the request
      with that description, at time now. */
  function Handle(e: Failure, now: Timestamp, description: string): (r: ResponseEntity)
    ensures r.status == r.body.status
    ensures r.body.timestamp == now && r.body.path == ExtractPath(description)
    ensures r.body.status in {400, 404, 422, 500}
  {
    var v := VerdictOf(HandlerFor(ClassOf(e)), e);
    ResponseEntity(ErrorResponse(now, v.status, v.error, v.message, ExtractPath(description)), v.status)
  }

  /** Which response each exception gets, once the most specific handler is
      chosen: subclasses are caught by their own handler before their
      superclass's, and IllegalStateException falls through to the
      catch-all. */
  lemma HandleTable(e: Failure, now: Timestamp, description: string)
    ensures var b := Handle(e, now, description).body;
      match e
      case ResourceNotFound(_, _) => b.status == 404 && b.error == "Not Found" && b.message == Message(e)
      case InvalidLanguage(_) => b.status == 400 && b.error == "Bad Request" && b.message == Message(e)
      case InvalidAggregateState(_, _) => b.status == 422 && b.error == "Business Rule Violation" && b.message == Message(e)
      case DomainError(_) => b.status == 422 && b.error == "Business Rule Violation" && b.message == Message(e)
      case UseCaseExecution(_, _) => b.status == 500 && b.error == "Use Case Execution Failed" && b.message == Message(e)
      case ApplicationError(_) => b.status == 500 && b.error == "Application Error" && b.message == Message(e)
      case JsonRead(_, _) => b.status == 500 && b.error == "Data Source Error" && b.message == "Failed to read configuration data"
      case DataSource(_, _) => b.status == 500 && b.error == "Data Source Error" && b.message == "Failed to access data source"
      case InfrastructureError(_) => b.status == 500 && b.error == "Infrastructure Error" && b.message == "A technical error occurred"
      case IllegalArgument(_) => b.status == 400 && b.error == "Bad Request" && b.message == Message(e)
      case IllegalState(_) => b.status == 500 && b.error == "Internal Server Error" && b.message == "An unexpected error occurred"
      case Unexpected(_) => b.status == 500 && b.error == "Internal Server Error" && b.message == "An unexpected error occurred"
  {
    HandlerForTable(ClassOf(e));
    match e
    case ResourceNotFound(_, _) =>
    case InvalidLanguage(_) =>
    case InvalidAggregateState(_, _) =>
    case DomainError(_) =>
    case UseCaseExecution(_, _) =>
    case ApplicationError(_) =>
    case JsonRead(_, _) =>
    case DataSource(_, _) =>
    case InfrastructureError(_) =>
    case IllegalArgument(_) =>
    case IllegalState(_) =>
    case Unexpected(_) =>
  }

  /** A client error (4xx) is answered exactly for domain exceptions and
      IllegalArgumentException. */
  lemma ClientErrorIffDomainOrArgument(e: Failure, now: Timestamp, description: string)
    ensures Handle(e, now, description).status < 500 <==> IsInstanceOf(e, DomainException) || e.IllegalArgument?
  {
    HandleTable(e, now, description);
    Taxonomy(e);
  }

  /** Infrastructure failures and unexpected exceptions never reveal what
      they carry: two of the same class get the same response. */
  lemma ServerFailuresHideDetails(e1: Failure, e2: Failure, now: Timestamp, description: string)
    requires ClassOf(e1) == ClassOf(e2)
    requires IsInstanceOf(e1, InfrastructureException) || e1.IllegalState? || e1.Unexpected?
    ensures Handle(e1, now, description) == Handle(e2, now, description)
  {
    HandleTable(e1, now, description);
    HandleTable(e2, now, description);
    Taxonomy(e1);
  }

  /** A missing document reaches the client as a generic 500: the reader's
      IllegalStateException has no handler of its own. */
  lemma ReadFailureResponse(path: string, now: Timestamp, description: string)
    ensures var r := Handle(IllegalState("Failed to read JSON resource: " + path), now, description);
      r.status == 500 && r.body.error == "Internal Server Error" && r.body.message == "An unexpected error occurred"
  {
    HandleTable(IllegalState("Failed to read JSON resource: " + path), now, description);
  }

  /** A missing entry is a 404 whose message names the resource type and the
      requested id. */
  lemma NotFoundResponse(resourceType: string, id: Int32, now: Timestamp, description: string)
    ensures var r := Handle(ResourceNotFound(resourceType, IntToString(id)), now, description);
      && r.status == 404
      && Contains(r.body.message, resourceType)
      && Contains(r.body.message, IntToString(id))
  {
    HandleTable(ResourceNotFound(resourceType, IntToString(id)), now, description);
    ResourceNotFoundMessageNames(resourceType, IntToString(id));
  }
}
