/** The exception taxonomy: the domain, application and infrastructure
    exceptions of the core, and the JDK exceptions the core lets escape.
    One constructor per exception class, carrying its constructor
    arguments; a `cause` is not modelled, so the constructors that take one
    coincide with those that do not. */
module Errors {
  import opened Text

  datatype Failure =
    | ResourceNotFound(resourceType: string, resourceId: string)
    | InvalidLanguage(invalidCode: string)
    | InvalidAggregateState(aggregateType: string, reason: string)
      /** A DomainException subclass not named in the core. */
    | DomainError(detail: string)
    | UseCaseExecution(useCaseName: string, detail: string)
      /** An ApplicationException subclass not named in the core. */
    | ApplicationError(detail: string)
    | DataSource(dataSource: string, detail: string)
    | JsonRead(filePath: string, detail: string)
      /** An InfrastructureException subclass not named in the core. */
    | InfrastructureError(detail: string)
    | IllegalArgument(detail: string)
    | IllegalState(detail: string)
      /** Any other exception. */
    | Unexpected(detail: string)

  /** The data source JsonReadException passes to its superclass. */
  const JsonFileSource: string := "JSON File"

  /** DataSourceException's message for a data source and a detail. */
  function DataSourceMessage(dataSource: string, detail: string): string {
    "Data source '" + dataSource + "' error: " + detail
  }

  /** Throwable.getMessage, as each exception class builds it. */
  function Message(e: Failure): string {
    match e
    case ResourceNotFound(t, id) => t + " with id '" + id + "' not found"
    case InvalidLanguage(code) => "Invalid language code: '" + code + "'. Supported codes are: es_ES, en_EN"
    case InvalidAggregateState(t, reason) => "Invalid state for " + t + ": " + reason
    case DomainError(m) => m
    case UseCaseExecution(name, m) => "Use case '" + name + "' failed: " + m
    case ApplicationError(m) => m
    case DataSource(source, m) => DataSourceMessage(source, m)
    case JsonRead(path, m) => "Failed to read JSON file '" + path + "': " + DataSourceMessage(JsonFileSource, m)
    case InfrastructureError(m) => m
    case IllegalArgument(m) => m
    case IllegalState(m) => m
    case Unexpected(m) => m
  }

  /** DataSourceException.getDataSource, also inherited by JsonReadException. */
  function DataSourceOf(e: Failure): (r: string)
    requires e.DataSource? || e.JsonRead?
    ensures e.JsonRead? ==> r == JsonFileSource
  {
    if e.JsonRead? then JsonFileSource else e.dataSource
  }

  // ---- class hierarchy ---------------------------------------------------

  datatype ExceptionClass =
    | ResourceNotFoundException | InvalidLanguageException | InvalidAggregateStateException
    | DomainException
    | UseCaseExecutionException | ApplicationException
    | JsonReadException | DataSourceException | InfrastructureException
    | IllegalArgumentException | IllegalStateException
    | RuntimeException | Exception

  /** The runtime class of an exception value. */
  function ClassOf(e: Failure): ExceptionClass {
    match e
    case ResourceNotFound(_, _) => ResourceNotFoundException
    case InvalidLanguage(_) => InvalidLanguageException
    case InvalidAggregateState(_, _) => InvalidAggregateStateException
    case DomainError(_) => DomainException
    case UseCaseExecution(_, _) => UseCaseExecutionException
    case ApplicationError(_) => ApplicationException
    case DataSource(_, _) => DataSourceException
    case JsonRead(_, _) => JsonReadException
    case InfrastructureError(_) => InfrastructureException
    case IllegalArgument(_) => IllegalArgumentException
    case IllegalState(_) => IllegalStateException
    case Unexpected(_) => Exception
  }

  /** Distance from java.lang.Exception in the hierarchy. */
  function Depth(c: ExceptionClass): nat {
    match c
    case Exception => 0
    case RuntimeException => 1
    case DomainException | ApplicationException | InfrastructureException
       | IllegalArgumentException | IllegalStateException => 2
    case ResourceNotFoundException | InvalidLanguageException | InvalidAggregateStateException
       | UseCaseExecutionException | DataSourceException => 3
    case JsonReadException => 4
  }

  /** The `extends` clause of each class. */
  function Superclass(c: ExceptionClass): (r: ExceptionClass)
    requires c != Exception
    ensures Depth(r) + 1 == Depth(c)
  {
    match c
    case ResourceNotFoundException | InvalidLanguageException | InvalidAggregateStateException => DomainException
    case UseCaseExecutionException => ApplicationException
    case JsonReadException => DataSourceException
    case DataSourceException => InfrastructureException
    case DomainException | ApplicationException | InfrastructureException
       | IllegalArgumentException | IllegalStateException => RuntimeException
    case RuntimeException => Exception
  }

  /** The class followed by its superclasses, most specific first, ending
      with java.lang.Exception. */
  function Lineage(c: ExceptionClass): (r: seq<ExceptionClass>)
    ensures |r| == Depth(c) + 1
    ensures r[0] == c && r[|r| - 1] == Exception
    decreases Depth(c)
  {
    if c == Exception then [c] else [c] + Lineage(Superclass(c))
  }

  /** `e instanceof c`: c is the class of e or one of its superclasses. */
  predicate IsInstanceOf(e: Failure, c: ExceptionClass) {
    c in Lineage(ClassOf(e))
  }

  /** The lineage of every class, written out. */
  lemma LineageTable(c: ExceptionClass)
    ensures Lineage(c) == match c
      case Exception => [Exception]
      case RuntimeException => [RuntimeException, Exception]
      case DomainException | ApplicationException | InfrastructureException
         | IllegalArgumentException | IllegalStateException => [c, RuntimeException, Exception]
      case ResourceNotFoundException | InvalidLanguageException | InvalidAggregateStateException =>
        [c, DomainException, RuntimeException, Exception]
      case UseCaseExecutionException => [c, ApplicationException, RuntimeException, Exception]
      case DataSourceException => [c, InfrastructureException, RuntimeException, Exception]
      case JsonReadException => [c, DataSourceException, InfrastructureException, RuntimeException, Exception]
    decreases Depth(c)
  {
    if c != Exception {
      LineageTable(Superclass(c));
    }
  }

  /** Where each exception sits in the layered taxonomy. */
  lemma Taxonomy(e: Failure)
    ensures IsInstanceOf(e, DomainException) <==>
              e.ResourceNotFound? || e.InvalidLanguage? || e.InvalidAggregateState? || e.DomainError?
    ensures IsInstanceOf(e, ApplicationException) <==> e.UseCaseExecution? || e.ApplicationError?
    ensures IsInstanceOf(e, InfrastructureException) <==> e.DataSource? || e.JsonRead? || e.InfrastructureError?
    ensures IsInstanceOf(e, DataSourceException) <==> e.DataSource? || e.JsonRead?
    ensures IsInstanceOf(e, RuntimeException) <==> !e.Unexpected?
    ensures IsInstanceOf(e, Exception)
  {
    LineageTable(ClassOf(e));
  }

  // ---- what each message reveals -----------------------------------------

  lemma ResourceNotFoundMessageNames(resourceType: string, resourceId: string)
    ensures Contains(Message(ResourceNotFound(resourceType, resourceId)), resourceType)
    ensures Contains(Message(ResourceNotFound(resourceType, resourceId)), resourceId)
  {
    var a := resourceType + " with id '";
    ContainsSelf(resourceType);
    ContainsExtendRight(resourceType, " with id '", resourceType);
    ContainsExtendRight(a, resourceId, resourceType);
    ContainsExtendRight(a + resourceId, "' not found", resourceType);
    ContainsSelf(resourceId);
    ContainsExtendLeft(a, resourceId, resourceId);
    ContainsExtendRight(a + resourceId, "' not found", resourceId);
  }

  lemma InvalidLanguageMessageNames(code: string)
    ensures Contains(Message(InvalidLanguage(code)), code)
    ensures Contains(Message(InvalidLanguage(code)), "es_ES")
    ensures Contains(Message(InvalidLanguage(code)), "en_EN")
  {
    var head := "Invalid language code: '";
    var tail := "'. Supported codes are: es_ES, en_EN";
    ContainsSelf(code);
    ContainsExtendLeft(head, code, code);
    ContainsExtendRight(head + code, tail, code);
    assert tail == "'. Supported codes are: " + "es_ES" + ", en_EN";
    ContainsSelf("es_ES");
    ContainsExtendLeft("'. Supported codes are: ", "es_ES", "es_ES");
    ContainsExtendRight("'. Supported codes are: " + "es_ES", ", en_EN", "es_ES");
    ContainsExtendLeft(head + code, tail, "es_ES");
    assert tail == "'. Supported codes are: es_ES, " + "en_EN";
    ContainsSelf("en_EN");
    ContainsExtendLeft("'. Supported codes are: es_ES, ", "en_EN", "en_EN");
    ContainsExtendLeft(head + code, tail, "en_EN");
  }

  lemma InvalidAggregateStateMessageNames(aggregateType: string, reason: string)
    ensures Contains(Message(InvalidAggregateState(aggregateType, reason)), aggregateType)
    ensures Contains(Message(InvalidAggregateState(aggregateType, reason)), reason)
  {
    var a := "Invalid state for " + aggregateType;
    ContainsSelf(aggregateType);
    ContainsExtendLeft("Invalid state for ", aggregateType, aggregateType);
    ContainsExtendRight(a, ": ", aggregateType);
    ContainsExtendRight(a + ": ", reason, aggregateType);
    ContainsSelf(reason);
    ContainsExtendLeft(a + ": ", reason, reason);
  }

  lemma UseCaseExecutionMessageNames(useCaseName: string, detail: string)
    ensures Contains(Message(UseCaseExecution(useCaseName, detail)), useCaseName)
    ensures Contains(Message(UseCaseExecution(useCaseName, detail)), detail)
  {
    var a := "Use case '" + useCaseName;
    ContainsSelf(useCaseName);
    ContainsExtendLeft("Use case '", useCaseName, useCaseName);
    ContainsExtendRight(a, "' failed: ", useCaseName);
    ContainsExtendRight(a + "' failed: ", detail, useCaseName);
    ContainsSelf(detail);
    ContainsExtendLeft(a + "' failed: ", detail, detail);
  }

  lemma DataSourceMessageNames(dataSource: string, detail: string)
    ensures Contains(Message(DataSource(dataSource, detail)), dataSource)
    ensures Contains(Message(DataSource(dataSource, detail)), detail)
  {
    var a := "Data source '" + dataSource;
    ContainsSelf(dataSource);
    ContainsExtendLeft("Data source '", dataSource, dataSource);
    ContainsExtendRight(a, "' error: ", dataSource);
    ContainsExtendRight(a + "' error: ", detail, dataSource);
    ContainsSelf(detail);
    ContainsExtendLeft(a + "' error: ", detail, detail);
  }

  /** JsonReadException's message names the file, and keeps the message its
      DataSourceException superclass built for the "JSON File" source. */
  lemma JsonReadMessageNames(filePath: string, detail: string)
    ensures Contains(Message(JsonRead(filePath, detail)), filePath)
    ensures Contains(Message(JsonRead(filePath, detail)), Message(DataSource(JsonFileSource, detail)))
    ensures Contains(Message(JsonRead(filePath, detail)), detail)
  {
    var a := "Failed to read JSON file '" + filePath;
    var inner := DataSourceMessage(JsonFileSource, detail);
    ContainsSelf(filePath);
    ContainsExtendLeft("Failed to read JSON file '", filePath, filePath);
    ContainsExtendRight(a, "': ", filePath);
    ContainsExtendRight(a + "': ", inner, filePath);
    ContainsSelf(inner);
    ContainsExtendLeft(a + "': ", inner, inner);
    DataSourceMessageNames(JsonFileSource, detail);
    ContainsExtendLeft(a + "': ", inner, detail);
  }
}
