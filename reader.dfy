/** ClasspathJsonReader.read(path, type): the classpath documents are a
    parameter mapping a path to the list it decodes to, or to nothing when
    the resource is missing or does not decode. */
module Reader {
  import opened Wrappers
  import opened Errors

  type Documents<T> = string -> Option<seq<T>>

  const ReadFailurePrefix: string := "Failed to read JSON resource: "

  /** The decoded list, or the IllegalStateException naming the path. */
  function Read<T>(docs: Documents<T>, path: string): (r: Result<seq<T>, Failure>)
    ensures r.Success? <==> docs(path).Some?
    ensures r.Success? ==> r.value == docs(path).value
    ensures r.Failure? ==> r.error == IllegalState(ReadFailurePrefix + path)
  {
    match docs(path)
    case Some(items) => Success(items)
    case None => Failure(IllegalState(ReadFailurePrefix + path))
  }
}
