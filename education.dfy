/** JsonEducationQueryAdapter: the education list of a language, in document
    order. */
module EducationAdapter {
  import opened Wrappers
  import opened Decimal
  import opened Errors
  import opened Languages
  import opened Records
  import opened Reader
  import opened Lookup

  const EducationFile: string := "education.json"

  /** findAllEducations: the language's document, unsorted. */
  function FindAllEducations(docs: Documents<EducationItem>, l: Language): (r: Result<seq<EducationItem>, Failure>)
    ensures r.Success? <==> docs(LocalePath(l, EducationFile)).Some?
    ensures r.Success? ==> r.value == docs(LocalePath(l, EducationFile)).value
    ensures r.Failure? ==> r.error == IllegalState(ReadFailurePrefix + LocalePath(l, EducationFile))
  {
    Read(docs, LocalePath(l, EducationFile))
  }

  function EducationIdIs(id: Int32): EducationItem -> bool {
    (e: EducationItem) => e.id == id
  }

  /** findEducationById: the first listed entry with that id. */
  function FindEducationById(docs: Documents<EducationItem>, id: Int32, l: Language): (r: Result<Option<EducationItem>, Failure>)
    ensures IsLookup(FindAllEducations(docs, l), EducationIdIs(id), r)
    ensures r.Success? && r.value.Some? ==> r.value.value.id == id
  {
    FindIn(FindAllEducations(docs, l), EducationIdIs(id))
  }

  /** Each language reads its own document. */
  lemma EducationDocumentsDistinct(l: Language, m: Language)
    requires l != m
    ensures LocalePath(l, EducationFile) != LocalePath(m, EducationFile)
  {
    LocalePathInjective(l, m, EducationFile, EducationFile);
  }
}
