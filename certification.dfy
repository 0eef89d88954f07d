/** JsonCertificationQueryAdapter: one certification list for every
    language. */
module CertificationAdapter {
  import opened Wrappers
  import opened Decimal
  import opened Errors
  import opened Records
  import opened Reader
  import opened Lookup

  const CertificationsPath: string := "data/certifications.json"

  /** list(): the shared document, unsorted. */
  function List(docs: Documents<CertificationItem>): (r: Result<seq<CertificationItem>, Failure>)
    ensures r.Success? <==> docs(CertificationsPath).Some?
    ensures r.Success? ==> r.value == docs(CertificationsPath).value
    ensures r.Failure? ==> r.error == IllegalState(ReadFailurePrefix + CertificationsPath)
  {
    Read(docs, CertificationsPath)
  }

  function CertificationIdIs(id: Int32): CertificationItem -> bool {
    (c: CertificationItem) => c.id == id
  }

  /** findById: the first listed certification with that id. */
  function FindById(docs: Documents<CertificationItem>, id: Int32): (r: Result<Option<CertificationItem>, Failure>)
    ensures IsLookup(List(docs), CertificationIdIs(id), r)
    ensures r.Success? && r.value.Some? ==> r.value.value.id == id
  {
    FindIn(List(docs), CertificationIdIs(id))
  }
}
