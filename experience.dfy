/** JsonExperienceQueryAdapter: the experience list of a language, sorted
    by start date, latest first, undated entries ahead of dated ones. */
module ExperienceAdapter {
  import opened Wrappers
  import opened Decimal
  import opened Errors
  import opened Dates
  import opened Languages
  import opened Sequences
  import opened Records
  import opened Reader
  import opened Lookup

  const ExperienceFile: string := "experience.json"

  function StartKey(e: ExperienceItem): Option<Date> {
    e.startDate
  }

  /** findAllExperiences: the language's document, stably sorted by
      `comparing(startDate, nullsLast(naturalOrder())).reversed()`. */
  function FindAllExperiences(docs: Documents<ExperienceItem>, l: Language): (r: Result<seq<ExperienceItem>, Failure>)
    ensures IsStableSort(Read(docs, LocalePath(l, ExperienceFile)), StartKey, StartDateOrder, r)
  {
    StartDateOrderIsTotalPreorder();
    SortIn(Read(docs, LocalePath(l, ExperienceFile)), StartKey, StartDateOrder)
  }

  /** The order of the list, in plain terms: an entry without a start date
      never follows one with a start date, and dated entries are latest
      first. */
  lemma ExperiencesLatestFirst(docs: Documents<ExperienceItem>, l: Language, i: int, j: int)
    requires FindAllExperiences(docs, l).Success?
    requires 0 <= i < j < |FindAllExperiences(docs, l).value|
    ensures var s := FindAllExperiences(docs, l).value;
      s[i].startDate.None? || (s[j].startDate.Some? && !DateBefore(s[i].startDate.value, s[j].startDate.value))
  {
    var s := FindAllExperiences(docs, l).value;
    assert StartDateOrder(StartKey(s[i]), StartKey(s[j]));
    StartDateOrderMeaning(s[i].startDate, s[j].startDate);
  }

  /** The sorted list holds exactly the entries of the document. */
  lemma ExperiencesAreTheDocument(docs: Documents<ExperienceItem>, l: Language, e: ExperienceItem)
    requires docs(LocalePath(l, ExperienceFile)).Some?
    ensures FindAllExperiences(docs, l).Success?
    ensures e in FindAllExperiences(docs, l).value <==> e in docs(LocalePath(l, ExperienceFile)).value
  {
    var s := FindAllExperiences(docs, l).value;
    var d := docs(LocalePath(l, ExperienceFile)).value;
    assert multiset(s) == multiset(d);
    assert e in s <==> e in multiset(s);
    assert e in d <==> e in multiset(d);
  }

  function ExperienceIdIs(id: Int32): ExperienceItem -> bool {
    (e: ExperienceItem) => e.id == id
  }

  /** findExperienceById: the first entry of the sorted list with that id. */
  function FindExperienceById(docs: Documents<ExperienceItem>, id: Int32, l: Language): (r: Result<Option<ExperienceItem>, Failure>)
    ensures IsLookup(FindAllExperiences(docs, l), ExperienceIdIs(id), r)
    ensures r.Success? && r.value.Some? ==> r.value.value.id == id
  {
    FindIn(FindAllExperiences(docs, l), ExperienceIdIs(id))
  }
}
