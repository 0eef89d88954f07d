/** JsonTrainingQueryAdapter: the training list of a language, sorted by
    issue month, latest first, and looked up by credential id. */
module TrainingAdapter {
  import opened Wrappers
  import opened Errors
  import opened Dates
  import opened Languages
  import opened Sequences
  import opened Records
  import opened Reader
  import opened Lookup

  const TrainingFile: string := "training.json"

  function IssuedKey(t: TrainingItem): YearMonth {
    t.issuedDate
  }

  /** findAllTrainings: the language's document, stably sorted by
      `comparing(issuedDate).reversed()`. */
  function FindAllTrainings(docs: Documents<TrainingItem>, l: Language): (r: Result<seq<TrainingItem>, Failure>)
    ensures IsStableSort(Read(docs, LocalePath(l, TrainingFile)), IssuedKey, IssuedDateOrder, r)
  {
    IssuedDateOrderIsTotalPreorder();
    SortIn(Read(docs, LocalePath(l, TrainingFile)), IssuedKey, IssuedDateOrder)
  }

  /** The order of the list, in plain terms: no entry is issued before an
      entry that follows it. */
  lemma TrainingsLatestFirst(docs: Documents<TrainingItem>, l: Language, i: int, j: int)
    requires FindAllTrainings(docs, l).Success?
    requires 0 <= i < j < |FindAllTrainings(docs, l).value|
    ensures var s := FindAllTrainings(docs, l).value;
      !YearMonthBefore(s[i].issuedDate, s[j].issuedDate)
  {
    var s := FindAllTrainings(docs, l).value;
    assert IssuedDateOrder(IssuedKey(s[i]), IssuedKey(s[j]));
    IssuedDateOrderMeaning(s[i].issuedDate, s[j].issuedDate);
  }

  /** `Objects.equals(item.credentialId(), credentialId)`: null-safe on both
      sides, so a null argument matches exactly the entries without a
      credential id. */
  function CredentialIs(credentialId: Option<string>): TrainingItem -> bool {
    (t: TrainingItem) => t.credentialId == credentialId
  }

  /** findTrainingById: the first entry of the sorted list carrying that
      credential id. */
  function FindTrainingById(docs: Documents<TrainingItem>, credentialId: Option<string>, l: Language): (r: Result<Option<TrainingItem>, Failure>)
    ensures IsLookup(FindAllTrainings(docs, l), CredentialIs(credentialId), r)
    ensures r.Success? && r.value.Some? ==> r.value.value.credentialId == credentialId
  {
    FindIn(FindAllTrainings(docs, l), CredentialIs(credentialId))
  }

  /** Among entries sharing a credential id, the one listed first in the
      document wins when their issue months are equal; otherwise the
      latest does. */
  lemma TrainingFoundIsLatest(docs: Documents<TrainingItem>, credentialId: Option<string>, l: Language, t: TrainingItem)
    requires FindAllTrainings(docs, l).Success?
    requires t in FindAllTrainings(docs, l).value && t.credentialId == credentialId
    ensures FindTrainingById(docs, credentialId, l).Success?
    ensures FindTrainingById(docs, credentialId, l).value.Some?
    ensures !YearMonthBefore(FindTrainingById(docs, credentialId, l).value.value.issuedDate, t.issuedDate)
  {
    var s := FindAllTrainings(docs, l).value;
    var r := FindTrainingById(docs, credentialId, l);
    var p := CredentialIs(credentialId);
    var k :| FirstMatchAt(s, p, k) && s[k] == r.value.value;
    var i :| 0 <= i < |s| && s[i] == t;
    assert k <= i;
    if k < i {
      TrainingsLatestFirst(docs, l, k, i);
    }
  }
}
