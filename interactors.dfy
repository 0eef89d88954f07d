/** The Get* interactors: ask the repository for one entry and turn an
    empty answer into a ResourceNotFoundException naming the resource type
    and the requested id. The repository is a parameter; the lemmas below
    instantiate it with the JSON query adapters. */
module Interactors {
  import opened Wrappers
  import opened Decimal
  import opened Errors
  import opened Languages
  import opened Sequences
  import opened Records
  import opened Reader
  import opened Lookup
  import SkillsAdapter
  import ExperienceAdapter
  import TrainingAdapter
  import EducationAdapter

  /** `optional.orElseThrow(() -> new ResourceNotFoundException(type, id))`;
      an exception the repository raised passes through. */
  function OrNotFound<T>(found: Result<Option<T>, Failure>, resourceType: string, resourceId: string): (r: Result<T, Failure>)
    ensures r.Success? <==> found.Success? && found.value.Some?
    ensures r.Success? ==> r.value == found.value.value
    ensures found.Success? && found.value.None? ==> r == Failure(ResourceNotFound(resourceType, resourceId))
    ensures found.Failure? ==> r == Failure(found.error)
  {
    match found
    case Failure(e) => Failure(e)
    case Success(None) => Failure(ResourceNotFound(resourceType, resourceId))
    case Success(Some(x)) => Success(x)
  }

  /** Over a list lookup: the entry is found exactly when some listed entry
      matches, what is found is listed and matches, and otherwise the
      failure is the not-found exception. */
  lemma OrNotFoundOverLookup<T>(all: Result<seq<T>, Failure>, p: T -> bool, r: Result<Option<T>, Failure>, resourceType: string, resourceId: string)
    requires IsLookup(all, p, r) && all.Success?
    ensures OrNotFound(r, resourceType, resourceId).Success? <==> exists i :: 0 <= i < |all.value| && p(all.value[i])
    ensures OrNotFound(r, resourceType, resourceId).Success? ==>
      OrNotFound(r, resourceType, resourceId).value in all.value && p(OrNotFound(r, resourceType, resourceId).value)
    ensures OrNotFound(r, resourceType, resourceId).Failure? ==>
      OrNotFound(r, resourceType, resourceId).error == ResourceNotFound(resourceType, resourceId)
  {
    if r.value.Some? {
      var k :| FirstMatchAt(all.value, p, k) && all.value[k] == r.value.value;
    }
  }

  /** The id a not-found exception reports reads back as the requested
      id, and its message names it. */
  lemma NotFoundReportsId(resourceType: string, id: Int32)
    ensures ParseInt(ResourceNotFound(resourceType, IntToString(id)).resourceId) == id
    ensures Text.Contains(Message(ResourceNotFound(resourceType, IntToString(id))), IntToString(id))
  {
    IntToStringRoundTrip(id);
    ResourceNotFoundMessageNames(resourceType, IntToString(id));
  }

  // ---- lookups by numeric id --------------------------------------------

  /** The resource type each Get* interactor reports. */
  const EducationResource := "Education"
  const ExperienceResource := "Experience"
  const LanguageSkillResource := "LanguageSkill"
  const SoftSkillResource := "SoftSkill"

  /** The execute method shared by GetEducationInteractor,
      GetExperienceInteractor, GetLanguageSkillInteractor and
      GetSoftSkillInteractor: ask the repository for (id, language) and
      report a missing entry under the interactor's resource type, with the
      id in decimal. */
  function GetById<T>(repository: (Int32, Language) -> Result<Option<T>, Failure>, resourceType: string, id: Int32, l: Language): (r: Result<T, Failure>)
    ensures r.Success? <==> repository(id, l).Success? && repository(id, l).value.Some?
    ensures r.Success? ==> r.value == repository(id, l).value.value
    ensures repository(id, l) == Success(None) ==> r == Failure(ResourceNotFound(resourceType, IntToString(id)))
    ensures repository(id, l).Failure? ==> r == Failure(repository(id, l).error)
  {
    OrNotFound(repository(id, l), resourceType, IntToString(id))
  }

  /** GetEducationInteractor backed by the JSON adapter: an entry with the id
      is returned exactly when one is listed. */
  lemma GetEducationFromJson(docs: Documents<EducationItem>, id: Int32, l: Language)
    requires EducationAdapter.FindAllEducations(docs, l).Success?
    ensures var r := GetById((i: Int32, m: Language) => EducationAdapter.FindEducationById(docs, i, m), EducationResource, id, l);
      var all := EducationAdapter.FindAllEducations(docs, l).value;
      && (r.Success? <==> exists i :: 0 <= i < |all| && all[i].id == id)
      && (r.Success? ==> r.value in all && r.value.id == id)
      && (r.Failure? ==> r.error == ResourceNotFound("Education", IntToString(id)))
  {
    OrNotFoundOverLookup(EducationAdapter.FindAllEducations(docs, l), EducationAdapter.EducationIdIs(id),
      EducationAdapter.FindEducationById(docs, id, l), EducationResource, IntToString(id));
  }

  /** GetExperienceInteractor backed by the JSON adapter. */
  lemma GetExperienceFromJson(docs: Documents<ExperienceItem>, id: Int32, l: Language)
    requires ExperienceAdapter.FindAllExperiences(docs, l).Success?
    ensures var r := GetById((i: Int32, m: Language) => ExperienceAdapter.FindExperienceById(docs, i, m), ExperienceResource, id, l);
      var all := ExperienceAdapter.FindAllExperiences(docs, l).value;
      && (r.Success? <==> exists i :: 0 <= i < |all| && all[i].id == id)
      && (r.Success? ==> r.value in all && r.value.id == id)
      && (r.Failure? ==> r.error == ResourceNotFound("Experience", IntToString(id)))
  {
    OrNotFoundOverLookup(ExperienceAdapter.FindAllExperiences(docs, l), ExperienceAdapter.ExperienceIdIs(id),
      ExperienceAdapter.FindExperienceById(docs, id, l), ExperienceResource, IntToString(id));
  }

  /** GetLanguageSkillInteractor backed by the JSON adapter. */
  lemma GetLanguageSkillFromJson(docs: Documents<LanguageSkill>, id: Int32, l: Language)
    requires SkillsAdapter.FindAllLanguages(docs, l).Success?
    ensures var r := GetById((i: Int32, m: Language) => SkillsAdapter.FindLanguageById(docs, i, m), LanguageSkillResource, id, l);
      var all := SkillsAdapter.FindAllLanguages(docs, l).value;
      && (r.Success? <==> exists i :: 0 <= i < |all| && all[i].id == id)
      && (r.Success? ==> r.value in all && r.value.id == id)
      && (r.Failure? ==> r.error == ResourceNotFound("LanguageSkill", IntToString(id)))
  {
    OrNotFoundOverLookup(SkillsAdapter.FindAllLanguages(docs, l), SkillsAdapter.LanguageSkillIdIs(id),
      SkillsAdapter.FindLanguageById(docs, id, l), LanguageSkillResource, IntToString(id));
  }

  /** GetSoftSkillInteractor backed by the JSON adapter. */
  lemma GetSoftSkillFromJson(docs: Documents<SoftSkill>, id: Int32, l: Language)
    requires SkillsAdapter.FindAllSoftSkills(docs, l).Success?
    ensures var r := GetById((i: Int32, m: Language) => SkillsAdapter.FindSoftSkillById(docs, i, m), SoftSkillResource, id, l);
      var all := SkillsAdapter.FindAllSoftSkills(docs, l).value;
      && (r.Success? <==> exists i :: 0 <= i < |all| && all[i].id == id)
      && (r.Success? ==> r.value in all && r.value.id == id)
      && (r.Failure? ==> r.error == ResourceNotFound("SoftSkill", IntToString(id)))
  {
    OrNotFoundOverLookup(SkillsAdapter.FindAllSoftSkills(docs, l), SkillsAdapter.SoftSkillIdIs(id),
      SkillsAdapter.FindSoftSkillById(docs, id, l), SoftSkillResource, IntToString(id));
  }

  // ---- training ----------------------------------------------------------

  /** GetTrainingInteractor.execute: the credential id, which may be null, is
      reported as given; String.format renders a null one as "null". */
  function GetTraining(repository: (Option<string>, Language) -> Result<Option<TrainingItem>, Failure>, credentialId: Option<string>, l: Language): (r: Result<TrainingItem, Failure>)
    ensures r.Success? <==> repository(credentialId, l).Success? && repository(credentialId, l).value.Some?
    ensures r.Success? ==> r.value == repository(credentialId, l).value.value
    ensures repository(credentialId, l) == Success(None) ==> r == Failure(ResourceNotFound("Training", Text.ShowNullable(credentialId)))
    ensures repository(credentialId, l).Failure? ==> r == Failure(repository(credentialId, l).error)
  {
    OrNotFound(repository(credentialId, l), "Training", Text.ShowNullable(credentialId))
  }

  /** Backed by the JSON adapter: an entry carrying the credential id (for a
      null id, an entry without one) is returned exactly when one is listed. */
  lemma GetTrainingFromJson(docs: Documents<TrainingItem>, credentialId: Option<string>, l: Language)
    requires TrainingAdapter.FindAllTrainings(docs, l).Success?
    ensures var r := GetTraining((c: Option<string>, m: Language) => TrainingAdapter.FindTrainingById(docs, c, m), credentialId, l);
      var all := TrainingAdapter.FindAllTrainings(docs, l).value;
      && (r.Success? <==> exists i :: 0 <= i < |all| && all[i].credentialId == credentialId)
      && (r.Success? ==> r.value in all && r.value.credentialId == credentialId)
      && (r.Failure? ==> r.error == ResourceNotFound("Training", Text.ShowNullable(credentialId)))
  {
    OrNotFoundOverLookup(TrainingAdapter.FindAllTrainings(docs, l), TrainingAdapter.CredentialIs(credentialId),
      TrainingAdapter.FindTrainingById(docs, credentialId, l), "Training", Text.ShowNullable(credentialId));
  }
}
