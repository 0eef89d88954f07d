/** SearchTechnicalSkillsInteractor: a search by name fragment, else by
    category, else everything, answered by the JSON skills adapter. */
module Search {
  import opened Wrappers
  import opened Text
  import opened Errors
  import opened Categories
  import opened Sequences
  import opened Records
  import opened Reader
  import opened SkillsAdapter

  /** TechnicalSkillSearchCriteria; either field may be null. */
  datatype Criteria = Criteria(name: Option<string>, category: Option<string>)

  /** What a skill must satisfy to be found: a name criterion alone decides
      when present (the lower-cased needle occurs in the lower-cased name);
      otherwise a category criterion must parse to the skill's category;
      with neither, every skill is found. */
  ghost predicate Matches(criteria: Criteria, s: TechnicalSkill) {
    if criteria.name.Some? then exists i :: OccursAt(LowerStr(s.name), LowerStr(criteria.name.value), i)
    else if criteria.category.Some? then FromJson(criteria.category) == Success(s.category)
    else true
  }

  /** execute(criteria). */
  function Execute(docs: Documents<TechnicalSkill>, criteria: Criteria): (r: Result<seq<TechnicalSkill>, Failure>)
    ensures r.Failure? <==> FindAllTechnicalSkills(docs).Failure?
    ensures r.Failure? ==> r.error == FindAllTechnicalSkills(docs).error
    ensures r.Success? ==> IsSubsequence(r.value, FindAllTechnicalSkills(docs).value)
    ensures criteria.name.None? && criteria.category.None? ==> r == FindAllTechnicalSkills(docs)
  {
    if criteria.name.Some? then FindTechnicalSkillByName(docs, criteria.name.value)
    else if criteria.category.Some? then FindTechnicalSkillByCategory(docs, criteria.category.value)
    else match FindAllTechnicalSkills(docs)
      case Success(all) => SubsequenceReflexive(all); Success(all)
      case Failure(e) => Failure(e)
  }

  /** The search finds exactly the listed skills that match the criteria. */
  lemma ExecuteMeaning(docs: Documents<TechnicalSkill>, criteria: Criteria, s: TechnicalSkill)
    requires FindAllTechnicalSkills(docs).Success?
    ensures s in Execute(docs, criteria).value <==> s in FindAllTechnicalSkills(docs).value && Matches(criteria, s)
  {
    if criteria.name.Some? {
      ByNameMeaning(docs, criteria.name.value, s);
    } else if criteria.category.Some? {
      ByCategoryMeaning(docs, criteria.category.value);
    }
  }

  /** A name criterion decides alone: ("Java", "Language") searches as
      ("Java", null) does. */
  lemma NameWins(docs: Documents<TechnicalSkill>, name: string, category: Option<string>)
    ensures Execute(docs, Criteria(Some(name), category)) == Execute(docs, Criteria(Some(name), None))
    ensures Execute(docs, Criteria(Some(name), category)) == FindTechnicalSkillByName(docs, name)
  {
  }

  /** An empty name lists every skill, whatever the category says. */
  lemma EmptyNameListsAll(docs: Documents<TechnicalSkill>, category: Option<string>)
    ensures Execute(docs, Criteria(Some(""), category)) == FindAllTechnicalSkills(docs)
  {
    ByNameEmptyIsAll(docs);
  }

  /** A category criterion naming no category finds nothing. */
  lemma UnknownCategoryFindsNothing(docs: Documents<TechnicalSkill>, category: string)
    requires FindAllTechnicalSkills(docs).Success?
    requires FromJson(Some(category)).Failure?
    ensures Execute(docs, Criteria(None, Some(category))) == Success([])
  {
    ByCategoryMeaning(docs, category);
  }
}
