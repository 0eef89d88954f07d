/** JsonSkillsQueryAdapter: language and soft skills per language, technical
    skills from one shared document, looked up by id, by category or by a
    fragment of the name. */
module SkillsAdapter {
  import opened Wrappers
  import opened Text
  import opened Decimal
  import opened Errors
  import opened Languages
  import opened Categories
  import opened Sequences
  import opened Records
  import opened Reader
  import opened Lookup

  const LanguageSkillsFile: string := "skills_languages.json"
  const SoftSkillsFile: string := "skills_soft.json"
  const TechnicalSkillsPath: string := "data/commons/skills_technical.json"

  // ---- language skills ---------------------------------------------------

  /** findAllLanguages: the document of the requested language. */
  function FindAllLanguages(docs: Documents<LanguageSkill>, l: Language): (r: Result<seq<LanguageSkill>, Failure>)
    ensures r.Success? <==> docs(LocalePath(l, LanguageSkillsFile)).Some?
    ensures r.Success? ==> r.value == docs(LocalePath(l, LanguageSkillsFile)).value
    ensures r.Failure? ==> r.error == IllegalState(ReadFailurePrefix + LocalePath(l, LanguageSkillsFile))
  {
    Read(docs, LocalePath(l, LanguageSkillsFile))
  }

  function LanguageSkillIdIs(id: Int32): LanguageSkill -> bool {
    (s: LanguageSkill) => s.id == id
  }

  /** findLanguageById: the first listed language skill with that id. */
  function FindLanguageById(docs: Documents<LanguageSkill>, id: Int32, l: Language): (r: Result<Option<LanguageSkill>, Failure>)
    ensures IsLookup(FindAllLanguages(docs, l), LanguageSkillIdIs(id), r)
    ensures r.Success? && r.value.Some? ==> r.value.value.id == id
  {
    FindIn(FindAllLanguages(docs, l), LanguageSkillIdIs(id))
  }

  // ---- soft skills -------------------------------------------------------

  /** findAllSoftSkills: the document of the requested language. */
  function FindAllSoftSkills(docs: Documents<SoftSkill>, l: Language): (r: Result<seq<SoftSkill>, Failure>)
    ensures r.Success? <==> docs(LocalePath(l, SoftSkillsFile)).Some?
    ensures r.Success? ==> r.value == docs(LocalePath(l, SoftSkillsFile)).value
    ensures r.Failure? ==> r.error == IllegalState(ReadFailurePrefix + LocalePath(l, SoftSkillsFile))
  {
    Read(docs, LocalePath(l, SoftSkillsFile))
  }

  function SoftSkillIdIs(id: Int32): SoftSkill -> bool {
    (s: SoftSkill) => s.id == id
  }

  /** findSoftSkillById: the first listed soft skill with that id. */
  function FindSoftSkillById(docs: Documents<SoftSkill>, id: Int32, l: Language): (r: Result<Option<SoftSkill>, Failure>)
    ensures IsLookup(FindAllSoftSkills(docs, l), SoftSkillIdIs(id), r)
    ensures r.Success? && r.value.Some? ==> r.value.value.id == id
  {
    FindIn(FindAllSoftSkills(docs, l), SoftSkillIdIs(id))
  }

  /** The two language-dependent skill lists come from four distinct
      documents. */
  lemma SkillDocumentsDistinct(l: Language, m: Language)
    ensures LocalePath(l, LanguageSkillsFile) != LocalePath(m, SoftSkillsFile)
    ensures l != m ==> LocalePath(l, LanguageSkillsFile) != LocalePath(m, LanguageSkillsFile)
    ensures l != m ==> LocalePath(l, SoftSkillsFile) != LocalePath(m, SoftSkillsFile)
  {
    LocalePathInjective(l, m, LanguageSkillsFile, SoftSkillsFile);
    LocalePathInjective(l, m, LanguageSkillsFile, LanguageSkillsFile);
    LocalePathInjective(l, m, SoftSkillsFile, SoftSkillsFile);
  }

  // ---- technical skills --------------------------------------------------

  /** findAllTechnicalSkills: one document, whatever the language. */
  function FindAllTechnicalSkills(docs: Documents<TechnicalSkill>): (r: Result<seq<TechnicalSkill>, Failure>)
    ensures r.Success? <==> docs(TechnicalSkillsPath).Some?
    ensures r.Success? ==> r.value == docs(TechnicalSkillsPath).value
    ensures r.Failure? ==> r.error == IllegalState(ReadFailurePrefix + TechnicalSkillsPath)
  {
    Read(docs, TechnicalSkillsPath)
  }

  /** The category filter: the lower-cased label or enum name of the
      skill's category equals the lower-cased needle. */
  function CategoryIs(needle: string): TechnicalSkill -> bool {
    (s: TechnicalSkill) => LowerStr(Label(s.category)) == needle || LowerStr(Name(s.category)) == needle
  }

  /** findTechnicalSkillByCategory. */
  function FindTechnicalSkillByCategory(docs: Documents<TechnicalSkill>, category: string): (r: Result<seq<TechnicalSkill>, Failure>)
    ensures IsSelection(FindAllTechnicalSkills(docs), CategoryIs(LowerStr(category)), r)
  {
    FilterIn(FindAllTechnicalSkills(docs), CategoryIs(LowerStr(category)))
  }

  /** A skill passes the category filter exactly when the category the
      needle parses to (TechnicalSkillCategory.fromJson) is the skill's. */
  lemma CategoryFilterIsFromJson(category: string, s: TechnicalSkill)
    ensures CategoryIs(LowerStr(category))(s) <==> FromJson(Some(category)) == Success(s.category)
  {
    FromJsonExact(category, s.category);
  }

  /** So the search keeps exactly the skills of the parsed category, and
      nothing when the needle names no category. */
  lemma ByCategoryMeaning(docs: Documents<TechnicalSkill>, category: string)
    requires FindAllTechnicalSkills(docs).Success?
    ensures FindTechnicalSkillByCategory(docs, category).Success?
    ensures forall s :: s in FindTechnicalSkillByCategory(docs, category).value <==>
      s in FindAllTechnicalSkills(docs).value && FromJson(Some(category)) == Success(s.category)
    ensures FromJson(Some(category)).Failure? ==> FindTechnicalSkillByCategory(docs, category).value == []
  {
    var all := FindAllTechnicalSkills(docs).value;
    var p := CategoryIs(LowerStr(category));
    FilterKeepsMatches(all, p);
    forall s
      ensures p(s) <==> FromJson(Some(category)) == Success(s.category)
    {
      CategoryFilterIsFromJson(category, s);
    }
    var r := Filter(all, p);
    assert r != [] ==> r[0] in r;
  }

  /** Searching by a category's label and by its enum name, in any letter
      case, finds the same skills. */
  lemma ByCategoryLabelOrName(docs: Documents<TechnicalSkill>, c: Category, v: string)
    requires LowerStr(v) == LowerStr(Label(c)) || LowerStr(v) == LowerStr(Name(c))
    ensures FindTechnicalSkillByCategory(docs, v) == FindTechnicalSkillByCategory(docs, Label(c))
  {
    if FindAllTechnicalSkills(docs).Success? {
      var all := FindAllTechnicalSkills(docs).value;
      forall i | 0 <= i < |all|
        ensures CategoryIs(LowerStr(v))(all[i]) == CategoryIs(LowerStr(Label(c)))(all[i])
      {
        FromJsonRoundTrip(c);
        FromJsonExact(v, c);
        CategoryFilterIsFromJson(v, all[i]);
        CategoryFilterIsFromJson(Label(c), all[i]);
      }
      FilterAgree(all, CategoryIs(LowerStr(v)), CategoryIs(LowerStr(Label(c))));
    }
  }

  /** The name filter: the lower-cased name contains the lower-cased
      needle. */
  function NameContains(needle: string): TechnicalSkill -> bool {
    (s: TechnicalSkill) => Contains(LowerStr(s.name), needle)
  }

  /** findTechnicalSkillByName. */
  function FindTechnicalSkillByName(docs: Documents<TechnicalSkill>, name: string): (r: Result<seq<TechnicalSkill>, Failure>)
    ensures IsSelection(FindAllTechnicalSkills(docs), NameContains(LowerStr(name)), r)
  {
    FilterIn(FindAllTechnicalSkills(docs), NameContains(LowerStr(name)))
  }

  /** The needle's letter case does not matter: "java" and "JAVA" find the
      same skills. */
  lemma ByNameIgnoresNeedleCase(docs: Documents<TechnicalSkill>, n1: string, n2: string)
    requires LowerStr(n1) == LowerStr(n2)
    ensures FindTechnicalSkillByName(docs, n1) == FindTechnicalSkillByName(docs, n2)
  {
  }

  /** Every name contains the empty string: an empty needle lists every
      technical skill. */
  lemma ByNameEmptyIsAll(docs: Documents<TechnicalSkill>)
    ensures FindTechnicalSkillByName(docs, "") == FindAllTechnicalSkills(docs)
  {
    if FindAllTechnicalSkills(docs).Success? {
      var all := FindAllTechnicalSkills(docs).value;
      forall i | 0 <= i < |all|
        ensures NameContains(LowerStr(""))(all[i])
      {
        ContainsEmpty(LowerStr(all[i].name));
      }
      FilterAll(all, NameContains(LowerStr("")));
    }
  }

  /** A skill whose name equals the needle, ignoring case, is found; so is
      one whose name extends such a name on either side. */
  lemma ByNameFindsNames(docs: Documents<TechnicalSkill>, name: string, s: TechnicalSkill, before: string, after: string)
    requires FindAllTechnicalSkills(docs).Success? && s in FindAllTechnicalSkills(docs).value
    requires LowerStr(s.name) == before + LowerStr(name) + after
    ensures s in FindTechnicalSkillByName(docs, name).value
  {
    var needle := LowerStr(name);
    ContainsSelf(needle);
    ContainsExtendLeft(before, needle, needle);
    ContainsExtendRight(before + needle, after, needle);
    FilterKeepsMatches(FindAllTechnicalSkills(docs).value, NameContains(needle));
  }

  /** Exactly the listed skills whose lower-cased name has the lower-cased
      needle at some position are found. */
  lemma ByNameMeaning(docs: Documents<TechnicalSkill>, name: string, s: TechnicalSkill)
    requires FindAllTechnicalSkills(docs).Success?
    ensures s in FindTechnicalSkillByName(docs, name).value <==>
      s in FindAllTechnicalSkills(docs).value && exists i :: OccursAt(LowerStr(s.name), LowerStr(name), i)
  {
    FilterKeepsMatches(FindAllTechnicalSkills(docs).value, NameContains(LowerStr(name)));
    ContainsIffOccurs(LowerStr(s.name), LowerStr(name));
  }
}
