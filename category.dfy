/** The closed table of technical-skill categories: (id, enum name, label)
    triples, and the two lookups that parse a category. */
module Categories {
  import opened Wrappers
  import opened Text
  import opened Decimal
  import opened Errors
  import opened Sequences

  datatype Category =
    | LANGUAGE | FRAMEWORK | DEVOPS | CICD | API | VCS | METHODOLOGY | DATABASE
    | TESTING | CODE_QUALITY | ARCHITECTURE | DEVELOPMENT | STREAMING | AUTOMATION
    | PLATFORM | DATA

  /** `values()`, in declaration order. */
  function Values(): seq<Category> {
    [LANGUAGE, FRAMEWORK, DEVOPS, CICD, API, VCS, METHODOLOGY, DATABASE,
     TESTING, CODE_QUALITY, ARCHITECTURE, DEVELOPMENT, STREAMING, AUTOMATION,
     PLATFORM, DATA]
  }

  function Id(c: Category): Int32 {
    match c
    case LANGUAGE => 1
    case FRAMEWORK => 2
    case DEVOPS => 3
    case CICD => 4
    case API => 5
    case VCS => 6
    case METHODOLOGY => 7
    case DATABASE => 8
    case TESTING => 9
    case CODE_QUALITY => 10
    case ARCHITECTURE => 11
    case DEVELOPMENT => 12
    case STREAMING => 13
    case AUTOMATION => 14
    case PLATFORM => 15
    case DATA => 16
  }

  /** Enum.name(). */
  function Name(c: Category): string {
    match c
    case LANGUAGE => "LANGUAGE"
    case FRAMEWORK => "FRAMEWORK"
    case DEVOPS => "DEVOPS"
    case CICD => "CICD"
    case API => "API"
    case VCS => "VCS"
    case METHODOLOGY => "METHODOLOGY"
    case DATABASE => "DATABASE"
    case TESTING => "TESTING"
    case CODE_QUALITY => "CODE_QUALITY"
    case ARCHITECTURE => "ARCHITECTURE"
    case DEVELOPMENT => "DEVELOPMENT"
    case STREAMING => "STREAMING"
    case AUTOMATION => "AUTOMATION"
    case PLATFORM => "PLATFORM"
    case DATA => "DATA"
  }

  /** getLabel: the display label, also the JSON form of a category. */
  function Label(c: Category): string {
    match c
    case LANGUAGE => "Language"
    case FRAMEWORK => "Framework"
    case DEVOPS => "DevOps"
    case CICD => "CI/CD"
    case API => "API"
    case VCS => "VCS"
    case METHODOLOGY => "Methodology"
    case DATABASE => "Database"
    case TESTING => "Testing"
    case CODE_QUALITY => "Code Quality"
    case ARCHITECTURE => "Architecture"
    case DEVELOPMENT => "Development"
    case STREAMING => "Streaming"
    case AUTOMATION => "Automation"
    case PLATFORM => "Platform"
    case DATA => "Data"
  }

  /** The table: sixteen entries with ids 1..16 in order, every category
      listed, and no id shared. */
  lemma TableShape()
    ensures |Values()| == 16
    ensures forall i :: 0 <= i < 16 ==> Id(Values()[i]) == i + 1
    ensures forall c :: 1 <= Id(c) <= 16 && Values()[Id(c) - 1] == c
    ensures forall c, d :: Id(c) == Id(d) ==> c == d
  {
    forall c
      ensures 1 <= Id(c) <= 16 && Values()[Id(c) - 1] == c
    {
      match c
      case LANGUAGE =>
      case FRAMEWORK =>
      case DEVOPS =>
      case CICD =>
      case API =>
      case VCS =>
      case METHODOLOGY =>
      case DATABASE =>
      case TESTING =>
      case CODE_QUALITY =>
      case ARCHITECTURE =>
      case DEVELOPMENT =>
      case STREAMING =>
      case AUTOMATION =>
      case PLATFORM =>
      case DATA =>
    }
  }

  // ---- fromId ------------------------------------------------------------

  /** fromId: the entry with that id; otherwise an IllegalArgumentException
      naming the id. */
  function FromId(id: Int32): (r: Result<Category, Failure>)
    ensures r.Success? <==> 1 <= id <= 16
    ensures r.Success? ==> Id(r.value) == id
    ensures r.Failure? ==> r.error == IllegalArgument("Unknown TechnicalSkillCategory id: " + IntToString(id))
  {
    IdInRange(id);
    match FindFirst(Values(), c => Id(c) == id)
    case Some(c) => Success(c)
    case None => Failure(IllegalArgument("Unknown TechnicalSkillCategory id: " + IntToString(id)))
  }

  /** Exactly the ids 1..16 occur in the table. */
  lemma IdInRange(id: int)
    ensures (1 <= id <= 16) <==> exists i :: 0 <= i < |Values()| && Id(Values()[i]) == id
  {
    TableShape();
    if 1 <= id <= 16 {
      assert Id(Values()[id - 1]) == id;
    }
  }

  lemma FromIdRoundTrip(c: Category)
    ensures FromId(Id(c)) == Success(c)
  {
    TableShape();
  }

  /** The first and the last entry of the table. */
  lemma FromIdFirstAndLast(first: Int32, last: Int32)
    requires first == 1 && last == 16
    ensures FromId(first) == Success(LANGUAGE)
    ensures FromId(last) == Success(DATA)
  {
    TableShape();
    assert Id(FromId(first).value) == Id(LANGUAGE);
    assert Id(FromId(last).value) == Id(DATA);
  }

  // ---- fromJson ----------------------------------------------------------

  /** `category.label.equalsIgnoreCase(value) || category.name().equalsIgnoreCase(value)`;
      false for a null value. */
  predicate KeyMatches(value: Option<string>, c: Category) {
    value.Some? && (EqualsIgnoreCase(Label(c), value.value) || EqualsIgnoreCase(Name(c), value.value))
  }

  /** fromJson: the first entry whose label or enum name equals the value
      ignoring case; otherwise an IllegalArgumentException naming the value. */
  function FromJson(value: Option<string>): (r: Result<Category, Failure>)
    ensures r.Success? <==> exists c :: KeyMatches(value, c)
    ensures r.Success? ==> KeyMatches(value, r.value)
    ensures r.Failure? ==> r.error == IllegalArgument("Unknown TechnicalSkillCategory: " + ShowNullable(value))
  {
    KeyMatchesListed(value);
    match FindFirst(Values(), c => KeyMatches(value, c))
    case Some(c) => Success(c)
    case None => Failure(IllegalArgument("Unknown TechnicalSkillCategory: " + ShowNullable(value)))
  }

  lemma KeyMatchesListed(value: Option<string>)
    ensures (exists c :: KeyMatches(value, c)) ==> exists i :: 0 <= i < |Values()| && KeyMatches(value, Values()[i])
  {
    if c :| KeyMatches(value, c) {
      TableShape();
      assert Values()[Id(c) - 1] == c;
    }
  }

  /** Every lower-cased label and enum name is identified by its first
      character and its length: the category owning that signature. */
  function Owner(first: char, length: int): Option<Category> {
    if first == 'l' && length == 8 then Some(LANGUAGE)
    else if first == 'f' && length == 9 then Some(FRAMEWORK)
    else if first == 'd' && length == 6 then Some(DEVOPS)
    else if first == 'c' && (length == 4 || length == 5) then Some(CICD)
    else if first == 'a' && length == 3 then Some(API)
    else if first == 'v' && length == 3 then Some(VCS)
    else if first == 'm' && length == 11 then Some(METHODOLOGY)
    else if first == 'd' && length == 8 then Some(DATABASE)
    else if first == 't' && length == 7 then Some(TESTING)
    else if first == 'c' && length == 12 then Some(CODE_QUALITY)
    else if first == 'a' && length == 12 then Some(ARCHITECTURE)
    else if first == 'd' && length == 11 then Some(DEVELOPMENT)
    else if first == 's' && length == 9 then Some(STREAMING)
    else if first == 'a' && length == 10 then Some(AUTOMATION)
    else if first == 'p' && length == 8 then Some(PLATFORM)
    else if first == 'd' && length == 4 then Some(DATA)
    else None
  }

  lemma OwnerTable(c: Category)
    ensures |Label(c)| > 0 && Owner(Lower(Label(c)[0]), |Label(c)|) == Some(c)
    ensures |Name(c)| > 0 && Owner(Lower(Name(c)[0]), |Name(c)|) == Some(c)
  {
  }

  /** A value matching a category's label or name has that category's
      signature. */
  lemma MatchSignature(v: string, c: Category)
    requires KeyMatches(Some(v), c)
    ensures |v| > 0 && Owner(Lower(v[0]), |v|) == Some(c)
  {
    OwnerTable(c);
    var key := if EqualsIgnoreCase(Label(c), v) then Label(c) else Name(c);
    assert LowerStr(key) == LowerStr(v);
    assert LowerStr(key)[0] == Lower(key[0]);
  }

  /** No label or enum name of one entry equals, ignoring case, a label or
      enum name of another: at most one entry matches any value. */
  lemma KeyMatchesUnique(v: string, c: Category, d: Category)
    requires KeyMatches(Some(v), c) && KeyMatches(Some(v), d)
    ensures c == d
  {
    MatchSignature(v, c);
    MatchSignature(v, d);
  }

  /** fromJson finds exactly the entry the value names. */
  lemma FromJsonExact(v: string, c: Category)
    ensures FromJson(Some(v)) == Success(c) <==> KeyMatches(Some(v), c)
  {
    if KeyMatches(Some(v), c) {
      var r := FromJson(Some(v));
      KeyMatchesUnique(v, c, r.value);
    }
  }

  /** fromJson(c.getLabel()) == c and fromJson(c.name()) == c. */
  lemma FromJsonRoundTrip(c: Category)
    ensures FromJson(Some(Label(c))) == Success(c)
    ensures FromJson(Some(Name(c))) == Success(c)
  {
    FromJsonExact(Label(c), c);
    FromJsonExact(Name(c), c);
  }

  /** Letter case never changes what fromJson finds. */
  lemma FromJsonIgnoresCase(v: string, w: string)
    requires LowerStr(v) == LowerStr(w)
    ensures FromJson(Some(v)).Success? <==> FromJson(Some(w)).Success?
    ensures FromJson(Some(v)).Success? ==> FromJson(Some(w)) == FromJson(Some(v))
  {
    forall c
      ensures KeyMatches(Some(v), c) <==> KeyMatches(Some(w), c)
    {
    }
    if FromJson(Some(v)).Success? {
      FromJsonExact(w, FromJson(Some(v)).value);
    }
  }

  /** Every letter-case variant of "language" ("language", "Language",
      "LANGUAGE", ...) parses to LANGUAGE. */
  lemma FromJsonLanguageVariants(v: string)
    requires LowerStr(v) == "language"
    ensures FromJson(Some(v)) == Success(LANGUAGE)
  {
    assert LowerStr(Label(LANGUAGE)) == "language";
    FromJsonExact(v, LANGUAGE);
  }

  /** A value whose signature belongs to no entry is rejected, with the
      value itself in the message. */
  lemma FromJsonRejects(v: string)
    requires |v| == 0 || Owner(Lower(v[0]), |v|).None?
    ensures FromJson(Some(v)) == Failure(IllegalArgument("Unknown TechnicalSkillCategory: " + v))
  {
    if FromJson(Some(v)).Success? {
      MatchSignature(v, FromJson(Some(v)).value);
    }
  }

  /** A null value is rejected, rendered as "null". */
  lemma FromJsonRejectsNull()
    ensures FromJson(None) == Failure(IllegalArgument("Unknown TechnicalSkillCategory: " + "null"))
  {
  }
}
