/** The two supported locales and the parsing of a locale code. */
module Languages {
  import opened Wrappers
  import opened Text
  import opened Errors
  import opened Sequences

  datatype Language = ES_ES | EN_EN

  /** `Language.values()`, in declaration order. */
  function Values(): seq<Language> {
    [ES_ES, EN_EN]
  }

  /** getCode. */
  function Code(l: Language): string {
    match l
    case ES_ES => "es_ES"
    case EN_EN => "en_EN"
  }

  /** `lang.code.equalsIgnoreCase(code)`; false for a null code. */
  predicate CodeMatches(code: Option<string>, l: Language) {
    code.Some? && EqualsIgnoreCase(Code(l), code.value)
  }

  /** fromCode: the first value whose code equals the argument ignoring case;
      otherwise an IllegalArgumentException naming the argument. */
  function FromCode(code: Option<string>): (r: Result<Language, Failure>)
    ensures r.Success? <==> code.Some? && (EqualsIgnoreCase(code.value, "es_ES") || EqualsIgnoreCase(code.value, "en_EN"))
    ensures r.Success? ==> EqualsIgnoreCase(Code(r.value), code.value)
    ensures r.Failure? ==> r.error == IllegalArgument("Invalid language code: " + ShowNullable(code))
  {
    match FindFirst(Values(), l => CodeMatches(code, l))
    case Some(l) => Success(l)
    case None =>
      assert !CodeMatches(code, Values()[0]) && !CodeMatches(code, Values()[1]);
      Failure(IllegalArgument("Invalid language code: " + ShowNullable(code)))
  }

  /** No string equals both codes ignoring case, so at most one value
      matches any code. */
  lemma CodesDistinctIgnoringCase(s: string)
    ensures !(EqualsIgnoreCase(s, Code(ES_ES)) && EqualsIgnoreCase(s, Code(EN_EN)))
  {
    assert LowerStr(Code(ES_ES))[1] != LowerStr(Code(EN_EN))[1];
  }

  /** Every letter-case variant of a code parses to that language. */
  lemma FromCodeIgnoresCase(l: Language, s: string)
    requires EqualsIgnoreCase(s, Code(l))
    ensures FromCode(Some(s)) == Success(l)
  {
    CodesDistinctIgnoringCase(s);
  }

  /** fromCode(l.getCode()) == l. */
  lemma FromCodeRoundTrip(l: Language)
    ensures FromCode(Some(Code(l))) == Success(l)
  {
    FromCodeIgnoresCase(l, Code(l));
  }

  /** Every code that is neither supported code is rejected, and the
      message names it. */
  lemma FromCodeRejects(code: Option<string>)
    requires code.Some? ==> !EqualsIgnoreCase(code.value, "es_ES") && !EqualsIgnoreCase(code.value, "en_EN")
    ensures FromCode(code) == Failure(IllegalArgument("Invalid language code: " + ShowNullable(code)))
  {
  }

  /** "ES_ES" and "en_en" parse, as the code's tests expect. */
  lemma FromCodeAcceptsExamples()
    ensures FromCode(Some("ES_ES")) == Success(ES_ES)
    ensures FromCode(Some("en_en")) == Success(EN_EN)
  {
    FromCodeIgnoresCase(ES_ES, "ES_ES");
    FromCodeIgnoresCase(EN_EN, "en_en");
  }

  /** "fr_FR" and null are rejected with an IllegalArgumentException whose
      message names them. */
  lemma FromCodeRejectsExamples()
    ensures FromCode(Some("fr_FR")) == Failure(IllegalArgument("Invalid language code: " + "fr_FR"))
    ensures FromCode(None) == Failure(IllegalArgument("Invalid language code: " + "null"))
  {
    var fr := "fr_FR";
    assert LowerStr(fr)[0] != LowerStr("es_ES")[0];
    assert LowerStr(fr)[0] != LowerStr("en_EN")[0];
    FromCodeRejects(Some(fr));
    FromCodeRejects(None);
  }
}
