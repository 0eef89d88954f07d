# jac CV query core, modelled in Dafny

jac is a Spring Boot service that serves one person's curriculum vitae as a
REST API. Its content lives in JSON documents on the classpath, one set per
locale (`data/en/...`, `data/es/...`) plus a few shared ones
(`data/commons/skills_technical.json`, `data/certifications.json`). This
project models the read-only query core behind the endpoints:

- the `Language` locale enum and its case-insensitive `fromCode`;
- the `TechnicalSkillCategory` table and its two parsers, `fromId` and
  `fromJson`;
- the JSON query adapters for skills (language, soft, technical), experience,
  training, education and certifications: which document each reads, how it
  filters, searches and sorts, and what it returns when nothing matches;
- the `Get*` interactors, which turn an empty lookup into a
  `ResourceNotFoundException`, and the technical-skill search interactor, which
  searches by name, else by category, else lists everything;
- the exception taxonomy (domain, application, infrastructure, and the JDK
  exceptions that escape), the message each exception builds, and the
  `GlobalExceptionHandler` that maps an exception to an HTTP status and an
  error body.

The code is pure (streams, enum lookups, one handler per exception class), so
the model is datatypes, functions and lemmas. The JSON reader is a parameter,
`Documents<T>`: a function from a classpath path to the decoded list, or
nothing when the document cannot be read. Every adapter result is a `Result`
whose failure is the exception the Java code throws.

Modules (one per file): `Wrappers`, `Text` (ASCII case folding, substring
search), `Decimal` (int to decimal string and back), `Sequences` (first match,
filter, stable insertion sort), `Dates`, `Errors`, `Languages`, `Categories`,
`Records`, `Reader`, `Lookup` (the shared `findFirst`, `filter` and `sorted`
pipelines with their specifications), `SkillsAdapter`, `ExperienceAdapter`,
`TrainingAdapter`, `EducationAdapter`, `CertificationAdapter`, `Interactors`,
`Search`, `ExceptionHandler`.

## Model

| member | source | states |
|---|---|---|
| Languages.FromCode | src/main/java/com/jb2dev/cv/domain/Language.java:17-24 | Succeeds exactly for a present code equal, ignoring case, to "es_ES" or "en_EN"; the value found has a code equal to the argument ignoring case; any other code, null included, fails with IllegalArgumentException("Invalid language code: " + code) |
| Languages.CodesDistinctIgnoringCase | src/main/java/com/jb2dev/cv/domain/Language.java:4-5 | No string equals both codes ignoring case, so at most one value matches |
| Languages.FromCodeIgnoresCase | src/main/java/com/jb2dev/cv/domain/Language.java:17-21 | Every letter-case variant of a value's code parses to that value |
| Languages.FromCodeRoundTrip | src/main/java/com/jb2dev/cv/domain/Language.java:13-21 | fromCode(l.getCode()) == l for both values |
| Languages.FromCodeRejects | src/main/java/com/jb2dev/cv/domain/Language.java:23 | A code matching neither value, or null, fails with the message naming it ("null" for null) |
| Languages.FromCodeAcceptsExamples | src/main/java/com/jb2dev/cv/domain/Language.java:17-21 | "ES_ES" gives ES_ES and "en_en" gives EN_EN |
| Languages.FromCodeRejectsExamples | src/main/java/com/jb2dev/cv/domain/Language.java:23 | "fr_FR" and null are rejected as IllegalArgumentException with "Invalid language code: fr_FR" / "... null" |
| Categories.TableShape | src/main/java/com/jb2dev/cv/domain/skills/model/TechnicalSkillCategory.java:8-23 | Sixteen entries with ids 1..16 in declaration order; every category is listed once; no two share an id |
| Categories.FromId | src/main/java/com/jb2dev/cv/domain/skills/model/TechnicalSkillCategory.java:49-56 | Succeeds exactly for 1 <= id <= 16 with the entry of that id; otherwise IllegalArgumentException("Unknown TechnicalSkillCategory id: " + id) |
| Categories.IdInRange | src/main/java/com/jb2dev/cv/domain/skills/model/TechnicalSkillCategory.java:8-23 | The ids present in values() are exactly 1..16 |
| Categories.FromIdRoundTrip | src/main/java/com/jb2dev/cv/domain/skills/model/TechnicalSkillCategory.java:49-54 | fromId(c.id) == c for every category |
| Categories.FromIdFirstAndLast | src/main/java/com/jb2dev/cv/domain/skills/model/TechnicalSkillCategory.java:49-54 | fromId(1) is LANGUAGE and fromId(16) is DATA |
| Categories.FromJson | src/main/java/com/jb2dev/cv/domain/skills/model/TechnicalSkillCategory.java:38-47 | Succeeds exactly when some entry's label or enum name equals the value ignoring case, with such an entry; otherwise (null included) IllegalArgumentException("Unknown TechnicalSkillCategory: " + value) |
| Categories.KeyMatchesListed | src/main/java/com/jb2dev/cv/domain/skills/model/TechnicalSkillCategory.java:40-45 | An entry matching the value is among the entries values() iterates over |
| Categories.OwnerTable | src/main/java/com/jb2dev/cv/domain/skills/model/TechnicalSkillCategory.java:8-23 | Each lower-cased label and enum name is identified by its first character and length, and that signature belongs to its own entry |
| Categories.MatchSignature | src/main/java/com/jb2dev/cv/domain/skills/model/TechnicalSkillCategory.java:41-42 | A value matching an entry's label or name ignoring case carries that entry's signature |
| Categories.KeyMatchesUnique | src/main/java/com/jb2dev/cv/domain/skills/model/TechnicalSkillCategory.java:40-45 | No value matches two entries: labels and names are distinct across entries ignoring case |
| Categories.FromJsonExact | src/main/java/com/jb2dev/cv/domain/skills/model/TechnicalSkillCategory.java:38-47 | fromJson(v) == c if and only if v equals c's label or enum name ignoring case |
| Categories.FromJsonRoundTrip | src/main/java/com/jb2dev/cv/domain/skills/model/TechnicalSkillCategory.java:33-45 | fromJson(c.getLabel()) == c and fromJson(c.name()) == c for every category |
| Categories.FromJsonIgnoresCase | src/main/java/com/jb2dev/cv/domain/skills/model/TechnicalSkillCategory.java:41-42 | Values equal up to letter case parse alike: both fail or both give the same entry |
| Categories.FromJsonLanguageVariants | src/main/java/com/jb2dev/cv/domain/skills/model/TechnicalSkillCategory.java:41-42 | Every case variant of "language" ("Language", "LANGUAGE", ...) gives LANGUAGE |
| Categories.FromJsonRejects | src/main/java/com/jb2dev/cv/domain/skills/model/TechnicalSkillCategory.java:46 | A value whose signature belongs to no entry fails with the message naming it |
| Categories.FromJsonRejectsNull | src/main/java/com/jb2dev/cv/domain/skills/model/TechnicalSkillCategory.java:46 | A null value fails with "Unknown TechnicalSkillCategory: null" |
| Reader.Read | src/main/java/com/jb2dev/cv/infrastructure/json/ClasspathJsonReader.java:34-47 | The document's decoded list, or IllegalStateException("Failed to read JSON resource: " + path) when it cannot be read |
| Lookup.LocalePath | src/main/java/com/jb2dev/cv/infrastructure/json/skills/JsonSkillsQueryAdapter.java:30 | The language's path ends with the file name after an eight-character directory prefix |
| Lookup.LocalePathInjective | src/main/java/com/jb2dev/cv/infrastructure/json/skills/JsonSkillsQueryAdapter.java:30 | Two (language, file) pairs share a path only if equal: EN_EN and ES_ES never read the same document |
| Lookup.FindIn | src/main/java/com/jb2dev/cv/infrastructure/json/skills/JsonSkillsQueryAdapter.java:38 | filter(p).findFirst() over a loaded list: the first element satisfying p, empty exactly when none does; a read failure passes through |
| Lookup.LookupFindsListed | src/main/java/com/jb2dev/cv/infrastructure/json/skills/JsonSkillsQueryAdapter.java:38 | A listed element satisfying p means something is found, and what is found is listed and satisfies p |
| Lookup.LookupUnique | src/main/java/com/jb2dev/cv/infrastructure/json/skills/JsonSkillsQueryAdapter.java:38 | When one listed element alone satisfies p, it is the one found |
| Lookup.FilterIn | src/main/java/com/jb2dev/cv/infrastructure/json/skills/JsonSkillsQueryAdapter.java:52-55 | filter(p).toList(): an in-order subsequence holding each element satisfying p as often as listed and nothing else; a read failure passes through |
| Lookup.SortIn | src/main/java/com/jb2dev/cv/infrastructure/json/experience/JsonExperienceQueryAdapter.java:29-34 | A stable sort: a permutation of the list, sorted by the comparator, with equal keys in document order; needs a total preorder |
| SkillsAdapter.FindAllLanguages | src/main/java/com/jb2dev/cv/infrastructure/json/skills/JsonSkillsQueryAdapter.java:28-33 | The decoded data/en/skills_languages.json for EN_EN and data/es/... otherwise; an unreadable document fails naming its path |
| SkillsAdapter.FindLanguageById | src/main/java/com/jb2dev/cv/infrastructure/json/skills/JsonSkillsQueryAdapter.java:35-39 | The first language skill of the language's list with that id, empty when none has it |
| SkillsAdapter.FindAllSoftSkills | src/main/java/com/jb2dev/cv/infrastructure/json/skills/JsonSkillsQueryAdapter.java:71-76 | The decoded data/en/skills_soft.json for EN_EN and data/es/... otherwise |
| SkillsAdapter.FindSoftSkillById | src/main/java/com/jb2dev/cv/infrastructure/json/skills/JsonSkillsQueryAdapter.java:78-82 | The first soft skill of the language's list with that id, empty when none has it |
| SkillsAdapter.SkillDocumentsDistinct | src/main/java/com/jb2dev/cv/infrastructure/json/skills/JsonSkillsQueryAdapter.java:28-76 | Language and soft skills, and the two languages, read four distinct documents |
| SkillsAdapter.FindAllTechnicalSkills | src/main/java/com/jb2dev/cv/infrastructure/json/skills/JsonSkillsQueryAdapter.java:41-46 | The decoded data/commons/skills_technical.json, whatever the language |
| SkillsAdapter.FindTechnicalSkillByCategory | src/main/java/com/jb2dev/cv/infrastructure/json/skills/JsonSkillsQueryAdapter.java:48-58 | Exactly the skills, in document order, whose category label or enum name lower-cased equals the lower-cased needle |
| SkillsAdapter.CategoryFilterIsFromJson | src/main/java/com/jb2dev/cv/infrastructure/json/skills/JsonSkillsQueryAdapter.java:51-54 | A skill passes the category filter exactly when fromJson(needle) is the skill's category |
| SkillsAdapter.ByCategoryMeaning | src/main/java/com/jb2dev/cv/infrastructure/json/skills/JsonSkillsQueryAdapter.java:51-57 | The category search finds exactly the listed skills of the category the needle names, and an empty list (not an error) when it names none |
| SkillsAdapter.ByCategoryLabelOrName | src/main/java/com/jb2dev/cv/infrastructure/json/skills/JsonSkillsQueryAdapter.java:53-54 | Searching by a category's label, its enum name or any case variant of them gives the same result |
| SkillsAdapter.FindTechnicalSkillByName | src/main/java/com/jb2dev/cv/infrastructure/json/skills/JsonSkillsQueryAdapter.java:60-69 | Exactly the skills, in document order, whose lower-cased name contains the lower-cased needle |
| SkillsAdapter.ByNameIgnoresNeedleCase | src/main/java/com/jb2dev/cv/infrastructure/json/skills/JsonSkillsQueryAdapter.java:63 | Needles equal up to letter case give identical results |
| SkillsAdapter.ByNameEmptyIsAll | src/main/java/com/jb2dev/cv/infrastructure/json/skills/JsonSkillsQueryAdapter.java:63-66 | The empty needle lists every technical skill |
| SkillsAdapter.ByNameFindsNames | src/main/java/com/jb2dev/cv/infrastructure/json/skills/JsonSkillsQueryAdapter.java:63-66 | A skill whose lower-cased name has the lower-cased needle inside it, at either end or in the middle, is found |
| SkillsAdapter.ByNameMeaning | src/main/java/com/jb2dev/cv/infrastructure/json/skills/JsonSkillsQueryAdapter.java:63-66 | A skill is found exactly when it is listed and the needle occurs at some position of its name (case-insensitively) |
| ExperienceAdapter.FindAllExperiences | src/main/java/com/jb2dev/cv/infrastructure/json/experience/JsonExperienceQueryAdapter.java:24-37 | A permutation of the language's document, sorted by the reversed nulls-last start-date order, equal start dates kept in document order |
| ExperienceAdapter.ExperiencesLatestFirst | src/main/java/com/jb2dev/cv/infrastructure/json/experience/JsonExperienceQueryAdapter.java:30-33 | Along the list an undated entry never follows a dated one and start dates never increase |
| ExperienceAdapter.ExperiencesAreTheDocument | src/main/java/com/jb2dev/cv/infrastructure/json/experience/JsonExperienceQueryAdapter.java:28-34 | The sorted list holds exactly the entries of the document |
| ExperienceAdapter.FindExperienceById | src/main/java/com/jb2dev/cv/infrastructure/json/experience/JsonExperienceQueryAdapter.java:39-45 | The first entry of the sorted list with that id, empty when none has it |
| TrainingAdapter.FindAllTrainings | src/main/java/com/jb2dev/cv/infrastructure/json/training/JsonTrainingQueryAdapter.java:25-35 | A permutation of the language's document, latest issue month first, equal months in document order |
| TrainingAdapter.TrainingsLatestFirst | src/main/java/com/jb2dev/cv/infrastructure/json/training/JsonTrainingQueryAdapter.java:31 | No entry's issue month precedes that of an entry after it |
| TrainingAdapter.FindTrainingById | src/main/java/com/jb2dev/cv/infrastructure/json/training/JsonTrainingQueryAdapter.java:37-41 | The first entry of the sorted list whose credential id equals the argument as Objects.equals compares them (a null argument finds the first entry without a credential id), empty when none |
| TrainingAdapter.TrainingFoundIsLatest | src/main/java/com/jb2dev/cv/infrastructure/json/training/JsonTrainingQueryAdapter.java:30-40 | The entry found for a credential id is issued no earlier than any other listed entry carrying it |
| EducationAdapter.FindAllEducations | src/main/java/com/jb2dev/cv/infrastructure/json/education/JsonEducationQueryAdapter.java:24-31 | The decoded data/en/education.json for EN_EN and data/es/... otherwise, in document order |
| EducationAdapter.FindEducationById | src/main/java/com/jb2dev/cv/infrastructure/json/education/JsonEducationQueryAdapter.java:33-39 | The first listed entry with that id, empty (not an error) when none has it |
| EducationAdapter.EducationDocumentsDistinct | src/main/java/com/jb2dev/cv/infrastructure/json/education/JsonEducationQueryAdapter.java:26 | The two languages read different documents |
| CertificationAdapter.List | src/main/java/com/jb2dev/cv/infrastructure/json/certifications/JsonCertificationQueryAdapter.java:20-23 | The decoded data/certifications.json, for every language, unchanged |
| CertificationAdapter.FindById | src/main/java/com/jb2dev/cv/infrastructure/json/certifications/JsonCertificationQueryAdapter.java:25-28 | The first certification of list() with that id, present exactly when some listed certification has it |
| Search.Execute | src/main/java/com/jb2dev/cv/application/skills/impl/SearchTechnicalSkillsInteractor.java:20-36 | The result is the read failure or an in-order subsequence of all technical skills; with neither criterion it is all of them |
| Search.ExecuteMeaning | src/main/java/com/jb2dev/cv/application/skills/impl/SearchTechnicalSkillsInteractor.java:25-32 | A skill is found exactly when listed and matching: the name criterion if present, else the category criterion (fromJson gives its category), else anything |
| Search.NameWins | src/main/java/com/jb2dev/cv/application/skills/impl/SearchTechnicalSkillsInteractor.java:26-27 | With a name the category is ignored: the name search's result |
| Search.EmptyNameListsAll | src/main/java/com/jb2dev/cv/application/skills/impl/SearchTechnicalSkillsInteractor.java:26-27 | An empty name lists every technical skill whatever the category |
| Search.UnknownCategoryFindsNothing | src/main/java/com/jb2dev/cv/application/skills/impl/SearchTechnicalSkillsInteractor.java:28-29 | A category naming no category (name null) yields an empty list, not an error |
| Interactors.OrNotFound | src/main/java/com/jb2dev/cv/application/education/impl/GetEducationInteractor.java:23-27 | Optional.orElseThrow: the item when present, ResourceNotFoundException(type, id) when empty, a repository exception passed through |
| Interactors.OrNotFoundOverLookup | src/main/java/com/jb2dev/cv/application/education/impl/GetEducationInteractor.java:23-27 | Over a list lookup: success exactly when some listed entry matches, the result listed and matching, otherwise the not-found exception |
| Interactors.NotFoundReportsId | src/main/java/com/jb2dev/cv/application/education/impl/GetEducationInteractor.java:26 | The reported id parses back to the int id, and the message contains it |
| Interactors.GetById | src/main/java/com/jb2dev/cv/application/education/impl/GetEducationInteractor.java:19-32 | The execute of the four id-based Get* interactors: the repository's item for (id, language), a repository exception passed through, or ResourceNotFound(resource type, decimal id) when it has none |
| Interactors.GetEducationFromJson | src/main/java/com/jb2dev/cv/application/education/impl/GetEducationInteractor.java:23-27 | Over the JSON adapter: succeeds exactly when a listed entry has the id, returning such an entry; otherwise ResourceNotFound("Education", id) |
| Interactors.GetExperienceFromJson | src/main/java/com/jb2dev/cv/application/experience/impl/GetExperienceInteractor.java:23-27 | Over the JSON adapter: succeeds exactly when the sorted list has an entry with the id, returning such an entry; otherwise ResourceNotFound("Experience", id) |
| Interactors.GetLanguageSkillFromJson | src/main/java/com/jb2dev/cv/application/skills/impl/GetLanguageSkillInteractor.java:23-27 | Over the JSON adapter: succeeds exactly when a listed language skill has the id, returning such an entry; otherwise ResourceNotFound("LanguageSkill", id) |
| Interactors.GetSoftSkillFromJson | src/main/java/com/jb2dev/cv/application/skills/impl/GetSoftSkillInteractor.java:23-27 | Over the JSON adapter: succeeds exactly when a listed soft skill has the id, returning such an entry; otherwise ResourceNotFound("SoftSkill", id) |
| Interactors.GetTraining | src/main/java/com/jb2dev/cv/application/training/impl/GetTrainingInteractor.java:19-32 | The repository's item, or ResourceNotFound("Training", credentialId) with the credential id passed through unchanged and a null one rendered "null" |
| Interactors.GetTrainingFromJson | src/main/java/com/jb2dev/cv/application/training/impl/GetTrainingInteractor.java:23-27 | Over the JSON adapter: succeeds exactly when a listed entry carries the credential id, returning such an entry; otherwise ResourceNotFound("Training", credentialId) |
| Errors.DataSourceOf | src/main/java/com/jb2dev/cv/infrastructure/exception/JsonReadException.java:7-15 | A JsonReadException's data source is always "JSON File" |
| Errors.Superclass | src/main/java/com/jb2dev/cv/infrastructure/exception/DataSourceException.java:4 | Each class's superclass is one level closer to java.lang.Exception |
| Errors.Lineage | src/main/java/com/jb2dev/cv/infrastructure/exception/JsonReadException.java:3 | The superclass chain starts with the class and ends with java.lang.Exception |
| Errors.LineageTable | src/main/java/com/jb2dev/cv/infrastructure/exception/JsonReadException.java:3 | The chain of every class written out, e.g. JsonReadException, DataSourceException, InfrastructureException, RuntimeException, Exception |
| Errors.Taxonomy | src/main/java/com/jb2dev/cv/domain/exception/InvalidLanguageException.java:3 | Which exceptions are domain, application, infrastructure and data-source exceptions, and that only the catch-all kind is not a RuntimeException |
| Errors.ResourceNotFoundMessageNames | src/main/java/com/jb2dev/cv/domain/exception/ResourceNotFoundException.java:9 | The message contains the resource type and the id |
| Errors.InvalidLanguageMessageNames | src/main/java/com/jb2dev/cv/domain/exception/InvalidLanguageException.java:8 | The message contains the rejected code and both supported codes |
| Errors.InvalidAggregateStateMessageNames | src/main/java/com/jb2dev/cv/domain/exception/InvalidAggregateStateException.java:9 | The message contains the aggregate type and the reason |
| Errors.UseCaseExecutionMessageNames | src/main/java/com/jb2dev/cv/application/exception/UseCaseExecutionException.java:8 | The message contains the use-case name and the detail |
| Errors.DataSourceMessageNames | src/main/java/com/jb2dev/cv/infrastructure/exception/DataSourceException.java:9 | The message contains the data source and the detail |
| Errors.JsonReadMessageNames | src/main/java/com/jb2dev/cv/infrastructure/exception/JsonReadException.java:21-24 | getMessage contains the file path, the superclass's "JSON File" message and the detail |
| ExceptionHandler.HandlerFor | src/main/java/com/jb2dev/cv/infrastructure/rest/exception/GlobalExceptionHandler.java:28-188 | The handler chosen is the first handled class up the exception's superclass chain; one always exists |
| ExceptionHandler.HandlerForTable | src/main/java/com/jb2dev/cv/infrastructure/rest/exception/GlobalExceptionHandler.java:28-188 | Every class has its own handler except InvalidAggregateStateException (domain handler), IllegalStateException and RuntimeException (catch-all) |
| ExceptionHandler.RemoveAll | src/main/java/com/jb2dev/cv/infrastructure/rest/exception/GlobalExceptionHandler.java:192 | String.replace(target, "") never lengthens the string |
| ExceptionHandler.ExtractPath | src/main/java/com/jb2dev/cv/infrastructure/rest/exception/GlobalExceptionHandler.java:191-193 | The path is never longer than the request description |
| ExceptionHandler.RemoveAllAbsent | src/main/java/com/jb2dev/cv/infrastructure/rest/exception/GlobalExceptionHandler.java:192 | A description without the target is returned unchanged |
| ExceptionHandler.ExtractPathOfUri | src/main/java/com/jb2dev/cv/infrastructure/rest/exception/GlobalExceptionHandler.java:191-193 | For a path without "uri=" in it, the description "uri=" + path yields the path |
| ExceptionHandler.Handle | src/main/java/com/jb2dev/cv/infrastructure/rest/exception/GlobalExceptionHandler.java:28-41 | The body's status equals the response status; the body carries the timestamp and the extracted path; the status is 400, 404, 422 or 500 |
| ExceptionHandler.HandleTable | src/main/java/com/jb2dev/cv/infrastructure/rest/exception/GlobalExceptionHandler.java:28-188 | Per exception: 404 Not Found, 400 Bad Request, 422 Business Rule Violation, 500 with the handler's label; own message for domain, application and IllegalArgument, fixed text for infrastructure and the catch-all |
| ExceptionHandler.ClientErrorIffDomainOrArgument | src/main/java/com/jb2dev/cv/infrastructure/rest/exception/GlobalExceptionHandler.java:28-73 | A 4xx status is sent exactly for domain exceptions and IllegalArgumentException |
| ExceptionHandler.ServerFailuresHideDetails | src/main/java/com/jb2dev/cv/infrastructure/rest/exception/GlobalExceptionHandler.java:109-187 | Infrastructure and unexpected exceptions of one class get identical responses, whatever they carry (the file path never shows) |
| ExceptionHandler.ReadFailureResponse | src/main/java/com/jb2dev/cv/infrastructure/rest/exception/GlobalExceptionHandler.java:174-187 | A document that cannot be read reaches the client as 500 Internal Server Error, "An unexpected error occurred" |
| ExceptionHandler.NotFoundResponse | src/main/java/com/jb2dev/cv/infrastructure/rest/exception/GlobalExceptionHandler.java:28-41 | A not-found exception is a 404 whose message names the resource type and the id |

## Left out

- REST controllers, DTO mappers and the profile/contact adapters are not part of this model. The controller's 404 for an empty search result is left out for the same reason.
- The correlation-id filter, logging and OpenAPI annotations are not modelled. They do not change any result.
- Use-case services that only forward to a port are not modelled separately. The `Get*` interactors and the search interactor are modelled.
- `ClasspathJsonReader` (Jackson decoding, classpath I/O) is the `Documents<T>` parameter. A document that cannot be read becomes the `IllegalStateException` the reader throws. Malformed JSON that Jackson rejects counts as unreadable.
- Exception causes are dropped. A constructor that takes a cause builds the same value as the one without.
- `LocalDateTime.now()` in the handler is the `now` parameter. `WebRequest.getDescription(false)` is the `description` parameter.
- Case folding is ASCII only. Java's `equalsIgnoreCase` and `toLowerCase()` also fold non-ASCII letters, and `toLowerCase()` depends on the default locale.
- Null strings inside records are not modelled. A null needle for the category or name search, which would fail on `toLowerCase()`, is not modelled either. A null `fromCode`/`fromJson` argument, a null `credentialId` in a training item and a null credential id passed to the training lookup are modelled with `Option`.
- `TechnicalSkill.category` and `TrainingItem.issuedDate` are taken to be present in every document. When a document omits one, Jackson leaves it null. The category search then fails on `getLabel()`, and the training sort fails once it compares two issue months. Either way the client gets the catch-all 500. That error path is not modelled.
- Interactors.GetTraining: a null credential id is reported as the string "null". The message is the same as the source's, but there `getResourceId()` returns null.
- `TrainingItem` follows the shape its test constructs (`issuedDate` as a year-month, plus `credentialId`, `credentialUrl` and `details`). The record declared in `domain/training/model/TrainingItem.java` has neither field, although the training adapter sorts and filters on them. The model follows the adapter and the test.
- `Language.fromCode` throws `IllegalArgumentException` with "Invalid language code: " + code. The model follows the code. A test elsewhere in the repository expects `InvalidLanguageException`.
- Education and certifications are returned in document order, as the adapters do. The adapters do not sort them, although the design text describes them as sorted.
- `DomainException` and `InfrastructureException` are not part of this model. Both are taken to extend `RuntimeException`, like `ApplicationException`.
- Spring's `ResponseEntityExceptionHandler` base handlers (binding and MVC errors) are not modelled. Only the handlers the class declares are.
- `Search.Execute` takes the JSON adapter as its `SkillsRepository`. Any other implementation of that port is not modelled.
- Categories.FromIdFirstAndLast: states `fromId(1)` and `fromId(16)` through parameters constrained to those values, not literal calls.
- Categories.FromJsonLanguageVariants: states the "language" examples for every case variant of the word, not for individual literals.
- ExceptionHandler.ExtractPath: states only that the path is no longer than the description. Its exact value is stated by ExtractPathOfUri and RemoveAllAbsent.
