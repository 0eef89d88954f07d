/** The CV entries the query adapters load from the JSON documents. Java
    `int` ids are 32-bit; a `LocalDate` that the document may leave out is
    an `Option<Date>`. */
module Records {
  import opened Wrappers
  import opened Decimal
  import opened Dates
  import opened Categories

  datatype LanguageSkill = LanguageSkill(
    id: Int32,
    language: string,
    listening: string,
    reading: string,
    spokenProduction: string,
    spokenInteraction: string,
    writing: string)

  /** A technical skill. The category is taken to be present in every
      document (the category search dereferences it). */
  datatype TechnicalSkill = TechnicalSkill(
    id: Int32,
    name: string,
    category: Category,
    skillExperience: Int32)

  datatype SoftSkill = SoftSkill(id: Int32, name: string)

  datatype ExperienceItem = ExperienceItem(
    id: Int32,
    role: string,
    company: string,
    location: string,
    startDate: Option<Date>,
    endDate: Option<Date>,
    current: bool,
    summary: string,
    description: string)

  datatype EducationItem = EducationItem(
    id: Int32,
    title: string,
    institution: string,
    location: string,
    startDate: Option<Date>,
    endDate: Option<Date>,
    details: string)

  /** A training entry as the training adapter and interactor use it. The
      issue month is taken to be present in every document (the adapter's
      comparator does not handle a missing one); the credential id may be
      null. */
  datatype TrainingItem = TrainingItem(
    id: Int32,
    title: string,
    provider: string,
    location: string,
    issuedDate: YearMonth,
    credentialId: Option<string>,
    credentialUrl: string,
    details: string)

  datatype CertificationItem = CertificationItem(
    id: Int32,
    name: string,
    issuer: string,
    credentialId: string,
    credentialUrl: string,
    issueDate: Option<Date>,
    expirationDate: Option<Date>,
    details: string)
}
