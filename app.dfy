/** App.tsx, without the completeness scorer (module Completeness): the empty
    default resume, the section handlers that replace one top-level field of
    the resume, and the `isExporting` flag around an export. */
module App {
  import opened ResumeTypes

  datatype Option<T> = None | Some(value: T)

  const EmptyPersonalInfo: PersonalInfo := PersonalInfo("", "", "", "", "", "", "", "")

  /** `r` has the contents of `initialData`: every text empty, every list
      empty, and three separate empty skill arrays. */
  predicate IsInitialData(r: Resume)
    reads SkillArrays(r.skills)
  {
    && r.personalInfo == EmptyPersonalInfo
    && r.summary == ""
    && r.education == []
    && r.experience == []
    && r.skills.technical.elems == []
    && r.skills.languages.elems == []
    && r.skills.soft.elems == []
    && CategoriesDistinct(r.skills)
    && r.certifications == []
    && r.awards == []
  }

  /** `initialData`. */
  method InitialData() returns (r: Resume)
    ensures IsInitialData(r)
    ensures fresh(SkillArrays(r.skills))
  {
    var technical := new StringArray([]);
    var languages := new StringArray([]);
    var soft := new StringArray([]);
    r := Resume(EmptyPersonalInfo, "", [], [], Skills(technical, languages, soft), [], []);
  }

  /** The top-level fields of the resume. */
  datatype Section =
    | PersonalInfoSection
    | SummarySection
    | EducationSection
    | ExperienceSection
    | SkillsSection
    | CertificationsSection
    | AwardsSection

  /** `a` and `b` agree on every top-level field except possibly `s`. */
  predicate AgreeOutside(a: Resume, b: Resume, s: Section)
  {
    && (s != PersonalInfoSection ==> a.personalInfo == b.personalInfo)
    && (s != SummarySection ==> a.summary == b.summary)
    && (s != EducationSection ==> a.education == b.education)
    && (s != ExperienceSection ==> a.experience == b.experience)
    && (s != SkillsSection ==> a.skills == b.skills)
    && (s != CertificationsSection ==> a.certifications == b.certifications)
    && (s != AwardsSection ==> a.awards == b.awards)
  }

  /** The updater `handlePersonalInfoChange` hands to `setResumeData`:
      `prev => ({ ...prev, personalInfo })`. */
  function HandlePersonalInfoChange(prev: Resume, personalInfo: PersonalInfo): (r: Resume)
    ensures r.personalInfo == personalInfo && AgreeOutside(prev, r, PersonalInfoSection)
  {
    prev.(personalInfo := personalInfo)
  }

  /** `prev => ({ ...prev, summary })`. */
  function HandleSummaryChange(prev: Resume, summary: string): (r: Resume)
    ensures r.summary == summary && AgreeOutside(prev, r, SummarySection)
  {
    prev.(summary := summary)
  }

  /** `prev => ({ ...prev, education })`. */
  function HandleEducationChange(prev: Resume, education: seq<Education>): (r: Resume)
    ensures r.education == education && AgreeOutside(prev, r, EducationSection)
  {
    prev.(education := education)
  }

  /** `prev => ({ ...prev, experience })`. */
  function HandleExperienceChange(prev: Resume, experience: seq<Experience>): (r: Resume)
    ensures r.experience == experience && AgreeOutside(prev, r, ExperienceSection)
  {
    prev.(experience := experience)
  }

  /** `prev => ({ ...prev, skills })`. */
  function HandleSkillsChange(prev: Resume, skills: Skills): (r: Resume)
    ensures r.skills == skills && AgreeOutside(prev, r, SkillsSection)
  {
    prev.(skills := skills)
  }

  /** `prev => ({ ...prev, certifications })`. */
  function HandleCertificationsChange(prev: Resume, certifications: seq<Certification>): (r: Resume)
    ensures r.certifications == certifications && AgreeOutside(prev, r, CertificationsSection)
  {
    prev.(certifications := certifications)
  }

  /** `prev => ({ ...prev, awards })`. */
  function HandleAwardsChange(prev: Resume, awards: seq<Award>): (r: Resume)
    ensures r.awards == awards && AgreeOutside(prev, r, AwardsSection)
  {
    prev.(awards := awards)
  }

  /** A call of one of the section handlers, with the new section value. */
  datatype SectionChange =
    | PersonalInfoChange(personalInfo: PersonalInfo)
    | SummaryChange(summary: string)
    | EducationChange(education: seq<Education>)
    | ExperienceChange(experience: seq<Experience>)
    | SkillsChange(skills: Skills)
    | CertificationsChange(certifications: seq<Certification>)
    | AwardsChange(awards: seq<Award>)

  function SectionOf(change: SectionChange): Section
  {
    match change
    case PersonalInfoChange(_) => PersonalInfoSection
    case SummaryChange(_) => SummarySection
    case EducationChange(_) => EducationSection
    case ExperienceChange(_) => ExperienceSection
    case SkillsChange(_) => SkillsSection
    case CertificationsChange(_) => CertificationsSection
    case AwardsChange(_) => AwardsSection
  }

  /** The section `change` names holds the value `change` carries. */
  predicate Holds(r: Resume, change: SectionChange)
  {
    match change
    case PersonalInfoChange(p) => r.personalInfo == p
    case SummaryChange(s) => r.summary == s
    case EducationChange(e) => r.education == e
    case ExperienceChange(e) => r.experience == e
    case SkillsChange(s) => r.skills == s
    case CertificationsChange(c) => r.certifications == c
    case AwardsChange(a) => r.awards == a
  }

  /** The updater of the handler that `change` calls. */
  function Apply(prev: Resume, change: SectionChange): (r: Resume)
    ensures Holds(r, change)
    ensures AgreeOutside(prev, r, SectionOf(change))
  {
    match change
    case PersonalInfoChange(p) => HandlePersonalInfoChange(prev, p)
    case SummaryChange(s) => HandleSummaryChange(prev, s)
    case EducationChange(e) => HandleEducationChange(prev, e)
    case ExperienceChange(e) => HandleExperienceChange(prev, e)
    case SkillsChange(s) => HandleSkillsChange(prev, s)
    case CertificationsChange(c) => HandleCertificationsChange(prev, c)
    case AwardsChange(a) => HandleAwardsChange(prev, a)
  }

  /** Of two changes to the same section, the later one wins. */
  lemma LastChangeWins(r: Resume, first: SectionChange, second: SectionChange)
    requires SectionOf(first) == SectionOf(second)
    ensures Apply(Apply(r, first), second) == Apply(r, second)
  {
  }

  /** Changes to two different sections commute. */
  lemma ChangesCommute(r: Resume, a: SectionChange, b: SectionChange)
    requires SectionOf(a) != SectionOf(b)
    ensures Apply(Apply(r, a), b) == Apply(Apply(r, b), a)
  {
  }

  datatype ExportFormat = Pdf | Word

  /** How the encoder call ended: it produced the download or it threw. */
  datatype EncoderOutcome = Downloaded | Threw

  /** The state `App` keeps with `useState` that this model covers. */
  class App {
    var resumeData: Resume
    var isExporting: bool

    /** The initial state: the stored snapshot when there is one (`saved`
        stands for the parsed value of local storage; `None` for a missing or
        empty entry), `initialData` otherwise; no export running. */
    constructor (saved: Option<Resume>)
      ensures saved.Some? ==> resumeData == saved.value
      ensures saved.None? ==> IsInitialData(resumeData) && fresh(SkillArrays(resumeData.skills))
      ensures !isExporting
    {
      var initial := InitialData();
      resumeData := if saved.Some? then saved.value else initial;
      isExporting := false;
    }

    /** `setResumeData` called with the updater of one section handler. */
    method SetResumeData(change: SectionChange)
      modifies this`resumeData
      ensures resumeData == Apply(old(resumeData), change)
      ensures Holds(resumeData, change)
      ensures AgreeOutside(old(resumeData), resumeData, SectionOf(change))
    {
      resumeData := Apply(resumeData, change);
    }

    /** The call `await exportToPDF(resumeData)` or `await exportToWord(resumeData)`.
        The encoders are not part of this model; `throws` says whether the
        call threw. It may run only while `isExporting` is set, and it
        changes no state of the application. */
    method RunEncoder(format: ExportFormat, throws: bool) returns (outcome: EncoderOutcome)
      requires isExporting
      ensures outcome == if throws then Threw else Downloaded
    {
      outcome := if throws then Threw else Downloaded;
    }

    /** `handleExport(format)`: sets `isExporting`, runs the encoder, swallows
        an exception it throws, and clears the flag in `finally`. */
    method HandleExport(format: ExportFormat, encoderThrows: bool)
      modifies this`isExporting
      ensures !isExporting
      ensures resumeData == old(resumeData)
    {
      isExporting := true;
      var outcome := RunEncoder(format, encoderThrows);
      // an outcome of Threw is only logged by the catch block
      isExporting := false;
    }
  }
}
