/** The resume record kept in the application's state. Its type declarations
    are not part of this model; the record is rebuilt here from the empty
    default resume in App.tsx and from the item literals that the section forms
    append. Absent text is the empty string throughout. */
module ResumeTypes {
  import ListOps

  /** A JavaScript `string[]` as an object. The skill categories and the
      achievements of an experience entry are arrays that some handlers change
      in place, so which array an entry refers to matters. */
  class StringArray {
    var elems: seq<string>

    constructor (init: seq<string>)
      ensures elems == init
    {
      elems := init;
    }

    /** `a.push(x)`. */
    method Push(x: string)
      modifies this
      ensures elems == old(elems) + [x]
    {
      elems := elems + [x];
    }

    /** `a[index] = x` for an index inside the array. */
    method Assign(index: nat, x: string)
      requires index < |elems|
      modifies this
      ensures elems == old(elems)[index := x]
    {
      elems := elems[index := x];
    }

    /** `a.splice(start, 1)`. */
    method SpliceOne(start: int)
      modifies this
      ensures elems == ListOps.SpliceOne(old(elems), start)
    {
      elems := ListOps.SpliceOne(elems, start);
    }
  }

  datatype PersonalInfo = PersonalInfo(
    name: string,
    email: string,
    phone: string,
    address: string,
    dateOfBirth: string,
    linkedin: string,
    github: string,
    portfolio: string)

  datatype Education = Education(
    institution: string,
    degree: string,
    field: string,
    startDate: string,
    endDate: string,
    gpa: string)

  datatype Experience = Experience(
    company: string,
    position: string,
    startDate: string,
    endDate: string,
    description: string,
    achievements: StringArray)

  datatype Skills = Skills(technical: StringArray, languages: StringArray, soft: StringArray)

  datatype Certification = Certification(name: string, issuer: string, date: string, url: string)

  datatype Award = Award(title: string, issuer: string, date: string, description: string)

  datatype Resume = Resume(
    personalInfo: PersonalInfo,
    summary: string,
    education: seq<Education>,
    experience: seq<Experience>,
    skills: Skills,
    certifications: seq<Certification>,
    awards: seq<Award>)

  /** The keys of the skills object. */
  datatype SkillCategory = Technical | Languages | Soft

  /** `skills[category]`. */
  function Category(skills: Skills, c: SkillCategory): StringArray
  {
    match c
    case Technical => skills.technical
    case Languages => skills.languages
    case Soft => skills.soft
  }

  /** `{ ...skills, [category]: a }`. */
  function WithCategory(skills: Skills, c: SkillCategory, a: StringArray): (r: Skills)
    ensures Category(r, c) == a
    ensures forall d :: d != c ==> Category(r, d) == Category(skills, d)
  {
    match c
    case Technical => skills.(technical := a)
    case Languages => skills.(languages := a)
    case Soft => skills.(soft := a)
  }

  /** The arrays the skills object refers to. */
  function SkillArrays(skills: Skills): set<StringArray>
  {
    {skills.technical, skills.languages, skills.soft}
  }

  /** No two categories share one array. */
  predicate CategoriesDistinct(skills: Skills)
  {
    skills.technical != skills.languages && skills.technical != skills.soft && skills.languages != skills.soft
  }
}
