/** PersonalInfoForm.tsx: one change handler, which rebuilds the personal-info
    record with a single field overridden. */
module PersonalInfoForm {
  import opened ResumeTypes

  /** The field names the form's inputs pass to `handleChange`. */
  datatype Key = Name | Email | Phone | Address | DateOfBirth | Linkedin | Github | Portfolio

  /** `data[field]`. */
  function Get(data: PersonalInfo, k: Key): string
  {
    match k
    case Name => data.name
    case Email => data.email
    case Phone => data.phone
    case Address => data.address
    case DateOfBirth => data.dateOfBirth
    case Linkedin => data.linkedin
    case Github => data.github
    case Portfolio => data.portfolio
  }

  /** Two records with the same value under every key are the same record. */
  lemma {:induction false} EqualByKeys(a: PersonalInfo, b: PersonalInfo)
    requires forall k :: Get(a, k) == Get(b, k)
    ensures a == b
  {
    assert Get(a, Name) == Get(b, Name) && Get(a, Email) == Get(b, Email);
    assert Get(a, Phone) == Get(b, Phone) && Get(a, Address) == Get(b, Address);
    assert Get(a, DateOfBirth) == Get(b, DateOfBirth) && Get(a, Linkedin) == Get(b, Linkedin);
    assert Get(a, Github) == Get(b, Github) && Get(a, Portfolio) == Get(b, Portfolio);
  }

  /** `handleChange(field)` applied to a new input value:
      `{ ...data, [field]: value }`. */
  function HandleChange(data: PersonalInfo, k: Key, value: string): (r: PersonalInfo)
    ensures Get(r, k) == value
    ensures forall j :: j != k ==> Get(r, j) == Get(data, j)
  {
    match k
    case Name => data.(name := value)
    case Email => data.(email := value)
    case Phone => data.(phone := value)
    case Address => data.(address := value)
    case DateOfBirth => data.(dateOfBirth := value)
    case Linkedin => data.(linkedin := value)
    case Github => data.(github := value)
    case Portfolio => data.(portfolio := value)
  }

  /** Of two successive changes to one field, the last value wins. */
  lemma LastChangeWins(data: PersonalInfo, k: Key, first: string, second: string)
    ensures HandleChange(HandleChange(data, k, first), k, second) == HandleChange(data, k, second)
  {
    EqualByKeys(HandleChange(HandleChange(data, k, first), k, second), HandleChange(data, k, second));
  }

  /** Writing back the value a field already holds gives an equal record. */
  lemma ChangeToCurrentValue(data: PersonalInfo, k: Key)
    ensures HandleChange(data, k, Get(data, k)) == data
  {
    EqualByKeys(HandleChange(data, k, Get(data, k)), data);
  }

  /** Changes to two different fields commute. */
  lemma ChangesCommute(data: PersonalInfo, k: Key, v: string, j: Key, w: string)
    requires k != j
    ensures HandleChange(HandleChange(data, k, v), j, w) == HandleChange(HandleChange(data, j, w), k, v)
  {
    EqualByKeys(HandleChange(HandleChange(data, k, v), j, w), HandleChange(HandleChange(data, j, w), k, v));
  }
}
