/** EducationForm.tsx: add, remove and change handlers over the list of
    education entries. Each builds a new list and hands it to `onChange`; the
    list it was given is never written. */
module EducationForm {
  import opened ResumeTypes
  import ListOps

  /** The entry `handleAdd` appends. */
  const NewEntry: Education := Education("", "", "", "", "", "")

  /** The field names the form's inputs pass to `handleChange`. */
  datatype Key = Institution | Degree | FieldOfStudy | StartDate | EndDate | Gpa

  /** `entry[field]`. */
  function Get(e: Education, k: Key): string
  {
    match k
    case Institution => e.institution
    case Degree => e.degree
    case FieldOfStudy => e.field
    case StartDate => e.startDate
    case EndDate => e.endDate
    case Gpa => e.gpa
  }

  /** `{ ...entry, [field]: value }`. */
  function Set(e: Education, k: Key, value: string): (r: Education)
    ensures Get(r, k) == value
    ensures forall j :: j != k ==> Get(r, j) == Get(e, j)
  {
    match k
    case Institution => e.(institution := value)
    case Degree => e.(degree := value)
    case FieldOfStudy => e.(field := value)
    case StartDate => e.(startDate := value)
    case EndDate => e.(endDate := value)
    case Gpa => e.(gpa := value)
  }

  /** Two entries with the same value under every key are the same entry. */
  lemma {:induction false} EqualByKeys(a: Education, b: Education)
    requires forall k :: Get(a, k) == Get(b, k)
    ensures a == b
  {
    assert Get(a, Institution) == Get(b, Institution) && Get(a, Degree) == Get(b, Degree);
    assert Get(a, FieldOfStudy) == Get(b, FieldOfStudy) && Get(a, StartDate) == Get(b, StartDate);
    assert Get(a, EndDate) == Get(b, EndDate) && Get(a, Gpa) == Get(b, Gpa);
  }

  /** `handleAdd`: one entry with every field empty goes at the end. */
  function HandleAdd(education: seq<Education>): (r: seq<Education>)
    ensures |r| == |education| + 1
    ensures r[..|education|] == education
    ensures forall k :: Get(r[|education|], k) == ""
  {
    education + [NewEntry]
  }

  /** `handleRemove(index)`: `education.filter((_, i) => i !== index)`. */
  function HandleRemove(education: seq<Education>, index: int): (r: seq<Education>)
    ensures 0 <= index < |education| ==> r == education[..index] + education[index + 1..]
    ensures !(0 <= index < |education|) ==> r == education
  {
    ListOps.WithoutIndex(education, index)
  }

  /** `handleChange(index, field)` applied to a new input value: a copy of the
      list whose slot `index` holds a fresh copy of the entry with one field
      overridden. */
  function HandleChange(education: seq<Education>, index: nat, k: Key, value: string): (r: seq<Education>)
    requires index < |education|
    ensures |r| == |education|
    ensures Get(r[index], k) == value
    ensures forall j :: j != k ==> Get(r[index], j) == Get(education[index], j)
    ensures forall m :: 0 <= m < |r| && m != index ==> r[m] == education[m]
  {
    education[index := Set(education[index], k, value)]
  }

  /** Removing the entry just added gives the list back. */
  lemma RemoveUndoesAdd(education: seq<Education>)
    ensures HandleRemove(HandleAdd(education), |education|) == education
  {
    ListOps.RemoveAfterAppend(education, NewEntry);
  }

  /** Changing a field back to its previous value gives the list back. */
  lemma ChangeBackRestores(education: seq<Education>, index: nat, k: Key, value: string)
    requires index < |education|
    ensures HandleChange(HandleChange(education, index, k, value), index, k, Get(education[index], k)) == education
  {
    var r := HandleChange(HandleChange(education, index, k, value), index, k, Get(education[index], k));
    EqualByKeys(r[index], education[index]);
  }
}
