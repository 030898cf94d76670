/** CertificationsForm.tsx: add, remove and change handlers over the list of
    certifications. Each builds a new list and hands it to `onChange`; the
    list it was given is never written. */
module CertificationsForm {
  import opened ResumeTypes
  import ListOps

  /** The entry `handleAdd` appends. */
  const NewEntry: Certification := Certification("", "", "", "")

  /** The field names the form's inputs pass to `handleChange`. */
  datatype Key = Name | Issuer | Date | Url

  /** `entry[field]`. */
  function Get(c: Certification, k: Key): string
  {
    match k
    case Name => c.name
    case Issuer => c.issuer
    case Date => c.date
    case Url => c.url
  }

  /** `{ ...entry, [field]: value }`. */
  function Set(c: Certification, k: Key, value: string): (r: Certification)
    ensures Get(r, k) == value
    ensures forall j :: j != k ==> Get(r, j) == Get(c, j)
  {
    match k
    case Name => c.(name := value)
    case Issuer => c.(issuer := value)
    case Date => c.(date := value)
    case Url => c.(url := value)
  }

  /** Two entries with the same value under every key are the same entry. */
  lemma {:induction false} EqualByKeys(a: Certification, b: Certification)
    requires forall k :: Get(a, k) == Get(b, k)
    ensures a == b
  {
    assert Get(a, Name) == Get(b, Name) && Get(a, Issuer) == Get(b, Issuer);
    assert Get(a, Date) == Get(b, Date) && Get(a, Url) == Get(b, Url);
  }

  /** `handleAdd`: one entry with every field empty goes at the end. */
  function HandleAdd(certifications: seq<Certification>): (r: seq<Certification>)
    ensures |r| == |certifications| + 1
    ensures r[..|certifications|] == certifications
    ensures forall k :: Get(r[|certifications|], k) == ""
  {
    certifications + [NewEntry]
  }

  /** `handleRemove(index)`: `certifications.filter((_, i) => i !== index)`. */
  function HandleRemove(certifications: seq<Certification>, index: int): (r: seq<Certification>)
    ensures 0 <= index < |certifications| ==> r == certifications[..index] + certifications[index + 1..]
    ensures !(0 <= index < |certifications|) ==> r == certifications
  {
    ListOps.WithoutIndex(certifications, index)
  }

  /** `handleChange(index, field)` applied to a new input value: a copy of the
      list whose slot `index` holds a fresh copy of the entry with one field
      overridden. */
  function HandleChange(certifications: seq<Certification>, index: nat, k: Key, value: string): (r: seq<Certification>)
    requires index < |certifications|
    ensures |r| == |certifications|
    ensures Get(r[index], k) == value
    ensures forall j :: j != k ==> Get(r[index], j) == Get(certifications[index], j)
    ensures forall m :: 0 <= m < |r| && m != index ==> r[m] == certifications[m]
  {
    certifications[index := Set(certifications[index], k, value)]
  }

  /** Removing the entry just added gives the list back. */
  lemma RemoveUndoesAdd(certifications: seq<Certification>)
    ensures HandleRemove(HandleAdd(certifications), |certifications|) == certifications
  {
    ListOps.RemoveAfterAppend(certifications, NewEntry);
  }

  /** Changing a field back to its previous value gives the list back. */
  lemma ChangeBackRestores(certifications: seq<Certification>, index: nat, k: Key, value: string)
    requires index < |certifications|
    ensures HandleChange(HandleChange(certifications, index, k, value), index, k, Get(certifications[index], k)) == certifications
  {
    var r := HandleChange(HandleChange(certifications, index, k, value), index, k, Get(certifications[index], k));
    EqualByKeys(r[index], certifications[index]);
  }
}
