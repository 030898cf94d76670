/** AwardsForm.tsx: add, remove and change handlers over the list of awards.
    Each builds a new list and hands it to `onChange`; the list it was given
    is never written. */
module AwardsForm {
  import opened ResumeTypes
  import ListOps

  /** The entry `handleAdd` appends. */
  const NewEntry: Award := Award("", "", "", "")

  /** The field names the form's inputs pass to `handleChange`. */
  datatype Key = Title | Issuer | Date | Description

  /** `entry[field]`. */
  function Get(a: Award, k: Key): string
  {
    match k
    case Title => a.title
    case Issuer => a.issuer
    case Date => a.date
    case Description => a.description
  }

  /** `{ ...entry, [field]: value }`. */
  function Set(a: Award, k: Key, value: string): (r: Award)
    ensures Get(r, k) == value
    ensures forall j :: j != k ==> Get(r, j) == Get(a, j)
  {
    match k
    case Title => a.(title := value)
    case Issuer => a.(issuer := value)
    case Date => a.(date := value)
    case Description => a.(description := value)
  }

  /** Two entries with the same value under every key are the same entry. */
  lemma {:induction false} EqualByKeys(a: Award, b: Award)
    requires forall k :: Get(a, k) == Get(b, k)
    ensures a == b
  {
    assert Get(a, Title) == Get(b, Title) && Get(a, Issuer) == Get(b, Issuer);
    assert Get(a, Date) == Get(b, Date) && Get(a, Description) == Get(b, Description);
  }

  /** `handleAdd`: one entry with every field empty goes at the end. */
  function HandleAdd(awards: seq<Award>): (r: seq<Award>)
    ensures |r| == |awards| + 1
    ensures r[..|awards|] == awards
    ensures forall k :: Get(r[|awards|], k) == ""
  {
    awards + [NewEntry]
  }

  /** `handleRemove(index)`: `awards.filter((_, i) => i !== index)`. */
  function HandleRemove(awards: seq<Award>, index: int): (r: seq<Award>)
    ensures 0 <= index < |awards| ==> r == awards[..index] + awards[index + 1..]
    ensures !(0 <= index < |awards|) ==> r == awards
  {
    ListOps.WithoutIndex(awards, index)
  }

  /** `handleChange(index, field)` applied to a new input value: a copy of the
      list whose slot `index` holds a fresh copy of the entry with one field
      overridden. */
  function HandleChange(awards: seq<Award>, index: nat, k: Key, value: string): (r: seq<Award>)
    requires index < |awards|
    ensures |r| == |awards|
    ensures Get(r[index], k) == value
    ensures forall j :: j != k ==> Get(r[index], j) == Get(awards[index], j)
    ensures forall m :: 0 <= m < |r| && m != index ==> r[m] == awards[m]
  {
    awards[index := Set(awards[index], k, value)]
  }

  /** Removing the entry just added gives the list back. */
  lemma RemoveUndoesAdd(awards: seq<Award>)
    ensures HandleRemove(HandleAdd(awards), |awards|) == awards
  {
    ListOps.RemoveAfterAppend(awards, NewEntry);
  }

  /** Changing a field back to its previous value gives the list back. */
  lemma ChangeBackRestores(awards: seq<Award>, index: nat, k: Key, value: string)
    requires index < |awards|
    ensures HandleChange(HandleChange(awards, index, k, value), index, k, Get(awards[index], k)) == awards
  {
    var r := HandleChange(HandleChange(awards, index, k, value), index, k, Get(awards[index], k));
    EqualByKeys(r[index], awards[index]);
  }
}
