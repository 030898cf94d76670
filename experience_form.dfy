/** ExperienceForm.tsx. Add, remove and change build a new list of entries.
    The three achievement handlers copy the list only shallowly and then push,
    assign or splice on the achievements array that the copied entry still
    shares with the list they were given, so they change that array in place. */
module ExperienceForm {
  import opened ResumeTypes
  import ListOps

  /** The string field names the form's inputs pass to `handleChange`. */
  datatype Key = Company | Position | StartDate | EndDate | Description

  /** `entry[field]`. */
  function Get(e: Experience, k: Key): string
  {
    match k
    case Company => e.company
    case Position => e.position
    case StartDate => e.startDate
    case EndDate => e.endDate
    case Description => e.description
  }

  /** `{ ...entry, [field]: value }`: the copy keeps the entry's achievements
      array itself, not a copy of it. */
  function Set(e: Experience, k: Key, value: string): (r: Experience)
    ensures Get(r, k) == value
    ensures forall j :: j != k ==> Get(r, j) == Get(e, j)
    ensures r.achievements == e.achievements
  {
    match k
    case Company => e.(company := value)
    case Position => e.(position := value)
    case StartDate => e.(startDate := value)
    case EndDate => e.(endDate := value)
    case Description => e.(description := value)
  }

  /** Two entries with the same text under every key and the same
      achievements array are the same entry. */
  lemma {:induction false} EqualByKeys(a: Experience, b: Experience)
    requires forall k :: Get(a, k) == Get(b, k)
    requires a.achievements == b.achievements
    ensures a == b
  {
    assert Get(a, Company) == Get(b, Company) && Get(a, Position) == Get(b, Position);
    assert Get(a, StartDate) == Get(b, StartDate) && Get(a, EndDate) == Get(b, EndDate);
    assert Get(a, Description) == Get(b, Description);
  }

  /** No two entries of the list share one achievements array. Every entry
      `handleAdd` creates gets an array of its own, and the other handlers
      keep the property, so an achievement handler changes one entry only. */
  predicate AchievementsDistinct(experience: seq<Experience>)
  {
    forall j, k :: 0 <= j < k < |experience| ==> experience[j].achievements != experience[k].achievements
  }

  /** `handleAdd`: one entry with empty text and a new, empty achievements
      array goes at the end. */
  method HandleAdd(experience: seq<Experience>) returns (r: seq<Experience>)
    ensures |r| == |experience| + 1
    ensures r[..|experience|] == experience
    ensures forall k :: Get(r[|experience|], k) == ""
    ensures fresh(r[|experience|].achievements) && r[|experience|].achievements.elems == []
    ensures AchievementsDistinct(experience) ==> AchievementsDistinct(r)
  {
    var achievements := new StringArray([]);
    r := experience + [Experience("", "", "", "", "", achievements)];
  }

  /** `handleRemove(index)`: `experience.filter((_, i) => i !== index)`. */
  function HandleRemove(experience: seq<Experience>, index: int): (r: seq<Experience>)
    ensures 0 <= index < |experience| ==> r == experience[..index] + experience[index + 1..]
    ensures !(0 <= index < |experience|) ==> r == experience
  {
    ListOps.WithoutIndex(experience, index)
  }

  /** `handleChange(index, field)` applied to a new input value: a copy of the
      list whose slot `index` holds a copy of the entry with one field
      overridden; the copy shares the old entry's achievements array. */
  function HandleChange(experience: seq<Experience>, index: nat, k: Key, value: string): (r: seq<Experience>)
    requires index < |experience|
    ensures |r| == |experience|
    ensures Get(r[index], k) == value
    ensures forall j :: j != k ==> Get(r[index], j) == Get(experience[index], j)
    ensures r[index].achievements == experience[index].achievements
    ensures forall m :: 0 <= m < |r| && m != index ==> r[m] == experience[m]
  {
    experience[index := Set(experience[index], k, value)]
  }

  lemma RemoveKeepsAchievementsDistinct(experience: seq<Experience>, index: int)
    requires AchievementsDistinct(experience)
    ensures AchievementsDistinct(HandleRemove(experience, index))
  {
    var r := HandleRemove(experience, index);
    if 0 <= index < |experience| {
      forall j, k | 0 <= j < k < |r|
        ensures r[j].achievements != r[k].achievements
      {
        ListOps.WithoutIndexAt(experience, index, j);
        ListOps.WithoutIndexAt(experience, index, k);
      }
    }
  }

  lemma ChangeKeepsAchievementsDistinct(experience: seq<Experience>, index: nat, k: Key, value: string)
    requires index < |experience|
    requires AchievementsDistinct(experience)
    ensures AchievementsDistinct(HandleChange(experience, index, k, value))
  {
  }

  /** Changing a field back to its previous value gives the list back. */
  lemma ChangeBackRestores(experience: seq<Experience>, index: nat, k: Key, value: string)
    requires index < |experience|
    ensures HandleChange(HandleChange(experience, index, k, value), index, k, Get(experience[index], k)) == experience
  {
    var r := HandleChange(HandleChange(experience, index, k, value), index, k, Get(experience[index], k));
    EqualByKeys(r[index], experience[index]);
  }

  /** `handleAchievementAdd(index)`: pushes `''` onto entry `index`'s
      achievements array. The list handed on is the given list itself (same
      entries, same arrays), so the caller's own entry shows the new
      achievement too; no array other than that entry's changes. */
  method HandleAchievementAdd(experience: seq<Experience>, index: nat) returns (newExperience: seq<Experience>)
    requires index < |experience|
    modifies experience[index].achievements
    ensures newExperience == experience
    ensures experience[index].achievements.elems == old(experience[index].achievements.elems) + [""]
    ensures forall m :: 0 <= m < |experience| && experience[m].achievements != experience[index].achievements ==>
              experience[m].achievements.elems == old(experience[m].achievements.elems)
  {
    newExperience := experience;
    newExperience[index].achievements.Push("");
  }

  /** `handleAchievementChange(expIndex, achievementIndex)` applied to a new
      input value: assigns into entry `expIndex`'s achievements array in place,
      keeping its length. */
  method HandleAchievementChange(experience: seq<Experience>, expIndex: nat, achievementIndex: nat, value: string)
    returns (newExperience: seq<Experience>)
    requires expIndex < |experience|
    requires achievementIndex < |experience[expIndex].achievements.elems|
    modifies experience[expIndex].achievements
    ensures newExperience == experience
    ensures experience[expIndex].achievements.elems == old(experience[expIndex].achievements.elems)[achievementIndex := value]
    ensures forall m :: 0 <= m < |experience| && experience[m].achievements != experience[expIndex].achievements ==>
              experience[m].achievements.elems == old(experience[m].achievements.elems)
  {
    newExperience := experience;
    newExperience[expIndex].achievements.Assign(achievementIndex, value);
  }

  /** `handleAchievementRemove(expIndex, achievementIndex)`: `splice(achievementIndex, 1)`
      on entry `expIndex`'s achievements array in place. An index at or past
      the end deletes nothing. */
  method HandleAchievementRemove(experience: seq<Experience>, expIndex: nat, achievementIndex: int)
    returns (newExperience: seq<Experience>)
    requires expIndex < |experience|
    modifies experience[expIndex].achievements
    ensures newExperience == experience
    ensures experience[expIndex].achievements.elems == ListOps.SpliceOne(old(experience[expIndex].achievements.elems), achievementIndex)
    ensures 0 <= achievementIndex ==>
              experience[expIndex].achievements.elems == ListOps.WithoutIndex(old(experience[expIndex].achievements.elems), achievementIndex)
    ensures forall m :: 0 <= m < |experience| && experience[m].achievements != experience[expIndex].achievements ==>
              experience[m].achievements.elems == old(experience[m].achievements.elems)
  {
    newExperience := experience;
    newExperience[expIndex].achievements.SpliceOne(achievementIndex);
  }
}
