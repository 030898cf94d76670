/** SkillsForm.tsx: add, remove and change for the three skill categories.
    Add and remove build a new skills object with a new array for the one
    category; change copies the object only shallowly and assigns into the
    category array it still shares with the object it was given. */
module SkillsForm {
  import opened ResumeTypes
  import ListOps

  /** `handleAdd(category)`: `{ ...skills, [category]: [...skills[category], ''] }`.
      Duplicates are allowed, so the category always grows by one. */
  method HandleAdd(skills: Skills, c: SkillCategory) returns (r: Skills)
    ensures fresh(Category(r, c))
    ensures Category(r, c).elems == Category(skills, c).elems + [""]
    ensures forall d :: d != c ==> Category(r, d) == Category(skills, d)
    ensures CategoriesDistinct(skills) ==> CategoriesDistinct(r)
  {
    var grown := new StringArray(Category(skills, c).elems + [""]);
    r := WithCategory(skills, c, grown);
  }

  /** `handleRemove(category, index)`:
      `{ ...skills, [category]: skills[category].filter((_, i) => i !== index) }`. */
  method HandleRemove(skills: Skills, c: SkillCategory, index: int) returns (r: Skills)
    ensures fresh(Category(r, c))
    ensures 0 <= index < |Category(skills, c).elems| ==>
              Category(r, c).elems == Category(skills, c).elems[..index] + Category(skills, c).elems[index + 1..]
    ensures !(0 <= index < |Category(skills, c).elems|) ==> Category(r, c).elems == Category(skills, c).elems
    ensures forall d :: d != c ==> Category(r, d) == Category(skills, d)
    ensures CategoriesDistinct(skills) ==> CategoriesDistinct(r)
  {
    var kept := new StringArray(ListOps.WithoutIndex(Category(skills, c).elems, index));
    r := WithCategory(skills, c, kept);
  }

  /** `handleChange(category, index)` applied to a new input value:
      `newSkills = { ...skills }; newSkills[category][index] = value`. The
      object handed on refers to the same three arrays as the given one, and
      the category array is changed in place; an array the category does not
      share is left alone. */
  method HandleChange(skills: Skills, c: SkillCategory, index: nat, value: string) returns (newSkills: Skills)
    requires index < |Category(skills, c).elems|
    modifies Category(skills, c)
    ensures newSkills == skills
    ensures Category(skills, c).elems == old(Category(skills, c).elems)[index := value]
    ensures forall d :: Category(skills, d) != Category(skills, c) ==> Category(skills, d).elems == old(Category(skills, d).elems)
  {
    newSkills := skills;
    Category(newSkills, c).Assign(index, value);
  }
}
