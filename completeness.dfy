/** The resume-completion percentage of App.tsx (`progressPercentage`).
    Required fields are counted into `total`, the non-empty ones into `filled`:
    four personal fields, the summary, five fields per education entry, five
    per experience entry and one per skill category that has at least one
    entry. The percentage is `filled / max(total, 1) * 100` rounded half up
    and capped at 100. */
module Completeness {
  import opened ResumeTypes
  import App
  import PersonalInfoForm
  import EducationForm
  import ExperienceForm
  import SkillsForm

  /** `Boolean(s)` for a string, as a count: 1 exactly when `s` is non-empty. */
  function Present(s: string): (n: nat)
    ensures n <= 1
    ensures n == 1 <==> s != ""
  {
    if s != "" then 1 else 0
  }

  /** `values.filter(v => Boolean(v)).length`: how many of the values are non-empty. */
  function CountPresent(values: seq<string>): (n: nat)
    ensures n <= |values|
    ensures n == 0 <==> forall i :: 0 <= i < |values| ==> values[i] == ""
    ensures n == |values| <==> forall i :: 0 <= i < |values| ==> values[i] != ""
  {
    if |values| == 0 then 0
    else CountPresent(values[..|values| - 1]) + Present(values[|values| - 1])
  }

  /** `requiredPersonalFields`, looked up in the personal-info record. */
  function PersonalRequired(p: PersonalInfo): seq<string>
  {
    [p.name, p.email, p.phone, p.address]
  }

  /** `requiredEduFields`, looked up in an education entry. */
  function EducationRequired(e: Education): seq<string>
  {
    [e.institution, e.degree, e.field, e.startDate, e.endDate]
  }

  /** `requiredExpFields`, looked up in an experience entry. */
  function ExperienceRequired(e: Experience): seq<string>
  {
    [e.company, e.position, e.startDate, e.endDate, e.description]
  }

  /** The `reduce` over the education entries: filled required fields of all of them. */
  function EducationFilled(education: seq<Education>): (n: nat)
    ensures n <= 5 * |education|
  {
    if |education| == 0 then 0
    else EducationFilled(education[..|education| - 1]) + CountPresent(EducationRequired(education[|education| - 1]))
  }

  /** The `reduce` over the experience entries. */
  function ExperienceFilled(experience: seq<Experience>): (n: nat)
    ensures n <= 5 * |experience|
  {
    if |experience| == 0 then 0
    else ExperienceFilled(experience[..|experience| - 1]) + CountPresent(ExperienceRequired(experience[|experience| - 1]))
  }

  /** `skillCategories`. */
  const AllCategories: seq<SkillCategory> := [Technical, Languages, Soft]

  /** 1 when a list has at least one entry, whatever the entries are. */
  function NonEmpty(s: seq<string>): nat
  {
    if |s| > 0 then 1 else 0
  }

  /** `categories.filter(c => skills[c].length > 0).length`. */
  function FilledCategories(skills: Skills, categories: seq<SkillCategory>): (n: nat)
    reads SkillArrays(skills)
    ensures n <= |categories|
  {
    if |categories| == 0 then 0
    else
      FilledCategories(skills, categories[..|categories| - 1])
        + NonEmpty(Category(skills, categories[|categories| - 1]).elems)
  }

  /** The `filled` counter at the end of the scorer. */
  function Filled(r: Resume): (n: nat)
    reads SkillArrays(r.skills)
    ensures n <= Total(r)
  {
    CountPresent(PersonalRequired(r.personalInfo)) + Present(r.summary)
      + EducationFilled(r.education) + ExperienceFilled(r.experience)
      + FilledCategories(r.skills, AllCategories)
  }

  /** The `total` counter at the end of the scorer. */
  function Total(r: Resume): (n: nat)
    ensures n >= 8 && n % 5 == 3
  {
    4 + 1 + 5 * |r.education| + 5 * |r.experience| + 3
  }

  lemma MultiplyMonotone(x: int, y: int, b: nat)
    requires x <= y
    ensures x * b <= y * b
  {
  }

  /** The quotient `q` of the rounding division brackets `200 * filled`
      within `t` of `2 * q * t`, and stays at or below 100 while
      `filled <= t`. */
  lemma {:induction false} RoundingBounds(filled: nat, t: nat)
    requires t > 0
    ensures var q := (200 * filled + t) / (2 * t);
            2 * q * t - t <= 200 * filled < 2 * q * t + t
    ensures filled <= t ==> (200 * filled + t) / (2 * t) <= 100
  {
    var a, b := 200 * filled + t, 2 * t;
    var q, m := a / b, a % b;
    assert a == q * b + m && 0 <= m < b;
    assert q * b == 2 * q * t;
    if filled <= t && q > 100 {
      MultiplyMonotone(101, q, b);
      assert false;
    }
  }

  /** `Math.min(Math.round((filled / Math.max(total, 1)) * 100), 100)`, in
      integers: `Math.round(x)` is `floor(x + 1/2)`, and
      `floor(100 * f / t + 1/2) == (200 * f + t) / (2 * t)`. When
      `filled <= total`, `p` is the integer nearest to `100 * filled / total`
      (a half rounds up), which the second ensures states without division. */
  function Percent(filled: nat, total: nat): (p: int)
    ensures 0 <= p <= 100
    ensures 0 < total && filled <= total ==> 2 * p * total - total <= 200 * filled < 2 * p * total + total
  {
    var t := if total > 1 then total else 1;
    RoundingBounds(filled, t);
    var rounded := (200 * filled + t) / (2 * t);
    if rounded < 100 then rounded else 100
  }

  /** `progressPercentage`. */
  function Score(r: Resume): (p: int)
    reads SkillArrays(r.skills)
    ensures 0 <= p <= 100
  {
    Percent(Filled(r), Total(r))
  }

  /** `values.filter(v => Boolean(v)).length`, counted with a loop. */
  method CountNonEmpty(values: seq<string>) returns (n: nat)
    ensures n == CountPresent(values)
  {
    n := 0;
    var i := 0;
    while i < |values|
      invariant 0 <= i <= |values|
      invariant n == CountPresent(values[..i])
    {
      assert values[..i + 1][..i] == values[..i];
      if values[i] != "" {
        n := n + 1;
      }
      i := i + 1;
    }
    assert values[..|values|] == values;
  }

  /** `education.reduce((acc, edu) => acc + <filled required fields of edu>, 0)`. */
  method ReduceEducation(education: seq<Education>) returns (acc: nat)
    ensures acc == EducationFilled(education)
  {
    acc := 0;
    var i := 0;
    while i < |education|
      invariant 0 <= i <= |education|
      invariant acc == EducationFilled(education[..i])
    {
      assert education[..i + 1][..i] == education[..i];
      var n := CountNonEmpty(EducationRequired(education[i]));
      acc := acc + n;
      i := i + 1;
    }
    assert education[..|education|] == education;
  }

  /** `experience.reduce((acc, exp) => acc + <filled required fields of exp>, 0)`. */
  method ReduceExperience(experience: seq<Experience>) returns (acc: nat)
    ensures acc == ExperienceFilled(experience)
  {
    acc := 0;
    var i := 0;
    while i < |experience|
      invariant 0 <= i <= |experience|
      invariant acc == ExperienceFilled(experience[..i])
    {
      assert experience[..i + 1][..i] == experience[..i];
      var n := CountNonEmpty(ExperienceRequired(experience[i]));
      acc := acc + n;
      i := i + 1;
    }
    assert experience[..|experience|] == experience;
  }

  /** `skillCategories.filter(c => skills[c].length > 0).length`. */
  method CountFilledCategories(skills: Skills) returns (n: nat)
    ensures n == FilledCategories(skills, AllCategories)
  {
    n := 0;
    var c := 0;
    while c < |AllCategories|
      invariant 0 <= c <= |AllCategories|
      invariant n == FilledCategories(skills, AllCategories[..c])
    {
      assert AllCategories[..c + 1][..c] == AllCategories[..c];
      n := n + NonEmpty(Category(skills, AllCategories[c]).elems);
      c := c + 1;
    }
    assert AllCategories[..|AllCategories|] == AllCategories;
  }

  /** The scorer as App.tsx runs it: `total` and `filled` start at 0 and each
      section adds to them in turn. */
  method ProgressPercentage(r: Resume) returns (percentage: int)
    ensures percentage == Score(r)
    ensures 0 <= percentage <= 100
  {
    var total := 0;
    var filled := 0;

    total := total + |PersonalRequired(r.personalInfo)|;
    var personal := CountNonEmpty(PersonalRequired(r.personalInfo));
    filled := filled + personal;

    total := total + 1;
    filled := filled + if r.summary != "" then 1 else 0;

    total := total + 5 * |r.education|;
    var education := ReduceEducation(r.education);
    filled := filled + education;

    total := total + 5 * |r.experience|;
    var experience := ReduceExperience(r.experience);
    filled := filled + experience;

    total := total + |AllCategories|;
    var skills := CountFilledCategories(r.skills);
    filled := filled + skills;

    assert total == Total(r);
    assert filled == Filled(r);
    percentage := Percent(filled, total);
  }

  // ---------------------------------------------------------------------
  // Properties of the score

  /** Replacing one value changes the count by what the new value adds
      minus what the old one did. */
  lemma {:induction false} CountPresentUpdate(values: seq<string>, j: nat, v: string)
    requires j < |values|
    ensures CountPresent(values[j := v]) + Present(values[j]) == CountPresent(values) + Present(v)
  {
    var n := |values|;
    if j < n - 1 {
      assert values[j := v][..n - 1] == values[..n - 1][j := v];
      CountPresentUpdate(values[..n - 1], j, v);
    } else {
      assert values[j := v][..n - 1] == values[..n - 1];
    }
  }

  /** A skill category counts exactly when its array is non-empty, so an
      array holding only `''` counts. */
  lemma FilledCategoriesAll(skills: Skills)
    ensures FilledCategories(skills, AllCategories)
            == NonEmpty(skills.technical.elems) + NonEmpty(skills.languages.elems) + NonEmpty(skills.soft.elems)
  {
    assert AllCategories[..2] == [Technical, Languages];
    assert [Technical, Languages][..1] == [Technical];
    assert [Technical][..0] == [];
    assert FilledCategories(skills, [Technical]) == NonEmpty(skills.technical.elems);
    assert FilledCategories(skills, [Technical, Languages])
           == NonEmpty(skills.technical.elems) + NonEmpty(skills.languages.elems);
  }

  /** `q * b <= a` puts `q` at or below the floor quotient `a / b`. */
  lemma QuotientIsLargest(q: int, a: nat, b: nat)
    requires b > 0 && q * b <= a
    ensures q <= a / b
  {
    var d := a / b;
    assert a < d * b + b;
    if q > d {
      MultiplyMonotone(d + 1, q, b);
      assert false;
    }
  }

  /** More filled fields over the same total never give a lower percentage. */
  lemma PercentMonotoneInFilled(f1: nat, f2: nat, total: nat)
    requires f1 <= f2
    ensures Percent(f1, total) <= Percent(f2, total)
  {
    var t := if total > 1 then total else 1;
    var a1, a2, b := 200 * f1 + t, 200 * f2 + t, 2 * t;
    var q1 := a1 / b;
    assert q1 * b <= a1;
    QuotientIsLargest(q1, a2, b);
  }

  /** More tracked fields with the same number filled never give a higher
      percentage. */
  lemma PercentAntitoneInTotal(filled: nat, t1: nat, t2: nat)
    requires 0 < t1 <= t2
    ensures Percent(filled, t2) <= Percent(filled, t1)
  {
    var a1, a2 := 200 * filled + t1, 200 * filled + t2;
    var q2 := a2 / (2 * t2);
    assert q2 * (2 * t2) <= a2;
    if q2 > 0 {
      MultiplyMonotone(1, q2, 2 * (t2 - t1));
      assert q2 * (2 * t1) == q2 * (2 * t2) - q2 * (2 * (t2 - t1));
      QuotientIsLargest(q2, a1, 2 * t1);
    }
  }

  /** Dividing both sides of `a * t <= b * t` by a positive `t`. */
  lemma RealCancel(a: real, b: real, t: real)
    requires t > 0.0 && a * t <= b * t
    ensures a <= b
  {
    if a > b {
      assert false;
    }
  }

  /** Dividing both sides of `a * t < b * t` by a positive `t`. */
  lemma RealCancelStrict(a: real, b: real, t: real)
    requires t > 0.0 && a * t < b * t
    ensures a < b
  {
    if a >= b {
      assert false;
    }
  }

  lemma RealOfProduct(a: int, b: int)
    ensures (a * b) as real == (a as real) * (b as real)
  {
  }

  /** `pt` within one half of `100 * f` after scaling both by `2`, with
      `pt == p * t`, puts `p` within one half of `100 * f / t`. */
  lemma RealNearest(p: real, f: real, t: real, pt: real)
    requires t > 0.0 && pt == p * t
    requires 2.0 * pt - t <= 200.0 * f < 2.0 * pt + t
    ensures p - 0.5 <= 100.0 * f / t < p + 0.5
  {
    var x := 100.0 * f / t;
    assert x * t == 100.0 * f;
    assert (p - 0.5) * t == pt - 0.5 * t;
    assert (p + 0.5) * t == pt + 0.5 * t;
    RealCancel(p - 0.5, x, t);
    RealCancelStrict(x, p + 0.5, t);
  }

  /** The division-free bounds of `Percent` say that `p` is within one half
      of `100 * f / t`. */
  lemma NearestFromBounds(p: int, f: nat, t: nat)
    requires t > 0 && 2 * p * t - t <= 200 * f < 2 * p * t + t
    ensures var x := 100.0 * (f as real) / (t as real);
            (p as real) - 0.5 <= x < (p as real) + 0.5
  {
    var pt := p * t;
    assert 2 * p * t == 2 * pt;
    RealOfProduct(p, t);
    RealNearest(p as real, f as real, t as real, pt as real);
  }

  /** `filled <= total` always holds and `total` is 8 plus 5 per entry, so the
      score is the percentage of tracked fields that are filled, rounded to
      the nearest integer with halves rounded up; the cap at 100 never acts. */
  lemma ScoreIsRoundedRatio(r: Resume)
    ensures Filled(r) <= Total(r) == 8 + 5 * |r.education| + 5 * |r.experience|
    ensures var x := 100.0 * (Filled(r) as real) / (Total(r) as real);
            (Score(r) as real) - 0.5 <= x < (Score(r) as real) + 0.5
  {
    FilledCategoriesAll(r.skills);
    NearestFromBounds(Score(r), Filled(r), Total(r));
  }

  /** The empty default resume: nothing filled out of 8, score 0. */
  lemma InitialDataScoresZero(r: Resume)
    requires App.IsInitialData(r)
    ensures Filled(r) == 0 && Total(r) == 8 && Score(r) == 0
  {
    FilledCategoriesAll(r.skills);
  }

  /** The default resume with only a name: 1 of 8 filled, 12.5% rounds to 13. */
  lemma OnlyNameScoresThirteen(r: Resume, name: string)
    requires App.IsInitialData(r) && name != ""
    ensures var named := App.HandlePersonalInfoChange(r, PersonalInfoForm.HandleChange(r.personalInfo, PersonalInfoForm.Name, name));
            Filled(named) == 1 && Total(named) == 8 && Score(named) == 13
  {
    FilledCategoriesAll(r.skills);
    CountPresentUpdate(["", "", "", ""], 0, name);
    assert PersonalRequired(PersonalInfoForm.HandleChange(r.personalInfo, PersonalInfoForm.Name, name))
           == ["", "", "", ""][0 := name];
  }

  // ---------------------------------------------------------------------
  // How the handlers move the counters

  /** The personal fields `requiredPersonalFields` names. */
  predicate PersonalTracked(k: PersonalInfoForm.Key)
  {
    k.Name? || k.Email? || k.Phone? || k.Address?
  }

  /** A personal-info change leaves `total` alone and moves `filled` by what
      the new value adds minus what the old one did, for a tracked field;
      `dateOfBirth`, `linkedin`, `github` and `portfolio` never move it.
      Filling an empty field never lowers the score. */
  lemma PersonalInfoChangeTally(r: Resume, k: PersonalInfoForm.Key, value: string)
    ensures var changed := App.HandlePersonalInfoChange(r, PersonalInfoForm.HandleChange(r.personalInfo, k, value));
            && Total(changed) == Total(r)
            && (PersonalTracked(k) ==>
                  Filled(changed) + Present(PersonalInfoForm.Get(r.personalInfo, k)) == Filled(r) + Present(value))
            && (!PersonalTracked(k) ==> Filled(changed) == Filled(r))
            && (PersonalInfoForm.Get(r.personalInfo, k) == "" ==> Score(r) <= Score(changed))
  {
    var before := PersonalRequired(r.personalInfo);
    var after := PersonalRequired(PersonalInfoForm.HandleChange(r.personalInfo, k, value));
    match k {
      case Name =>
        assert after == before[0 := value];
        CountPresentUpdate(before, 0, value);
      case Email =>
        assert after == before[1 := value];
        CountPresentUpdate(before, 1, value);
      case Phone =>
        assert after == before[2 := value];
        CountPresentUpdate(before, 2, value);
      case Address =>
        assert after == before[3 := value];
        CountPresentUpdate(before, 3, value);
      case _ =>
        assert after == before;
    }
    var changed := App.HandlePersonalInfoChange(r, PersonalInfoForm.HandleChange(r.personalInfo, k, value));
    if PersonalInfoForm.Get(r.personalInfo, k) == "" {
      PercentMonotoneInFilled(Filled(r), Filled(changed), Total(r));
    }
  }

  /** A summary change moves `filled` by at most one; filling an empty
      summary never lowers the score. */
  lemma SummaryChangeTally(r: Resume, value: string)
    ensures var changed := App.HandleSummaryChange(r, value);
            && Total(changed) == Total(r)
            && Filled(changed) + Present(r.summary) == Filled(r) + Present(value)
            && (r.summary == "" ==> Score(r) <= Score(changed))
  {
    var changed := App.HandleSummaryChange(r, value);
    if r.summary == "" {
      PercentMonotoneInFilled(Filled(r), Filled(changed), Total(r));
    }
  }

  /** Replacing one education entry changes the sum by the difference of the
      two entries' counts. */
  lemma {:induction false} EducationFilledUpdate(education: seq<Education>, i: nat, e: Education)
    requires i < |education|
    ensures EducationFilled(education[i := e]) + CountPresent(EducationRequired(education[i]))
            == EducationFilled(education) + CountPresent(EducationRequired(e))
  {
    var n := |education|;
    if i < n - 1 {
      assert education[i := e][..n - 1] == education[..n - 1][i := e];
      EducationFilledUpdate(education[..n - 1], i, e);
    } else {
      assert education[i := e][..n - 1] == education[..n - 1];
    }
  }

  /** Replacing one experience entry changes the sum by the difference of the
      two entries' counts. */
  lemma {:induction false} ExperienceFilledUpdate(experience: seq<Experience>, i: nat, e: Experience)
    requires i < |experience|
    ensures ExperienceFilled(experience[i := e]) + CountPresent(ExperienceRequired(experience[i]))
            == ExperienceFilled(experience) + CountPresent(ExperienceRequired(e))
  {
    var n := |experience|;
    if i < n - 1 {
      assert experience[i := e][..n - 1] == experience[..n - 1][i := e];
      ExperienceFilledUpdate(experience[..n - 1], i, e);
    } else {
      assert experience[i := e][..n - 1] == experience[..n - 1];
    }
  }

  /** The education fields `requiredEduFields` names: all but `gpa`. */
  predicate EducationTracked(k: EducationForm.Key)
  {
    !k.Gpa?
  }

  /** Overriding one field of an education entry moves its count by what the
      new value adds minus what the old one did, for a tracked field. */
  lemma EducationEntryTally(e: Education, k: EducationForm.Key, value: string)
    ensures var before, after := EducationRequired(e), EducationRequired(EducationForm.Set(e, k, value));
            && (EducationTracked(k) ==>
                  CountPresent(after) + Present(EducationForm.Get(e, k)) == CountPresent(before) + Present(value))
            && (!EducationTracked(k) ==> CountPresent(after) == CountPresent(before))
  {
    var before, after := EducationRequired(e), EducationRequired(EducationForm.Set(e, k, value));
    if k.Gpa? {
      assert after == before;
    } else {
      var slot := match k
        case Institution => 0
        case Degree => 1
        case FieldOfStudy => 2
        case StartDate => 3
        case _ => 4;
      assert after == before[slot := value];
      CountPresentUpdate(before, slot, value);
    }
  }

  /** An education field change leaves `total` alone and moves `filled` by
      what the new value adds minus what the old one did; `gpa` never moves
      it. Filling an empty field never lowers the score. */
  lemma EducationChangeTally(r: Resume, i: nat, k: EducationForm.Key, value: string)
    requires i < |r.education|
    ensures var changed := App.HandleEducationChange(r, EducationForm.HandleChange(r.education, i, k, value));
            && Total(changed) == Total(r)
            && (EducationTracked(k) ==>
                  Filled(changed) + Present(EducationForm.Get(r.education[i], k)) == Filled(r) + Present(value))
            && (!EducationTracked(k) ==> Filled(changed) == Filled(r))
            && (EducationForm.Get(r.education[i], k) == "" ==> Score(r) <= Score(changed))
  {
    var e' := EducationForm.Set(r.education[i], k, value);
    var changed := App.HandleEducationChange(r, r.education[i := e']);
    EducationFilledUpdate(r.education, i, e');
    EducationEntryTally(r.education[i], k, value);
    if EducationForm.Get(r.education[i], k) == "" {
      PercentMonotoneInFilled(Filled(r), Filled(changed), Total(r));
    }
  }

  /** Overriding one field of an experience entry moves its count by what the
      new value adds minus what the old one did. */
  lemma ExperienceEntryTally(e: Experience, k: ExperienceForm.Key, value: string)
    ensures CountPresent(ExperienceRequired(ExperienceForm.Set(e, k, value))) + Present(ExperienceForm.Get(e, k))
            == CountPresent(ExperienceRequired(e)) + Present(value)
  {
    var before, after := ExperienceRequired(e), ExperienceRequired(ExperienceForm.Set(e, k, value));
    var slot := match k
      case Company => 0
      case Position => 1
      case StartDate => 2
      case EndDate => 3
      case Description => 4;
    assert after == before[slot := value];
    CountPresentUpdate(before, slot, value);
  }

  /** An experience field change leaves `total` alone and moves `filled` by
      what the new value adds minus what the old one did. Filling an empty
      field never lowers the score. */
  lemma ExperienceChangeTally(r: Resume, i: nat, k: ExperienceForm.Key, value: string)
    requires i < |r.experience|
    ensures var changed := App.HandleExperienceChange(r, ExperienceForm.HandleChange(r.experience, i, k, value));
            && Total(changed) == Total(r)
            && Filled(changed) + Present(ExperienceForm.Get(r.experience[i], k)) == Filled(r) + Present(value)
            && (ExperienceForm.Get(r.experience[i], k) == "" ==> Score(r) <= Score(changed))
  {
    var e' := ExperienceForm.Set(r.experience[i], k, value);
    var changed := App.HandleExperienceChange(r, r.experience[i := e']);
    ExperienceFilledUpdate(r.experience, i, e');
    ExperienceEntryTally(r.experience[i], k, value);
    if ExperienceForm.Get(r.experience[i], k) == "" {
      PercentMonotoneInFilled(Filled(r), Filled(changed), Total(r));
    }
  }

  /** Which array an experience entry holds as its achievements, and what is
      in it, never changes the score. */
  lemma AchievementsUntracked(r: Resume, i: nat, achievements: StringArray)
    requires i < |r.experience|
    ensures var changed := App.HandleExperienceChange(r, r.experience[i := r.experience[i].(achievements := achievements)]);
            Total(changed) == Total(r) && Filled(changed) == Filled(r) && Score(changed) == Score(r)
  {
    var e := r.experience[i];
    ExperienceFilledUpdate(r.experience, i, e.(achievements := achievements));
    assert ExperienceRequired(e.(achievements := achievements)) == ExperienceRequired(e);
  }

  /** No experience entry's achievements array is one of the skill arrays.
      `initialData` and the add handlers only ever create new arrays, so the
      two kinds never meet. */
  predicate AchievementsApartFromSkills(r: Resume)
  {
    forall i :: 0 <= i < |r.experience| ==> r.experience[i].achievements !in SkillArrays(r.skills)
  }

  /** Writing into entry `i`'s achievements array in place, and into no other
      array, leaves the score as it was: the score reads only the skill
      arrays, and those are apart from the achievements. */
  twostate lemma AchievementEditKeepsScore(r: Resume, i: nat)
    requires i < |r.experience| && AchievementsApartFromSkills(r)
    requires unchanged(SkillArrays(r.skills) - {r.experience[i].achievements})
    ensures Score(r) == old(Score(r))
  {
    assert SkillArrays(r.skills) - {r.experience[i].achievements} == SkillArrays(r.skills);
  }

  /** Assigning into one slot of skill category `c` in place, and into no other
      array, leaves the score as it was: the category keeps its length, and a
      category counts by its length alone. */
  twostate lemma SkillEditKeepsScore(r: Resume, c: SkillCategory)
    requires |Category(r.skills, c).elems| == |old(Category(r.skills, c).elems)|
    requires unchanged(SkillArrays(r.skills) - {Category(r.skills, c)})
    ensures Score(r) == old(Score(r))
  {
    var technical, languages, soft := r.skills.technical, r.skills.languages, r.skills.soft;
    assert |technical.elems| == |old(technical.elems)|;
    assert |languages.elems| == |old(languages.elems)|;
    assert |soft.elems| == |old(soft.elems)|;
    FilledCategoriesAll(r.skills);
    assert [Technical][..0] == [];
    assert old(FilledCategories(r.skills, [Technical])) == old(NonEmpty(technical.elems));
    assert [Technical, Languages][..1] == [Technical];
    assert old(FilledCategories(r.skills, [Technical, Languages]))
           == old(NonEmpty(technical.elems) + NonEmpty(languages.elems));
    assert AllCategories[..2] == [Technical, Languages];
    assert old(FilledCategories(r.skills, AllCategories))
           == old(NonEmpty(technical.elems) + NonEmpty(languages.elems) + NonEmpty(soft.elems));
  }

  /** `handleAchievementAdd(index)` followed by `handleExperienceChange`: the
      resume handed on is the same record, and its score is unchanged. */
  method AchievementAddKeepsScore(r: Resume, index: nat) returns (next: Resume)
    requires index < |r.experience| && AchievementsApartFromSkills(r)
    modifies r.experience[index].achievements
    ensures next == r
    ensures Score(next) == old(Score(r))
  {
    var experience := ExperienceForm.HandleAchievementAdd(r.experience, index);
    next := App.HandleExperienceChange(r, experience);
  }

  /** `handleAchievementChange(expIndex, achievementIndex)` followed by
      `handleExperienceChange`: the score is unchanged. */
  method AchievementChangeKeepsScore(r: Resume, expIndex: nat, achievementIndex: nat, value: string)
    returns (next: Resume)
    requires expIndex < |r.experience| && AchievementsApartFromSkills(r)
    requires achievementIndex < |r.experience[expIndex].achievements.elems|
    modifies r.experience[expIndex].achievements
    ensures next == r
    ensures Score(next) == old(Score(r))
  {
    var experience := ExperienceForm.HandleAchievementChange(r.experience, expIndex, achievementIndex, value);
    next := App.HandleExperienceChange(r, experience);
  }

  /** `handleAchievementRemove(expIndex, achievementIndex)` followed by
      `handleExperienceChange`: the score is unchanged. */
  method AchievementRemoveKeepsScore(r: Resume, expIndex: nat, achievementIndex: int) returns (next: Resume)
    requires expIndex < |r.experience| && AchievementsApartFromSkills(r)
    modifies r.experience[expIndex].achievements
    ensures next == r
    ensures Score(next) == old(Score(r))
  {
    var experience := ExperienceForm.HandleAchievementRemove(r.experience, expIndex, achievementIndex);
    next := App.HandleExperienceChange(r, experience);
  }

  /** `handleChange(category, index)` of the skills form followed by
      `handleSkillsChange`: the resume handed on is the same record, and its
      score is unchanged. */
  method SkillChangeKeepsScore(r: Resume, c: SkillCategory, index: nat, value: string) returns (next: Resume)
    requires index < |Category(r.skills, c).elems|
    modifies Category(r.skills, c)
    ensures next == r
    ensures Score(next) == old(Score(r))
  {
    ghost var before := Score(r);
    FilledCategoriesAll(r.skills);
    var skills := SkillsForm.HandleChange(r.skills, c, index, value);
    next := App.HandleSkillsChange(r, skills);
    FilledCategoriesAll(r.skills);
    assert Score(next) == before;
  }

  /** Replacing a skill category's array moves `filled` by whether the new
      array is non-empty minus whether the old one was, whatever strings they
      hold. Giving an empty category an entry (even `''`) never lowers the score. */
  lemma SkillsChangeTally(r: Resume, c: SkillCategory, a: StringArray)
    ensures var changed := App.HandleSkillsChange(r, WithCategory(r.skills, c, a));
            && Total(changed) == Total(r)
            && Filled(changed) + NonEmpty(Category(r.skills, c).elems) == Filled(r) + NonEmpty(a.elems)
            && (Category(r.skills, c).elems == [] ==> Score(r) <= Score(changed))
  {
    var changed := App.HandleSkillsChange(r, WithCategory(r.skills, c, a));
    FilledCategoriesAll(r.skills);
    FilledCategoriesAll(changed.skills);
    if Category(r.skills, c).elems == [] {
      PercentMonotoneInFilled(Filled(r), Filled(changed), Total(r));
    }
  }

  /** `handleAdd` of the education form: `total` grows by 5, `filled` stays,
      so the score never rises. */
  lemma AddEducationNeverRaises(r: Resume)
    ensures var added := App.HandleEducationChange(r, EducationForm.HandleAdd(r.education));
            Total(added) == Total(r) + 5 && Filled(added) == Filled(r) && Score(added) <= Score(r)
  {
    var education := EducationForm.HandleAdd(r.education);
    assert education[..|r.education|] == r.education;
    assert CountPresent(EducationRequired(education[|r.education|])) == 0;
    PercentAntitoneInTotal(Filled(r), Total(r), Total(r) + 5);
  }

  /** An experience list grown as `handleAdd` of the experience form grows it
      (one entry with empty text at the end): `total` grows by 5, `filled`
      stays, so the score never rises. */
  lemma AddExperienceNeverRaises(r: Resume, experience: seq<Experience>)
    requires |experience| == |r.experience| + 1 && experience[..|r.experience|] == r.experience
    requires forall k :: ExperienceForm.Get(experience[|r.experience|], k) == ""
    ensures var added := App.HandleExperienceChange(r, experience);
            Total(added) == Total(r) + 5 && Filled(added) == Filled(r) && Score(added) <= Score(r)
  {
    var e := experience[|r.experience|];
    assert ExperienceForm.Get(e, ExperienceForm.Company) == "" && ExperienceForm.Get(e, ExperienceForm.Position) == "";
    assert ExperienceForm.Get(e, ExperienceForm.StartDate) == "" && ExperienceForm.Get(e, ExperienceForm.EndDate) == "";
    assert ExperienceForm.Get(e, ExperienceForm.Description) == "";
    assert CountPresent(ExperienceRequired(e)) == 0;
    PercentAntitoneInTotal(Filled(r), Total(r), Total(r) + 5);
  }

  /** The percentage of a complete resume is 100; with five more empty
      required fields it drops below 100 exactly while `total < 995`. */
  lemma {:induction false} GrownCompletePercent(t: nat)
    requires t > 0
    ensures Percent(t, t) == 100
    ensures t < 995 ==> Percent(t, t + 5) < 100
    ensures t >= 995 ==> Percent(t, t + 5) == 100
  {
    QuotientIsLargest(100, 200 * t + t, 2 * t);
    var a, b := 200 * t + (t + 5), 2 * (t + 5);
    if t < 995 {
      var q := a / b;
      assert q * b <= a < 100 * b;
      if q >= 100 {
        MultiplyMonotone(100, q, b);
        assert false;
      }
    } else {
      QuotientIsLargest(100, a, b);
    }
  }

  /** A complete resume scores 100; adding an empty education entry drops it
      below 100 as long as fewer than 995 fields are tracked. */
  lemma AddingEntryLowersCompleteScore(r: Resume)
    requires Filled(r) == Total(r) < 995
    ensures var added := App.HandleEducationChange(r, EducationForm.HandleAdd(r.education));
            Score(r) == 100 && Score(added) < 100
  {
    AddEducationNeverRaises(r);
    GrownCompletePercent(Total(r));
  }

  /** A complete resume scores 100; adding an empty experience entry drops it
      below 100 as long as fewer than 995 fields are tracked. */
  lemma AddingExperienceLowersCompleteScore(r: Resume, experience: seq<Experience>)
    requires |experience| == |r.experience| + 1 && experience[..|r.experience|] == r.experience
    requires forall k :: ExperienceForm.Get(experience[|r.experience|], k) == ""
    requires Filled(r) == Total(r) < 995
    ensures var added := App.HandleExperienceChange(r, experience);
            Score(r) == 100 && Score(added) < 100
  {
    AddExperienceNeverRaises(r, experience);
    GrownCompletePercent(Total(r));
  }

  /** From 995 tracked fields on, a complete resume with an added empty
      experience entry keeps its score of 100. */
  lemma AddingExperienceToLargeCompleteResumeKeeps100(r: Resume, experience: seq<Experience>)
    requires |experience| == |r.experience| + 1 && experience[..|r.experience|] == r.experience
    requires forall k :: ExperienceForm.Get(experience[|r.experience|], k) == ""
    requires Filled(r) == Total(r) && Total(r) >= 995
    ensures var added := App.HandleExperienceChange(r, experience);
            Score(r) == 100 && Score(added) == 100
  {
    AddExperienceNeverRaises(r, experience);
    GrownCompletePercent(Total(r));
  }

  /** From 995 tracked fields on, the rounding hides the new empty entry: a
      complete resume keeps its score of 100. */
  lemma AddingEntryToLargeCompleteResumeKeeps100(r: Resume)
    requires Filled(r) == Total(r) && Total(r) >= 995
    ensures var added := App.HandleEducationChange(r, EducationForm.HandleAdd(r.education));
            Score(r) == 100 && Score(added) == 100
  {
    AddEducationNeverRaises(r);
    GrownCompletePercent(Total(r));
  }

  /** Certifications and awards are not tracked: replacing them leaves the score. */
  lemma CertificationsAndAwardsUntracked(r: Resume, certifications: seq<Certification>, awards: seq<Award>)
    ensures Score(App.HandleCertificationsChange(r, certifications)) == Score(r)
    ensures Score(App.HandleAwardsChange(r, awards)) == Score(r)
  {
    var certified := App.HandleCertificationsChange(r, certifications);
    assert Filled(certified) == Filled(r) && Total(certified) == Total(r);
    var awarded := App.HandleAwardsChange(r, awards);
    assert Filled(awarded) == Filled(r) && Total(awarded) == Total(r);
  }
}
