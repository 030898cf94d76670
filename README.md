# Resume editor: data model, section handlers and completeness score

This project models the state logic of a browser resume editor. The editor keeps
one resume record, which holds:

- personal information;
- a summary;
- lists of education and experience entries, certifications and awards;
- three skill categories.

The personal-info form has one change handler. The education, experience,
certifications, awards and skills forms have add, remove and change handlers,
and the experience form also has three handlers for an entry's achievements.
The handlers build the section's new value and hand it to a section handler in `App.tsx`, which replaces that one
field of the record. A completeness score shows how far the resume is filled
out, and an `isExporting` flag is set while an export runs.

Modules:

- `ResumeTypes`: the record. The arrays that some handlers change in place are
  objects of class `StringArray`: the skill categories and the achievements of an
  experience entry. This lets the model state what two entries or two skill
  objects sharing one array means. Everything else is a value.
- `ListOps`: removal by position, as `filter((_, i) => i !== index)`, and
  JavaScript's `splice(start, 1)`, including negative and too-large starts.
- `PersonalInfoForm`, `EducationForm`, `CertificationsForm`, `AwardsForm`,
  `ExperienceForm`, `SkillsForm`: the form handlers.
  - Handlers that build a new value from values are functions.
  - Handlers that build a new value holding a new array are methods, because
    they allocate that array. These are `ExperienceForm.HandleAdd`,
    `SkillsForm.HandleAdd` and `SkillsForm.HandleRemove`.
  - Handlers that write into a shared array are methods with `modifies` clauses
    that name that array. These are the three achievement handlers and the
    skills change handler.
- `App`: the empty default resume, the section handlers, and a class `App` that
  holds `resumeData` and `isExporting`, with `handleExport`.
- `Completeness`: the score.
  - `ProgressPercentage` is the imperative accumulation App.tsx performs. It is
    proved equal to the specification function `Score`, which is built from
    `Filled` and `Total`.
  - Lemmas prove the score's meaning, its scenarios, and how each handler moves
    the two counters.

`Math.round(filled / total * 100)` is written in integers as
`(200 * filled + t) / (2 * t)`, with `t = max(total, 1)`. `ScoreIsRoundedRatio`
proves that this is the integer nearest to `100 * filled / total`, with halves
rounded up.

The source computes in binary floating point, and the integer formula matches it.
Here is why:

- `total` is `8 + 5n`, so it is never a multiple of 5.
- An exact half means `200 * filled = (2k + 1) * total` for some integer `k`.
  Since 5 does not divide `total`, this means `8 * filled = m * total` for an
  odd `m`. So `filled / total` is `m / 8`, which binary floating point holds
  exactly, and so is its product with 100.
- Every other quotient is at least `1 / (2 * total)` away from a half. That gap
  is far larger than the floating-point error for any total below 10^12.

The cap at 100 never acts, because `filled <= total` always holds.

Adding an empty education or experience entry to a complete resume lowers its
score only while fewer than 995 fields are tracked. From `total = 995` on, the
ratio `total / (total + 5)` still rounds to 100.
`AddingEntryLowersCompleteScore` and `AddingEntryToLargeCompleteResumeKeeps100`
prove the two cases for an education entry, and
`AddingExperienceLowersCompleteScore` and
`AddingExperienceToLargeCompleteResumeKeeps100` prove them for an experience
entry.

## Model

| member | source | states |
|---|---|---|
| ListOps.WithoutIndex | EducationForm.tsx:19 | removal by position keeps every element except the one at `index`, in order; an index outside the list leaves it equal |
| ListOps.WithoutIndexAt | ExperienceForm.tsx:19 | after removing position `index`, the elements before it keep their place and the elements after it move down by one |
| ListOps.RemoveAfterAppend | EducationForm.tsx:11-20 | removing the last position after an append gives the list back |
| ListOps.SpliceOne | ExperienceForm.tsx:46 | `splice(start, 1)` removes position `start` for a non-negative start (nothing when it is past the end) and position `len + start` for a negative one |
| ResumeTypes.StringArray.constructor | App.tsx:28-30 | a new array holds exactly its initial contents |
| ResumeTypes.StringArray.Push | ExperienceForm.tsx:32 | `push` appends exactly one element to the array in place |
| ResumeTypes.StringArray.Assign | SkillsForm.tsx:29 | an in-range index assignment replaces one element and keeps the length |
| ResumeTypes.StringArray.SpliceOne | ExperienceForm.tsx:46 | the array afterwards is `SpliceOne` of its old contents |
| ResumeTypes.WithCategory | SkillsForm.tsx:12-15 | `{ ...skills, [category]: a }` has `a` under that category and the other two arrays unchanged |
| PersonalInfoForm.HandleChange | PersonalInfoForm.tsx:19-21 | the changed field holds the new value and every other field is unchanged |
| PersonalInfoForm.LastChangeWins | PersonalInfoForm.tsx:20 | of two successive changes to one field, the second value wins |
| PersonalInfoForm.ChangeToCurrentValue | PersonalInfoForm.tsx:20 | writing back a field's current value gives an equal record |
| PersonalInfoForm.ChangesCommute | PersonalInfoForm.tsx:20 | changes to two different fields commute |
| EducationForm.Set | EducationForm.tsx:26 | the entry copy holds the new value under the key and the old values under every other key |
| EducationForm.HandleAdd | EducationForm.tsx:11-16 | length grows by one, the earlier entries are unchanged, and all six fields of the new last entry are empty |
| EducationForm.HandleRemove | EducationForm.tsx:18-20 | an in-range index deletes exactly that entry with the order of the rest kept; an out-of-range index leaves the list equal |
| EducationForm.HandleChange | EducationForm.tsx:22-28 | same length; entry `index` has the new value under the key and its old values elsewhere; every other entry is unchanged |
| EducationForm.RemoveUndoesAdd | EducationForm.tsx:11-20 | removing the entry just added gives the list back |
| EducationForm.ChangeBackRestores | EducationForm.tsx:22-28 | changing a field back to its previous value gives the original list |
| CertificationsForm.Set | CertificationsForm.tsx:26 | the entry copy holds the new value under the key and the old values under every other key |
| CertificationsForm.HandleAdd | CertificationsForm.tsx:14-16 | length grows by one, the earlier entries are unchanged, and all four fields of the new last entry are empty |
| CertificationsForm.HandleRemove | CertificationsForm.tsx:18-20 | an in-range index deletes exactly that entry with the order of the rest kept; an out-of-range index leaves the list equal |
| CertificationsForm.HandleChange | CertificationsForm.tsx:22-28 | same length; only the chosen field of entry `index` changes |
| CertificationsForm.RemoveUndoesAdd | CertificationsForm.tsx:14-20 | removing the entry just added gives the list back |
| CertificationsForm.ChangeBackRestores | CertificationsForm.tsx:22-28 | changing a field back to its previous value gives the original list |
| AwardsForm.Set | AwardsForm.tsx:23 | the entry copy holds the new value under the key and the old values under every other key |
| AwardsForm.HandleAdd | AwardsForm.tsx:11-13 | length grows by one, the earlier entries are unchanged, and all four fields of the new last entry are empty |
| AwardsForm.HandleRemove | AwardsForm.tsx:15-17 | an in-range index deletes exactly that entry with the order of the rest kept; an out-of-range index leaves the list equal |
| AwardsForm.HandleChange | AwardsForm.tsx:19-25 | same length; only the chosen field of entry `index` changes |
| AwardsForm.RemoveUndoesAdd | AwardsForm.tsx:11-17 | removing the entry just added gives the list back |
| AwardsForm.ChangeBackRestores | AwardsForm.tsx:19-25 | changing a field back to its previous value gives the original list |
| ExperienceForm.Set | ExperienceForm.tsx:26 | the entry copy holds the new value under the key and the old values elsewhere, and shares the old entry's achievements array |
| ExperienceForm.HandleAdd | ExperienceForm.tsx:11-16 | length grows by one; the earlier entries are unchanged; the new entry has empty text and a new, empty achievements array; no two entries share an array if none did before |
| ExperienceForm.HandleRemove | ExperienceForm.tsx:18-20 | an in-range index deletes exactly that entry with the order of the rest kept; an out-of-range index leaves the list equal |
| ExperienceForm.HandleChange | ExperienceForm.tsx:22-28 | same length; only the chosen field of entry `index` changes, and that entry keeps the same achievements array |
| ExperienceForm.RemoveKeepsAchievementsDistinct | ExperienceForm.tsx:18-20 | removal keeps every entry's achievements array its own |
| ExperienceForm.ChangeKeepsAchievementsDistinct | ExperienceForm.tsx:22-28 | a field change keeps every entry's achievements array its own |
| ExperienceForm.ChangeBackRestores | ExperienceForm.tsx:22-28 | changing a field back to its previous value gives the original list |
| ExperienceForm.HandleAchievementAdd | ExperienceForm.tsx:30-34 | the list handed on is the given list; entry `index`'s array gains one `''` at the end in place; every array not shared with it is unchanged |
| ExperienceForm.HandleAchievementChange | ExperienceForm.tsx:36-42 | the list handed on is the given list; one achievement of entry `expIndex` is replaced in place and the length is kept; every array not shared with it is unchanged |
| ExperienceForm.HandleAchievementRemove | ExperienceForm.tsx:44-48 | the list handed on is the given list; entry `expIndex`'s array loses the element `splice` removes (for a non-negative index, exactly that position, and nothing when it is out of range); every array not shared with it is unchanged |
| SkillsForm.HandleAdd | SkillsForm.tsx:11-16 | the category gets a new array holding the old contents plus one `''`, even when `''` is already present; the other categories are unchanged |
| SkillsForm.HandleRemove | SkillsForm.tsx:18-23 | the category gets a new array with exactly position `index` removed, or equal contents when it is out of range; the other categories are unchanged |
| SkillsForm.HandleChange | SkillsForm.tsx:25-31 | the object handed on refers to the same arrays; the category array has one element replaced in place and keeps its length; arrays not shared with it are unchanged |
| App.InitialData | App.tsx:13-34 | the default resume: every text empty, every list empty, three separate, new, empty skill arrays |
| App.HandlePersonalInfoChange | App.tsx:64-66 | the resume with `personalInfo` replaced and every other field unchanged |
| App.HandleSummaryChange | App.tsx:68-70 | the resume with `summary` replaced and every other field unchanged |
| App.HandleEducationChange | App.tsx:72-74 | the resume with `education` replaced and every other field unchanged |
| App.HandleExperienceChange | App.tsx:76-78 | the resume with `experience` replaced and every other field unchanged |
| App.HandleSkillsChange | App.tsx:80-82 | the resume with `skills` replaced and every other field unchanged |
| App.HandleCertificationsChange | App.tsx:84-86 | the resume with `certifications` replaced and every other field unchanged |
| App.HandleAwardsChange | App.tsx:88-90 | the resume with `awards` replaced and every other field unchanged |
| App.Apply | App.tsx:64-90 | the section a change names holds the change's value afterwards, and every other top-level field is unchanged |
| App.LastChangeWins | App.tsx:64-90 | of two updates to the same section, the later one wins |
| App.ChangesCommute | App.tsx:64-90 | updates to two different sections commute |
| App.App.constructor | App.tsx:37-42 | the state starts from the stored resume when there is one, and from the default resume otherwise; no export is running |
| App.App.SetResumeData | App.tsx:64-90 | `setResumeData` with a section updater puts the new value into that section and changes no other section of the state |
| App.App.RunEncoder | App.tsx:95-99 | the encoder runs only while `isExporting` is set |
| App.App.HandleExport | App.tsx:92-105 | `isExporting` is false afterwards whether or not the encoder threw, and the resume is unchanged |
| Completeness.Present | App.tsx:114-118 | `Boolean(s)` and `summary ? 1 : 0` as a count: at most 1, and 1 exactly when the string is non-empty |
| Completeness.Filled | App.tsx:109-140 | the final `filled` counter never exceeds the final `total` counter |
| Completeness.Total | App.tsx:108-137 | the final `total` counter is at least 8 and is 3 mod 5, so never a multiple of 5 |
| Completeness.CountPresent | App.tsx:113-115 | the number of non-empty values is at most their count; it is 0 exactly when all are empty and the full count exactly when none is |
| Completeness.EducationFilled | App.tsx:122-126 | the filled required education fields number at most 5 per entry |
| Completeness.ExperienceFilled | App.tsx:130-134 | the filled required experience fields number at most 5 per entry |
| Completeness.FilledCategories | App.tsx:138-140 | at most one filled category per category looked at |
| Completeness.RoundingBounds | App.tsx:142 | the rounding quotient lies within one half of `100 * filled / t`, written without division, and is at most 100 when `filled <= t` |
| Completeness.Percent | App.tsx:142 | the result is in `[0, 100]`; when `0 < total` and `filled <= total`, `2 * p * total` lies within `total` of `200 * filled` |
| Completeness.Score | App.tsx:107-143 | the score is an integer in `[0, 100]` |
| Completeness.CountNonEmpty | App.tsx:113-115 | the loop counts exactly the non-empty values |
| Completeness.ReduceEducation | App.tsx:122-126 | the `reduce` sums the filled required fields of every education entry |
| Completeness.ReduceExperience | App.tsx:130-134 | the `reduce` sums the filled required fields of every experience entry |
| Completeness.CountFilledCategories | App.tsx:136-140 | the loop counts the categories whose list is non-empty |
| Completeness.ProgressPercentage | App.tsx:107-143 | the accumulated `total` and `filled` give exactly `Score`, a value in `[0, 100]` |
| Completeness.CountPresentUpdate | App.tsx:113-115 | replacing one value moves the count by what the new value adds minus what the old one did |
| Completeness.FilledCategoriesAll | App.tsx:136-140 | each of the three categories counts 1 exactly when its list is non-empty, whatever its strings (`['']` counts) |
| Completeness.PercentMonotoneInFilled | App.tsx:142 | more filled fields over the same total never give a lower percentage |
| Completeness.PercentAntitoneInTotal | App.tsx:142 | a larger total with the same filled count never gives a higher percentage |
| Completeness.NearestFromBounds | App.tsx:142 | the division-free bounds put the percentage within one half of the real ratio `100 * f / t` |
| Completeness.ScoreIsRoundedRatio | App.tsx:108-142 | `filled <= total`, and `total` is 8 plus 5 per education and per experience entry, and the score is the nearest integer to `100 * filled / total`, with a half rounded up |
| Completeness.InitialDataScoresZero | App.tsx:13-34 | the default resume has 0 of 8 fields filled and scores 0 |
| Completeness.OnlyNameScoresThirteen | App.tsx:111-142 | the default resume with only a name has 1 of 8 filled and scores 13 |
| Completeness.PersonalInfoChangeTally | App.tsx:111-115 | a personal-info change moves `filled` by the difference for name, email, phone and address only; filling an empty field never lowers the score |
| Completeness.SummaryChangeTally | App.tsx:117-118 | a summary change moves `filled` by the difference; filling an empty summary never lowers the score |
| Completeness.EducationFilledUpdate | App.tsx:122-126 | replacing one education entry moves the sum by the difference of the two entries' counts |
| Completeness.ExperienceFilledUpdate | App.tsx:130-134 | replacing one experience entry moves the sum by the difference of the two entries' counts |
| Completeness.EducationEntryTally | App.tsx:120-125 | changing a tracked field of an entry moves its count by the difference; changing `gpa` does not move it |
| Completeness.EducationChangeTally | App.tsx:120-126 | an education field change keeps `total` and moves `filled` by the difference, except for `gpa`; filling an empty field never lowers the score |
| Completeness.ExperienceEntryTally | App.tsx:128-133 | changing any text field of an entry moves its count by the difference |
| Completeness.ExperienceChangeTally | App.tsx:128-134 | an experience field change keeps `total` and moves `filled` by the difference; filling an empty field never lowers the score |
| Completeness.AchievementsUntracked | App.tsx:128-134 | an entry's achievements never change `filled`, `total` or the score |
| Completeness.AchievementEditKeepsScore | App.tsx:107-143 | writing in place into one entry's achievements array, and into no other array, leaves the score unchanged when no achievements array is a skill array |
| Completeness.SkillEditKeepsScore | App.tsx:136-140 | writing in place into one skill category array while keeping its length, and into no other array, leaves the score unchanged |
| Completeness.AchievementAddKeepsScore | ExperienceForm.tsx:30-34 | `handleAchievementAdd` then `handleExperienceChange` hands on the same record, and its score is unchanged |
| Completeness.AchievementChangeKeepsScore | ExperienceForm.tsx:36-42 | `handleAchievementChange` then `handleExperienceChange` hands on the same record, and its score is unchanged |
| Completeness.AchievementRemoveKeepsScore | ExperienceForm.tsx:44-48 | `handleAchievementRemove` then `handleExperienceChange` hands on the same record, and its score is unchanged |
| Completeness.SkillChangeKeepsScore | SkillsForm.tsx:25-31 | the skills form's `handleChange` then `handleSkillsChange` hands on the same record, and its score is unchanged |
| Completeness.SkillsChangeTally | App.tsx:136-140 | a new category array moves `filled` by whether it is non-empty minus whether the old one was; giving an empty category any entry never lowers the score |
| Completeness.AddEducationNeverRaises | App.tsx:120-126 | appending the empty education entry adds 5 to `total`, keeps `filled`, and never raises the score |
| Completeness.AddExperienceNeverRaises | App.tsx:128-134 | appending an experience entry with empty text adds 5 to `total`, keeps `filled`, and never raises the score |
| Completeness.GrownCompletePercent | App.tsx:142 | `t` of `t` rounds to 100; `t` of `t + 5` rounds below 100 exactly when `t < 995` |
| Completeness.AddingEntryLowersCompleteScore | App.tsx:120-142 | a complete resume scores 100, and an added empty entry drops it below 100 while `total < 995` |
| Completeness.AddingEntryToLargeCompleteResumeKeeps100 | App.tsx:120-142 | from `total = 995` on, a complete resume with an added empty entry still scores 100 |
| Completeness.AddingExperienceLowersCompleteScore | App.tsx:128-142 | a complete resume scores 100, and an added empty experience entry drops it below 100 while `total < 995` |
| Completeness.AddingExperienceToLargeCompleteResumeKeeps100 | App.tsx:128-142 | from `total = 995` on, a complete resume with an added empty experience entry still scores 100 |
| Completeness.CertificationsAndAwardsUntracked | App.tsx:107-143 | replacing certifications or awards never changes the score |

## Left out

- The PDF and Word encoders (`exportToPDF`, `exportToWord`) call document
  libraries whose code is not part of this model. `App.App.RunEncoder` stands
  in for them, with a parameter that says whether the call threw.
  `RunEncoder` has no `modifies` clause, so the model assumes the encoders never
  write into the resume arrays they are handed. The
  `console.error` logging is not modelled.
- Loading from local storage and `JSON.parse` are browser I/O. The parsed value
  is the constructor's `saved` parameter. A missing or empty entry is `None`.
- The debounced save (`setTimeout`, `clearTimeout`, `localStorage.setItem`), the
  `saveStatus` and `lastSaved` state, and the clock are timers and I/O.
- The sidebar, `activeSection`, window width handling and all rendering are UI
  only. SummaryForm.tsx only forwards the textarea value to
  `handleSummaryChange`, which is modelled.
- React batches state updates and the export is asynchronous. The model runs
  `handleExport` as one sequential call on one state.
- EducationForm.HandleChange, CertificationsForm.HandleChange and
  AwardsForm.HandleChange require an index inside the list. In JavaScript, a
  write past the end would grow a sparse array. The forms only pass indices of
  rendered entries.
- ExperienceForm.HandleChange requires an index inside the list, for the same
  reason.
- ExperienceForm.HandleAchievementChange and SkillsForm.HandleChange require an
  index inside the array, for the same reason.
- ExperienceForm.HandleAchievementAdd, ExperienceForm.HandleAchievementChange
  and ExperienceForm.HandleAchievementRemove require an experience index inside
  the list. In JavaScript an index outside it throws a `TypeError`.
- Optional personal fields (`linkedin`, `github`, `portfolio`) are the empty
  string when absent. The score only tests strings for emptiness, so absent and
  `''` behave alike there.
- Completeness.ProgressPercentage computes the rounding in integers, not in
  binary floating point. The argument above shows the two agree for every
  `total` below 10^12. Larger totals are not covered.
- Completeness.AchievementAddKeepsScore, Completeness.AchievementChangeKeepsScore
  and Completeness.AchievementRemoveKeepsScore require that no achievements array
  is also a skill array. In the editor this holds because `initialData` and the
  add handlers only ever create new arrays. The model does not prove that every
  reachable state keeps this property.
- Indices are integers. The non-integer and `NaN` numbers a JavaScript caller
  could pass are not modelled.
