/** Sequence operations the section forms share: removing by position with
    `Array.prototype.filter`, and removing one element with `splice`. */
module ListOps {

  /** `s.filter((_, i) => i !== index)`: keeps, in order, every element whose
      position differs from `index`. An index outside the list matches no
      position, so nothing is dropped. */
  function WithoutIndex<T>(s: seq<T>, index: int): (r: seq<T>)
    ensures 0 <= index < |s| ==> r == s[..index] + s[index + 1..]
    ensures !(0 <= index < |s|) ==> r == s
    decreases |s|
  {
    if |s| == 0 then []
    else
      var rest := WithoutIndex(s[1..], index - 1);
      if index == 0 then
        rest
      else
        assert 0 < index < |s| ==> s[..index] == [s[0]] + s[1..][..index - 1];
        assert 0 < index < |s| ==> s[index + 1..] == s[1..][index..];
        [s[0]] + rest
  }

  /** Elements that survive `WithoutIndex` keep their relative order: the ones
      before `index` stay where they were and the ones after move down by one. */
  lemma {:induction false} WithoutIndexAt<T>(s: seq<T>, index: int, k: int)
    requires 0 <= index < |s| && 0 <= k < |s| - 1
    ensures WithoutIndex(s, index)[k] == if k < index then s[k] else s[k + 1]
  {
  }

  /** Appending an element and then removing the last position gives the list back. */
  lemma {:induction false} RemoveAfterAppend<T>(s: seq<T>, x: T)
    ensures WithoutIndex(s + [x], |s|) == s
  {
    assert (s + [x])[..|s|] == s;
  }

  /** Where `splice(start, 1)` begins on an array of length `len`: a negative
      start counts back from the end and is clamped at 0, a start past the end
      is clamped at `len` (and then nothing is deleted). */
  function SpliceStart(len: nat, start: int): (k: nat)
    ensures k <= len
  {
    if start < 0 then (if len + start < 0 then 0 else len + start)
    else if start < len then start
    else len
  }

  /** `s.splice(start, 1)` on the array holding `s`: the contents afterwards.
      It agrees with removal by position for every non-negative start, and a
      negative start removes the element that many places from the end. */
  function SpliceOne<T>(s: seq<T>, start: int): (r: seq<T>)
    ensures 0 <= start ==> r == WithoutIndex(s, start)
    ensures -|s| <= start < 0 ==> r == WithoutIndex(s, |s| + start)
    ensures start < -|s| ==> r == WithoutIndex(s, 0)
  {
    var k := SpliceStart(|s|, start);
    if k < |s| then s[..k] + s[k + 1..] else s
  }
}
