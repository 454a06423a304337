/**
 * String operations the client pages use for searching: `toLowerCase` and
 * `includes`. Case folding is modelled on ASCII letters only.
 */
module Text {

  /** `c.toLowerCase()` for one character, ASCII letters only. */
  function LowerChar(c: char): char {
    if 'A' <= c <= 'Z' then (c as int + 32) as char else c
  }

  predicate IsUpper(c: char) {
    'A' <= c <= 'Z'
  }

  /** `s.toLowerCase()`: every character folded, position by position. */
  function Lower(s: string): (r: string)
    ensures |r| == |s|
    ensures forall i :: 0 <= i < |s| ==> r[i] == LowerChar(s[i])
    ensures forall i :: 0 <= i < |r| ==> !IsUpper(r[i])
  {
    if s == [] then [] else [LowerChar(s[0])] + Lower(s[1..])
  }

  /** Folding twice is folding once. */
  lemma {:induction false} LowerIdempotent(s: string)
    ensures Lower(Lower(s)) == Lower(s)
  {
    var once := Lower(s);
    var twice := Lower(once);
    assert |twice| == |once|;
    forall i | 0 <= i < |once|
      ensures twice[i] == once[i]
    {
      assert !IsUpper(once[i]);
    }
  }

  /** `t` occurs in `s` starting at index `i`. */
  ghost predicate OccursAt(s: string, t: string, i: int) {
    0 <= i <= |s| && t <= s[i..]
  }

  /** `t` occurs somewhere in `s`. */
  ghost predicate Occurs(s: string, t: string) {
    exists i :: OccursAt(s, t, i)
  }

  /** An occurrence in the tail of `s` is an occurrence in `s`, one position later. */
  lemma OccursShift(s: string, t: string, j: int)
    requires s != [] && 0 <= j
    ensures OccursAt(s[1..], t, j) <==> OccursAt(s, t, j + 1)
  {
    if j <= |s| - 1 {
      assert s[1..][j..] == s[j + 1..];
    }
  }

  /** When `t` is not a prefix of `s`, it occurs in `s` exactly when it occurs in the tail of `s`. */
  lemma OccursInTail(s: string, t: string)
    requires s != [] && !(t <= s)
    ensures Occurs(s, t) <==> Occurs(s[1..], t)
  {
    if j :| OccursAt(s[1..], t, j) {
      OccursShift(s, t, j);
    }
    if i :| OccursAt(s, t, i) {
      assert i != 0;
      OccursShift(s, t, i - 1);
    }
  }

  /**
   * `s.includes(t)`: try every start position from left to right. It holds
   * exactly when `t` is a contiguous piece of `s`.
   */
  function Includes(s: string, t: string): (b: bool)
    ensures b <==> Occurs(s, t)
    decreases |s|
  {
    if t <= s then
      assert OccursAt(s, t, 0);
      true
    else if s == [] then
      assert forall i :: !OccursAt(s, t, i);
      false
    else
      OccursInTail(s, t);
      Includes(s[1..], t)
  }

  /** The empty search term is included in every string. */
  lemma EmptyIncluded(s: string)
    ensures Includes(s, "")
  {
  }
}
