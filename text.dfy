/** ASCII case conversion and small sequence facts shared by the game modules.
    JavaScript's toUpperCase/toLowerCase are modelled on the ASCII letters only:
    every name and tile the game handles is an ASCII letter. */
module Text {

  predicate IsLower(c: char) { 'a' <= c <= 'z' }

  predicate IsUpper(c: char) { 'A' <= c <= 'Z' }

  predicate IsLetter(c: char) { IsLower(c) || IsUpper(c) }

  function UpperChar(c: char): (u: char)
    ensures !IsLower(u)
    ensures IsLetter(c) <==> IsLetter(u)
    ensures !IsLower(c) ==> u == c
  {
    if IsLower(c) then (c as int - 32) as char else c
  }

  function LowerChar(c: char): (l: char)
    ensures !IsUpper(l)
    ensures IsLetter(c) <==> IsLetter(l)
    ensures !IsUpper(c) ==> l == c
  {
    if IsUpper(c) then (c as int + 32) as char else c
  }

  /** Both conversions map a character and its other-case partner to the same value. */
  lemma CaseFold(c: char)
    ensures UpperChar(LowerChar(c)) == UpperChar(c)
    ensures LowerChar(UpperChar(c)) == LowerChar(c)
  {
  }

  /** String.prototype.toUpperCase, character by character. */
  function Upper(s: string): (r: string)
    ensures |r| == |s|
    ensures forall i :: 0 <= i < |s| ==> r[i] == UpperChar(s[i])
  {
    if s == [] then [] else Upper(s[..|s| - 1]) + [UpperChar(s[|s| - 1])]
  }

  /** String.prototype.toLowerCase, character by character. */
  function Lower(s: string): (r: string)
    ensures |r| == |s|
    ensures forall i :: 0 <= i < |s| ==> r[i] == LowerChar(s[i])
  {
    if s == [] then [] else Lower(s[..|s| - 1]) + [LowerChar(s[|s| - 1])]
  }

  /** Two strings are equal when compared case-insensitively (a.toUpperCase() === b.toUpperCase()). */
  predicate SameLetters(a: string, b: string) { Upper(a) == Upper(b) }

  predicate AllLower(s: string) { forall i :: 0 <= i < |s| ==> !IsUpper(s[i]) }

  predicate AllUpper(s: string) { forall i :: 0 <= i < |s| ==> !IsLower(s[i]) }

  /** No element occurs twice: the last one does not occur before it, and the elements before
      it repeat nothing. */
  predicate NoDup<T(==)>(s: seq<T>)
  {
    |s| == 0 || (NoDup(s[..|s| - 1]) && s[|s| - 1] !in s[..|s| - 1])
  }

  /** Repeating nothing means that no two positions hold the same element. */
  lemma {:induction false} NoDupPairwise<T>(s: seq<T>)
    ensures NoDup(s) <==> forall i, j :: 0 <= i < j < |s| ==> s[i] != s[j]
  {
    if |s| > 0 {
      var front := s[..|s| - 1];
      var last := s[|s| - 1];
      NoDupPairwise(front);
      if NoDup(s) {
        forall i, j | 0 <= i < j < |s| ensures s[i] != s[j] {
          assert s[i] == front[i];
          if j < |s| - 1 {
            assert s[j] == front[j];
          }
        }
      }
      if forall i, j :: 0 <= i < j < |s| ==> s[i] != s[j] {
        forall i, j | 0 <= i < j < |front| ensures front[i] != front[j] {
          assert front[i] == s[i] && front[j] == s[j];
        }
      }
    }
  }

  /** Two positions holding the same element are a repetition. */
  lemma RepeatBreaksNoDup<T>(s: seq<T>, i: nat, j: nat)
    requires i < j < |s| && s[i] == s[j]
    ensures !NoDup(s)
  {
    NoDupPairwise(s);
  }

  /** Appending an element that is not there yet repeats nothing. */
  lemma NoDupSnoc<T>(s: seq<T>, x: T)
    requires NoDup(s) && x !in s
    ensures NoDup(s + [x])
  {
    assert (s + [x])[..|s|] == s;
  }

  /** Joining two sequences without repetitions and without common elements repeats nothing. */
  lemma NoDupAppend<T>(a: seq<T>, b: seq<T>)
    requires NoDup(a) && NoDup(b)
    requires forall k :: 0 <= k < |b| ==> b[k] !in a
    ensures NoDup(a + b)
  {
    NoDupPairwise(a);
    NoDupPairwise(b);
    NoDupPairwise(a + b);
    forall i, j | 0 <= i < j < |a + b| ensures (a + b)[i] != (a + b)[j] {
      if i < |a| && j >= |a| {
        assert (a + b)[j] == b[j - |a|];
      }
    }
  }

  function Min(a: int, b: int): int { if a <= b then a else b }

  function Max(a: int, b: int): int { if a >= b then a else b }
}
