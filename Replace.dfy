/**
  The byte substitution of the response rewrite: Go's bytes.Replace(b, old, new, -1),
  a left-to-right, non-overlapping replacement of every occurrence of a non-empty
  pattern. Bytes are modelled as characters; every literal involved is ASCII.
*/
module Replace {

  /** bytes.Replace with n = -1: scan from the left, replace a match and continue
      after it, otherwise keep one byte and continue with the next. */
  function ReplaceAll(s: seq<char>, pattern: seq<char>, replacement: seq<char>): (r: seq<char>)
    requires |pattern| > 0
    ensures |pattern| == |replacement| ==> |r| == |s|
    decreases |s|
  {
    if |s| < |pattern| then s
    else if s[..|pattern|] == pattern then replacement + ReplaceAll(s[|pattern|..], pattern, replacement)
    else [s[0]] + ReplaceAll(s[1..], pattern, replacement)
  }

  /** The literal the rewrite looks for, and what it writes instead. */
  const Pattern: string := "background"
  const Replacement: string := "Background"

  /** The rewrite applied to a response body. */
  function Capitalise(b: seq<char>): (r: seq<char>)
    ensures |r| == |b|
  {
    ReplaceAll(b, Pattern, Replacement)
  }

  /** `background` starts at index j of s. */
  predicate OccursAt(s: seq<char>, j: int)
  {
    0 <= j && j + |Pattern| <= |s| && s[j..j + |Pattern|] == Pattern
  }

  /** s contains `background` somewhere. */
  predicate Contains(s: seq<char>)
  {
    exists j | 0 <= j < |s| :: OccursAt(s, j)
  }

  /** Only the first letter of `background` is a `b`, so the pattern cannot
      overlap itself; the replacement differs from it only at index 0. */
  lemma PatternShape()
    ensures |Pattern| == |Replacement| == 10
    ensures Pattern[0] == 'b' && Replacement[0] == 'B'
    ensures forall k :: 1 <= k < 10 ==> Pattern[k] == Replacement[k] && Pattern[k] != 'b' && Pattern[k] != 'B'
  {
  }

  /** An occurrence inside a suffix is an occurrence in the whole sequence. */
  lemma OccursInSuffix(s: seq<char>, d: nat, j: int)
    requires d <= |s|
    ensures OccursAt(s[d..], j) <==> (j >= 0 && OccursAt(s, j + d))
  {
  }

  /** An occurrence survives putting text before or after it. */
  lemma OccursInConcat(a: seq<char>, b: seq<char>, j: int)
    ensures OccursAt(a, j) ==> OccursAt(a + b, j)
    ensures OccursAt(b, j) ==> OccursAt(a + b, |a| + j)
  {
  }

  /** The rewrite, characterised position by position: the result has the length
      of the input and differs from it exactly at the first byte of each
      occurrence of `background` in the input, where `b` has become `B`. */
  lemma {:induction false} CapitaliseAt(s: seq<char>)
    ensures |Capitalise(s)| == |s|
    ensures forall j :: 0 <= j < |s| ==> Capitalise(s)[j] == if OccursAt(s, j) then 'B' else s[j]
  {
    PatternShape();
    var r := Capitalise(s);
    if |s| < |Pattern| {
    } else if s[..|Pattern|] == Pattern {
      var t := s[10..];
      CapitaliseAt(t);
      assert r == Replacement + Capitalise(t);
      forall j | 0 <= j < |s| ensures r[j] == if OccursAt(s, j) then 'B' else s[j] {
        if j == 0 {
          assert OccursAt(s, 0);
        } else if j < 10 {
          assert s[j] == Pattern[j];
        } else {
          OccursInSuffix(s, 10, j - 10);
        }
      }
    } else {
      var t := s[1..];
      CapitaliseAt(t);
      assert r == [s[0]] + Capitalise(t);
      forall j | 0 <= j < |s| ensures r[j] == if OccursAt(s, j) then 'B' else s[j] {
        if j == 0 {
          assert !OccursAt(s, 0);
        } else {
          OccursInSuffix(s, 1, j - 1);
        }
      }
    }
  }

  /** After the rewrite no `background` is left in the body. */
  lemma NoPatternRemains(s: seq<char>)
    ensures !Contains(Capitalise(s))
  {
    PatternShape();
    CapitaliseAt(s);
    var r := Capitalise(s);
    if Contains(r) {
      var i :| 0 <= i < |r| && OccursAt(r, i);
      assert i + 10 <= |s|;
      forall k | 0 <= k < 10 ensures s[i + k] == Pattern[k] {
        assert r[i + k] == r[i..i + 10][k] == Pattern[k];
      }
    }
  }

  /** The rewrite changes a body exactly when it contains `background`. */
  lemma CapitaliseIdentityIff(s: seq<char>)
    ensures Capitalise(s) == s <==> !Contains(s)
  {
    CapitaliseAt(s);
    if Contains(s) {
      var j :| 0 <= j < |s| && OccursAt(s, j);
      PatternShape();
      assert s[j] == s[j..j + |Pattern|][0] == 'b';
      assert Capitalise(s)[j] != s[j];
    }
  }

  /** A body that contains `background` is changed by the rewrite. */
  lemma CapitaliseChanges(s: seq<char>)
    requires Contains(s)
    ensures Capitalise(s) != s
  {
    CapitaliseIdentityIff(s);
  }

  /** Rewriting an already rewritten body changes nothing more. */
  lemma CapitaliseIdempotent(s: seq<char>)
    ensures Capitalise(Capitalise(s)) == Capitalise(s)
  {
    NoPatternRemains(s);
    CapitaliseIdentityIff(Capitalise(s));
  }
}
