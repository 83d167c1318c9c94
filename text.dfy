/** The two string primitives of .NET that the core relies on, on `string` = `seq<char>`. */
module Text {
  import opened Wrappers

  /** `p` is a prefix of `s`, compared char by char (ordinal). */
  predicate StartsWith(s: string, p: string) {
    |p| <= |s| && s[..|p|] == p
  }

  /** `String.Contains(string)`: ordinal and case-sensitive; the empty string occurs everywhere. */
  predicate Contains(s: string, sub: string)
    decreases |s|
  {
    StartsWith(s, sub) || (|s| > 0 && Contains(s[1..], sub))
  }

  /** `sub` occurs in `s` starting at position `i`. */
  predicate OccursAt(s: string, sub: string, i: int) {
    0 <= i && i + |sub| <= |s| && s[i..i + |sub|] == sub
  }

  /** An occurrence in the tail of `s` is an occurrence in `s` one position further on. */
  lemma OccursInTail(s: string, sub: string, i: int)
    requires |s| > 0 && 0 <= i
    ensures OccursAt(s[1..], sub, i) <==> OccursAt(s, sub, i + 1)
  {
    if 0 <= i && i + |sub| <= |s| - 1 {
      assert s[1..][i..i + |sub|] == s[i + 1..i + 1 + |sub|];
    }
  }

  /** The recursive test agrees with the positional definition of a substring. */
  lemma {:induction false} ContainsIffOccurs(s: string, sub: string)
    ensures Contains(s, sub) <==> exists i :: OccursAt(s, sub, i)
    decreases |s|
  {
    if StartsWith(s, sub) {
      assert OccursAt(s, sub, 0);
    } else if |s| == 0 {
      forall i ensures !OccursAt(s, sub, i) {
        if i == 0 { assert !StartsWith(s, sub); }
      }
    } else {
      ContainsIffOccurs(s[1..], sub);
      if Contains(s[1..], sub) {
        var j :| OccursAt(s[1..], sub, j);
        OccursInTail(s, sub, j);
      } else {
        forall i | i > 0 ensures !OccursAt(s, sub, i) {
          OccursInTail(s, sub, i - 1);
        }
      }
    }
  }

  /** A string lacking any one character of `sub` cannot contain `sub`. */
  lemma {:induction false} MissingCharRulesOut(s: string, sub: string, k: int)
    requires 0 <= k < |sub| && sub[k] !in s
    ensures !Contains(s, sub)
    decreases |s|
  {
    if |sub| <= |s| {
      assert s[..|sub|][k] == s[k];
    }
    if |s| > 0 {
      assert forall c :: c in s[1..] ==> c in s;
      MissingCharRulesOut(s[1..], sub, k);
    }
  }

  /** `String.IsNullOrEmpty`, with null as `None`. */
  predicate IsNullOrEmpty(s: Option<string>) {
    s.None? || s.value == ""
  }
}
