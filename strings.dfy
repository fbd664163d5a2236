/** The two .NET string operations the core relies on, with ordinal (character by character) comparison. */
module Strings {

  /** `sub` occurs in `s` starting at index `i`. */
  predicate OccursAt(s: string, sub: string, i: nat) {
    i + |sub| <= |s| && s[i..i + |sub|] == sub
  }

  /** `String.Contains(sub)`: some occurrence of `sub` inside `s`. */
  predicate Contains(s: string, sub: string) {
    exists i: nat | i <= |s| :: OccursAt(s, sub, i)
  }

  /**
   * `String.Replace(marker, "")`: scans left to right and drops every occurrence of `marker`
   * that does not overlap an occurrence dropped before it.
   */
  function RemoveAll(s: string, marker: string): (r: string)
    requires |marker| > 0
    ensures |r| <= |s|
    decreases |s|
  {
    if |s| < |marker| then s
    else if s[..|marker|] == marker then RemoveAll(s[|marker|..], marker)
    else [s[0]] + RemoveAll(s[1..], marker)
  }

  /** An occurrence in a suffix is an occurrence in the whole string. */
  lemma OccursInSuffix(s: string, sub: string, k: nat, i: nat)
    requires k <= |s| && OccursAt(s[k..], sub, i)
    ensures OccursAt(s, sub, k + i)
  {
  }

  /** A string that does not contain the marker is left as it is. */
  lemma {:induction false} RemoveAllAbsent(s: string, marker: string)
    requires |marker| > 0 && !Contains(s, marker)
    ensures RemoveAll(s, marker) == s
    decreases |s|
  {
    if |s| >= |marker| {
      assert !OccursAt(s, marker, 0);
      if Contains(s[1..], marker) {
        var i: nat :| i <= |s[1..]| && OccursAt(s[1..], marker, i);
        OccursInSuffix(s, marker, 1, i);
        assert false;
      }
      RemoveAllAbsent(s[1..], marker);
      assert s == [s[0]] + s[1..];
    }
  }

  /**
   * Removing the marker from "marker + value" gives back the value when the value itself
   * holds no marker (an occurrence straddling the boundary is skipped by the scan).
   */
  lemma RemoveAllAfterMarker(marker: string, value: string)
    requires |marker| > 0 && !Contains(value, marker)
    ensures RemoveAll(marker + value, marker) == value
  {
    var s := marker + value;
    assert s[..|marker|] == marker;
    assert s[|marker|..] == value;
    RemoveAllAbsent(value, marker);
  }

  /** The scan keeps a first character at which the marker does not start. */
  lemma RemoveAllKeepsFirst(s: string, marker: string)
    requires |marker| > 0 && |s| >= |marker| && !OccursAt(s, marker, 0)
    ensures RemoveAll(s, marker) == [s[0]] + RemoveAll(s[1..], marker)
  {
    assert s[..|marker|] == s[0..0 + |marker|];
  }

  /** The scan drops a marker at the start of the text. */
  lemma RemoveAllDropsLeading(s: string, marker: string)
    requires |marker| > 0 && OccursAt(s, marker, 0)
    ensures RemoveAll(s, marker) == s[..0] + RemoveAll(s[0 + |marker|..], marker)
  {
    assert s[..|marker|] == s[0..0 + |marker|];
    assert s[..0] == [];
  }

  /** Occurrences in `s` after its first character are those of `s[1..]`, shifted by one. */
  lemma OccursAfterFirst(s: string, sub: string, i: nat)
    requires 0 < i <= |s|
    ensures OccursAt(s, sub, i) <==> OccursAt(s[1..], sub, i - 1)
  {
    if i + |sub| <= |s| {
      assert s[1..][i - 1..i - 1 + |sub|] == s[i..i + |sub|];
    }
  }

  /** The first occurrence of `sub` in `s` starts at `i`. */
  predicate FirstOccursAt(s: string, sub: string, i: nat) {
    OccursAt(s, sub, i) && forall j: nat :: j < i ==> !OccursAt(s, sub, j)
  }

  /** A first occurrence past the first character is one of `s[1..]`, shifted by one. */
  lemma FirstOccursAfterFirst(s: string, sub: string, i: nat)
    requires 0 < i && FirstOccursAt(s, sub, i)
    ensures FirstOccursAt(s[1..], sub, i - 1)
  {
    OccursAfterFirst(s, sub, i);
    forall j: nat | j < i - 1
      ensures !OccursAt(s[1..], sub, j)
    {
      OccursAfterFirst(s, sub, j + 1);
    }
  }

  /**
   * What the scan computes, stated by the first occurrence: the text before the first
   * occurrence of the marker is kept, that occurrence is dropped, and the scan resumes
   * right after it.
   */
  lemma {:induction false} RemoveAllFirstOccurrence(s: string, marker: string, i: nat)
    requires |marker| > 0 && FirstOccursAt(s, marker, i)
    ensures RemoveAll(s, marker) == s[..i] + RemoveAll(s[i + |marker|..], marker)
    decreases i
  {
    if i == 0 {
      RemoveAllDropsLeading(s, marker);
    } else {
      var t := s[1..];
      var rest := RemoveAll(s[i + |marker|..], marker);
      FirstOccursAfterFirst(s, marker, i);
      assert RemoveAll(t, marker) == t[..i - 1] + rest by {
        RemoveAllFirstOccurrence(t, marker, i - 1);
        assert t[i - 1 + |marker|..] == s[i + |marker|..];
      }
      calc {
        RemoveAll(s, marker);
        { RemoveAllKeepsFirst(s, marker); }
        [s[0]] + RemoveAll(t, marker);
        [s[0]] + (t[..i - 1] + rest);
        ([s[0]] + t[..i - 1]) + rest;
        { assert [s[0]] + t[..i - 1] == s[..i]; }
        s[..i] + rest;
      }
    }
  }

  /** A string contains every one of its own infixes. */
  lemma ContainsInfix(prefix: string, sub: string, suffix: string)
    ensures Contains(prefix + sub + suffix, sub)
  {
    var s := prefix + sub + suffix;
    assert s[|prefix|..|prefix| + |sub|] == sub;
    assert OccursAt(s, sub, |prefix|);
  }
}
