/**
 * String.prototype.trim and the "is this entry blank?" test the editor applies
 * to the group name and to every member entry.
 *
 * Whitespace is a fixed set: the ASCII white-space and line-terminator
 * characters, no-break space, the byte-order mark and the two Unicode
 * line/paragraph separators.
 */
module Strings {

  const Whitespace: set<char> :=
    {' ', '\t', '\n', '\r', '\U{B}', '\U{C}', '\U{A0}', '\U{FEFF}', '\U{2028}', '\U{2029}'}

  predicate IsSpace(c: char) {
    c in Whitespace
  }

  predicate AllSpace(s: string) {
    forall k :: 0 <= k < |s| ==> IsSpace(s[k])
  }

  /** The first index at or after `i` that holds a non-whitespace character (or |s|). */
  function SkipSpace(s: string, i: nat): (a: nat)
    requires i <= |s|
    ensures i <= a <= |s|
    ensures forall k :: i <= k < a ==> IsSpace(s[k])
    ensures a < |s| ==> !IsSpace(s[a])
    decreases |s| - i
  {
    if i < |s| && IsSpace(s[i]) then SkipSpace(s, i + 1) else i
  }

  /** Walking down from `j` to no lower than `lo`: the end of the last non-whitespace run (or `lo`). */
  function SkipSpaceBack(s: string, lo: nat, j: nat): (b: nat)
    requires lo <= j <= |s|
    ensures lo <= b <= j
    ensures forall k :: b <= k < j ==> IsSpace(s[k])
    ensures lo < b ==> !IsSpace(s[b - 1])
    decreases j
  {
    if lo < j && IsSpace(s[j - 1]) then SkipSpaceBack(s, lo, j - 1) else j
  }

  /** Where the trimmed part of `s` starts: everything before it is whitespace. */
  function TrimLead(s: string): (a: nat)
    ensures a <= |s|
    ensures forall k :: 0 <= k < a ==> IsSpace(s[k])
    ensures a < |s| ==> !IsSpace(s[a])
  {
    SkipSpace(s, 0)
  }

  /**
   * `s.trim()`: the infix of `s` left after removing whitespace at both ends.
   * What is removed in front (before TrimLead(s)) and behind is whitespace;
   * the result is empty exactly when `s` is all whitespace, and otherwise
   * starts and ends with a non-whitespace character.
   */
  function Trim(s: string): (r: string)
    ensures TrimLead(s) + |r| <= |s| && r == s[TrimLead(s)..TrimLead(s) + |r|]
    ensures forall k :: TrimLead(s) + |r| <= k < |s| ==> IsSpace(s[k])
    ensures r == [] <==> AllSpace(s)
    ensures r == [] || (!IsSpace(r[0]) && !IsSpace(r[|r| - 1]))
  {
    var a := TrimLead(s);
    var b := SkipSpaceBack(s, a, |s|);
    assert b == a ==> AllSpace(s);
    s[a..b]
  }

  /** `!s.trim()` / `s.trim() === ""`. */
  predicate IsBlank(s: string)
    ensures IsBlank(s) <==> AllSpace(s)
  {
    Trim(s) == []
  }

  /** Trimming a trimmed string changes nothing. */
  lemma TrimIdempotent(s: string)
    ensures Trim(Trim(s)) == Trim(s)
  {
  }

  /** A string with no whitespace at either end is its own trim. */
  lemma TrimOfTrimmed(s: string)
    requires s == [] || (!IsSpace(s[0]) && !IsSpace(s[|s| - 1]))
    ensures Trim(s) == s
  {
  }

  /** A character that is not whitespace survives trimming: it lies inside the trimmed part. */
  lemma NonSpaceInsideTrim(s: string, k: nat)
    requires k < |s| && !IsSpace(s[k])
    ensures TrimLead(s) <= k < TrimLead(s) + |Trim(s)|
    ensures Trim(s)[k - TrimLead(s)] == s[k]
  {
  }

  /** Whitespace padding around a trimmed string is exactly what Trim removes. */
  lemma {:induction false} TrimPadded(before: string, core: string, after: string)
    requires AllSpace(before) && AllSpace(after)
    requires core != [] && !IsSpace(core[0]) && !IsSpace(core[|core| - 1])
    ensures Trim(before + core + after) == core
  {
    var text := before + core + after;
    var n := |before| + |core|;
    assert text[|before|] == core[0];
    assert text[n - 1] == core[|core| - 1];
    NonSpaceInsideTrim(text, |before|);
    NonSpaceInsideTrim(text, n - 1);
    assert TrimLead(text) == |before| by {
      assert forall k :: 0 <= k < |before| ==> text[k] == before[k];
    }
    assert forall j :: n <= j < |text| ==> IsSpace(text[j]) by {
      forall j | n <= j < |text| ensures IsSpace(text[j]) {
        assert text[j] == after[j - n];
      }
    }
    assert text[|before|..n] == core;
  }
}
