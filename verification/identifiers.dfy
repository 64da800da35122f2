/**
 * Identifier validation of pkg/identifiers/validate.go: a non-empty string of at most 76
 * characters matching ^[A-Za-z0-9]+(?:[._-](?:[A-Za-z0-9]+))*$.
 */
module Identifiers {
  import opened Errdefs

  const MaxLength: nat := 76

  predicate IsAlnum(c: char)
  {
    ('A' <= c <= 'Z') || ('a' <= c <= 'z') || ('0' <= c <= '9')
  }

  predicate IsSeparator(c: char)
  {
    c == '.' || c == '_' || c == '-'
  }

  /** [A-Za-z0-9]+ */
  predicate IsWord(s: string)
  {
    |s| >= 1 && forall i :: 0 <= i < |s| ==> IsAlnum(s[i])
  }

  /**
   * The regular language word ([._-] word)*, read from the right: a word, or a shorter
   * member of the language, one separator and a word.
   */
  ghost predicate InPattern(s: string)
    decreases |s|
  {
    IsWord(s) ||
    exists i :: 0 < i < |s| - 1 && IsSeparator(s[i]) && InPattern(s[..i]) && IsWord(s[i + 1..])
  }

  /**
   * The same language described by its characters: only letters, digits and separators,
   * starting and ending with a letter or digit, and never two separators in a row.
   */
  predicate WellShaped(s: string)
  {
    |s| >= 1 &&
    (forall i :: 0 <= i < |s| ==> IsAlnum(s[i]) || IsSeparator(s[i])) &&
    IsAlnum(s[0]) && IsAlnum(s[|s| - 1]) &&
    (forall i :: 0 <= i < |s| - 1 && IsSeparator(s[i]) ==> IsAlnum(s[i + 1]))
  }

  lemma {:induction false} PatternIsWellShaped(s: string)
    requires InPattern(s)
    ensures WellShaped(s)
    decreases |s|
  {
    if !IsWord(s) {
      var i :| 0 < i < |s| - 1 && IsSeparator(s[i]) && InPattern(s[..i]) && IsWord(s[i + 1..]);
      PatternIsWellShaped(s[..i]);
      var w := s[i + 1..];
      assert w[0] == s[i + 1];
      forall j | 0 <= j < |s| ensures IsAlnum(s[j]) || IsSeparator(s[j]) {
        if j < i { assert s[..i][j] == s[j]; } else if j > i { assert w[j - i - 1] == s[j]; }
      }
      assert s[..i][i - 1] == s[i - 1];
      forall j | 0 <= j < |s| - 1 && IsSeparator(s[j]) ensures IsAlnum(s[j + 1]) {
        if j < i - 1 {
          assert s[..i][j] == s[j] && s[..i][j + 1] == s[j + 1];
        } else if j > i {
          assert w[j - i - 1] == s[j];
        }
      }
      assert s[..i][0] == s[0];
      assert w[|w| - 1] == s[|s| - 1];
    }
  }

  lemma {:induction false} WellShapedIsPattern(s: string)
    requires WellShaped(s)
    ensures InPattern(s)
    decreases |s|
  {
    if !IsWord(s) {
      // split at the last separator
      var i := LastSeparator(s, |s| - 1);
      var w := s[i + 1..];
      assert IsWord(w) by {
        forall j | 0 <= j < |w| ensures IsAlnum(w[j]) {
          assert w[j] == s[i + 1 + j];
        }
      }
      var p := s[..i];
      assert i > 0 by { assert IsAlnum(s[0]) && IsSeparator(s[i]); }
      NoDoubleSeparator(s, i - 1);
      assert WellShaped(p) by {
        assert p[0] == s[0] && p[|p| - 1] == s[i - 1];
        forall j | 0 <= j < |p| - 1 && IsSeparator(p[j]) ensures IsAlnum(p[j + 1]) {
          assert p[j] == s[j] && p[j + 1] == s[j + 1];
        }
      }
      WellShapedIsPattern(p);
    }
  }

  lemma NoDoubleSeparator(s: string, j: nat)
    requires WellShaped(s) && j < |s| - 1
    ensures !IsSeparator(s[j]) || IsAlnum(s[j + 1])
  {
  }

  /** The index of the last separator at or before position k, when there is a separator beyond any word. */
  lemma LastSeparator(s: string, k: nat) returns (i: nat)
    requires WellShaped(s) && !IsWord(s) && k == |s| - 1
    ensures 0 <= i < |s| - 1 && IsSeparator(s[i])
    ensures forall j :: i < j < |s| ==> IsAlnum(s[j])
  {
    var m :| 0 <= m < |s| && !IsAlnum(s[m]);
    var j := k;
    while IsAlnum(s[j])
      invariant m <= j <= k
      invariant forall m' :: j < m' < |s| ==> IsAlnum(s[m'])
      decreases j
    {
      j := j - 1;
    }
    i := j;
  }

  /** The two descriptions of the identifier language agree. */
  lemma PatternIffWellShaped(s: string)
    ensures InPattern(s) <==> WellShaped(s)
  {
    if InPattern(s) { PatternIsWellShaped(s); }
    if WellShaped(s) { WellShapedIsPattern(s); }
  }

  /** Validate: nil (None) for a valid identifier, InvalidArgument otherwise. */
  function Validate(s: string): (r: MaybeError)
    ensures r.None? <==> 1 <= |s| <= MaxLength && InPattern(s)
    ensures r.Some? ==> r.value == InvalidArgument
  {
    PatternIffWellShaped(s);
    if |s| == 0 then Some(InvalidArgument)
    else if |s| > MaxLength then Some(InvalidArgument)
    else if !WellShaped(s) then Some(InvalidArgument)
    else None
  }

  /**
   * A valid identifier is safe as one filesystem path component: it has no '/', is neither
   * "." nor "..", and cannot start with '-' or '.'.
   */
  lemma ValidIsPathComponent(s: string)
    requires Validate(s).None?
    ensures forall i :: 0 <= i < |s| ==> s[i] != '/' && s[i] != '\0'
    ensures s != "." && s != ".."
    ensures s[0] != '-' && s[0] != '.'
  {
    PatternIsWellShaped(s);
  }

  /** Joining two valid identifiers with one separator gives a valid identifier when it is short enough. */
  lemma ValidJoin(a: string, sep: char, b: string)
    requires Validate(a).None? && Validate(b).None? && IsSeparator(sep)
    requires |a| + 1 + |b| <= MaxLength
    ensures Validate(a + [sep] + b).None?
  {
    PatternIsWellShaped(a);
    PatternIsWellShaped(b);
    var s := a + [sep] + b;
    forall j | 0 <= j < |s| - 1 && IsSeparator(s[j]) ensures IsAlnum(s[j + 1]) {
      if j < |a| - 1 {
        assert s[j] == a[j] && s[j + 1] == a[j + 1];
      } else if j > |a| {
        assert s[j] == b[j - |a| - 1] && s[j + 1] == b[j - |a|];
      }
    }
    assert WellShaped(s);
    WellShapedIsPattern(s);
  }
}
