/**
 Trimming of character data, as Rust's `str::trim` does it: leading and
 trailing characters with the Unicode White_Space property are removed.
 */
module Text {

  /** Exactly the characters for which Rust's `char::is_whitespace` holds. */
  predicate IsWhitespace(c: char) {
    || ('\t' <= c <= '\r')
    || c == ' '
    || c == '\U{0085}'
    || c == '\U{00A0}'
    || c == '\U{1680}'
    || ('\U{2000}' <= c <= '\U{200A}')
    || c == '\U{2028}'
    || c == '\U{2029}'
    || c == '\U{202F}'
    || c == '\U{205F}'
    || c == '\U{3000}'
  }

  /** Every character of `s` is whitespace (this includes the empty string). */
  predicate Blank(s: string) {
    forall i :: 0 <= i < |s| ==> IsWhitespace(s[i])
  }

  /**
   The first position at or after `i` that does not hold whitespace, or
   `|s|` when there is none.
   */
  function SkipBlanks(s: string, i: nat): (j: nat)
    requires i <= |s|
    ensures i <= j <= |s|
    ensures forall k :: i <= k < j ==> IsWhitespace(s[k])
    ensures j == |s| || !IsWhitespace(s[j])
    decreases |s| - i
  {
    if i < |s| && IsWhitespace(s[i]) then SkipBlanks(s, i + 1) else i
  }

  /**
   Walking back from `j`, no further than `lo`: the position just after the
   last character before `j` that is not whitespace, or `lo`.
   */
  function BackBlanks(s: string, lo: nat, j: nat): (k: nat)
    requires lo <= j <= |s|
    ensures lo <= k <= j
    ensures forall m :: k <= m < j ==> IsWhitespace(s[m])
    ensures k == lo || !IsWhitespace(s[k - 1])
    decreases j
  {
    if lo < j && IsWhitespace(s[j - 1]) then BackBlanks(s, lo, j - 1) else j
  }

  /** How many leading characters `Trim` removes. */
  function TrimOffset(s: string): nat {
    SkipBlanks(s, 0)
  }

  /** Where what `Trim` keeps ends: everything from here on is trailing whitespace. */
  function TrimLimit(s: string): nat {
    BackBlanks(s, TrimOffset(s), |s|)
  }

  /**
   `str::trim`: leading whitespace off, then trailing whitespace off. What
   is kept neither starts nor ends with whitespace.
   */
  function Trim(s: string): (r: string)
    ensures |r| <= |s|
    ensures r == [] || (!IsWhitespace(r[0]) && !IsWhitespace(r[|r| - 1]))
  {
    var o := TrimOffset(s);
    var e := TrimLimit(s);
    var r := s[o..e];
    assert r != [] ==> r[0] == s[o] && r[|r| - 1] == s[e - 1];
    r
  }

  /**
   What `Trim` keeps is the slice of `s` between its leading and its trailing
   whitespace, and neither of those contains anything else.
   */
  lemma TrimSlice(s: string)
    ensures TrimOffset(s) + |Trim(s)| <= |s|
    ensures Trim(s) == s[TrimOffset(s)..TrimOffset(s) + |Trim(s)|]
    ensures Blank(s[..TrimOffset(s)])
    ensures Blank(s[TrimOffset(s) + |Trim(s)|..])
  {
    var o := TrimOffset(s);
    var e := TrimLimit(s);
    assert |Trim(s)| == e - o;
    forall i | 0 <= i < o ensures IsWhitespace(s[..o][i]) {
      assert s[..o][i] == s[i];
    }
    forall i | 0 <= i < |s| - e ensures IsWhitespace(s[e..][i]) {
      assert s[e..][i] == s[e + i];
    }
  }

  /** Text trims to nothing exactly when all of it is whitespace. */
  lemma TrimEmptyIffBlank(s: string)
    ensures Trim(s) == [] <==> Blank(s)
  {
    var o := TrimOffset(s);
    var e := TrimLimit(s);
    if Trim(s) == [] {
      assert e == o;
      forall i | 0 <= i < |s| ensures IsWhitespace(s[i]) {
        if i >= o {
          assert o <= i < |s|;
        }
      }
    } else {
      assert s[o] == Trim(s)[0];
    }
  }
}
