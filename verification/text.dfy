/**
 The whitespace stripping that both backends apply to the incoming barcode
 (`str(...).strip()`): Python's `str.strip()` with no argument removes, from
 both ends, every character for which `str.isspace()` holds.
 */
module Text {

  /** Python's `str.isspace()` for one character: the Unicode characters whose
      bidirectional class is WS, B or S, or whose category is Zs. */
  predicate IsSpace(c: char) {
    || ('\t' <= c <= '\r')
    || ('\U{1C}' <= c <= '\U{1F}')
    || c == ' '
    || c == '\U{85}'
    || c == '\U{A0}'
    || c == '\U{1680}'
    || ('\U{2000}' <= c <= '\U{200A}')
    || c == '\U{2028}'
    || c == '\U{2029}'
    || c == '\U{202F}'
    || c == '\U{205F}'
    || c == '\U{3000}'
  }

  predicate AllSpace(s: string) {
    forall i :: 0 <= i < |s| ==> IsSpace(s[i])
  }

  /** Length of the run of whitespace at the front of `s`. */
  function LeadingSpaces(s: string): (n: nat)
    ensures n <= |s|
    ensures forall i :: 0 <= i < n ==> IsSpace(s[i])
    ensures n < |s| ==> !IsSpace(s[n])
  {
    if s == [] || !IsSpace(s[0]) then 0 else 1 + LeadingSpaces(s[1..])
  }

  /** Length of the run of whitespace at the back of `s`. */
  function TrailingSpaces(s: string): (n: nat)
    ensures n <= |s|
    ensures forall i :: |s| - n <= i < |s| ==> IsSpace(s[i])
    ensures n < |s| ==> !IsSpace(s[|s| - 1 - n])
  {
    if s == [] || !IsSpace(s[|s| - 1]) then 0 else 1 + TrailingSpaces(s[..|s| - 1])
  }

  /** `s[lo..hi]` is what is left of `s` once all leading and trailing
      whitespace is removed: everything outside it is whitespace, and a
      non-empty remainder starts and ends with a non-space character. */
  ghost predicate Trimmed(s: string, lo: int, hi: int) {
    && 0 <= lo <= hi <= |s|
    && (forall i :: 0 <= i < lo ==> IsSpace(s[i]))
    && (forall i :: hi <= i < |s| ==> IsSpace(s[i]))
    && (lo < hi ==> !IsSpace(s[lo]) && !IsSpace(s[hi - 1]))
  }

  /** Python's `s.strip()`. */
  function Strip(s: string): (r: string)
    ensures Trimmed(s, LeadingSpaces(s), LeadingSpaces(s) + |r|)
    ensures r == s[LeadingSpaces(s)..LeadingSpaces(s) + |r|]
    ensures r == [] <==> AllSpace(s)
  {
    var t := s[LeadingSpaces(s)..];
    t[..|t| - TrailingSpaces(t)]
  }

  /** Stripping is determined by the trimming property alone: whichever
      bounds satisfy it, they cut out exactly `Strip(s)`. */
  lemma StripUnique(s: string, lo: int, hi: int)
    requires Trimmed(s, lo, hi)
    ensures Strip(s) == s[lo..hi]
  {
    if lo == hi {
      assert AllSpace(s) by {
        forall i | 0 <= i < |s| ensures IsSpace(s[i]) {
          if i < lo { } else { assert hi <= i; }
        }
      }
    }
  }

  /** Stripping twice is the same as stripping once. */
  lemma StripIdempotent(s: string)
    ensures Strip(Strip(s)) == Strip(s)
  {
    var r := Strip(s);
    assert Trimmed(r, 0, |r|);
    StripUnique(r, 0, |r|);
  }
}
