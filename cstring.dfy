/**
 * C string conventions used throughout the shell: the '\0' terminator, the
 * token delimiter set, the string a NUL-terminated buffer denotes, and the
 * comparison `strcmp` performs (ISO C11 section 7.24.4.2).
 */
module CString {

  /** The string terminator '\0'. */
  const Nul: char := 0 as char

  /** The bell character '\a'. */
  const Bell: char := 7 as char

  /** LSH_TOK_DELIM: space, tab, carriage return, newline and bell. */
  const Delims: seq<char> := [' ', '\t', '\r', '\n', Bell]

  predicate IsDelim(c: char)
  {
    c in Delims
  }

  lemma NulIsNotDelim()
    ensures !IsDelim(Nul)
  {
  }

  /**
   * The C string stored in a buffer: everything before the first '\0', or the
   * whole buffer when it holds no terminator.
   */
  function CStr(s: seq<char>): (r: seq<char>)
    ensures r <= s
    ensures Nul !in r
    ensures |r| < |s| ==> s[|r|] == Nul
    ensures Nul in s ==> |r| < |s|
  {
    if s == [] || s[0] == Nul then [] else [s[0]] + CStr(s[1..])
  }

  /** A terminator at index k cuts the buffer there, whatever follows it. */
  lemma {:induction false} CStrStopsAtNul(s: seq<char>, k: nat)
    requires k < |s| && s[k] == Nul
    ensures CStr(s) == CStr(s[..k])
  {
    if s != [] && s[0] != Nul {
      assert k > 0;
      assert s[1..][..k - 1] == s[..k][1..];
      CStrStopsAtNul(s[1..], k - 1);
    }
  }

  /** A buffer whose first k characters are t, with no '\0' among them, and '\0' at k, holds the C string t. */
  lemma CStrOfTerminated(s: seq<char>, t: seq<char>)
    requires |t| < |s| && s[..|t|] == t && s[|t|] == Nul && Nul !in t
    ensures CStr(s) == t
  {
    CStrStopsAtNul(s, |t|);
    CStrOfNulFree(t);
  }

  lemma {:induction false} CStrOfNulFree(t: seq<char>)
    requires Nul !in t
    ensures CStr(t) == t
  {
    if t != [] {
      assert t[0] != Nul;
      CStrOfNulFree(t[1..]);
    }
  }

  /**
   * `strcmp` on two C strings given by their contents: the sign of the
   * difference of the first pair of characters that differ, where the end of
   * the shorter string reads as its terminator '\0'. Characters compare as
   * unsigned values; the C function may return any negative or positive
   * value, this model returns -1 or 1.
   */
  function StrCmp(a: seq<char>, b: seq<char>): (r: int)
    ensures -1 <= r <= 1
  {
    if a == [] && b == [] then 0
    else if a == [] then -1
    else if b == [] then 1
    else if a[0] < b[0] then -1
    else if a[0] > b[0] then 1
    else StrCmp(a[1..], b[1..])
  }

  /** `strcmp` reports equality exactly when the two strings are equal. */
  lemma {:induction false} StrCmpZeroIff(a: seq<char>, b: seq<char>)
    ensures StrCmp(a, b) == 0 <==> a == b
  {
    if a != [] && b != [] && a[0] == b[0] {
      StrCmpZeroIff(a[1..], b[1..]);
      assert a == [a[0]] + a[1..];
      assert b == [b[0]] + b[1..];
    }
  }

  /** Swapping the operands of `strcmp` negates its result. */
  lemma {:induction false} StrCmpAntisymmetric(a: seq<char>, b: seq<char>)
    ensures StrCmp(a, b) == -StrCmp(b, a)
  {
    if a != [] && b != [] && a[0] == b[0] {
      StrCmpAntisymmetric(a[1..], b[1..]);
    }
  }
}
