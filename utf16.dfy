/**
  The only part of UTF-16 decoding the search depends on: a fixed buffer of
  code units is read up to, and not including, its first zero unit.
 */
module Utf16 {

  /** A UTF-16 code unit (a 16-bit unsigned value). */
  type CodeUnit = x: int | 0 <= x < 0x1_0000

  /** The NUL code unit that terminates a string in a buffer. */
  const Nul: CodeUnit := 0

  ghost predicate NulFree(s: seq<CodeUnit>) {
    forall k :: 0 <= k < |s| ==> s[k] != Nul
  }

  ghost predicate AllNul(s: seq<CodeUnit>) {
    forall k :: 0 <= k < |s| ==> s[k] == Nul
  }

  /**
    The string held in buffer `s`: its longest NUL-free prefix. The result
    stops at the first NUL, or runs to the end of `s` when there is none.
   */
  function UntilNul(s: seq<CodeUnit>): (r: seq<CodeUnit>)
    ensures |r| <= |s| && r == s[..|r|]
    ensures NulFree(r)
    ensures |r| < |s| ==> s[|r|] == Nul
  {
    if s == [] || s[0] == Nul then [] else [s[0]] + UntilNul(s[1..])
  }

  /** A NUL-free buffer decodes to itself. */
  lemma {:induction false} UntilNulOfNulFree(s: seq<CodeUnit>)
    requires NulFree(s)
    ensures UntilNul(s) == s
  {
    if s != [] {
      assert s[0] != Nul;
      UntilNulOfNulFree(s[1..]);
    }
  }

  /**
    Zero units after a value do not change what it decodes to: a value copied
    into the front of a zero-filled buffer decodes as the value alone.
   */
  lemma {:induction false} UntilNulIgnoresZeroPadding(v: seq<CodeUnit>, pad: seq<CodeUnit>)
    requires AllNul(pad)
    ensures UntilNul(v + pad) == UntilNul(v)
  {
    if v == [] {
      assert v + pad == pad;
      if pad != [] {
        assert pad[0] == Nul;
      }
    } else {
      assert (v + pad)[0] == v[0];
      if v[0] != Nul {
        assert (v + pad)[1..] == v[1..] + pad;
        UntilNulIgnoresZeroPadding(v[1..], pad);
      }
    }
  }
}
