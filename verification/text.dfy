/**
 * JavaScript string length. `password.length` counts UTF-16 code units, so a
 * character outside the Basic Multilingual Plane counts twice, whereas a Dafny
 * `string` is a sequence of Unicode scalar values.
 */
module Text {

  /** The first code point that needs a surrogate pair in UTF-16. */
  const FirstSupplementary: int := 0x1_0000

  /** Number of UTF-16 code units needed to encode `c`. */
  function CodeUnits(c: char): (n: nat)
    ensures n == 1 || n == 2
  {
    if c as int >= FirstSupplementary then 2 else 1
  }

  /** The value of `s.length` in JavaScript. */
  function Utf16Length(s: string): (n: nat)
    ensures |s| <= n <= 2 * |s|
    ensures n == 0 <==> s == []
  {
    if |s| == 0 then 0 else CodeUnits(s[0]) + Utf16Length(s[1..])
  }

  /** For text made only of Basic Multilingual Plane characters, the JavaScript
      length is the number of characters. */
  lemma {:induction false} Utf16LengthOfBmp(s: string)
    requires forall i :: 0 <= i < |s| ==> (s[i] as int) < FirstSupplementary
    ensures Utf16Length(s) == |s|
    decreases |s|
  {
    if |s| > 0 {
      Utf16LengthOfBmp(s[1..]);
    }
  }

  /** The JavaScript length of a concatenation is the sum of the lengths. */
  lemma {:induction false} Utf16LengthAppend(a: string, b: string)
    ensures Utf16Length(a + b) == Utf16Length(a) + Utf16Length(b)
    decreases |a|
  {
    if |a| == 0 {
      assert a + b == b;
    } else {
      assert (a + b)[1..] == a[1..] + b;
      Utf16LengthAppend(a[1..], b);
    }
  }
}
