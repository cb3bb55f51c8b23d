/**
 * `String.prototype.trim` of ECMAScript: removes white space and line
 * terminators from both ends of a string. A string whose trim is empty is
 * falsy in a JavaScript condition, which is how every form of the game
 * recognises a blank entry.
 */
module Text {
  import opened Common

  /** The ECMAScript WhiteSpace and LineTerminator code points. */
  predicate IsSpace(c: char) {
    var n := c as int;
    n == 0x09 || n == 0x0A || n == 0x0B || n == 0x0C || n == 0x0D || n == 0x20 ||
    n == 0xA0 || n == 0x1680 || (0x2000 <= n <= 0x200A) || n == 0x2028 || n == 0x2029 ||
    n == 0x202F || n == 0x205F || n == 0x3000 || n == 0xFEFF
  }

  /** Every character of s is white space (vacuously so for the empty string). */
  predicate IsBlank(s: string) {
    forall i :: 0 <= i < |s| ==> IsSpace(s[i])
  }

  /** Number of white-space characters at the start of s. */
  function LeadingSpaces(s: string): (k: nat)
    ensures k <= |s|
    ensures forall i :: 0 <= i < k ==> IsSpace(s[i])
    ensures k < |s| ==> !IsSpace(s[k])
  {
    if |s| > 0 && IsSpace(s[0]) then
      var k := 1 + LeadingSpaces(s[1..]);
      assert forall i :: 1 <= i < k ==> s[i] == s[1..][i - 1];
      k
    else 0
  }

  /** Number of white-space characters at the end of s. */
  function TrailingSpaces(s: string): (k: nat)
    ensures k <= |s|
    ensures forall i :: |s| - k <= i < |s| ==> IsSpace(s[i])
    ensures k < |s| ==> !IsSpace(s[|s| - 1 - k])
  {
    if |s| > 0 && IsSpace(s[|s| - 1]) then
      var k := 1 + TrailingSpaces(s[..|s| - 1]);
      assert forall i :: |s| - k <= i < |s| - 1 ==> s[i] == s[..|s| - 1][i];
      k
    else 0
  }

  /** r occupies s from position a on, and everything of s around it is white space. */
  ghost predicate CoreOf(s: string, r: string, a: int) {
    && 0 <= a && a + |r| <= |s| && r == s[a..a + |r|]
    && (forall i :: 0 <= i < a ==> IsSpace(s[i]))
    && (forall i :: a + |r| <= i < |s| ==> IsSpace(s[i]))
  }

  /** `s.trim()`. */
  function Trim(s: string): (r: string)
    ensures exists a :: CoreOf(s, r, a)
    ensures r != [] ==> !IsSpace(r[0]) && !IsSpace(r[|r| - 1])
    ensures r == [] <==> IsBlank(s)
  {
    var a := LeadingSpaces(s);
    var t := s[a..];
    var r := t[..|t| - TrailingSpaces(t)];
    assert CoreOf(s, r, a) by {
      forall i | a + |r| <= i < |s| ensures IsSpace(s[i]) {
        assert s[i] == t[i - a];
      }
    }
    r
  }

  /** One of the ten decimal digits. */
  predicate IsDigit(c: char) {
    '0' as int <= c as int <= '9' as int
  }

  /** `String(n)` for a non-negative integer: its decimal digits. */
  function NatToString(n: nat): (r: string)
    ensures |r| >= 1
    ensures forall i :: 0 <= i < |r| ==> IsDigit(r[i])
  {
    if n < 10 then [('0' as int + n) as char]
    else NatToString(n / 10) + [('0' as int + n % 10) as char]
  }

  /** The number a string of decimal digits denotes. */
  function DecimalValue(s: string): nat
    requires forall i :: 0 <= i < |s| ==> IsDigit(s[i])
  {
    if s == [] then 0
    else
      assert IsDigit(s[|s| - 1]);
      DecimalValue(s[..|s| - 1]) * 10 + (s[|s| - 1] as int - '0' as int)
  }

  /** Reading the digits back gives the number: distinct numbers print differently. */
  lemma {:induction false} NatToStringRoundTrip(n: nat)
    ensures DecimalValue(NatToString(n)) == n
  {
    if n >= 10 {
      var r := NatToString(n);
      assert r[..|r| - 1] == NatToString(n / 10);
      NatToStringRoundTrip(n / 10);
    }
  }

  /**
   * Two digit strings each followed by the same separator, which starts
   * with a non-digit, can be told apart: equal concatenations have equal
   * digit parts and equal tails.
   */
  lemma DigitsThenSeparator(a: string, t: string, b: string, u: string, sep: string)
    requires forall i :: 0 <= i < |a| ==> IsDigit(a[i])
    requires forall i :: 0 <= i < |b| ==> IsDigit(b[i])
    requires |sep| > 0 && !IsDigit(sep[0])
    requires a + sep + t == b + sep + u
    ensures a == b && t == u
  {
    var x := a + sep + t;
    var y := b + sep + u;
    var p := (c: char) => !IsDigit(c);
    assert IsFirst(x, p, |a|) by {
      assert x[|a|] == sep[0];
      forall j | 0 <= j < |a| ensures !p(x[j]) {
        assert x[j] == a[j];
      }
    }
    assert IsFirst(y, p, |b|) by {
      assert y[|b|] == sep[0];
      forall j | 0 <= j < |b| ensures !p(y[j]) {
        assert y[j] == b[j];
      }
    }
    FirstIndexUnique(x, p, |a|);
    FirstIndexUnique(y, p, |b|);
    assert a == x[..|a|] && b == y[..|b|];
    assert t == x[|a| + |sep|..] && u == y[|b| + |sep|..];
  }

  /**
   * Trimming undoes white-space padding: a string whose ends are not white
   * space comes back unchanged from any blank prefix and suffix.
   */
  lemma TrimPadded(w1: string, c: string, w2: string)
    requires IsBlank(w1) && IsBlank(w2)
    requires c != [] && !IsSpace(c[0]) && !IsSpace(c[|c| - 1])
    ensures Trim(w1 + c + w2) == c
  {
    var s := w1 + c + w2;
    var a := LeadingSpaces(s);
    assert s[|w1|] == c[0];
    assert forall i :: 0 <= i < |w1| ==> s[i] == w1[i];
    assert a == |w1|;
    var t := s[a..];
    assert t == c + w2;
    var b := TrailingSpaces(t);
    assert t[|c| - 1] == c[|c| - 1];
    assert forall i :: |c| <= i < |t| ==> t[i] == w2[i - |c|];
    assert b == |w2|;
    assert t[..|t| - b] == c;
  }
}
