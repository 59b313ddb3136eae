/**
 * The three string primitives of the Python standard library that the plugin
 * relies on: ordering of `str` values, `str(int)`, and `os.path.join` on POSIX.
 */
module Strings {

  /** Python's `a < b` on `str`: code-point lexicographic order, a proper prefix is smaller. */
  predicate StrLess(a: string, b: string)
  {
    if |b| == 0 then false
    else if |a| == 0 then true
    else if a[0] != b[0] then a[0] < b[0]
    else StrLess(a[1..], b[1..])
  }

  /** Python's `a >= b` on `str`. */
  predicate StrGe(a: string, b: string)
  {
    !StrLess(a, b)
  }

  /** Reference definition of the order: `a` and `b` agree on their first `k`
      characters, and then `a` is exhausted or has the smaller character. */
  ghost predicate LessAt(a: string, b: string, k: nat)
  {
    k <= |a| && k < |b| && a[..k] == b[..k] && (k == |a| || a[k] < b[k])
  }

  lemma {:induction false} StrLessIffLessAt(a: string, b: string)
    ensures StrLess(a, b) <==> exists k: nat :: LessAt(a, b, k)
  {
    if |b| == 0 {
      forall k: nat ensures !LessAt(a, b, k) { }
    } else if |a| == 0 {
      assert LessAt(a, b, 0);
    } else if a[0] != b[0] {
      if a[0] < b[0] {
        assert LessAt(a, b, 0);
      } else {
        forall k: nat | LessAt(a, b, k) ensures false { }
      }
    } else {
      StrLessIffLessAt(a[1..], b[1..]);
      if StrLess(a, b) {
        var k: nat :| LessAt(a[1..], b[1..], k);
        assert a[..k + 1] == [a[0]] + a[1..][..k];
        assert b[..k + 1] == [b[0]] + b[1..][..k];
        assert LessAt(a, b, k + 1);
      } else {
        forall k: nat | LessAt(a, b, k) ensures false {
          if k == 0 {
          } else {
            assert a[1..][..k - 1] == a[..k][1..];
            assert b[1..][..k - 1] == b[..k][1..];
            assert LessAt(a[1..], b[1..], k - 1);
          }
        }
      }
    }
  }

  /** The order is total: exactly one of `a < b`, `a == b`, `b < a` holds. */
  lemma {:induction false} StrLessTrichotomy(a: string, b: string)
    ensures StrLess(a, b) || a == b || StrLess(b, a)
    ensures !(StrLess(a, b) && StrLess(b, a))
    ensures !StrLess(a, a)
  {
    if |a| > 0 && |b| > 0 && a[0] == b[0] {
      StrLessTrichotomy(a[1..], b[1..]);
      if a[1..] == b[1..] {
        assert a == [a[0]] + a[1..] && b == [b[0]] + b[1..];
      }
    } else if |a| > 0 {
      StrLessTrichotomy(a[1..], a[1..]);
    }
  }

  /** Python's `a >= b` holds exactly when the strings are equal or `b < a`. */
  lemma StrGeMeansEqualOrGreater(a: string, b: string)
    ensures StrGe(a, b) <==> (a == b || StrLess(b, a))
  {
    StrLessTrichotomy(a, b);
  }

  predicate IsDigit(c: char)
  {
    '0' <= c <= '9'
  }

  predicate AllDigits(s: string)
  {
    forall i :: 0 <= i < |s| ==> IsDigit(s[i])
  }

  function DigitChar(d: nat): (c: char)
    requires d < 10
    ensures IsDigit(c)
  {
    ('0' as int + d) as char
  }

  /** The decimal numeral of a natural number, most significant digit first. */
  function NatToString(n: nat): string
  {
    if n < 10 then [DigitChar(n)] else NatToString(n / 10) + [DigitChar(n % 10)]
  }

  /** Python's `str(i)` for an `int`. */
  function IntToString(i: int): string
  {
    if i < 0 then "-" + NatToString(-i) else NatToString(i)
  }

  /** The value of a string of decimal digits. */
  function DigitsValue(s: string): nat
    requires AllDigits(s)
  {
    if s == [] then 0 else DigitsValue(s[..|s| - 1]) * 10 + (s[|s| - 1] as int - '0' as int)
  }

  /** Reading back the numeral `str(n)` gives `n`; it is non-empty and has no leading zero. */
  lemma {:induction false} NatToStringRoundTrip(n: nat)
    ensures AllDigits(NatToString(n))
    ensures DigitsValue(NatToString(n)) == n
    ensures |NatToString(n)| > 0 && (n > 0 ==> NatToString(n)[0] != '0')
  {
    if n >= 10 {
      NatToStringRoundTrip(n / 10);
      var s := NatToString(n);
      assert s[..|s| - 1] == NatToString(n / 10);
    }
  }

  /** `posixpath.join(a, b)` for two components. */
  function PathJoin(a: string, b: string): string
  {
    if |b| > 0 && b[0] == '/' then b
    else if a == "" || a[|a| - 1] == '/' then a + b
    else a + "/" + b
  }
}
