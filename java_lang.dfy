/** Java value semantics shared by the model: nullable references, 32- and 64-bit
    integer wrap-around, the (byte) cast, decimal rendering of integers, and
    String.compareTo / String.hashCode. */
module JavaLang {

  /** A nullable reference: `None` stands for Java's `null`. */
  datatype Option<+T> = None | Some(value: T)

  const INT_MIN: int := -0x8000_0000
  const INT_MAX: int := 0x7fff_ffff
  const LONG_MAX: int := 0x7fff_ffff_ffff_ffff

  predicate IsInt(x: int) { INT_MIN <= x <= INT_MAX }

  /** The value a Java `int` holds after an arithmetic result `x` is stored in it. */
  function WrapInt(x: int): (r: int)
    ensures IsInt(r)
    ensures (r - x) % 0x1_0000_0000 == 0
    ensures IsInt(x) ==> r == x
  {
    var m := x % 0x1_0000_0000;
    if m > INT_MAX then m - 0x1_0000_0000 else m
  }

  /** The `(byte)` cast: keep the low 8 bits, read them as a signed byte. */
  function ToByte(x: int): (r: int)
    ensures -128 <= r <= 127
    ensures (r - x) % 256 == 0
    ensures -128 <= x <= 127 ==> r == x
  {
    var m := x % 256;
    if m > 127 then m - 256 else m
  }

  /** The sign of a comparison result. */
  function Sign(x: int): int { if x < 0 then -1 else if x > 0 then 1 else 0 }

  function DigitChar(d: nat): (c: char)
    requires d < 10
    ensures '0' <= c <= '9'
  {
    (48 + d) as char
  }

  function Digits(n: nat): (s: string)
    ensures |s| >= 1
    ensures |s| == 1 <==> n < 10
    ensures forall i :: 0 <= i < |s| ==> '0' <= s[i] <= '9'
    decreases n
  {
    if n < 10 then [DigitChar(n)] else Digits(n / 10) + [DigitChar(n % 10)]
  }

  /** Decimal rendering used by Java string concatenation (`"x" + 12L` is `"x12"`). */
  function DecimalString(n: int): (s: string)
    ensures |s| >= 1
  {
    if n < 0 then "-" + Digits(-n) else Digits(n)
  }

  lemma {:induction false} DigitsInjective(n: nat, m: nat)
    requires Digits(n) == Digits(m)
    ensures n == m
    decreases n
  {
    if n < 10 && m < 10 {
      assert Digits(n)[0] == DigitChar(n) && Digits(m)[0] == DigitChar(m);
    } else if n >= 10 && m >= 10 {
      var s, t := Digits(n), Digits(m);
      assert s == Digits(n / 10) + [DigitChar(n % 10)];
      assert t == Digits(m / 10) + [DigitChar(m % 10)];
      assert Digits(n / 10) == s[..|s| - 1] && Digits(m / 10) == t[..|t| - 1];
      DigitsInjective(n / 10, m / 10);
      assert DigitChar(n % 10) == s[|s| - 1] == t[|t| - 1] == DigitChar(m % 10);
    }
  }

  /** The rendering starts with a minus sign exactly for negative numbers. */
  lemma DecimalStringSign(n: int)
    ensures DecimalString(n)[0] == '-' <==> n < 0
  {
    if n >= 0 { assert DecimalString(n)[0] == Digits(n)[0]; }
  }

  /** Distinct integers render as distinct decimal strings. */
  lemma DecimalStringInjective(a: int, b: int)
    requires DecimalString(a) == DecimalString(b)
    ensures a == b
  {
    DecimalStringSign(a);
    DecimalStringSign(b);
    if a < 0 && b < 0 {
      assert Digits(-a) == DecimalString(a)[1..];
      DigitsInjective(-a, -b);
    } else if a >= 0 && b >= 0 {
      DigitsInjective(a, b);
    }
  }

  /** Java's String.compareTo: the difference of the first differing characters,
      or the difference of the lengths when one string is a prefix of the other.
      Characters are Unicode scalar values here and UTF-16 code units in Java, so the
      two agree on strings within the Basic Multilingual Plane. */
  function StringCompare(a: string, b: string): int
    decreases |a|
  {
    if |a| == 0 || |b| == 0 then |a| - |b|
    else if a[0] != b[0] then (a[0] as int) - (b[0] as int)
    else StringCompare(a[1..], b[1..])
  }

  lemma {:induction false} StringCompareZeroIff(a: string, b: string)
    ensures StringCompare(a, b) == 0 <==> a == b
    decreases |a|
  {
    if |a| == 0 || |b| == 0 {
    } else if a[0] != b[0] {
    } else {
      StringCompareZeroIff(a[1..], b[1..]);
      assert a == [a[0]] + a[1..] && b == [b[0]] + b[1..];
    }
  }

  lemma {:induction false} StringCompareAntisymmetric(a: string, b: string)
    ensures StringCompare(a, b) == -StringCompare(b, a)
    decreases |a|
  {
    if |a| == 0 || |b| == 0 {
    } else if a[0] != b[0] {
    } else {
      StringCompareAntisymmetric(a[1..], b[1..]);
    }
  }

  /** Java's String.hashCode: s[0]*31^(n-1) + ... + s[n-1], in 32-bit arithmetic,
      over the characters; Java's value for strings within the Basic Multilingual
      Plane, where each character is one UTF-16 code unit. */
  function StringHash(s: string): (h: int)
    ensures IsInt(h)
    decreases |s|
  {
    if |s| == 0 then 0 else WrapInt(31 * StringHash(s[..|s| - 1]) + (s[|s| - 1] as int))
  }

  /** `List.remove(Object)`: drop the first occurrence, if any. */
  function RemoveFirst<T(==)>(s: seq<T>, x: T): (r: seq<T>)
    ensures x in s ==> |r| == |s| - 1
    ensures x !in s ==> r == s
  {
    if |s| == 0 then s
    else
      assert s == [s[0]] + s[1..];
      if s[0] == x then s[1..]
      else [s[0]] + RemoveFirst(s[1..], x)
  }

  lemma {:induction false} RemoveFirstAppend<T>(s: seq<T>, x: T, y: T)
    requires x in s
    ensures RemoveFirst(s + [y], x) == RemoveFirst(s, x) + [y]
    decreases |s|
  {
    assert (s + [y])[0] == s[0] && (s + [y])[1..] == s[1..] + [y];
    if s[0] != x {
      RemoveFirstAppend(s[1..], x, y);
    }
  }

  lemma {:induction false} RemoveFirstLast<T>(s: seq<T>, x: T)
    requires x !in s
    ensures RemoveFirst(s + [x], x) == s
    decreases |s|
  {
    if |s| == 0 {
    } else {
      assert (s + [x])[0] == s[0] && (s + [x])[1..] == s[1..] + [x];
      RemoveFirstLast(s[1..], x);
    }
  }

  /** No element occurs twice. */
  predicate Distinct<T(==)>(s: seq<T>) {
    forall i, j :: 0 <= i < j < |s| ==> s[i] != s[j]
  }

  /** Removing an element takes exactly one occurrence of it away, when there is one. */
  lemma {:induction false} RemoveFirstMultiset<T>(s: seq<T>, x: T)
    ensures x in s ==> multiset(RemoveFirst(s, x)) == multiset(s) - multiset{x}
    decreases |s|
  {
    if |s| > 0 {
      assert s == [s[0]] + s[1..];
      if s[0] != x {
        RemoveFirstMultiset(s[1..], x);
      }
    }
  }

  /** Removing an element adds nothing. */
  lemma RemoveFirstSubset<T>(s: seq<T>, x: T)
    ensures forall y :: y in RemoveFirst(s, x) ==> y in s
  {
    RemoveFirstMultiset(s, x);
    forall y | y in RemoveFirst(s, x) ensures y in s {
      assert y in multiset(RemoveFirst(s, x));
    }
  }

  /** Removing an element removes its first slot. */
  lemma {:induction false} RemoveFirstAt<T>(s: seq<T>, i: int)
    requires 0 <= i < |s| && forall j :: 0 <= j < i ==> s[j] != s[i]
    ensures RemoveFirst(s, s[i]) == s[..i] + s[i + 1..]
    decreases i
  {
    if i > 0 {
      var t := s[1..];
      assert t[i - 1] == s[i];
      forall j | 0 <= j < i - 1 ensures t[j] != t[i - 1] {
        assert t[j] == s[j + 1];
      }
      RemoveFirstAt(t, i - 1);
      assert s[..i] + s[i + 1..] == [s[0]] + (t[..i - 1] + t[i..]);
    }
  }

  /** In a list without duplicates, removing an element removes exactly its slot. */
  lemma RemoveFirstDistinct<T>(s: seq<T>, i: int)
    requires Distinct(s) && 0 <= i < |s|
    ensures RemoveFirst(s, s[i]) == s[..i] + s[i + 1..]
  {
    RemoveFirstAt(s, i);
  }
}
