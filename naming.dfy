/** Container identities: `generate_name` (autohosts/incus.py) and the
    numbered ranges the four workflows walk through. */
module Naming {

  predicate IsDigit(c: char)
  {
    '0' <= c <= '9'
  }

  predicate AllDigits(s: string)
  {
    forall i :: 0 <= i < |s| ==> IsDigit(s[i])
  }

  function DigitValue(c: char): nat
    requires IsDigit(c)
  {
    c as int - '0' as int
  }

  function DigitChar(d: nat): (c: char)
    requires d < 10
    ensures IsDigit(c) && DigitValue(c) == d
  {
    ('0' as int + d) as char
  }

  /** The value of a string of decimal digits, most significant first. */
  function ParseDecimal(s: string): nat
    requires AllDigits(s)
  {
    if s == [] then 0
    else 10 * ParseDecimal(s[..|s| - 1]) + DigitValue(s[|s| - 1])
  }

  function Pow10(k: nat): (p: nat)
    ensures p >= 1
  {
    if k == 0 then 1 else 10 * Pow10(k - 1)
  }

  /** Python's `str(n)` for `n >= 0`. */
  function Decimal(n: nat): string
  {
    if n < 10 then [DigitChar(n)] else Decimal(n / 10) + [DigitChar(n % 10)]
  }

  /** `str(n)` is a non-empty string of digits without a leading zero, and
      reading it back gives `n`. */
  lemma {:induction false} DecimalRoundTrip(n: nat)
    ensures var s := Decimal(n);
            |s| >= 1 && AllDigits(s) && ParseDecimal(s) == n && (|s| > 1 ==> s[0] != '0')
  {
    if n >= 10 {
      DecimalRoundTrip(n / 10);
      var s := Decimal(n);
      assert s[..|s| - 1] == Decimal(n / 10);
    }
  }

  /** Decimal has at most `k` digits exactly when the number is below 10^k. */
  lemma {:induction false} DecimalLength(n: nat, k: nat)
    requires k >= 1
    ensures |Decimal(n)| <= k <==> n < Pow10(k)
  {
    if k == 1 {
      assert Pow10(1) == 10;
    } else if n >= 10 {
      DecimalLength(n / 10, k - 1);
    } else {
      assert Pow10(k) == 10 * Pow10(k - 1);
    }
  }

  /** Left-pads `s` with '0' up to `width` characters, as the `0` fill of a
      Python format spec does; longer strings are kept whole. */
  function ZeroPad(s: string, width: nat): string
  {
    if |s| >= width then s else seq(width - |s|, _ => '0') + s
  }

  /** Leading zeros do not change a decimal value. */
  lemma {:induction false} LeadingZeros(z: string, s: string)
    requires forall i :: 0 <= i < |z| ==> z[i] == '0'
    requires AllDigits(s)
    ensures AllDigits(z + s) && ParseDecimal(z + s) == ParseDecimal(s)
    decreases |s| + |z|
  {
    if s != [] {
      assert (z + s)[..|z + s| - 1] == z + s[..|s| - 1];
      LeadingZeros(z, s[..|s| - 1]);
    } else if z != [] {
      assert z + s == z;
      assert z[..|z| - 1] + [] == z[..|z| - 1];
      LeadingZeros(z[..|z| - 1], []);
    }
  }

  /** `generate_name(prefix, number)`, i.e. `f"{prefix}{number:03d}"`, for a
      non-negative number. */
  function GenerateName(prefix: string, n: nat): string
  {
    prefix + ZeroPad(Decimal(n), 3)
  }

  /** Padding puts only zeros in front, and reaches the width. */
  lemma ZeroPadSplit(s: string, width: nat) returns (z: string)
    ensures ZeroPad(s, width) == z + s && |z + s| >= width
    ensures forall i :: 0 <= i < |z| ==> z[i] == '0'
  {
    if |s| >= width {
      z := [];
      assert z + s == s;
    } else {
      z := seq(width - |s|, _ => '0');
    }
  }

  /** A generated name is the prefix followed by at least three decimal
      digits that spell the number. */
  lemma NameShape(prefix: string, n: nat)
    ensures var name := GenerateName(prefix, n);
            && |name| >= |prefix| + 3 && name[..|prefix|] == prefix
            && AllDigits(name[|prefix|..])
            && ParseDecimal(name[|prefix|..]) == n
  {
    var digits := Decimal(n);
    DecimalRoundTrip(n);
    var z := ZeroPadSplit(digits, 3);
    LeadingZeros(z, digits);
    var padded := z + digits;
    var name := prefix + padded;
    assert name == GenerateName(prefix, n);
    assert name[..|prefix|] == prefix && name[|prefix|..] == padded;
  }

  /** The suffix is exactly three digits up to 999 and the plain decimal,
      not truncated, from 1000 on. */
  lemma NameSuffix(prefix: string, n: nat)
    ensures n <= 999 ==> |GenerateName(prefix, n)| == |prefix| + 3
    ensures n >= 1000 ==> GenerateName(prefix, n) == prefix + Decimal(n)
  {
    DecimalLength(n, 3);
    assert Pow10(3) == 1000;
  }

  /** Within one prefix, different numbers give different names. */
  lemma NameInjective(prefix: string, n: nat, m: nat)
    requires GenerateName(prefix, n) == GenerateName(prefix, m)
    ensures n == m
  {
    NameShape(prefix, n);
    NameShape(prefix, m);
  }

  /** `name` is `generate_name(prefix, i)` for some `i` in `range(lo, hi)`. */
  ghost predicate InRange(prefix: string, lo: nat, hi: int, name: string)
  {
    exists i: nat :: lo <= i < hi && name == GenerateName(prefix, i)
  }

  /** One past the last `i` of `range(start, start + count)`: no `i` at all
      when `count` is not positive. */
  function RangeEnd(start: nat, count: int): nat
  {
    if count <= 0 then start else start + count
  }

  /** The names `range(lo, hi)` visits, in ascending order. */
  function NameRange(prefix: string, lo: nat, hi: nat): (names: seq<string>)
    requires lo <= hi
  {
    seq(hi - lo, k requires 0 <= k < hi - lo => GenerateName(prefix, lo + k))
  }

  /** `generate_name(prefix, i)` computed inside the loop over `range(lo, hi)`:
      the entry of the range's names for that iteration. */
  method RangeName(prefix: string, lo: nat, hi: nat, i: nat) returns (name: string)
    requires lo <= i < hi
    ensures name == NameRange(prefix, lo, hi)[i - lo]
  {
    name := GenerateName(prefix, i);
  }

  /** One more iteration visits one more name, at the end. */
  lemma NameRangeSnoc(prefix: string, lo: nat, hi: nat)
    requires lo < hi
    ensures NameRange(prefix, lo, hi) == NameRange(prefix, lo, hi - 1) + [GenerateName(prefix, hi - 1)]
  {
    var a, b := NameRange(prefix, lo, hi), NameRange(prefix, lo, hi - 1) + [GenerateName(prefix, hi - 1)];
    assert |a| == |b|;
    forall k | 0 <= k < |a| ensures a[k] == b[k] {
      if k < hi - 1 - lo {
        assert b[k] == NameRange(prefix, lo, hi - 1)[k];
      }
    }
  }

  /** The first `j` names of a range are the range cut short after `j`
      iterations. */
  lemma NameRangePrefix(prefix: string, lo: nat, hi: nat, j: nat)
    requires lo <= hi && j <= hi - lo
    ensures NameRange(prefix, lo, hi)[..j] == NameRange(prefix, lo, lo + j)
  {
  }

  /** The name `range(lo, hi)` visits for `i`. */
  lemma NameRangeHas(prefix: string, lo: nat, hi: nat, i: nat)
    requires lo <= i < hi
    ensures GenerateName(prefix, i) in NameRange(prefix, lo, hi)
  {
    assert NameRange(prefix, lo, hi)[i - lo] == GenerateName(prefix, i);
  }

  /** A name is visited by `range(lo, hi)` exactly when it is generated from
      a number of that range. */
  lemma NameRangeMembers(prefix: string, lo: nat, hi: nat, name: string)
    requires lo <= hi
    ensures name in NameRange(prefix, lo, hi) <==> InRange(prefix, lo, hi, name)
  {
    if name in NameRange(prefix, lo, hi) {
      var k :| 0 <= k < hi - lo && NameRange(prefix, lo, hi)[k] == name;
      var i: nat := lo + k;
      assert InRange(prefix, lo, hi, name) by {
        assert lo <= i < hi && name == GenerateName(prefix, i);
      }
    }
    if InRange(prefix, lo, hi, name) {
      var i: nat :| lo <= i < hi && name == GenerateName(prefix, i);
      NameRangeHas(prefix, lo, hi, i);
    }
  }

  /** `range(start, start + count)` visits `count` names, none when
      `count` is not positive, and a name is among them exactly when it is
      `generate_name(prefix, i)` for an `i` of that range. */
  lemma RangeVisits(prefix: string, start: nat, count: int, name: string)
    ensures |NameRange(prefix, start, RangeEnd(start, count))| == if count > 0 then count else 0
    ensures name in NameRange(prefix, start, RangeEnd(start, count)) <==>
              exists i: nat :: start <= i < start + count && name == GenerateName(prefix, i)
  {
    NameRangeMembers(prefix, start, RangeEnd(start, count), name);
  }

  /** No name occurs twice in `names`. */
  ghost predicate Distinct(names: seq<string>)
  {
    forall a, b :: 0 <= a < b < |names| ==> names[a] != names[b]
  }

  /** A range never visits the same name twice. */
  lemma NameRangeDistinct(prefix: string, lo: nat, hi: nat)
    requires lo <= hi
    ensures Distinct(NameRange(prefix, lo, hi))
  {
    var names := NameRange(prefix, lo, hi);
    forall a, b | 0 <= a < b < |names| ensures names[a] != names[b] {
      if names[a] == names[b] {
        NameInjective(prefix, lo + a, lo + b);
      }
    }
  }
}
