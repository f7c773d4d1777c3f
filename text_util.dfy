/** String operations that the Python code takes from the language:
    `sep.join(parts)`, decimal formatting of integers in f-strings and
    `int()` on a run of digits, `str.lower()` restricted to ASCII, the
    `in` substring test, and a character count used to state how many
    lines or markers a formatted text holds. */
module TextUtil {

  /** `sep.join(parts)`. */
  function Join(parts: seq<string>, sep: string): string
  {
    if |parts| == 0 then ""
    else if |parts| == 1 then parts[0]
    else parts[0] + sep + Join(parts[1..], sep)
  }

  /** `sub in s`: `sub` starts at some position of `s`. */
  predicate Contains(s: string, sub: string)
    decreases |s|
  {
    StartsWith(s, sub) || (|s| > 0 && Contains(s[1..], sub))
  }

  /** `sub` stands in `s` at index `i`. */
  predicate OccursAt(s: string, sub: string, i: int)
  {
    0 <= i && i + |sub| <= |s| && s[i..i + |sub|] == sub
  }

  /** `Contains` means occurring at some index. */
  lemma {:induction false} ContainsIffOccurs(s: string, sub: string)
    ensures Contains(s, sub) <==> exists i :: 0 <= i <= |s| - |sub| && OccursAt(s, sub, i)
    decreases |s|
  {
    if Contains(s, sub) {
      if StartsWith(s, sub) {
        assert OccursAt(s, sub, 0);
      } else {
        ContainsIffOccurs(s[1..], sub);
        var i :| 0 <= i <= |s[1..]| - |sub| && OccursAt(s[1..], sub, i);
        assert s[i + 1..i + 1 + |sub|] == s[1..][i..i + |sub|];
        assert OccursAt(s, sub, i + 1);
      }
    }
    if exists i :: 0 <= i <= |s| - |sub| && OccursAt(s, sub, i) {
      var i :| 0 <= i <= |s| - |sub| && OccursAt(s, sub, i);
      if i > 0 {
        assert s[1..][i - 1..i - 1 + |sub|] == s[i..i + |sub|];
        assert OccursAt(s[1..], sub, i - 1);
        ContainsIffOccurs(s[1..], sub);
      } else {
        assert StartsWith(s, sub);
      }
    }
  }

  /** A text holding `a + b` holds `a`. */
  lemma {:induction false} ContainsPrefixOf(s: string, a: string, b: string)
    requires Contains(s, a + b)
    ensures Contains(s, a)
    decreases |s|
  {
    if StartsWith(s, a + b) {
      assert s[..|a|] == (a + b)[..|a|] == a;
    } else {
      ContainsPrefixOf(s[1..], a, b);
    }
  }

  /** A text holding `sub` holds its first character. */
  lemma {:induction false} ContainsFirst(s: string, sub: string)
    requires Contains(s, sub) && |sub| > 0
    ensures sub[0] in s
    decreases |s|
  {
    if StartsWith(s, sub) {
      assert s[0] == s[..|sub|][0];
    } else {
      ContainsFirst(s[1..], sub);
      assert sub[0] in s[1..];
    }
  }

  /** `s.startswith(prefix)`. */
  predicate StartsWith(s: string, prefix: string)
  {
    |prefix| <= |s| && s[..|prefix|] == prefix
  }

  /** A text starts with any of its prefixes. */
  lemma StartsWithConcat(a: string, b: string)
    ensures StartsWith(a + b, a)
  {
    assert (a + b)[..|a|] == a;
  }

  /** `s.endswith(suffix)`. */
  predicate EndsWith(s: string, suffix: string)
  {
    |suffix| <= |s| && s[|s| - |suffix|..] == suffix
  }

  // ---------------------------------------------------------------------
  // ASCII case mapping

  function LowerChar(c: char): char
  {
    if 'A' <= c <= 'Z' then (c as int + 32) as char else c
  }

  function UpperChar(c: char): char
  {
    if 'a' <= c <= 'z' then (c as int - 32) as char else c
  }

  /** `s.lower()` on the ASCII letters. */
  function Lower(s: string): string
  {
    seq(|s|, i requires 0 <= i < |s| => LowerChar(s[i]))
  }

  /** `s.upper()` on the ASCII letters. */
  function Upper(s: string): string
  {
    seq(|s|, i requires 0 <= i < |s| => UpperChar(s[i]))
  }

  /** Upper-casing a text first does not change its lower-case form. */
  lemma LowerOfUpper(s: string)
    ensures Lower(Upper(s)) == Lower(s)
  {
    forall i | 0 <= i < |s|
      ensures Lower(Upper(s))[i] == Lower(s)[i]
    {
      var c := s[i];
      assert Upper(s)[i] == UpperChar(c);
    }
  }

  // ---------------------------------------------------------------------
  // Decimal digits

  predicate IsDigit(c: char)
  {
    '0' <= c <= '9'
  }

  predicate AllDigits(s: string)
  {
    forall i :: 0 <= i < |s| ==> IsDigit(s[i])
  }

  function DigitChar(d: nat): (c: char)
    requires d < 10
    ensures IsDigit(c) && c as int - '0' as int == d
  {
    ('0' as int + d) as char
  }

  /** The decimal text of `n`, as an f-string renders a non-negative int. */
  function NatToString(n: nat): (s: string)
    ensures |s| > 0 && AllDigits(s)
  {
    if n < 10 then [DigitChar(n)] else NatToString(n / 10) + [DigitChar(n % 10)]
  }

  /** The decimal text of any int, with a leading '-' when it is negative. */
  function IntToString(n: int): string
  {
    if n < 0 then "-" + NatToString(-n) else NatToString(n)
  }

  /** `int(ds)` for a run of ASCII digits. */
  function DigitsValue(ds: string): nat
    requires AllDigits(ds)
  {
    if |ds| == 0 then 0
    else DigitsValue(ds[..|ds| - 1]) * 10 + (ds[|ds| - 1] as int - '0' as int)
  }

  /** Reading back the decimal text of a number gives the number. */
  lemma {:induction false} DigitsValueOfNatToString(n: nat)
    ensures DigitsValue(NatToString(n)) == n
  {
    if n >= 10 {
      var s := NatToString(n);
      assert s[..|s| - 1] == NatToString(n / 10);
      DigitsValueOfNatToString(n / 10);
    }
  }

  /** The number of leading ASCII digits of `s`. */
  function LeadingDigits(s: string): (k: nat)
    ensures k <= |s|
    ensures AllDigits(s[..k])
    ensures k < |s| ==> !IsDigit(s[k])
  {
    if |s| == 0 || !IsDigit(s[0]) then 0
    else
      var k := 1 + LeadingDigits(s[1..]);
      assert s[..k] == [s[0]] + s[1..][..k - 1];
      k
  }

  /** A run of digits followed by a non-digit is read whole. */
  lemma ReadNumber(ds: string, rest: string)
    requires AllDigits(ds)
    requires |rest| > 0 && !IsDigit(rest[0])
    ensures (ds + rest)[..LeadingDigits(ds + rest)] == ds
  {
    LeadingDigitsOfPrefix(ds, rest);
    assert (ds + rest)[..|ds|] == ds;
  }

  /** The same, for the count alone. */
  lemma {:induction false} LeadingDigitsOfPrefix(ds: string, rest: string)
    requires AllDigits(ds)
    requires |rest| > 0 && !IsDigit(rest[0])
    ensures LeadingDigits(ds + rest) == |ds|
  {
    if |ds| > 0 {
      assert (ds + rest)[1..] == ds[1..] + rest;
      LeadingDigitsOfPrefix(ds[1..], rest);
    } else {
      assert ds + rest == rest;
    }
  }

  // ---------------------------------------------------------------------
  // Counting characters

  function CountChar(c: char, s: string): nat
  {
    if |s| == 0 then 0 else (if s[0] == c then 1 else 0) + CountChar(c, s[1..])
  }

  function SumCounts(c: char, parts: seq<string>): nat
  {
    if |parts| == 0 then 0 else CountChar(c, parts[0]) + SumCounts(c, parts[1..])
  }

  lemma {:induction false} CountConcat(c: char, a: string, b: string)
    ensures CountChar(c, a + b) == CountChar(c, a) + CountChar(c, b)
  {
    if |a| > 0 {
      assert (a + b)[0] == a[0];
      assert (a + b)[1..] == a[1..] + b;
      CountConcat(c, a[1..], b);
    } else {
      assert a + b == b;
    }
  }

  lemma {:induction false} CountDigits(c: char, s: string)
    requires AllDigits(s) && !IsDigit(c)
    ensures CountChar(c, s) == 0
  {
    if |s| > 0 {
      CountDigits(c, s[1..]);
    }
  }

  /** Every separator of a join adds its own occurrences of `c` to those of
      the parts. */
  lemma {:induction false} CountJoin(c: char, parts: seq<string>, sep: string)
    ensures |parts| > 0 ==>
      CountChar(c, Join(parts, sep)) == SumCounts(c, parts) + (|parts| - 1) * CountChar(c, sep)
    ensures |parts| == 0 ==> CountChar(c, Join(parts, sep)) == 0
  {
    if |parts| > 1 {
      CountJoin(c, parts[1..], sep);
      CountConcat(c, parts[0] + sep, Join(parts[1..], sep));
      CountConcat(c, parts[0], sep);
      assert SumCounts(c, parts) == CountChar(c, parts[0]) + SumCounts(c, parts[1..]);
      assert (|parts| - 1) * CountChar(c, sep) == (|parts| - 2) * CountChar(c, sep) + CountChar(c, sep);
    } else if |parts| == 1 {
      assert SumCounts(c, parts[1..]) == 0;
    }
  }

  /** A join starts with its first part. */
  lemma JoinStartsWithFirst(parts: seq<string>, sep: string)
    ensures |parts| > 0 ==> StartsWith(Join(parts, sep), parts[0])
  {
    if |parts| > 1 {
      assert Join(parts, sep) == parts[0] + (sep + Join(parts[1..], sep));
    }
  }
}
