/** Integers as text, the way the program writes and reads them: in a given
    base, with the lower-case digits 0-9a-z, and split or joined on one
    separator character. */
module Numerals {
  import opened Wrappers

  const MIN_INT64: int := -0x8000_0000_0000_0000
  const MAX_INT64: int := 0x7fff_ffff_ffff_ffff

  predicate IsInt64(n: int) {
    MIN_INT64 <= n <= MAX_INT64
  }

  /** A result brought back into the signed 64-bit range. */
  function Wrap64(n: int): int {
    (n + 0x8000_0000_0000_0000) % 0x1_0000_0000_0000_0000 - 0x8000_0000_0000_0000
  }

  lemma WrapIsIdentity(n: int)
    requires IsInt64(n)
    ensures Wrap64(n) == n
  {
  }

  function Min(a: int, b: int): int {
    if a < b then a else b
  }

  // ---------- Digits ----------

  /** Upper-case letters are read as well as lower-case ones. */
  function DigitValue(c: char): Option<nat> {
    if '0' <= c <= '9' then Some(c as int - '0' as int)
    else if 'a' <= c <= 'z' then Some(c as int - 'a' as int + 10)
    else if 'A' <= c <= 'Z' then Some(c as int - 'A' as int + 10)
    else None
  }

  function DigitChar(d: nat): (c: char)
    requires d < 36
    ensures '0' <= c <= '9' || 'a' <= c <= 'z'
    ensures DigitValue(c) == Some(d)
  {
    if d < 10 then ('0' as int + d) as char else ('a' as int + (d - 10)) as char
  }

  // ---------- Printing ----------

  function FormatNat(n: nat, base: nat): (s: string)
    requires 2 <= base <= 36
    ensures s != []
    ensures forall i :: 0 <= i < |s| ==> '0' <= s[i] <= '9' || 'a' <= s[i] <= 'z'
    decreases n
  {
    if n < base then [DigitChar(n)] else FormatNat(n / base, base) + [DigitChar(n % base)]
  }

  function FormatInt(n: int, base: nat): string
    requires 2 <= base <= 36
  {
    if n < 0 then ['-'] + FormatNat(-n, base) else FormatNat(n, base)
  }

  // ---------- Reading ----------

  function ParseNat(s: string, base: nat): Option<nat>
    requires 2 <= base <= 36
  {
    if s == [] then None
    else
      var last := DigitValue(s[|s| - 1]);
      if last.None? || last.value >= base then None
      else if |s| == 1 then last
      else
        var front := ParseNat(s[..|s| - 1], base);
        if front.None? then None else Some(front.value * base + last.value)
  }

  function ParseSigned(s: string, base: nat): Option<int>
    requires 2 <= base <= 36
  {
    if s == [] then None
    else if s[0] == '-' then
      var n := ParseNat(s[1..], base);
      if n.None? then None else Some(-(n.value as int))
    else if s[0] == '+' then ParseNat(s[1..], base)
    else ParseNat(s, base)
  }

  /** A 64-bit read: a value outside the type's range is refused. */
  function ParseInt(s: string, base: nat): Option<int>
    requires 2 <= base <= 36
  {
    var n := ParseSigned(s, base);
    if n.Some? && IsInt64(n.value) then n else None
  }

  lemma DivMod(n: nat, d: nat)
    requires d > 0
    ensures (n / d) * d + n % d == n
  {
  }

  lemma ParsePush(s: string, front: nat, last: nat, base: nat)
    requires 2 <= base <= 36 && last < base
    requires s != [] && ParseNat(s, base) == Some(front)
    ensures ParseNat(s + [DigitChar(last)], base) == Some(front * base + last)
  {
    var t := s + [DigitChar(last)];
    assert t[..|t| - 1] == s;
  }

  lemma {:induction false} ParseFormatNat(n: nat, base: nat)
    requires 2 <= base <= 36
    ensures ParseNat(FormatNat(n, base), base) == Some(n)
    decreases n
  {
    if n >= base {
      ParseFormatNat(n / base, base);
      ParsePush(FormatNat(n / base, base), n / base, n % base, base);
      DivMod(n, base);
    }
  }

  lemma ParseFormatSigned(n: int, base: nat)
    requires 2 <= base <= 36
    ensures ParseSigned(FormatInt(n, base), base) == Some(n)
  {
    ParseFormatNat(if n < 0 then -n else n, base);
    if n < 0 {
      assert FormatInt(n, base)[1..] == FormatNat(-n, base);
    }
  }

  /** Every 64-bit integer, negative ones and the least one included, comes
      back from its text. */
  lemma ParseFormatInt(n: int, base: nat)
    requires 2 <= base <= 36 && IsInt64(n)
    ensures ParseInt(FormatInt(n, base), base) == Some(n)
  {
    ParseFormatSigned(n, base);
  }

  /** The digits are the ASCII ones, the most significant first. */
  lemma Samples()
    ensures FormatInt(-1205, 10) == "-1205" && FormatInt(255, 16) == "ff" && FormatInt(1295, 36) == "zz"
    ensures ParseInt("+7", 10) == Some(7) && ParseInt("FF", 16) == Some(255) && ParseInt("", 10).None?
    ensures ParseInt("9", 8).None?
  {
    assert FormatNat(120, 10) == FormatNat(12, 10) + "0";
  }

  lemma FormatIntInjective(m: int, n: int, base: nat)
    requires 2 <= base <= 36
    requires FormatInt(m, base) == FormatInt(n, base)
    ensures m == n
  {
    ParseFormatSigned(m, base);
    ParseFormatSigned(n, base);
  }

  function Pow(base: nat, k: nat): (p: nat)
    ensures base > 0 ==> p > 0
  {
    if k == 0 then 1 else base * Pow(base, k - 1)
  }

  lemma MulMonotone(d: nat, a: int, b: int)
    requires a <= b
    ensures d * a <= d * b
  {
  }

  lemma DivBelow(n: nat, d: nat, q: nat)
    requires d > 0 && n < d * q
    ensures n / d < q
  {
    DivMod(n, d);
    if n / d >= q {
      MulMonotone(d, q, n / d);
    }
  }

  lemma {:induction false} FormatNatLength(n: nat, base: nat, k: nat)
    requires 2 <= base <= 36 && 1 <= k && n < Pow(base, k)
    ensures |FormatNat(n, base)| <= k
    decreases k
  {
    if n >= base {
      assert k != 1 by { assert Pow(base, 1) == base * Pow(base, 0); }
      assert n / base < Pow(base, k - 1) by {
        assert n < base * Pow(base, k - 1);
        DivBelow(n, base, Pow(base, k - 1));
      }
      FormatNatLength(n / base, base, k - 1);
    }
  }

  /** A sign and thirteen base-36 digits are enough for any 64-bit integer. */
  lemma FormatInt36Length(n: int)
    requires IsInt64(n)
    ensures |FormatInt(n, 36)| <= 14
  {
    assert Pow(36, 13) == 170581728179578208256 by {
      assert Pow(36, 4) == 1679616;
      assert Pow(36, 8) == 2821109907456;
      assert Pow(36, 12) == 4738381338321616896;
    }
    FormatNatLength(if n < 0 then -n else n, 36, 13);
  }

  predicate Free(s: string, sep: char) {
    forall i :: 0 <= i < |s| ==> s[i] != sep
  }

  lemma FreeAppend(s: string, t: string, sep: char)
    ensures Free(s + t, sep) <==> Free(s, sep) && Free(t, sep)
  {
    if Free(s + t, sep) {
      assert forall i :: 0 <= i < |s| ==> s[i] == (s + t)[i];
      assert forall i :: 0 <= i < |t| ==> t[i] == (s + t)[|s| + i];
    }
  }

  /** A printed integer holds letters, digits and at most a minus sign, so no
      separator of any of the program's formats. */
  lemma FormatIntFree(n: int, base: nat, sep: char)
    requires 2 <= base <= 36
    requires sep in "|:"
    ensures Free(FormatInt(n, base), sep)
  {
    var digits := FormatNat(if n < 0 then -n else n, base);
    assert Free(digits, sep);
  }

  // ---------- Leading zeros ----------

  function Zeros(k: int): string {
    if k <= 0 then [] else ['0'] + Zeros(k - 1)
  }

  /** A decimal of at least the given width. */
  function Padded(n: nat, width: nat): string {
    Zeros(width - |FormatNat(n, 10)|) + FormatNat(n, 10)
  }

  lemma {:induction false} LeadingZero(s: string, base: nat)
    requires 2 <= base <= 36 && s != [] && ParseNat(s, base).Some?
    ensures ParseNat(['0'] + s, base) == ParseNat(s, base)
    decreases |s|
  {
    var t := ['0'] + s;
    assert t[..|t| - 1] == ['0'] + s[..|s| - 1];
    if |s| == 1 {
      assert t[..|t| - 1] == ['0'];
    } else {
      LeadingZero(s[..|s| - 1], base);
    }
  }

  lemma {:induction false} LeadingZeros(k: int, s: string, base: nat)
    requires 2 <= base <= 36 && s != [] && ParseNat(s, base).Some?
    ensures ParseNat(Zeros(k) + s, base) == ParseNat(s, base)
    decreases k
  {
    if k <= 0 {
      assert Zeros(k) + s == s;
    } else {
      var t := Zeros(k - 1) + s;
      assert Zeros(k) + s == ['0'] + t by {
        assert Zeros(k) == ['0'] + Zeros(k - 1);
      }
      LeadingZeros(k - 1, s, base);
      LeadingZero(t, base);
    }
  }

  lemma PaddedKeepsValue(n: nat, width: nat)
    ensures ParseNat(Padded(n, width), 10) == Some(n)
  {
    ParseFormatNat(n, 10);
    LeadingZeros(width - |FormatNat(n, 10)|, FormatNat(n, 10), 10);
  }

  lemma {:induction false} ZerosFree(k: int, sep: char)
    requires sep != '0'
    ensures Free(Zeros(k), sep)
    decreases k
  {
    if k > 0 {
      ZerosFree(k - 1, sep);
    }
  }

  lemma PaddedFree(n: nat, width: nat, sep: char)
    requires sep in "|:-"
    ensures Free(Padded(n, width), sep)
  {
    ZerosFree(width - |FormatNat(n, 10)|, sep);
    FreeAppend(Zeros(width - |FormatNat(n, 10)|), FormatNat(n, 10), sep);
  }

  // ---------- Separators ----------

  function Join(parts: seq<string>, sep: char): string {
    if |parts| == 0 then []
    else if |parts| == 1 then parts[0]
    else parts[0] + [sep] + Join(parts[1..], sep)
  }

  function Split(s: string, sep: char): (parts: seq<string>)
    ensures |parts| >= 1
  {
    if s == [] then [[]]
    else
      var rest := Split(s[1..], sep);
      if s[0] == sep then [[]] + rest else [[s[0]] + rest[0]] + rest[1..]
  }

  lemma {:induction false} SplitFree(s: string, sep: char)
    requires Free(s, sep)
    ensures Split(s, sep) == [s]
  {
    if s != [] {
      SplitFree(s[1..], sep);
      assert [s[0]] + s[1..] == s;
    }
  }

  lemma {:induction false} SplitAt(head: string, sep: char, tail: string)
    requires Free(head, sep)
    ensures Split(head + [sep] + tail, sep) == [head] + Split(tail, sep)
  {
    var s := head + [sep] + tail;
    if head == [] {
      assert s[1..] == tail;
    } else {
      SplitAt(head[1..], sep, tail);
      assert s[1..] == head[1..] + [sep] + tail;
      assert [head[0]] + head[1..] == head;
    }
  }

  lemma {:induction false} SplitJoin(parts: seq<string>, sep: char)
    requires |parts| >= 1
    requires forall i :: 0 <= i < |parts| ==> Free(parts[i], sep)
    ensures Split(Join(parts, sep), sep) == parts
  {
    if |parts| == 1 {
      SplitFree(parts[0], sep);
    } else {
      SplitJoin(parts[1..], sep);
      SplitAt(parts[0], sep, Join(parts[1..], sep));
      assert [parts[0]] + parts[1..] == parts;
    }
  }
}
