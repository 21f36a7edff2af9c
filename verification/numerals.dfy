/**
 * Integers as the assembler renders and combines them:
 * Python's `|` and `<<` on masks, and the `%X` / `%d` numerals used for
 * conditional masks and default experiment names.
 */
module Numerals {

  /** `1 << k`. */
  function Pow2(k: nat): (r: nat)
    ensures r >= 1
  {
    if k == 0 then 1 else 2 * Pow2(k - 1)
  }

  /** Bit `k` of the binary expansion of `n`. */
  predicate Bit(n: nat, k: nat)
    decreases k
  {
    if k == 0 then n % 2 == 1 else Bit(n / 2, k - 1)
  }

  /** Python's bitwise `a | b` on non-negative integers, digit by digit. */
  function BitOr(a: nat, b: nat): nat
    decreases a + b
  {
    if a == 0 then b
    else if b == 0 then a
    else 2 * BitOr(a / 2, b / 2) + (if a % 2 == 1 || b % 2 == 1 then 1 else 0)
  }

  lemma {:induction false} ZeroHasNoBits(k: nat)
    ensures !Bit(0, k)
  {
    if k > 0 {
      ZeroHasNoBits(k - 1);
    }
  }

  /** The bits of `a | b` are exactly the bits set in `a` or in `b`. */
  lemma {:induction false} BitOrBits(a: nat, b: nat, k: nat)
    ensures Bit(BitOr(a, b), k) == (Bit(a, k) || Bit(b, k))
    decreases a + b
  {
    if a == 0 {
      ZeroHasNoBits(k);
    } else if b == 0 {
      ZeroHasNoBits(k);
    } else {
      var c := if a % 2 == 1 || b % 2 == 1 then 1 else 0;
      var r := BitOr(a / 2, b / 2);
      assert BitOr(a, b) == 2 * r + c;
      assert (2 * r + c) / 2 == r;
      assert (2 * r + c) % 2 == c;
      if k > 0 {
        BitOrBits(a / 2, b / 2, k - 1);
      }
    }
  }

  /** `1 << i` has exactly one bit set, bit `i`. */
  lemma {:induction false} BitOfPow2(i: nat, k: nat)
    ensures Bit(Pow2(i), k) == (i == k)
    decreases k
  {
    if k > 0 {
      if i == 0 {
        ZeroHasNoBits(k - 1);
      } else {
        assert Pow2(i) / 2 == Pow2(i - 1);
        BitOfPow2(i - 1, k - 1);
      }
    }
  }

  /** `BitOrBits` for every bit position at once. */
  lemma BitOrAllBits(a: nat, b: nat)
    ensures forall k :: Bit(BitOr(a, b), k) == (Bit(a, k) || Bit(b, k))
  {
    forall k: nat
      ensures Bit(BitOr(a, b), k) == (Bit(a, k) || Bit(b, k))
    {
      BitOrBits(a, b, k);
    }
  }

  /** `BitOfPow2` for every bit position at once. */
  lemma Pow2AllBits(i: nat)
    ensures forall k :: Bit(Pow2(i), k) == (i == k)
  {
    forall k: nat
      ensures Bit(Pow2(i), k) == (i == k)
    {
      BitOfPow2(i, k);
    }
  }

  /** `ZeroHasNoBits` for every bit position at once. */
  lemma ZeroHasNoBitsAtAll()
    ensures forall k :: !Bit(0, k)
  {
    forall k: nat
      ensures !Bit(0, k)
    {
      ZeroHasNoBits(k);
    }
  }

  /** The upper-case digit for `d` (Python's `%X` alphabet). */
  function DigitChar(d: nat): char
    requires d < 16
  {
    if d < 10 then ('0' as int + d) as char else ('A' as int + d - 10) as char
  }

  /** The value of a digit character, `-1` for a character that is not a digit. */
  function DigitValue(c: char): int {
    if '0' <= c <= '9' then c as int - '0' as int
    else if 'A' <= c <= 'F' then c as int - 'A' as int + 10
    else -1
  }

  predicate IsDigitIn(c: char, base: nat) {
    0 <= DigitValue(c) < base
  }

  lemma DigitCharValue(d: nat)
    requires d < 16
    ensures DigitValue(DigitChar(d)) == d
  {
  }

  lemma DivMod(n: nat, base: nat)
    requires 2 <= base <= n
    ensures n == (n / base) * base + n % base
    ensures 0 <= n % base < base
    ensures 1 <= n / base < n
  {
  }

  /** The numeral of `n` in `base`, most significant digit first, without leading zeros. */
  function Numeral(n: nat, base: nat): (s: string)
    requires 2 <= base <= 16
    ensures |s| >= 1
    ensures forall i :: 0 <= i < |s| ==> IsDigitIn(s[i], base)
    ensures |s| > 1 ==> s[0] != '0'
    decreases n
  {
    if n < base then
      DigitCharValue(n);
      [DigitChar(n)]
    else
      DivMod(n, base);
      DigitCharValue(n % base);
      var front := Numeral(n / base, base);
      var s := front + [DigitChar(n % base)];
      assert s[0] == front[0];
      s
  }

  /** The value a numeral in `base` denotes. */
  function ValueOf(s: string, base: nat): int
    requires 2 <= base <= 16
  {
    if s == [] then 0 else ValueOf(s[..|s| - 1], base) * base + DigitValue(s[|s| - 1])
  }

  /** Reading back a rendered numeral gives the number it was rendered from. */
  lemma {:induction false} NumeralRoundTrip(n: nat, base: nat)
    requires 2 <= base <= 16
    ensures ValueOf(Numeral(n, base), base) == n
    decreases n
  {
    var s := Numeral(n, base);
    if n < base {
      DigitCharValue(n);
      assert s[..0] == [];
      assert ValueOf(s, base) == ValueOf([], base) * base + n;
    } else {
      DivMod(n, base);
      DigitCharValue(n % base);
      var front := Numeral(n / base, base);
      NumeralRoundTrip(n / base, base);
      assert s[..|s| - 1] == front;
      assert ValueOf(s, base) == ValueOf(front, base) * base + n % base;
    }
  }

  /**
   * Python's `"0x%X" % n`: `%X` puts the minus sign of a negative `n`
   * after the literal `0x`, as in `0x-5`.
   */
  function Hex(n: int): (s: string)
    ensures n >= 0 ==> |s| >= 3 && s[..2] == "0x" && ValueOf(s[2..], 16) == n
    ensures n >= 0 ==> forall i :: 2 <= i < |s| ==> IsDigitIn(s[i], 16)
    ensures n >= 0 && |s| > 3 ==> s[2] != '0'
    ensures n < 0 ==> |s| >= 4 && s[..3] == "0x-" && ValueOf(s[3..], 16) == -n
    ensures n < 0 ==> forall i :: 3 <= i < |s| ==> IsDigitIn(s[i], 16)
    ensures n < 0 && |s| > 4 ==> s[3] != '0'
  {
    if n >= 0 then
      NumeralRoundTrip(n, 16);
      var s := "0x" + Numeral(n, 16);
      assert s[2..] == Numeral(n, 16);
      s
    else
      NumeralRoundTrip(-n, 16);
      var s := "0x-" + Numeral(-n, 16);
      assert s[3..] == Numeral(-n, 16);
      s
  }

  /** Python's `"%d" % n` for a non-negative `n`: decimal digits, no leading zero. */
  function Decimal(n: nat): (s: string)
    ensures ValueOf(s, 10) == n
    ensures |s| >= 1 && forall i :: 0 <= i < |s| ==> '0' <= s[i] <= '9'
    ensures |s| > 1 ==> s[0] != '0'
  {
    NumeralRoundTrip(n, 10);
    Numeral(n, 10)
  }
}
