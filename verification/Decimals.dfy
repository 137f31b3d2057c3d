/** Decimal spelling of the natural numbers: what a template literal such as `sdk-${n}` writes,
    and what `Number` reads back from a string of ASCII digits. */
module Decimals {

  predicate IsDigit(c: char) {
    '0' <= c <= '9'
  }

  predicate AllDigits(s: string) {
    forall i :: 0 <= i < |s| ==> IsDigit(s[i])
  }

  function Spell(n: nat): (s: string)
    ensures |s| > 0 && AllDigits(s)
  {
    var last := [('0' as int + n % 10) as char];
    if n < 10 then last else Spell(n / 10) + last
  }

  function Read(s: string): (n: nat)
    requires AllDigits(s)
  {
    if s == "" then 0
    else Read(s[..|s| - 1]) * 10 + (s[|s| - 1] as int - '0' as int)
  }

  lemma {:induction false} ReadSpell(n: nat)
    ensures Read(Spell(n)) == n
  {
    if n < 10 {
      assert Spell(n)[..0] == "";
    } else {
      ReadSpell(n / 10);
      var s := Spell(n);
      assert s[..|s| - 1] == Spell(n / 10);
    }
  }

  /** Digits count in tens, */
  lemma ReadNext(s: string, digit: char)
    requires AllDigits(s) && IsDigit(digit)
    ensures AllDigits(s + [digit]) && Read(s + [digit]) == 10 * Read(s) + (digit as int - '0' as int)
  {
    assert (s + [digit])[..|s|] == s;
  }

  /** and a number is spelled without leading zeros. */
  lemma {:induction false} NoLeadingZero(n: nat)
    ensures Spell(n)[0] == '0' <==> n == 0
  {
    if n >= 10 {
      NoLeadingZero(n / 10);
    }
  }

  lemma SpellInjective(m: nat, n: nat)
    requires Spell(m) == Spell(n)
    ensures m == n
  {
    ReadSpell(m);
    ReadSpell(n);
  }

  /** A template literal with a fixed prefix keeps different numbers apart. */
  lemma PrefixedInjective(prefix: string, m: nat, n: nat)
    requires prefix + Spell(m) == prefix + Spell(n)
    ensures m == n
  {
    assert (prefix + Spell(m))[|prefix|..] == Spell(m);
    assert (prefix + Spell(n))[|prefix|..] == Spell(n);
    SpellInjective(m, n);
  }
}
