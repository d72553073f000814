/** The ids minted for new items: the template literal `item${n}`, whose
    number is written in decimal as JavaScript's Number-to-String does for
    a non-negative integer below 10^21 (above that it switches to exponent
    notation). The number here is an array length plus one, and array
    lengths stay below 2^32, far inside that range. */
module ItemIds {

  predicate IsDigit(c: char) { '0' <= c <= '9' }

  function DigitChar(d: nat): (c: char)
    requires d < 10
    ensures IsDigit(c) && c as int - '0' as int == d
  {
    ('0' as int + d) as char
  }

  /** The decimal numeral of `n`, without leading zeros. */
  function Decimal(n: nat): (r: string)
    ensures 1 <= |r|
    ensures forall i :: 0 <= i < |r| ==> IsDigit(r[i])
    ensures n < 10 <==> |r| == 1
    ensures r[0] == '0' <==> n == 0
    decreases n
  {
    if n < 10 then [DigitChar(n)] else Decimal(n / 10) + [DigitChar(n % 10)]
  }

  /** The value of a string of decimal digits. */
  function ParseDecimal(s: string): nat
    requires forall i :: 0 <= i < |s| ==> IsDigit(s[i])
  {
    if s == [] then 0
    else
      assert IsDigit(s[|s| - 1]);
      ParseDecimal(s[..|s| - 1]) * 10 + (s[|s| - 1] as int - '0' as int)
  }

  /** Reading a numeral back gives the number it was written from. */
  lemma {:induction false} ParseDecimalInverse(n: nat)
    ensures ParseDecimal(Decimal(n)) == n
    decreases n
  {
    if n >= 10 {
      var d := Decimal(n);
      assert d[..|d| - 1] == Decimal(n / 10);
      ParseDecimalInverse(n / 10);
    }
  }

  /** The id `item${n}`: the prefix "item" followed by the digits of `n`. */
  function NewItemId(n: nat): (r: string)
    ensures 5 <= |r| && r[..4] == "item"
    ensures forall i :: 4 <= i < |r| ==> IsDigit(r[i])
    ensures r[4] != '0' || r == "item0"
    ensures ParseDecimal(r[4..]) == n
  {
    ParseDecimalInverse(n);
    assert ("item" + Decimal(n))[4..] == Decimal(n);
    "item" + Decimal(n)
  }

  /** Distinct numbers give distinct ids. */
  lemma NewItemIdInjective(m: nat, n: nat)
    ensures NewItemId(m) == NewItemId(n) <==> m == n
  {
    if NewItemId(m) == NewItemId(n) {
      assert Decimal(m) == NewItemId(m)[4..];
      assert Decimal(n) == NewItemId(n)[4..];
      ParseDecimalInverse(m);
      ParseDecimalInverse(n);
    }
  }
}
