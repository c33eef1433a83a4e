/** The coercion `pd.to_numeric(col, errors="coerce").fillna(0).astype(int)`
    applied to the 수량 (quantity) column, for cells holding integer text. */
module Quantity {
  import opened Wrappers

  predicate IsDigit(c: char) {
    '0' <= c <= '9'
  }

  predicate IsDigits(s: string) {
    |s| > 0 && forall i :: 0 <= i < |s| ==> IsDigit(s[i])
  }

  /** Value of a run of decimal digits, most significant first. */
  function DigitsValue(s: string): nat
    requires forall i :: 0 <= i < |s| ==> IsDigit(s[i])
  {
    if s == [] then 0
    else
      assert IsDigit(s[|s| - 1]);
      DigitsValue(s[..|s| - 1]) * 10 + (s[|s| - 1] as int - '0' as int)
  }

  /** An integer written with an optional sign and at least one digit. */
  function ParseInteger(s: string): (r: Option<int>)
    ensures r.Some? <==> IsDigits(s) || (|s| > 1 && (s[0] == '-' || s[0] == '+') && IsDigits(s[1..]))
    ensures r.Some? && s[0] == '-' ==> r.value <= 0
    ensures r.Some? && s[0] != '-' ==> r.value >= 0
  {
    if IsDigits(s) then Some(DigitsValue(s))
    else if |s| > 1 && s[0] == '-' && IsDigits(s[1..]) then Some(0 - DigitsValue(s[1..]) as int)
    else if |s| > 1 && s[0] == '+' && IsDigits(s[1..]) then Some(DigitsValue(s[1..]))
    else None
  }

  /** A quantity cell as the summaries count it: a missing cell or text that is
      not a number counts as 0. */
  function CellQuantity(cell: Option<string>): (q: int)
    ensures cell.Some? && ParseInteger(cell.value).Some? ==> q == ParseInteger(cell.value).value
    ensures cell.None? || ParseInteger(cell.value).None? ==> q == 0
  {
    match cell
    case None => 0
    case Some(s) => ParseInteger(s).GetOr(0)
  }

  /** Decimal notation of a natural number, as Python's `str(n)` writes it. */
  function NaturalText(n: nat): (s: string)
    ensures IsDigits(s)
  {
    if n < 10 then [('0' as int + n) as char]
    else NaturalText(n / 10) + [('0' as int + n % 10) as char]
  }

  /** Decimal notation of an integer, `str(n)`. */
  function IntegerText(n: int): string {
    if n < 0 then "-" + NaturalText(-n) else NaturalText(n)
  }

  lemma {:induction false} NaturalTextValue(n: nat)
    ensures DigitsValue(NaturalText(n)) == n
  {
    if n >= 10 {
      NaturalTextValue(n / 10);
      var s := NaturalText(n);
      assert s[..|s| - 1] == NaturalText(n / 10);
    }
  }

  /** A quantity typed as the decimal notation of `n` is counted as `n`. */
  lemma QuantityOfIntegerText(n: int)
    ensures CellQuantity(Some(IntegerText(n))) == n
  {
    if n < 0 {
      var s := IntegerText(n);
      assert s[1..] == NaturalText(-n);
      NaturalTextValue(-n);
    } else {
      NaturalTextValue(n);
    }
  }

  /** Text that is not a number, and a missing cell, count as nothing. */
  lemma NonNumericCountsZero(s: string)
    requires ParseInteger(s).None?
    ensures CellQuantity(Some(s)) == 0 && CellQuantity(None) == 0
  {
  }
}
