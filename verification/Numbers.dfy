/** Numbers as they are written into names. */
module Numbers {

  function Digit(d: nat): char
    requires d < 10
  {
    ['0', '1', '2', '3', '4', '5', '6', '7', '8', '9'][d]
  }

  predicate IsDigit(c: char) { '0' <= c <= '9' }

  function Decimal(n: nat): (text: string)
    ensures text != [] && forall i :: 0 <= i < |text| ==> IsDigit(text[i])
  {
    if n < 10 then [Digit(n)] else Decimal(n / 10) + [Digit(n % 10)]
  }

  function Power(digits: nat): nat { if digits == 0 then 1 else 10 * Power(digits - 1) }

  lemma {:induction false} DecimalIsShort(n: nat, digits: nat)
    requires digits > 0 && n < Power(digits)
    ensures |Decimal(n)| <= digits
    decreases digits
  {
    if n >= 10 {
      DecimalIsShort(n / 10, digits - 1);
    }
  }

  /** No two numbers are written the same. */
  lemma {:induction false} DecimalTellsApart(a: nat, b: nat)
    requires Decimal(a) == Decimal(b)
    ensures a == b
    decreases a
  {
    var x, y := Decimal(a), Decimal(b);
    assert x[|x| - 1] == Digit(a % 10) && y[|y| - 1] == Digit(b % 10);
    if a >= 10 && b >= 10 {
      assert Decimal(a / 10) == x[..|x| - 1] == y[..|y| - 1] == Decimal(b / 10);
      DecimalTellsApart(a / 10, b / 10);
    }
  }

  /** Two texts that end in a number after a mark that is no digit, the same from the mark on, have the same number. */
  lemma NumberAtTheEnd(before: string, a: nat, other: string, b: nat, mark: char, close: string)
    requires before + [mark] + Decimal(a) + close == other + [mark] + Decimal(b) + close && !IsDigit(mark)
    ensures a == b
  {
    var whole := before + [mark] + Decimal(a) + close;
    var m, n := |Decimal(a)|, |Decimal(b)|;
    var end := |whole| - |close|;
    assert whole[end - m..end] == Decimal(a) && whole[end - m - 1] == mark;
    assert whole[end - n..end] == Decimal(b) && whole[end - n - 1] == mark by {
      assert whole == other + [mark] + Decimal(b) + close;
    }
    DecimalTellsApart(a, b);
  }
}
