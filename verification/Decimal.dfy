/** Decimal text: printing with a minimum width, as Rust's `{:0w}`, and reading back. */
module Decimal {

  function Digit(d: nat): char
    requires d < 10
  {
    '0' + d as char
  }

  predicate IsDigit(c: char) { '0' <= c <= '9' }

  /** At least `width` characters, filled with zeros on the left; a larger number is not cut. */
  function Digits(n: nat, width: nat): (s: string)
    ensures |s| >= 1 && |s| >= width && forall i :: 0 <= i < |s| ==> IsDigit(s[i])
    decreases n + width
  {
    if n < 10 && width <= 1 then [Digit(n)]
    else Digits(n / 10, if width > 0 then width - 1 else 0) + [Digit(n % 10)]
  }

  predicate AllDigits(s: string) { s != "" && forall i :: 0 <= i < |s| ==> IsDigit(s[i]) }

  function ValueOf(s: string): nat
    requires forall i :: 0 <= i < |s| ==> IsDigit(s[i])
  {
    if s == "" then 0
    else
      assert IsDigit(s[|s| - 1]);
      10 * ValueOf(s[..|s| - 1]) + (s[|s| - 1] as int - '0' as int)
  }

  lemma {:induction false} ReadsBack(n: nat, width: nat)
    ensures ValueOf(Digits(n, width)) == n
    decreases n + width
  {
    var s := Digits(n, width);
    if n < 10 && width <= 1 {
      assert s[..|s| - 1] == "" && ValueOf("") == 0;
      assert s[|s| - 1] == Digit(n);
    } else {
      ReadsBack(n / 10, if width > 0 then width - 1 else 0);
      assert s[..|s| - 1] == Digits(n / 10, if width > 0 then width - 1 else 0) && s[|s| - 1] == Digit(n % 10);
    }
  }

  function Pow10(w: nat): nat { if w == 0 then 1 else 10 * Pow10(w - 1) }

  lemma {:induction false} FixedWidth(n: nat, width: nat)
    requires width >= 1 && n < Pow10(width)
    ensures |Digits(n, width)| == width
    decreases width
  {
    if width > 1 {
      assert n / 10 < Pow10(width - 1);
      FixedWidth(n / 10, width - 1);
    } else {
      assert Pow10(1) == 10 * Pow10(0);
    }
  }

  // ---------- the order of texts ----------

  predicate TextLess(a: string, b: string) {
    b != "" && (a == "" || a[0] < b[0] || (a[0] == b[0] && TextLess(a[1..], b[1..])))
  }

  lemma {:induction false} LessConcat(a: string, b: string, x: string, y: string)
    requires |a| == |b|
    ensures TextLess(a + x, b + y) <==> TextLess(a, b) || (a == b && TextLess(x, y))
    decreases |a|
  {
    if a == "" {
      assert a + x == x && b + y == y;
    } else {
      assert (a + x)[1..] == a[1..] + x && (b + y)[1..] == b[1..] + y;
      LessConcat(a[1..], b[1..], x, y);
      assert a == [a[0]] + a[1..] && b == [b[0]] + b[1..];
    }
  }

  lemma {:induction false} NotBelowItself(a: string)
    ensures !TextLess(a, a)
  {
    if a != "" {
      NotBelowItself(a[1..]);
    }
  }

  lemma DigitLess(c: nat, d: nat)
    requires c < 10 && d < 10
    ensures TextLess([Digit(c)], [Digit(d)]) <==> c < d
  {
    NotBelowItself([Digit(c)]);
  }

  lemma TensFirst(m: nat, n: nat)
    ensures m < n <==> m / 10 < n / 10 || (m / 10 == n / 10 && m % 10 < n % 10)
  {
  }

  lemma SameDigits(m: nat, n: nat, width: nat)
    requires Digits(m, width) == Digits(n, width)
    ensures m == n
  {
    ReadsBack(m, width);
    ReadsBack(n, width);
  }

  /** Numbers of one width sort as texts the way they sort as numbers. */
  lemma {:induction false} SameOrder(m: nat, n: nat, width: nat)
    requires width >= 1 && m < Pow10(width) && n < Pow10(width)
    ensures TextLess(Digits(m, width), Digits(n, width)) <==> m < n
    decreases width
  {
    TensFirst(m, n);
    DigitLess(m % 10, n % 10);
    if width == 1 {
      assert Pow10(1) == 10 * Pow10(0);
    } else {
      assert m / 10 < Pow10(width - 1) && n / 10 < Pow10(width - 1);
      var a, b := Digits(m / 10, width - 1), Digits(n / 10, width - 1);
      FixedWidth(m / 10, width - 1);
      FixedWidth(n / 10, width - 1);
      SameOrder(m / 10, n / 10, width - 1);
      LessConcat(a, b, [Digit(m % 10)], [Digit(n % 10)]);
      if a == b {
        SameDigits(m / 10, n / 10, width - 1);
      }
    }
  }

  /** Digit fields of one width, each followed by something, compare field by field. */
  lemma FieldOrder(m: nat, n: nat, width: nat, x: string, y: string)
    requires width >= 1 && m < Pow10(width) && n < Pow10(width)
    ensures TextLess(Digits(m, width) + x, Digits(n, width) + y) <==> m < n || (m == n && TextLess(x, y))
  {
    FixedWidth(m, width);
    FixedWidth(n, width);
    SameOrder(m, n, width);
    LessConcat(Digits(m, width), Digits(n, width), x, y);
    ReadsBack(m, width);
    ReadsBack(n, width);
  }
}
