/** Unpadded decimal printing, as Go's %d prints a non-negative number, and byte order on names. */
module Decimal {

  function Digit(d: nat): char
    requires d < 10
  {
    '0' + d as char
  }

  function Print(n: nat): (s: string)
    ensures s != []
  {
    if n < 10 then [Digit(n)] else Print(n / 10) + [Digit(n % 10)]
  }

  predicate IsDigit(c: char) {
    '0' <= c <= '9'
  }

  function Value(c: char): nat
    requires IsDigit(c)
  {
    c as int - '0' as int
  }

  /** The number a digit string denotes. */
  function Read(s: string): nat
    requires forall i :: 0 <= i < |s| ==> IsDigit(s[i])
  {
    if s == [] then 0 else Read(s[..|s| - 1]) * 10 + Value(s[|s| - 1])
  }

  lemma {:induction false} ReadPrint(n: nat)
    ensures forall i :: 0 <= i < |Print(n)| ==> IsDigit(Print(n)[i])
    ensures Read(Print(n)) == n
  {
    if n < 10 {
      assert Print(n)[..0] == [];
    } else {
      ReadPrint(n / 10);
      assert Print(n)[..|Print(n)| - 1] == Print(n / 10);
    }
  }

  lemma PrintInjective(m: nat, n: nat)
    requires Print(m) == Print(n)
    ensures m == n
  {
    ReadPrint(m);
    ReadPrint(n);
  }

  // ----- byte order

  predicate Before(x: string, y: string) {
    if y == [] then false
    else if x == [] then true
    else x[0] < y[0] || (x[0] == y[0] && Before(x[1..], y[1..]))
  }

  lemma {:induction false} BeforeIsStrict(x: string)
    ensures !Before(x, x)
  {
    if x != [] {
      BeforeIsStrict(x[1..]);
    }
  }

  lemma {:induction false} BeforeTransitive(x: string, y: string, z: string)
    requires Before(x, y) && Before(y, z)
    ensures Before(x, z)
  {
    if x != [] {
      if x[0] == y[0] == z[0] {
        BeforeTransitive(x[1..], y[1..], z[1..]);
      }
    }
  }

  lemma {:induction false} BeforeIsTotal(x: string, y: string)
    ensures x == y || Before(x, y) || Before(y, x)
  {
    if x != [] && y != [] && x[0] == y[0] {
      BeforeIsTotal(x[1..], y[1..]);
      if x[1..] == y[1..] {
        assert x == [x[0]] + x[1..] && y == [y[0]] + y[1..];
      }
    }
  }

  /** A common prefix does not matter. */
  lemma {:induction false} BeforeAfterPrefix(p: string, x: string, y: string)
    ensures Before(p + x, p + y) == Before(x, y)
  {
    if p == [] {
      assert p + x == x && p + y == y;
    } else {
      assert (p + x)[1..] == p[1..] + x && (p + y)[1..] == p[1..] + y;
      BeforeAfterPrefix(p[1..], x, y);
    }
  }

  /** Between words of the same length a last letter decides only a tie. */
  lemma {:induction false} BeforeSnoc(x: string, y: string, c: char, d: char)
    requires |x| == |y|
    ensures Before(x + [c], y + [d]) <==> Before(x, y) || (x == y && c < d)
  {
    if x == [] {
      assert x + [c] == [c] && y + [d] == [d];
    } else {
      assert (x + [c])[1..] == x[1..] + [c] && (y + [d])[1..] == y[1..] + [d];
      BeforeSnoc(x[1..], y[1..], c, d);
      if x[0] == y[0] && x[1..] == y[1..] {
        assert x == [x[0]] + x[1..] && y == [y[0]] + y[1..];
      }
    }
  }

  /** Among numbers with equally many digits byte order is numeric order. */
  lemma {:induction false} PrintOrder(m: nat, n: nat)
    requires |Print(m)| == |Print(n)|
    ensures Before(Print(m), Print(n)) <==> m < n
  {
    if m < 10 && n < 10 {
    } else {
      PrintOrder(m / 10, n / 10);
      BeforeSnoc(Print(m / 10), Print(n / 10), Digit(m % 10), Digit(n % 10));
      if Print(m / 10) == Print(n / 10) {
        PrintInjective(m / 10, n / 10);
      }
    }
  }

  // ----- the first words in byte order

  lemma {:induction false} FirstDigit(n: nat)
    requires n >= 1
    ensures Print(n)[0] >= '1' && forall i :: 0 <= i < |Print(n)| ==> Print(n)[i] >= '0'
  {
    if n >= 10 {
      FirstDigit(n / 10);
    }
  }

  /** Of the positive numbers "1" comes first and "10" second. */
  lemma OneAndTenComeFirst(n: nat)
    requires n >= 1
    ensures n != 1 ==> Before(Print(1), Print(n))
    ensures n != 1 && n != 10 ==> Before(Print(10), Print(n))
  {
    var s := Print(n);
    FirstDigit(n);
    assert Print(1) == ['1'];
    assert Print(10) == Print(1) + [Digit(0)] == ['1', '0'];
    if n != 1 && s[0] == '1' {
      if s == ['1'] {
        PrintInjective(n, 1);
      }
      assert Print(1)[1..] == [] && s[1..] != [];
      if n != 10 && s[1] == '0' {
        if |s| == 2 {
          assert s == ['1', '0'];
          PrintInjective(n, 10);
        }
        assert Print(10)[1..] == ['0'] && s[1..][0] == '0' && ['0'][1..] == [] && s[1..][1..] != [];
      } else if n != 10 {
        assert Print(10)[1..][0] == '0' && s[1..][0] == s[1] > '0';
      }
    }
  }
}
