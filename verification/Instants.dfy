/**
 * Instants in microseconds and the order of their ISO texts. `isoformat` drops the fraction of a whole second, and `Z`
 * sorts after `.`, so within its second a whole instant comes last.
 */
module Instants {
  import opened Ordering

  const SECOND := 1_000_000
  const MILLISECOND := 1_000

  function Second(t: int): int {
    t / SECOND
  }

  /** Microseconds into the second. */
  function Fraction(t: int): (n: nat)
    ensures n < SECOND && t == SECOND * Second(t) + n
  {
    t % SECOND
  }

  predicate Whole(t: int) {
    Fraction(t) == 0
  }

  /** The order of the texts of two instants. */
  predicate TimeLe(a: int, b: int) {
    || Second(a) < Second(b)
    || (Second(a) == Second(b) && (Whole(b) || (!Whole(a) && a <= b)))
  }

  lemma TimeLeIsTotalOrder()
    ensures TotalPreorder(TimeLe)
    ensures forall a, b :: TimeLe(a, b) && TimeLe(b, a) ==> a == b
  {
  }

  // ---------------------------------------------------------------- why that is the order of the texts

  function DigitChar(n: nat): char
    requires n < 10
  {
    '0' + n as char
  }

  /** The last `width` digits of `n`, padded with zeros. */
  function Padded(n: nat, width: nat): (s: string)
    ensures |s| == width
  {
    if width == 0 then "" else Padded(n / 10, width - 1) + [DigitChar(n % 10)]
  }

  /** `isoformat()` with `Z` for the offset; `clock` prints the date and time of a whole second. */
  function Iso(t: int, clock: int -> string): string {
    clock(Second(t)) + (if Whole(t) then "Z" else "." + (Padded(Fraction(t), 6) + "Z"))
  }

  /** The whole seconds of the years 1 to 9999. */
  predicate InRange(second: int) {
    -62_135_596_800 <= second < 253_402_300_800
  }

  /** Date and time are printed with a fixed width and in order. */
  ghost predicate Clock(clock: int -> string) {
    forall s, u :: InRange(s) && InRange(u) ==>
      && |clock(s)| == |clock(u)|
      && (s < u ==> clock(s) != clock(u) && TextLe(clock(s), clock(u)))
  }

  lemma {:induction false} SamePrefix(p: string, x: string, y: string)
    ensures TextLe(p + x, p + y) <==> TextLe(x, y)
  {
    if p == "" {
      assert p + x == x && p + y == y;
    } else {
      SamePrefix(p[1..], x, y);
      assert (p + x)[1..] == p[1..] + x && (p + y)[1..] == p[1..] + y;
    }
  }

  lemma {:induction false} PrefixDecides(p: string, q: string, x: string, y: string)
    requires |p| == |q| && p != q
    ensures TextLe(p + x, q + y) <==> TextLe(p, q)
  {
    assert (p + x)[1..] == p[1..] + x && (q + y)[1..] == q[1..] + y;
    if p[0] == q[0] {
      assert p == [p[0]] + p[1..] && q == [q[0]] + q[1..];
      PrefixDecides(p[1..], q[1..], x, y);
    }
  }

  function Power(base: nat, n: nat): nat {
    if n == 0 then 1 else base * Power(base, n - 1)
  }

  lemma {:induction false} PaddedOrder(m: nat, n: nat, width: nat)
    requires m < Power(10, width) && n < Power(10, width)
    ensures TextLe(Padded(m, width), Padded(n, width)) <==> m <= n
    ensures Padded(m, width) == Padded(n, width) <==> m == n
  {
    if width > 0 {
      var p, q := Padded(m / 10, width - 1), Padded(n / 10, width - 1);
      PaddedOrder(m / 10, n / 10, width - 1);
      var x, y := [DigitChar(m % 10)], [DigitChar(n % 10)];
      if m / 10 == n / 10 {
        SamePrefix(p, x, y);
        assert x[1..] == "" && y[1..] == "";
      } else {
        PrefixDecides(p, q, x, y);
        assert (p + x)[..|p|] == p && (q + y)[..|q|] == q;
      }
    }
  }

  lemma FractionOrder(m: nat, n: nat)
    requires m < SECOND && n < SECOND
    ensures TextLe("." + (Padded(m, 6) + "Z"), "." + (Padded(n, 6) + "Z")) <==> m <= n
  {
    assert Power(10, 6) == SECOND by {
      assert Power(10, 1) == 10 && Power(10, 2) == 100 && Power(10, 3) == 1000 && Power(10, 4) == 10000;
    }
    PaddedOrder(m, n, 6);
    SamePrefix(".", Padded(m, 6) + "Z", Padded(n, 6) + "Z");
    if m == n {
      SamePrefix(Padded(m, 6), "Z", "Z");
    } else {
      PrefixDecides(Padded(m, 6), Padded(n, 6), "Z", "Z");
    }
  }

  /** The texts of two instants are in order exactly as `TimeLe` says. */
  lemma TextsAreOrdered(a: int, b: int, clock: int -> string)
    requires Clock(clock) && InRange(Second(a)) && InRange(Second(b))
    ensures TextLe(Iso(a, clock), Iso(b, clock)) <==> TimeLe(a, b)
  {
    var p, q := clock(Second(a)), clock(Second(b));
    var x := if Whole(a) then "Z" else "." + (Padded(Fraction(a), 6) + "Z");
    var y := if Whole(b) then "Z" else "." + (Padded(Fraction(b), 6) + "Z");
    if Second(a) == Second(b) {
      SamePrefix(p, x, y);
      FractionOrder(Fraction(a), Fraction(b));
      assert "Z"[0] == 'Z' && "Z"[1..] == "";
    } else {
      PrefixDecides(p, q, x, y);
      TextLeTotal(p, q);
    }
  }

  /** Such a clock exists: the seconds of the range, counted with twelve digits. */
  lemma CountingIsAClock() returns (clock: int -> string)
    ensures Clock(clock)
  {
    clock := (s: int) => Padded(if s + 62_135_596_800 < 0 then 0 else s + 62_135_596_800, 12);
    assert Power(10, 12) == 1_000_000_000_000 by {
      assert Power(10, 2) == 100 && Power(10, 4) == 10_000 && Power(10, 6) == 1_000_000;
      assert Power(10, 8) == 100_000_000 && Power(10, 10) == 10_000_000_000;
    }
    forall s, u | InRange(s) && InRange(u)
      ensures |clock(s)| == |clock(u)| && (s < u ==> clock(s) != clock(u) && TextLe(clock(s), clock(u)))
    {
      PaddedOrder(s + 62_135_596_800, u + 62_135_596_800, 12);
    }
  }
}
