/** Small datatypes and text helpers shared by the other modules. */
module Common {
  datatype Option<+T> = None | Some(value: T)

  datatype Result<+T, +E> = Ok(value: T) | Err(error: E)

  /** One byte on the wire. */
  type Byte = b: int | 0 <= b < 256

  function Min(a: int, b: int): int {
    if a < b then a else b
  }

  function Max(a: int, b: int): int {
    if a < b then b else a
  }

  predicate IsDigit(c: char) {
    '0' <= c <= '9'
  }

  function DigitChar(d: nat): char
    requires d < 10
  {
    (d + '0' as int) as char
  }

  function DigitValue(c: char): nat
    requires IsDigit(c)
  {
    c as int - '0' as int
  }

  /** The decimal digits of n, most significant first, without leading zeros. */
  function Decimal(n: nat): string {
    if n < 10 then [DigitChar(n)] else Decimal(n / 10) + [DigitChar(n % 10)]
  }

  /** The number a string of decimal digits denotes. */
  function DecimalValue(s: string): nat
    requires forall c <- s :: IsDigit(c)
  {
    if |s| == 0 then 0
    else 10 * DecimalValue(s[..|s| - 1]) + DigitValue(s[|s| - 1])
  }

  lemma {:induction false} DecimalRoundTrip(n: nat)
    ensures forall c <- Decimal(n) :: IsDigit(c)
    ensures |Decimal(n)| > 0
    ensures DecimalValue(Decimal(n)) == n
  {
    if n >= 10 {
      DecimalRoundTrip(n / 10);
      var front := Decimal(n / 10);
      assert Decimal(n)[..|front|] == front;
    } else {
      assert Decimal(n)[..0] == "";
    }
  }

  /** The text a menu label or a stored name gets when it is already taken: "name (2)". */
  function Suffixed(name: string, n: nat): string {
    name + " (" + Decimal(n) + ")"
  }

  lemma SuffixedInjective(name: string, m: nat, n: nat)
    requires Suffixed(name, m) == Suffixed(name, n)
    ensures m == n
  {
    SuffixedMiddle(name, m);
    SuffixedMiddle(name, n);
    DecimalRoundTrip(m);
    DecimalRoundTrip(n);
  }

  lemma SuffixedMiddle(name: string, n: nat)
    ensures |Suffixed(name, n)| > |name| + 3
    ensures Suffixed(name, n)[|name| + 2..|Suffixed(name, n)| - 1] == Decimal(n)
  {
    DecimalRoundTrip(n);
  }

  /** The taken names that a suffix search starting at n can still run into. */
  ghost function Blocking(taken: set<string>, name: string, n: nat): set<string> {
    set t <- taken | exists m: nat :: n <= m && t == Suffixed(name, m)
  }

  /** Each candidate the search has to skip uses one of finitely many taken names up. */
  lemma SkippingShrinksBlocking(taken: set<string>, name: string, n: nat)
    requires Suffixed(name, n) in taken
    ensures Blocking(taken, name, n + 1) < Blocking(taken, name, n)
  {
    var skipped := Suffixed(name, n);
    assert skipped in Blocking(taken, name, n);
    if skipped in Blocking(taken, name, n + 1) {
      var m: nat :| n + 1 <= m && skipped == Suffixed(name, m);
      SuffixedInjective(name, m, n);
    }
  }

  /** What a name becomes next to the taken ones: itself, or the first suffixed form from (2) on that is free. */
  ghost predicate IsFresh(taken: set<string>, name: string, out: string) {
    if name !in taken then out == name
    else exists n: nat :: IsFirstFree(taken, name, n) && out == Suffixed(name, n)
  }

  ghost predicate IsFirstFree(taken: set<string>, name: string, n: nat) {
    && n >= 2 && Suffixed(name, n) !in taken
    && forall m: nat | 2 <= m < n :: Suffixed(name, m) in taken
  }

  /** There is no choice in it. */
  lemma FreshIsUnique(taken: set<string>, name: string, a: string, b: string)
    requires IsFresh(taken, name, a) && IsFresh(taken, name, b)
    ensures a == b && a !in taken
  {
    if name in taken {
      var m: nat :| IsFirstFree(taken, name, m) && a == Suffixed(name, m);
      var n: nat :| IsFirstFree(taken, name, n) && b == Suffixed(name, n);
      assert m < n ==> Suffixed(name, m) in taken;
      assert n < m ==> Suffixed(name, n) in taken;
    }
  }

  /** The names in their order: the name, then "name (2)", then "name (3)". */
  lemma FreshNames(name: string, out: string)
    ensures IsFresh({}, name, out) <==> out == name
    ensures IsFresh({name}, name, out) <==> out == name + " (2)"
    ensures IsFresh({name, name + " (2)"}, name, out) <==> out == name + " (3)"
  {
    var two, three := Suffixed(name, 2), Suffixed(name, 3);
    assert Decimal(2) == "2" && Decimal(3) == "3";
    assert two == name + " (2)" && three == name + " (3)";
    assert |two| != |name| && |three| != |name| && two[|name| + 2] != three[|name| + 2];
    assert IsFirstFree({name}, name, 2);
    assert IsFirstFree({name, two}, name, 3);
    assert IsFresh({name}, name, two) && IsFresh({name, two}, name, three);
    if IsFresh({name}, name, out) {
      FreshIsUnique({name}, name, out, two);
    }
    if IsFresh({name, two}, name, out) {
      FreshIsUnique({name, two}, name, out, three);
    }
  }
}
