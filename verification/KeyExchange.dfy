/** Powers modulo a 64-bit prime, for the exchange of keys; see section 2.1.1 of RFC 2631. */
module KeyExchange {

  const TWO64 := 0x1_0000_0000_0000_0000

  /** The biggest prime of 64 bits. */
  const P := 0xffff_ffff_ffff_ffc5

  /** The base of the exchange. */
  const G := 5

  /** 5 times this is 1 modulo P. */
  const G_INVERSE := 7378697629483820623

  type Word = w: int | 0 <= w < TWO64

  /** Arithmetic on uint64_t wraps around. */
  function Wrap(x: int): Word {
    x % TWO64
  }

  function Pow(a: nat, n: nat): nat {
    if n == 0 then 1 else a * Pow(a, n - 1)
  }

  // ----- arithmetic modulo P -----

  lemma ModUnique(x: int, q: int, r: int)
    requires x == q * P + r && 0 <= r < P
    ensures x % P == r
  {
  }

  lemma ModAdd(x: int, y: int, z: int)
    requires x % P == y % P
    ensures (x + z) % P == (y + z) % P
  {
    var d := x / P - y / P;
    assert x == y + d * P;
    var r := (y + z) % P;
    var q := (y + z) / P + d;
    assert x + z == q * P + r;
    ModUnique(x + z, q, r);
  }

  lemma ModMul(x: int, y: int, z: int)
    requires x % P == y % P
    ensures (x * z) % P == (y * z) % P
  {
    var d := x / P - y / P;
    assert x == y + d * P;
    Distribute(y, d * P, z);
    assert d * P * z == d * z * P;
    var r := (y * z) % P;
    var q := (y * z) / P + d * z;
    assert (y * z) == (y * z) / P * P + r;
    Distribute((y * z) / P, d * z, P);
    ModUnique(x * z, q, r);
  }

  lemma Distribute(a: int, b: int, c: int)
    ensures (a + b) * c == a * c + b * c
  {
  }

  lemma ModMod(x: int)
    ensures (x % P) % P == x % P
  {
  }

  // ----- mul_mod_p -----

  predicate Same(x: int, y: int) {
    x % P == y % P
  }

  /** What the loop does with 'm' for a bit of the factor. */
  function Added(m: Word, a: Word): Word {
    var t := Wrap(P - a);
    if m >= t then Wrap(m - t) else Wrap(m + a)
  }

  /** What the loop does with 'a'. */
  function Doubled(a: Word): Word {
    if a >= Wrap(P - a) then Wrap(Wrap(a * 2) - P) else Wrap(a * 2)
  }

  /** Nothing is lost by wrapping around. */
  lemma AddedIs(m: Word, a: Word)
    requires m < P && a <= P
    ensures Added(m, a) < P && Same(Added(m, a), m + a)
  {
    assert Added(m, a) == m + a || Added(m, a) == m + a - P;
  }

  lemma DoubledIs(a: Word)
    requires a <= P
    ensures Doubled(a) <= P && Same(Doubled(a), 2 * a)
  {
    assert Doubled(a) == 2 * a || Doubled(a) == 2 * a - P;
  }

  /** One turn of the loop keeps m + a * b modulo P. */
  lemma Turn(m: int, a: int, b: int, m1: int, a1: int)
    requires 0 <= b && Same(m1, m + (b % 2) * a) && Same(a1, 2 * a)
    ensures Same(m1 + a1 * (b / 2), m + a * b)
  {
    var h := b / 2;
    ModMul(a1, 2 * a, h);
    ModAdd(a1 * h, 2 * a * h, m1);
    ModAdd(m1, m + (b % 2) * a, 2 * a * h);
    assert b == 2 * h + b % 2;
    assert a * b == a * (2 * h) + a * (b % 2) by {
      Distribute(2 * h, b % 2, a);
    }
    assert 2 * a * h == a * (2 * h);
  }

  lemma Reduced(m: int, x: int)
    requires 0 <= m < P && Same(m, x)
    ensures m == x % P
  {
  }

  lemma NoFactorLeft(m: int, a: int)
    ensures m + a * 0 == m
  {
  }

  /** mul_mod_p, for 'a' up to P itself. */
  method MulModP(a0: Word, b0: Word) returns (m: Word)
    requires a0 <= P
    ensures m == a0 * b0 % P
  {
    hide Same, Added, Doubled;
    var a: Word, b: Word := a0, b0;
    m := 0;
    Begins(a, b);
    while b != 0
      invariant m < P && a <= P && Same(m + a * b, a0 * b0)
      decreases b
    {
      ghost var m0 := m;
      if b % 2 == 1 {
        AddedIs(m, a);
        m := Added(m, a);
      } else {
        Itself(m);
      }
      DoubledIs(a);
      assert Same(m, m0 + (b % 2) * a) by {
        OneBit(m0, a, b);
      }
      Turn(m0, a, b, m, Doubled(a));
      SameTrans(m + Doubled(a) * (b / 2), m0 + a * b, a0 * b0);
      a := Doubled(a);
      b := b / 2;
    }
    NoFactorLeft(m, a);
    Reduced(m, a0 * b0);
  }

  lemma Begins(a: int, b: int)
    ensures Same(0 + a * b, a * b)
  {
  }

  lemma Itself(m: int)
    ensures Same(m, m)
  {
  }

  lemma OneBit(m: int, a: int, b: int)
    ensures m + (b % 2) * a == if b % 2 == 1 then m + a else m
  {
  }

  lemma SameTrans(x: int, y: int, z: int)
    requires Same(x, y) && Same(y, z)
    ensures Same(x, z)
  {
  }

  // ----- pow_mod_p -----

  lemma {:induction false} PowAdd(a: nat, m: nat, n: nat)
    ensures Pow(a, m + n) == Pow(a, m) * Pow(a, n)
  {
    if m > 0 {
      PowAdd(a, m - 1, n);
      Assoc(a, Pow(a, m - 1), Pow(a, n));
    }
  }

  lemma Assoc(a: int, b: int, c: int)
    ensures (a * b) * c == a * (b * c)
  {
  }

  lemma {:induction false} PowMul(a: nat, m: nat, n: nat)
    ensures Pow(Pow(a, m), n) == Pow(a, m * n)
  {
    if n > 0 {
      PowMul(a, m, n - 1);
      PowAdd(a, m, m * (n - 1));
      assert m * n == m + m * (n - 1) by {
        Distribute(1, n - 1, m);
      }
    }
  }

  /** Powers of numbers that are alike modulo P are alike. */
  lemma {:induction false} PowMod(a: nat, b: nat, n: nat)
    requires Same(a, b)
    ensures Same(Pow(a, n), Pow(b, n))
  {
    if n > 0 {
      PowMod(a, b, n - 1);
      ModMul(a, b, Pow(a, n - 1));
      ModMul(Pow(a, n - 1), Pow(b, n - 1), b);
    }
  }

  lemma SquareStep(a: nat, b: nat, t: int, odd: bool)
    requires b == 2 * (b / 2) + (if odd then 1 else 0) && Same(t, Pow(a, b / 2))
    ensures Same(t * t * (if odd then a else 1), Pow(a, b))
  {
    var h := b / 2;
    var q := Pow(a, h);
    ModMul(t, q, t);
    ModMul(t, q, q);
    PowAdd(a, h, h);
    ModMul(t * t, q * q, if odd then a else 1);
    if odd {
      PowAdd(a, 2 * h, 1);
      assert Pow(a, 1) == a * Pow(a, 0);
    }
  }

  /** pow_mod_p: the power is reduced, but for the exponent 1. */
  method PowModP(a: Word, b: Word) returns (r: Word)
    requires a <= P && b >= 1
    ensures r == if b == 1 then a else Pow(a, b) % P
    decreases b
  {
    hide Same;
    if b == 1 {
      return a;
    }
    var t := PowModP(a, b / 2);
    HalfPower(a, b / 2, t);
    ghost var q := t;
    t := MulModP(t, t);
    SquareStep(a, b, q, b % 2 == 1);
    ReducedSquare(q, t);
    if b % 2 != 0 {
      ghost var u := t;
      t := MulModP(t, a);
      TimesOnce(q, u, a, t, b);
    } else {
      EvenPower(q, a, t, b);
    }
    return t;
  }

  lemma HalfPower(a: nat, h: nat, t: nat)
    requires h >= 1 && t == if h == 1 then a else Pow(a, h) % P
    ensures Same(t, Pow(a, h))
  {
    assert Pow(a, 1) == a * Pow(a, 0);
  }

  lemma ReducedSquare(q: nat, t: nat)
    requires t == q * q % P
    ensures Same(t, q * q)
  {
  }

  lemma TimesOnce(q: nat, u: nat, a: nat, t: nat, b: nat)
    requires Same(u, q * q) && t == u * a % P && Same(q * q * a, Pow(a, b))
    ensures t == Pow(a, b) % P
  {
    ModMul(u, q * q, a);
  }

  lemma EvenPower(q: nat, a: nat, t: nat, b: nat)
    requires t == q * q % P && Same(q * q * 1, Pow(a, b))
    ensures t == Pow(a, b) % P
  {
  }

  /** powmodp: right in every case but one, the base P itself with the exponent 1. */
  method PowMod64(a: Word, b: Word) returns (r: Word)
    requires b >= 1
    ensures r == Pow(a, b) % P <==> !(a == P && b == 1)
    ensures r <= P && Same(r, Pow(a, b))
  {
    hide Same;
    var c := if a > P then a % P else a;
    BaseReduced(a, c);
    PowMod(c, a, b);
    r := PowModP(c, b);
    PowerOf(a, b, c, r);
  }

  lemma BaseReduced(a: nat, c: nat)
    requires c == if a > P then a % P else a
    ensures Same(c, a)
  {
  }

  lemma PowerOf(a: Word, b: Word, c: Word, r: Word)
    requires b >= 1 && c == (if a > P then a % P else a) && r == (if b == 1 then c else Pow(c, b) % P)
    requires Same(Pow(c, b), Pow(a, b))
    ensures (r == Pow(a, b) % P <==> !(a == P && b == 1)) && Same(r, Pow(a, b)) && r <= P
  {
    if b == 1 {
      assert Pow(a, 1) == a * Pow(a, 0) && Pow(c, 1) == c * Pow(c, 0);
    }
  }

  // ----- the exchange -----

  /** Both sides derive the same secret from what the other one sent. */
  method Exchange(x: Word, y: Word) returns (mine: Word, theirs: Word)
    requires x >= 1 && y >= 1
    ensures mine == theirs == Pow(G, x * y) % P
  {
    hide Same;
    var gx := PowMod64(G, x);
    var gy := PowMod64(G, y);
    Sent(gx, x);
    Sent(gy, y);
    mine := PowMod64(gy, x);
    theirs := PowMod64(gx, y);
    SecretOf(gy, y, x);
    SecretOf(gx, x, y);
  }

  lemma Sent(g: Word, x: Word)
    requires g == Pow(G, x) % P
    ensures g < P
  {
  }

  lemma SecretOf(g: nat, x: nat, y: nat)
    requires g == Pow(G, x) % P
    ensures Pow(g, y) % P == Pow(G, x * y) % P
  {
    ModMod(Pow(G, x));
    PowMod(g, Pow(G, x), y);
    PowMul(G, x, y);
  }

  /** What is sent is never 0, so the other side does not reject it. */
  lemma {:induction false} SentNotZero(x: nat)
    ensures Pow(G, x) % P != 0
  {
    if x > 0 {
      SentNotZero(x - 1);
      var q := Pow(G, x - 1);
      if (G * q) % P == 0 {
        ModMul(G * q, 0, G_INVERSE);
        assert G * q * G_INVERSE == q + 2 * P * q;
        ModUnique(q + 2 * P * q, q / P + 2 * q, q % P);
      }
    }
  }
}
