/** The compact form of amounts: trailing decimal zeros are counted instead of written. */
module Amount {

  const TWO_64 := 0x1_0000_0000_0000_0000

  function Pow10(e: nat): (r: nat)
    ensures r >= 1
  {
    if e == 0 then 1 else 10 * Pow10(e - 1)
  }

  /** The compact form of `m` with `e` zeros stripped off. */
  function Pack(m: nat, e: nat): int {
    if e < 9 then 1 + (m / 10 * 9 + m % 10 - 1) * 10 + e else 1 + (m - 1) * 10 + 9
  }

  /** How many zeros, at most `limit`, a number ends in. */
  function Trailing(n: nat, limit: nat): (e: nat)
    ensures e <= limit
    decreases limit
  {
    if n % 10 == 0 && limit > 0 then 1 + Trailing(n / 10, limit - 1) else 0
  }

  function Stripped(n: nat, e: nat): nat
    decreases e
  {
    if e == 0 then n else Stripped(n / 10, e - 1)
  }

  function Compress(n: nat): nat {
    if n == 0 then 0
    else
      StrippedOk(n, 9);
      Pack(Stripped(n, Trailing(n, 9)), Trailing(n, 9))
  }

  /** What the stripped number is like. */
  lemma {:induction false} StrippedOk(n: nat, limit: nat)
    requires n > 0
    ensures var e := Trailing(n, limit);
            && Stripped(n, e) > 0 && Stripped(n, e) * Pow10(e) == n
            && (e < limit ==> Stripped(n, e) % 10 != 0)
    decreases limit
  {
    if n % 10 == 0 && limit > 0 {
      StrippedOk(n / 10, limit - 1);
      var e := Trailing(n / 10, limit - 1);
      assert Stripped(n, 1 + e) == Stripped(n / 10, e);
      Scaled(Stripped(n / 10, e), Pow10(e));
    }
  }

  lemma Scaled(a: nat, b: nat)
    ensures a * (10 * b) == 10 * (a * b)
  {
  }

  function Decompress(x: nat): nat {
    if x == 0 then 0
    else
      var e, y := (x - 1) % 10, (x - 1) / 10;
      (if e < 9 then y / 9 * 10 + y % 9 + 1 else y + 1) * Pow10(e)
  }

  /** Taking the compact form apart gives the zeros and the other digits back. */
  lemma PackedDigits(m: nat, e: nat)
    requires m > 0 && e <= 9 && (e < 9 ==> m % 10 != 0)
    ensures Pack(m, e) > 0
    ensures var x := Pack(m, e) - 1;
            && x % 10 == e
            && (if e < 9 then x / 10 / 9 * 10 + x / 10 % 9 + 1 else x / 10 + 1) == m
  {
    if e < 9 {
      NineTimes(m / 10, m % 10 - 1);
    }
  }

  lemma NineTimes(a: nat, r: nat)
    requires r <= 8
    ensures (a * 9 + r) / 9 == a && (a * 9 + r) % 9 == r
  {
  }

  /** Every amount comes back. */
  lemma DecompressCompress(n: nat)
    ensures Decompress(Compress(n)) == n
  {
    if n > 0 {
      StrippedOk(n, 9);
      var e := Trailing(n, 9);
      PackedDigits(Stripped(n, e), e);
      hide Pow10, Trailing, Stripped, Pack;
    }
  }

  lemma {:induction false} TrailingOf(m: nat, e: nat, limit: nat)
    requires m > 0 && e <= limit && (e < limit ==> m % 10 != 0)
    ensures Trailing(m * Pow10(e), limit) == e && Stripped(m * Pow10(e), e) == m
    decreases e
  {
    if e > 0 {
      Scaled(m, Pow10(e - 1));
      var n := m * Pow10(e);
      assert n % 10 == 0 && n / 10 == m * Pow10(e - 1);
      TrailingOf(m, e - 1, limit - 1);
    }
  }

  /** Every compact form is that of an amount: nothing is wasted. */
  lemma CompressDecompress(x: nat)
    ensures Compress(Decompress(x)) == x
  {
    if x > 0 {
      var e, y := (x - 1) % 10, (x - 1) / 10;
      var m := if e < 9 then y / 9 * 10 + y % 9 + 1 else y + 1;
      NinthDigits(x, y, e);
      TrailingOf(m, e, 9);
      Positive(m, Pow10(e));
      hide Pow10, Trailing, Stripped, Pack;
    }
  }

  lemma NinthDigits(x: nat, y: nat, e: nat)
    requires e <= 9 && x == 1 + 10 * y + e
    ensures var m := if e < 9 then y / 9 * 10 + y % 9 + 1 else y + 1;
            Pack(m, e) == x && (e < 9 ==> m % 10 != 0)
  {
    TenTimes(y / 9, y % 9 + 1);
  }

  lemma TenTimes(a: nat, r: nat)
    requires r <= 9
    ensures (a * 10 + r) / 10 == a && (a * 10 + r) % 10 == r
  {
  }

  lemma Positive(a: nat, b: nat)
    requires a > 0 && b > 0
    ensures a * b > 0
  {
  }

  lemma TimesAtMost(m: nat, a: nat, b: nat)
    requires a <= b
    ensures m * a <= m * b
  {
  }

  // In 64-bit arithmetic

  /** `CompressAmount`. */
  method CompressAmount(amount: nat) returns (x: nat)
    requires amount < TWO_64
    ensures x == Compress(amount) % TWO_64
  {
    if amount == 0 {
      return 0;
    }
    var n, e := amount, 0;
    while n % 10 == 0 && e < 9
      invariant n > 0 && e <= 9
      invariant Trailing(amount, 9) == e + Trailing(n, 9 - e)
      invariant Stripped(amount, Trailing(amount, 9)) == Stripped(n, Trailing(n, 9 - e))
    {
      n, e := n / 10, e + 1;
    }
    x := Pack(n, e) % TWO_64;
  }

  /** `DecompressAmount`. */
  method DecompressAmount(compact: nat) returns (n: nat)
    requires compact < TWO_64
    ensures n == Decompress(compact) % TWO_64
  {
    if compact == 0 {
      return 0;
    }
    var x := compact - 1;
    var e := x % 10;
    x := x / 10;
    var m := if e < 9 then x / 9 * 10 + x % 9 + 1 else x + 1;
    n := Scale(m % TWO_64, e, m);
  }

  /** The loop that puts the zeros back. */
  method Scale(start: nat, zeros: nat, ghost m: nat) returns (n: nat)
    requires start == m % TWO_64
    ensures n == m * Pow10(zeros) % TWO_64
  {
    n := start;
    for done := 0 to zeros
      invariant n == m * Pow10(done) % TWO_64
    {
      TimesTen(m * Pow10(done));
      Scaled(m, Pow10(done));
      n := n * 10 % TWO_64;
    }
  }

  lemma TimesTen(a: nat)
    ensures a % TWO_64 * 10 % TWO_64 == 10 * a % TWO_64
  {
  }

  lemma Fits(a: nat)
    requires a < TWO_64
    ensures a % TWO_64 == a
  {
  }

  // Which amounts come back

  /** A round amount always fits; of another one the compact form is about its ninefold. */
  predicate CompactFits(n: nat) {
    n % 10 == 0 || 9 * n + n % 10 - 9 < TWO_64
  }

  lemma CompactFitsIff(n: nat)
    requires n < TWO_64
    ensures CompactFits(n) <==> Compress(n) < TWO_64
    ensures n % 10 != 0 ==> Compress(n) == 9 * n + n % 10 - 9
  {
    if n > 0 && n % 10 == 0 {
      StrippedOk(n, 9);
      var e := Trailing(n, 9);
      var m := Stripped(n, e);
      assert Pow10(e) == 10 * Pow10(e - 1);
      TimesAtMost(m, 10, Pow10(e));
      assert e < 9 ==> Pack(m, e) <= 9 * m + 18;
      if e == 9 {
        assert Pow10(9) == 100 * Pow10(7);
        TimesAtMost(m, 100, Pow10(9));
      }
    } else if n > 0 {
      assert Trailing(n, 9) == 0 && Stripped(n, 0) == n;
    }
  }

  /** Digits with zeros put back, in 64 bits. */
  function Rescaled(m: nat, zeros: nat): nat {
    m * Pow10(zeros) % TWO_64
  }

  /** No digits that short are `delta` away from what they wrap around to. */
  ghost predicate NeverBack(zeros: nat, delta: nat) {
    forall m: nat :: 9 * m < TWO_64 + 9 && m + delta < TWO_64 ==> Rescaled(m, zeros) != m + delta
  }

  /** Modulo 2^64 a linear equation with an odd factor has one solution. */
  lemma OneRoot(p: int, delta: int, inv: int, s: int, root: int, t: int, m: int, w: int)
    requires inv * p == 1 + TWO_64 * s && inv * delta == root + TWO_64 * t
    requires m * p == delta + TWO_64 * w
    ensures m == root + TWO_64 * (t + inv * w - s * m)
  {
    calc {
      root + TWO_64 * t;
      inv * (m * p - TWO_64 * w);
      { Regroup(inv, m, p, w); }
      (inv * p) * m - TWO_64 * (inv * w);
      { Expand(s, m); }
      m + TWO_64 * (s * m) - TWO_64 * (inv * w);
    }
  }

  lemma Regroup(a: int, m: int, p: int, w: int)
    ensures a * (m * p - TWO_64 * w) == (a * p) * m - TWO_64 * (a * w)
  {
  }

  lemma Expand(s: int, m: int)
    ensures (1 + TWO_64 * s) * m == m + TWO_64 * (s * m)
  {
  }

  /** If that solution is too large, there is none among short digits. */
  lemma Root(zeros: nat, p: int, delta: nat, inv: int, s: int, root: int, t: int)
    requires p == Pow10(zeros)
    requires inv * (p - 1) == 1 + TWO_64 * s && inv * delta == root + TWO_64 * t
    requires TWO_64 + 9 <= 9 * root && root < TWO_64
    ensures NeverBack(zeros, delta)
  {
    forall m: nat | 9 * m < TWO_64 + 9 && m + delta < TWO_64
      ensures Rescaled(m, zeros) != m + delta
    {
      if Rescaled(m, zeros) == m + delta {
        var w := m * p / TWO_64;
        assert m * (p - 1) == delta + TWO_64 * w;
        OneRoot(p - 1, delta, inv, s, root, t, m, w);
        Multiple(t + inv * w - s * m);
      }
    }
  }

  lemma Multiple(z: int)
    ensures TWO_64 * z <= -TWO_64 || TWO_64 * z >= 0
  {
  }

  lemma Powers()
    ensures Pow10(2) == 100 && Pow10(4) == 10000 && Pow10(6) == 1000000 && Pow10(8) == 100000000
  {
    assert Pow10(2) == 100;
    assert Pow10(4) == 100 * Pow10(2);
    assert Pow10(6) == 100 * Pow10(4);
  }

  lemma TwoZeros()
    ensures NeverBack(2, 6148914691236517205) && NeverBack(2, 6148914691236517206)
    ensures NeverBack(2, 16397105843297379214) && NeverBack(2, 16397105843297379215)
  {
    hide NeverBack, Rescaled, Pow10;
    Powers();
    Root(2, 100, 6148914691236517205, -5776253194797940405, -31, 14223247114072347879, -1925417731599313469);
    Root(2, 100, 6148914691236517206, -5776253194797940405, -31, 8446993919274407474, -1925417731599313469);
    Root(2, 100, 16397105843297379214, -5776253194797940405, -31, 9482164742714898586, -5134447284264835916);
    Root(2, 100, 16397105843297379215, -5776253194797940405, -31, 3705911547916958181, -5134447284264835916);
  }

  lemma FourZeros()
    ensures NeverBack(4, 2049638230412172402) && NeverBack(4, 2049638230412172403)
    ensures NeverBack(4, 12297829382473034411) && NeverBack(4, 12297829382473034412)
  {
    hide NeverBack, Rescaled, Pow10;
    Powers();
    Root(4, 10000, 2049638230412172402, -4988498447375800337, -2704, 13238912402357251182, -554277605263977816);
    Root(4, 10000, 2049638230412172403, -4988498447375800337, -2704, 8250413954981450845, -554277605263977816);
    Root(4, 10000, 12297829382473034411, -4988498447375800337, -2704, 10634996566681100965, -3325665631583866892);
    Root(4, 10000, 12297829382473034412, -4988498447375800337, -2704, 5646498119305300628, -3325665631583866892);
  }

  lemma SixZeros()
    ensures NeverBack(6, 8198552921648689607) && NeverBack(6, 8198552921648689608)
  {
    hide NeverBack, Rescaled, Pow10;
    Powers();
    Root(6, 1000000, 8198552921648689607, 1672254362768354751, 90653, 5963108650928922233, 743224161230379889);
    Root(6, 1000000, 8198552921648689608, 1672254362768354751, 90653, 7635363013697276984, 743224161230379889);
  }

  lemma EightZeros()
    ensures NeverBack(8, 4099276460824344804) && NeverBack(8, 4099276460824344805)
    ensures NeverBack(8, 14347467612885206813) && NeverBack(8, 14347467612885206814)
  {
    hide NeverBack, Rescaled, Pow10;
    Powers();
    Root(8, 100000000, 4099276460824344804, 300153063250403071, 1627133, 10381592513505485596, 66700680722311793);
    Root(8, 100000000, 4099276460824344805, 300153063250403071, 1627133, 10681745576755888667, 66700680722311793);
    Root(8, 100000000, 14347467612885206813, 300153063250403071, 1627133, 8365304623454469091, 233452382528091277);
    Root(8, 100000000, 14347467612885206814, 300153063250403071, 1627133, 8665457686704872162, 233452382528091277);
  }

  /** A compact form that exceeds 64 bits by `over`, digit by digit: the zeros it stands for are
      known, and its other digits are about a ninth of `over` away from the amount. */
  lemma WrappedDigits(q: nat, d: nat, over: nat, q': nat, r: nat, e: nat)
    requires 1 <= d <= 9 && r <= 8 && e <= 9
    requires 90 * q + 10 * d - 9 == over + 90 * q' + 10 * r + e + 1
    ensures over + e == 10 * (9 * q + d - 1 - 9 * q' - r)
    ensures -8 <= 9 * (10 * q + d) - 9 * (10 * q' + r + 1) - over - e <= 8
  {
  }

  /** How many zeros the compact form stands for after `k` wrap-arounds. */
  function Zeros(k: nat): nat {
    4 * k % 10
  }

  /** How far its other digits are from the amount, but for one. */
  function Distance(k: nat): nat {
    (k * TWO_64 + Zeros(k)) / 9
  }

  lemma Pinned(n: nat, m: nat, k: nat, e: nat, u: int)
    requires 1 <= k <= 8 && e <= 9 && k * TWO_64 + e == 10 * u
    requires -8 <= 9 * n - 9 * m - k * TWO_64 - e <= 8
    ensures e == Zeros(k) && (n == m + Distance(k) || n == m + Distance(k) + 1)
  {
    LastDigit(k, e, u - k * (TWO_64 / 10));
    Ninth(k * TWO_64 + e, n - m);
  }

  lemma LastDigit(k: nat, e: nat, v: int)
    requires 1 <= k <= 8 && e <= 9 && 6 * k + e == 10 * v
    ensures e == Zeros(k)
  {
  }

  lemma Ninth(a: nat, d: int)
    requires -8 <= 9 * d - a <= 8
    ensures d == a / 9 || d == a / 9 + 1
  {
  }

  lemma NoneBack(k: nat)
    requires 1 <= k <= 8 && k != 5
    ensures NeverBack(Zeros(k), Distance(k)) && NeverBack(Zeros(k), Distance(k) + 1)
  {
    hide NeverBack;
    TwoZeros();
    FourZeros();
    SixZeros();
    EightZeros();
  }

  /** What remains of the wrapped compact form after decompression is not the amount. */
  lemma NotBack(n: nat, m: nat, k: nat, e: nat, u: int)
    requires 1 <= k <= 8 && e <= 9 && k * TWO_64 + e == 10 * u
    requires -8 <= 9 * n - 9 * m - k * TWO_64 - e <= 8
    requires n < TWO_64 && 9 * m < TWO_64 + 9
    ensures Rescaled(m, e) != n
  {
    Pinned(n, m, k, e, u);
    if k == 5 {
      assert e == 0 && Pow10(0) == 1;
      Fits(m);
    } else {
      NoneBack(k);
    }
  }

  lemma Unpacked(x: nat) returns (q: nat, r: nat, e: nat)
    requires x > 0
    ensures r <= 8 && e <= 9 && x == 90 * q + 10 * r + e + 1
    ensures e < 9 ==> Decompress(x) % TWO_64 == Rescaled(q * 10 + r + 1, e)
  {
    hide Pow10;
    var y := (x - 1) / 10;
    q, r, e := y / 9, y % 9, (x - 1) % 10;
  }

  /** An amount whose compact form does not fit becomes another one. */
  lemma WrappedIsLost(n: nat)
    requires n < TWO_64 && !CompactFits(n)
    ensures Decompress(Compress(n) % TWO_64) % TWO_64 != n
  {
    hide Compress, Decompress, NeverBack, Rescaled;
    CompactFitsIff(n);
    var k, x := Compress(n) / TWO_64, Compress(n) % TWO_64;
    var q, r, e := Unpacked(x);
    var u := 9 * (n / 10) + n % 10 - 1 - 9 * q - r;
    WrappedDigits(n / 10, n % 10, k * TWO_64, q, r, e);
    Pinned(n, q * 10 + r + 1, k, e, u);
    NotBack(n, q * 10 + r + 1, k, e, u);
  }

  /** An amount comes back exactly if its compact form fits. */
  method AmountBack(n: nat) returns (m: nat)
    requires n < TWO_64
    ensures m == n <==> CompactFits(n)
  {
    hide Compress, Decompress;
    CompactFitsIff(n);
    DecompressCompress(n);
    Fits(n);
    var x := CompressAmount(n);
    m := DecompressAmount(x);
    if CompactFits(n) {
      Fits(Compress(n));
    } else {
      WrappedIsLost(n);
    }
  }

  /** The largest amount of money does not. */
  method AmountLost() returns (n: nat, m: nat)
    ensures n == 0x7fff_ffff_ffff_ffff && m == Decompress(Compress(n) % TWO_64) % TWO_64 && m != n
  {
    n := 0x7fff_ffff_ffff_ffff;
    WrappedIsLost(n);
    hide Compress, Decompress;
    var x := CompressAmount(n);
    m := DecompressAmount(x);
  }
}
