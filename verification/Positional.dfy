/**
 Positional number systems: the reference meaning of the base58 and c32 codecs.

 A digit string denotes a number together with a run of leading zeros, and both codecs
 preserve the two: `Transcode` is the whole specification, and `TranscodeRoundTrip`
 is the single reason why both codecs are bijections.
 */
module Positional {

  function Pow(b: nat, e: nat): (p: nat)
  {
    if e == 0 then 1 else b * Pow(b, e - 1)
  }

  lemma {:induction false} PowAdd(b: nat, x: nat, y: nat)
    ensures Pow(b, x + y) == Pow(b, x) * Pow(b, y)
  {
    if x != 0 {
      PowAdd(b, x - 1, y);
      calc {
        Pow(b, x + y);
        b * (Pow(b, x - 1) * Pow(b, y));
        (b * Pow(b, x - 1)) * Pow(b, y);
      }
    }
  }

  lemma {:induction false} PowPositive(b: nat, e: nat)
    requires b >= 1
    ensures Pow(b, e) >= 1
  {
    if e != 0 {
      PowPositive(b, e - 1);
      assert b * Pow(b, e - 1) >= 1 * 1;
    }
  }

  lemma {:induction false} PowMonotone(b: nat, x: nat, y: nat)
    requires b >= 1 && x <= y
    ensures Pow(b, x) <= Pow(b, y)
    decreases y
  {
    if x < y {
      PowMonotone(b, x, y - 1);
      MulMono(1, b, Pow(b, y - 1));
    }
  }

  predicate InBase(s: seq<int>, base: nat) {
    forall i :: 0 <= i < |s| ==> 0 <= s[i] < base
  }

  /** The number a most-significant-first digit string denotes. */
  function Value(base: nat, s: seq<int>): (v: nat)
    requires InBase(s, base)
  {
    if s == [] then 0 else Value(base, s[..|s| - 1]) * base + s[|s| - 1]
  }

  /** The shortest most-significant-first digit string of a number; zero has no digits. */
  ghost function Digits(base: nat, n: nat): (s: seq<int>)
    requires base >= 2
    ensures InBase(s, base)
    ensures s != [] ==> s[0] != 0
  {
    if n == 0 then [] else
      DivShrinks(n, base);
      Digits(base, n / base) + [n % base]
  }

  /** `Digits` least significant first, the order in which the encoders produce it. */
  ghost function DigitsLE(base: nat, n: nat): (s: seq<int>)
    requires base >= 2
    ensures InBase(s, base)
  {
    if n == 0 then [] else
      DivShrinks(n, base);
      [n % base] + DigitsLE(base, n / base)
  }

  /** Exactly `w` digits, most significant first; higher digits of `n` are dropped. */
  function Fixed(base: nat, w: nat, n: nat): (s: seq<int>)
    requires base >= 2
    ensures |s| == w && InBase(s, base)
  {
    if w == 0 then [] else Fixed(base, w - 1, n / base) + [n % base]
  }

  /** `Fixed` least significant first. */
  ghost function FixedLE(base: nat, w: nat, n: nat): (s: seq<int>)
    requires base >= 2
    ensures |s| == w && InBase(s, base)
  {
    if w == 0 then [] else [n % base] + FixedLE(base, w - 1, n / base)
  }

  function Zeros(k: nat): (z: seq<int>)
    ensures |z| == k && forall i :: 0 <= i < k ==> z[i] == 0
  {
    seq(k, _ => 0)
  }

  function LeadingZeros(s: seq<int>): (k: nat)
    ensures k <= |s| && s[..k] == Zeros(k)
    ensures k < |s| ==> s[k] != 0
  {
    if s == [] || s[0] != 0 then 0 else
      var k := 1 + LeadingZeros(s[1..]);
      assert forall i :: 0 < i < k ==> s[i] == s[1..][i - 1];
      k
  }

  function Reversed(s: seq<int>): (r: seq<int>)
    ensures |r| == |s| && forall i :: 0 <= i < |s| ==> r[i] == s[|s| - 1 - i]
  {
    seq(|s|, i requires 0 <= i < |s| => s[|s| - 1 - i])
  }

  /** Rewrite a digit string in another base: same number, same count of leading zeros. */
  ghost function Transcode(from: nat, to: nat, s: seq<int>): (t: seq<int>)
    requires from >= 2 && to >= 2 && InBase(s, from)
    ensures InBase(t, to)
  {
    Zeros(LeadingZeros(s)) + Digits(to, Value(from, s))
  }

  lemma DivShrinks(n: nat, base: nat)
    requires n > 0 && base >= 2
    ensures n / base < n
  {
  }

  lemma MulMono(x: nat, y: nat, c: nat)
    requires x <= y
    ensures x * c <= y * c
  {
  }

  lemma Distribute(a: int, b: int, c: int)
    ensures a * (b + c) == a * b + a * c
  {
  }

  lemma Associate(a: int, b: int, c: int)
    ensures (a * b) * c == (a * c) * b == a * (b * c)
  {
  }

  lemma MulMono2(x: nat, x': nat, y: nat, y': nat)
    requires x <= x' && y <= y'
    ensures x * y <= x' * y'
  {
  }

  /** Euclid's division, as a rewriting rule in both directions. */
  lemma DivMod(n: nat, base: nat)
    requires base >= 1
    ensures n == (n / base) * base + n % base && 0 <= n % base < base
  {
  }

  lemma DivModUnique(q: nat, base: nat, r: nat)
    requires r < base
    ensures (q * base + r) / base == q && (q * base + r) % base == r
  {
    var n := q * base + r;
    DivMod(n, base);
    var q' := n / base;
    if q' < q {
      MulMono(q' + 1, q, base);
    } else if q < q' {
      MulMono(q + 1, q', base);
    }
  }

  lemma DivBelow(n: nat, base: nat, p: nat)
    requires base >= 1 && n < base * p
    ensures n / base < p
  {
  }

  /** One digit of each digit string, for proofs that hide the definitions. */
  lemma Unfold(base: nat, n: nat, w: nat)
    requires base >= 2
    ensures DigitsLE(base, n) == if n == 0 then [] else [n % base] + DigitsLE(base, n / base)
    ensures Fixed(base, w + 1, n) == Fixed(base, w, n / base) + [n % base]
  {
  }

  lemma {:induction false} ValueOfDigits(base: nat, n: nat)
    requires base >= 2
    ensures Value(base, Digits(base, n)) == n
  {
    if n != 0 {
      DivShrinks(n, base);
      DivMod(n, base);
      ValueOfDigits(base, n / base);
      var s := Digits(base, n);
      assert s[..|s| - 1] == Digits(base, n / base);
    }
  }

  lemma {:induction false} DigitsOfValue(base: nat, s: seq<int>)
    requires base >= 2 && InBase(s, base)
    requires s != [] ==> s[0] != 0
    ensures Digits(base, Value(base, s)) == s
    ensures s != [] ==> Value(base, s) > 0
  {
    if s != [] {
      var q, r := Value(base, s[..|s| - 1]), s[|s| - 1];
      DigitsOfValue(base, s[..|s| - 1]);
      DivModUnique(q, base, r);
      assert q > 0 || |s| == 1;
      assert q > 0 ==> q * base > 0;
      assert s == s[..|s| - 1] + [r];
    }
  }

  lemma {:induction false} ValueSkipsZeros(base: nat, k: nat, s: seq<int>)
    requires base >= 1 && InBase(s, base)
    ensures Value(base, Zeros(k) + s) == Value(base, s)
  {
    var t := Zeros(k) + s;
    if s != [] {
      ValueSkipsZeros(base, k, s[..|s| - 1]);
      assert t[..|t| - 1] == Zeros(k) + s[..|s| - 1];
    } else if k != 0 {
      ValueSkipsZeros(base, k - 1, []);
      assert t[..|t| - 1] == Zeros(k - 1) + [];
    }
  }

  lemma {:induction false} LeadingZerosOfPadded(k: nat, s: seq<int>)
    requires s != [] ==> s[0] != 0
    ensures LeadingZeros(Zeros(k) + s) == k
  {
    var t := Zeros(k) + s;
    if k != 0 {
      LeadingZerosOfPadded(k - 1, s);
      assert t[1..] == Zeros(k - 1) + s;
    }
  }

  /** The bijection: rewriting into another base and back is the identity, leading zeros included. */
  lemma TranscodeRoundTrip(a: nat, b: nat, s: seq<int>)
    requires a >= 2 && b >= 2 && InBase(s, a)
    ensures Transcode(b, a, Transcode(a, b, s)) == s
  {
    var k := LeadingZeros(s);
    var v := Value(a, s);
    var t := Transcode(a, b, s);
    assert s == Zeros(k) + s[k..];
    ValueSkipsZeros(a, k, s[k..]);
    DigitsOfValue(a, s[k..]);
    ValueSkipsZeros(b, k, Digits(b, v));
    ValueOfDigits(b, v);
    LeadingZerosOfPadded(k, Digits(b, v));
  }

  lemma {:induction false} ValueBound(base: nat, s: seq<int>)
    requires base >= 1 && InBase(s, base)
    ensures Value(base, s) < Pow(base, |s|)
  {
    if s != [] {
      var q, p := Value(base, s[..|s| - 1]), Pow(base, |s| - 1);
      ValueBound(base, s[..|s| - 1]);
      MulMono(q + 1, p, base);
      assert (q + 1) * base == q * base + base;
      assert Pow(base, |s|) == base * p;
    }
  }

  /** `base^w` is exactly where `w` digits stop being enough. */
  lemma {:induction false} DigitsLength(base: nat, n: nat, w: nat)
    requires base >= 2 && n < Pow(base, w)
    ensures |Digits(base, n)| <= w
  {
    if n != 0 {
      assert w != 0;
      DivShrinks(n, base);
      DivBelow(n, base, Pow(base, w - 1));
      DigitsLength(base, n / base, w - 1);
    }
  }

  /** Dropping the leading zeros of a wide enough fixed-width form leaves the shortest form. */
  lemma {:induction false} FixedStripped(base: nat, w: nat, n: nat)
    requires base >= 2 && n < Pow(base, w)
    ensures var f := Fixed(base, w, n); f[LeadingZeros(f)..] == Digits(base, n)
  {
    FixedPadded(base, w, n);
    var d := Digits(base, n);
    LeadingZerosOfPadded(w - |d|, d);
  }

  lemma {:induction false} FixedPadded(base: nat, w: nat, n: nat)
    requires base >= 2 && n < Pow(base, w)
    ensures |Digits(base, n)| <= w
    ensures Fixed(base, w, n) == Zeros(w - |Digits(base, n)|) + Digits(base, n)
  {
    DigitsLength(base, n, w);
    if w != 0 {
      DivBelow(n, base, Pow(base, w - 1));
      FixedPadded(base, w - 1, n / base);
      if n == 0 {
        assert Fixed(base, w, 0) == Zeros(w - 1) + [0];
      } else {
        hide Fixed, Digits;
        var q := Digits(base, n / base);
        assert Zeros(w - 1 - |q|) + q + [n % base] == Zeros(w - 1 - |q|) + (q + [n % base]);
      }
    }
  }

  /** What is left of a number above its low `k` digits. */
  ghost function Drop(base: nat, n: nat, k: nat): (r: nat)
    requires base >= 2
  {
    if k == 0 then n else Drop(base, n, k - 1) / base
  }

  lemma {:induction false} DropAll(base: nat, n: nat, w: nat, k: nat)
    requires base >= 2 && k <= w && n < Pow(base, w)
    ensures Drop(base, n, k) < Pow(base, w - k)
  {
    if k != 0 {
      DropAll(base, n, w, k - 1);
      DivBelow(Drop(base, n, k - 1), base, Pow(base, w - k));
    }
  }

  lemma {:induction false} ValueOfFixed(base: nat, w: nat, n: nat)
    requires base >= 2 && n < Pow(base, w)
    ensures Value(base, Fixed(base, w, n)) == n
  {
    if w != 0 {
      DivBelow(n, base, Pow(base, w - 1));
      DivMod(n, base);
      ValueOfFixed(base, w - 1, n / base);
      var s := Fixed(base, w, n);
      assert s[..w - 1] == Fixed(base, w - 1, n / base);
    }
  }

  lemma {:induction false} FixedOfValue(base: nat, s: seq<int>)
    requires base >= 2 && InBase(s, base)
    ensures Fixed(base, |s|, Value(base, s)) == s
  {
    if s != [] {
      FixedOfValue(base, s[..|s| - 1]);
      DivModUnique(Value(base, s[..|s| - 1]), base, s[|s| - 1]);
      assert s == s[..|s| - 1] + [s[|s| - 1]];
    }
  }

  lemma {:induction false} FixedOfZero(base: nat, w: nat)
    requires base >= 2
    ensures Fixed(base, w, 0) == Zeros(w)
  {
    if w != 0 { FixedOfZero(base, w - 1); }
  }

  lemma {:induction false} ReversedLE(base: nat, n: nat)
    requires base >= 2
    ensures Reversed(DigitsLE(base, n)) == Digits(base, n)
  {
    if n != 0 {
      DivShrinks(n, base);
      ReversedLE(base, n / base);
      assert Reversed(DigitsLE(base, n)) == Reversed(DigitsLE(base, n / base)) + [n % base];
    }
  }

  lemma {:induction false} ReversedFixedLE(base: nat, w: nat, n: nat)
    requires base >= 2
    ensures Reversed(FixedLE(base, w, n)) == Fixed(base, w, n)
  {
    if w != 0 {
      ReversedFixedLE(base, w - 1, n / base);
      assert Reversed(FixedLE(base, w, n)) == Reversed(FixedLE(base, w - 1, n / base)) + [n % base];
    }
  }

  // ---- checksums ----

  /** Any four-byte checksum; the codecs use the first bytes of a double SHA-256. */
  type Checksum = seq<int> -> seq<int>

  ghost predicate IsChecksum(sum: Checksum) {
    forall d :: |sum(d)| == 4 && InBase(sum(d), 256)
  }

  /** Four bytes as a number, least significant first. */
  function Word(b: seq<int>): (w: int)
    requires |b| == 4
  {
    b[0] + 256 * (b[1] + 256 * (b[2] + 256 * b[3]))
  }

  lemma LowByte(x: int, p: int, y: int, q: int)
    requires 0 <= x < 256 && 0 <= y < 256 && x + 256 * p == y + 256 * q
    ensures x == y && p == q
  {
  }

  lemma WordInjective(a: seq<int>, b: seq<int>)
    requires |a| == |b| == 4 && InBase(a, 256) && InBase(b, 256)
    ensures Word(a) == Word(b) <==> a == b
  {
    if Word(a) == Word(b) {
      LowByte(a[0], a[1] + 256 * (a[2] + 256 * a[3]), b[0], b[1] + 256 * (b[2] + 256 * b[3]));
      LowByte(a[1], a[2] + 256 * a[3], b[1], b[2] + 256 * b[3]);
      LowByte(a[2], a[3], b[2], b[3]);
      assert a == b;
    }
  }
}
