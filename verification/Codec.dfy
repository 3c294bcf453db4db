/**
 The wire grammar of src/net/codec.rs as a small algebra of codecs.

 A codec pairs a serializer with a deserializer that reads from the front of a byte stream.
 `Lawful` is what the protocol needs of a codec: it inverts, it never looks past what it
 consumes, and it accepts only what it could have produced.  Every combinator keeps the
 law, so every message format built from them is invertible and prefix-free.
 */
module Codec {
  import opened Positional

  type byte = x: int | 0 <= x < 256
  type bytes = seq<byte>

  /** Short: the stream ended inside the value.  Malformed: the bytes read are not acceptable. */
  datatype Parsed<+T> = Got(value: T, used: nat) | Short | Malformed

  datatype Codec<!T> = Codec(enc: T -> bytes, dec: bytes -> Parsed<T>, ok: T -> bool)

  // ---- the law ----

  /** Decoding an encoding followed by anything gives the value back and stops at its end. */
  ghost predicate Inverts<T(!new)>(c: Codec<T>) {
    forall v, rest: bytes {:trigger c.dec(c.enc(v) + rest)} ::
      c.ok(v) ==> c.dec(c.enc(v) + rest) == Got(v, |c.enc(v)|)
  }

  /** Once there are enough bytes to answer, more bytes do not change the answer. */
  ghost predicate Stable<T(!new)>(c: Codec<T>) {
    forall x: bytes, rest: bytes {:trigger c.dec(x + rest)} ::
      !c.dec(x).Short? ==> c.dec(x + rest) == c.dec(x)
  }

  /** Whatever is accepted is the encoding of an acceptable value. */
  ghost predicate Canonical<T(!new)>(c: Codec<T>) {
    forall x: bytes {:trigger c.dec(x)} :: c.dec(x).Got? ==>
      var v, n := c.dec(x).value, c.dec(x).used;
      n <= |x| && c.ok(v) && c.enc(v) == x[..n]
  }

  ghost predicate Lawful<T(!new)>(c: Codec<T>) {
    Inverts(c) && Stable(c) && Canonical(c)
  }

  /** A format of fixed size: short exactly below it, and using exactly that many bytes. */
  ghost predicate Sized<T(!new)>(c: Codec<T>, size: nat) {
    forall x: bytes {:trigger c.dec(x)} ::
      && (c.dec(x).Short? <==> |x| < size)
      && (c.dec(x).Got? ==> c.dec(x).used == size)
  }

  /** Prefix-freeness: every strict prefix of an encoding is reported as short. */
  lemma PrefixFree<T(!new)>(c: Codec<T>, v: T, k: nat)
    requires Lawful(c) && c.ok(v) && k < |c.enc(v)|
    ensures c.dec(c.enc(v)[..k]) == Short
  {
    var e := c.enc(v);
    assert e + [] == e && e[..k] + e[k..] == e;
    assert c.dec(e + []) == Got(v, |e|);
  }

  /** Unique readability: concatenated encodings parse in only one way. */
  lemma UniqueReading<T(!new)>(c: Codec<T>, v: T, w: T, rest: bytes, rest': bytes)
    requires Lawful(c) && c.ok(v) && c.ok(w)
    requires c.enc(v) + rest == c.enc(w) + rest'
    ensures v == w && rest == rest'
  {
    assert c.dec(c.enc(v) + rest) == Got(v, |c.enc(v)|);
    assert c.dec(c.enc(w) + rest') == Got(w, |c.enc(w)|);
    assert rest == (c.enc(v) + rest)[|c.enc(v)|..] == rest';
  }

  // ---- primitives ----

  /** Big-endian unsigned integers of `w` bytes. */
  function UInt(w: nat): (c: Codec<nat>)
  {
    Codec(
      (v: nat) => Fixed(256, w, v),
      (x: bytes) => if |x| < w then Short else Got(Value(256, x[..w]), w),
      (v: nat) => v < Pow(256, w))
  }

  lemma UIntLawful(w: nat)
    ensures Lawful(UInt(w)) && Sized(UInt(w), w)
  {
    hide Fixed, Value, Pow;
    var c := UInt(w);
    forall v: nat, rest: bytes | c.ok(v)
      ensures c.dec(c.enc(v) + rest) == Got(v, |c.enc(v)|)
    {
      assert (c.enc(v) + rest)[..w] == c.enc(v);
      ValueOfFixed(256, w, v);
    }
    forall x: bytes, rest: bytes | !c.dec(x).Short?
      ensures c.dec(x + rest) == c.dec(x)
    {
      assert (x + rest)[..w] == x[..w];
    }
    forall x: bytes | c.dec(x).Got?
      ensures c.ok(c.dec(x).value) && c.enc(c.dec(x).value) == x[..w]
    {
      FixedOfValue(256, x[..w]);
      ValueBound(256, x[..w]);
    }
  }

  /** Byte arrays of fixed length: hashes, signatures, addresses, keys. */
  function Raw(w: nat): (c: Codec<bytes>)
  {
    Codec(
      (v: bytes) => v,
      (x: bytes) => if |x| < w then Short else Got(x[..w], w),
      (v: bytes) => |v| == w)
  }

  lemma RawLawful(w: nat)
    ensures Lawful(Raw(w)) && Sized(Raw(w), w)
  {
    var c := Raw(w);
    forall v: bytes, rest: bytes | c.ok(v)
      ensures c.dec(c.enc(v) + rest) == Got(v, |c.enc(v)|)
    {
      assert (v + rest)[..w] == v;
    }
    forall x: bytes, rest: bytes | !c.dec(x).Short?
      ensures c.dec(x + rest) == c.dec(x)
    {
      assert (x + rest)[..w] == x[..w];
    }
  }

  // ---- combinators ----

  /** Read `a`, then read what `a`'s value calls for. */
  function Then<A, B>(a: Codec<A>, f: A -> Codec<B>): (c: Codec<(A, B)>)
  {
    Codec(
      (p: (A, B)) => a.enc(p.0) + f(p.0).enc(p.1),
      (x: bytes) => ThenDec(a, f, x),
      (p: (A, B)) => a.ok(p.0) && f(p.0).ok(p.1))
  }

  function ThenDec<A, B>(a: Codec<A>, f: A -> Codec<B>, x: bytes): (r: Parsed<(A, B)>)
  {
    match a.dec(x)
    case Short => Short
    case Malformed => Malformed
    case Got(v, n) =>
      if n > |x| then Malformed else
      match f(v).dec(x[n..])
      case Short => Short
      case Malformed => Malformed
      case Got(w, m) => Got((v, w), n + m)
  }

  lemma ThenLawful<A(!new), B(!new)>(a: Codec<A>, f: A -> Codec<B>)
    requires Lawful(a) && forall v :: a.ok(v) ==> Lawful(f(v))
    ensures Lawful(Then(a, f))
  {
    var c := Then(a, f);
    forall p, rest: bytes | c.ok(p)
      ensures c.dec(c.enc(p) + rest) == Got(p, |c.enc(p)|)
    {
      ThenInverts(a, f, p, rest);
    }
    forall x: bytes, rest: bytes | !c.dec(x).Short?
      ensures c.dec(x + rest) == c.dec(x)
    {
      ThenStable(a, f, x, rest);
    }
    forall x: bytes | c.dec(x).Got?
      ensures c.dec(x).used <= |x| && c.ok(c.dec(x).value) && c.enc(c.dec(x).value) == x[..c.dec(x).used]
    {
      ThenCanonical(a, f, x);
    }
  }

  lemma ThenInverts<A(!new), B(!new)>(a: Codec<A>, f: A -> Codec<B>, p: (A, B), rest: bytes)
    requires Lawful(a) && Lawful(f(p.0)) && a.ok(p.0) && f(p.0).ok(p.1)
    ensures ThenDec(a, f, a.enc(p.0) + f(p.0).enc(p.1) + rest) == Got(p, |a.enc(p.0)| + |f(p.0).enc(p.1)|)
  {
    var e, g := a.enc(p.0), f(p.0).enc(p.1);
    assert e + g + rest == e + (g + rest);
    assert a.dec(e + (g + rest)) == Got(p.0, |e|);
    assert (e + (g + rest))[|e|..] == g + rest;
  }

  lemma ThenStable<A(!new), B(!new)>(a: Codec<A>, f: A -> Codec<B>, x: bytes, rest: bytes)
    requires Lawful(a) && forall v :: a.ok(v) ==> Lawful(f(v))
    requires !ThenDec(a, f, x).Short?
    ensures ThenDec(a, f, x + rest) == ThenDec(a, f, x)
  {
    assert a.dec(x + rest) == a.dec(x);
    match a.dec(x)
    case Got(v, n) =>
      assert (x + rest)[n..] == x[n..] + rest;
    case _ =>
  }

  lemma ThenCanonical<A(!new), B(!new)>(a: Codec<A>, f: A -> Codec<B>, x: bytes)
    requires Lawful(a) && forall v :: a.ok(v) ==> Lawful(f(v))
    requires ThenDec(a, f, x).Got?
    ensures var r := ThenDec(a, f, x);
      && r.used <= |x| && a.ok(r.value.0) && f(r.value.0).ok(r.value.1)
      && a.enc(r.value.0) + f(r.value.0).enc(r.value.1) == x[..r.used]
  {
  }

  function Both<A, B>(a: Codec<A>, b: Codec<B>): (c: Codec<(A, B)>)
  {
    Then(a, _ => b)
  }

  lemma BothLawful<A(!new), B(!new)>(a: Codec<A>, b: Codec<B>)
    requires Lawful(a) && Lawful(b)
    ensures Lawful(Both(a, b))
  {
    ThenLawful(a, _ => b);
  }

  lemma BothSized<A(!new), B(!new)>(a: Codec<A>, b: Codec<B>, m: nat, n: nat)
    requires Lawful(a) && Lawful(b) && Sized(a, m) && Sized(b, n)
    requires forall x: bytes :: !a.dec(x).Malformed?
    ensures Sized(Both(a, b), m + n)
  {
  }

  /** Rename values; a value counts only if it survives the renaming. */
  function Map<A, B(==)>(c: Codec<A>, to: A -> B, from: B -> A): (d: Codec<B>)
  {
    Codec(
      (v: B) => c.enc(from(v)),
      (x: bytes) =>
        match c.dec(x)
        case Got(v, n) => Got(to(v), n)
        case Short => Short
        case Malformed => Malformed,
      (v: B) => c.ok(from(v)) && to(from(v)) == v)
  }

  lemma MapLawful<A(!new), B(!new)>(c: Codec<A>, to: A -> B, from: B -> A)
    requires Lawful(c) && forall v :: c.ok(v) ==> from(to(v)) == v
    ensures Lawful(Map(c, to, from))
  {
  }

  /** Reject values that fail a test once they have been read. */
  function Guard<A>(c: Codec<A>, p: A -> bool): (d: Codec<A>)
  {
    Codec(
      c.enc,
      (x: bytes) => if c.dec(x).Got? && !p(c.dec(x).value) then Malformed else c.dec(x),
      (v: A) => c.ok(v) && p(v))
  }

  lemma GuardLawful<A(!new)>(c: Codec<A>, p: A -> bool)
    requires Lawful(c)
    ensures Lawful(Guard(c, p))
  {
  }

  /** Exactly `n` items, one after the other. */
  function Repeat<T>(item: Codec<T>, n: nat): (c: Codec<seq<T>>)
  {
    Codec(
      (s: seq<T>) => RepeatEnc(item, s),
      (x: bytes) => RepeatDec(item, n, x),
      (s: seq<T>) => |s| == n && forall i :: 0 <= i < |s| ==> item.ok(s[i]))
  }

  function RepeatEnc<T>(item: Codec<T>, s: seq<T>): (x: bytes)
  {
    if s == [] then [] else item.enc(s[0]) + RepeatEnc(item, s[1..])
  }

  function RepeatDec<T>(item: Codec<T>, n: nat, x: bytes): (r: Parsed<seq<T>>)
  {
    if n == 0 then Got([], 0) else
    match item.dec(x)
    case Short => Short
    case Malformed => Malformed
    case Got(v, used) =>
      if used > |x| then Malformed else
      match RepeatDec(item, n - 1, x[used..])
      case Short => Short
      case Malformed => Malformed
      case Got(vs, more) => Got([v] + vs, used + more)
  }

  lemma RepeatLawful<T(!new)>(item: Codec<T>, n: nat)
    requires Lawful(item)
    ensures Lawful(Repeat(item, n))
  {
    var c := Repeat(item, n);
    forall s, rest: bytes | c.ok(s)
      ensures c.dec(c.enc(s) + rest) == Got(s, |c.enc(s)|)
    {
      RepeatInverts(item, s, rest);
    }
    forall x: bytes, rest: bytes | !c.dec(x).Short?
      ensures c.dec(x + rest) == c.dec(x)
    {
      RepeatStable(item, n, x, rest);
    }
    forall x: bytes | c.dec(x).Got?
      ensures c.dec(x).used <= |x| && c.ok(c.dec(x).value) && c.enc(c.dec(x).value) == x[..c.dec(x).used]
    {
      RepeatCanonical(item, n, x);
    }
  }

  lemma {:induction false} RepeatInverts<T(!new)>(item: Codec<T>, s: seq<T>, rest: bytes)
    requires Lawful(item) && forall i :: 0 <= i < |s| ==> item.ok(s[i])
    ensures RepeatDec(item, |s|, RepeatEnc(item, s) + rest) == Got(s, |RepeatEnc(item, s)|)
  {
    if s != [] {
      RepeatInverts(item, s[1..], rest);
      var e, g := item.enc(s[0]), RepeatEnc(item, s[1..]);
      assert e + g + rest == e + (g + rest);
      assert item.dec(e + (g + rest)) == Got(s[0], |e|);
      assert (e + (g + rest))[|e|..] == g + rest;
      assert s == [s[0]] + s[1..];
    }
  }

  lemma {:induction false} RepeatStable<T(!new)>(item: Codec<T>, n: nat, x: bytes, rest: bytes)
    requires Lawful(item) && !RepeatDec(item, n, x).Short?
    ensures RepeatDec(item, n, x + rest) == RepeatDec(item, n, x)
  {
    if n != 0 {
      assert item.dec(x + rest) == item.dec(x);
      if item.dec(x).Got? {
        var used := item.dec(x).used;
        RepeatStable(item, n - 1, x[used..], rest);
        assert (x + rest)[used..] == x[used..] + rest;
      }
    }
  }

  lemma {:induction false} RepeatCanonical<T(!new)>(item: Codec<T>, n: nat, x: bytes)
    requires Lawful(item) && RepeatDec(item, n, x).Got?
    ensures var r := RepeatDec(item, n, x);
      && r.used <= |x| && |r.value| == n && (forall i :: 0 <= i < n ==> item.ok(r.value[i]))
      && RepeatEnc(item, r.value) == x[..r.used]
  {
    if n != 0 {
      var used := item.dec(x).used;
      RepeatCanonical(item, n - 1, x[used..]);
      var r := RepeatDec(item, n, x);
      var more := RepeatDec(item, n - 1, x[used..]).used;
      assert r.value[1..] == RepeatDec(item, n - 1, x[used..]).value;
      assert x[..used + more] == x[..used] + x[used..][..more];
    }
  }

  /** A vector: a four-byte count, refused before any item is read unless it is allowed. */
  function Vec<T(==)>(item: Codec<T>, allowed: nat -> bool): (c: Codec<seq<T>>)
  {
    Map(Then(Guard(UInt(4), allowed), n => Repeat(item, n)),
        (p: (nat, seq<T>)) => p.1,
        (s: seq<T>) => (|s|, s))
  }

  lemma VecLawful<T(!new)>(item: Codec<T>, allowed: nat -> bool)
    requires Lawful(item)
    ensures Lawful(Vec(item, allowed))
  {
    UIntLawful(4);
    GuardLawful(UInt(4), allowed);
    forall n: nat ensures Lawful(Repeat(item, n)) { RepeatLawful(item, n); }
    ThenLawful(Guard(UInt(4), allowed), n => Repeat(item, n));
    MapLawful(Then(Guard(UInt(4), allowed), n => Repeat(item, n)),
              (p: (nat, seq<T>)) => p.1,
              (s: seq<T>) => (|s|, s));
  }
}
