/**
 Crockford base32 addresses (src/address/c32.rs): a bit-carrying conversion between
 base 256 and base 32, and the versioned, checksummed address format on top of it.
 Text is ASCII.
 */
module C32 {
  import opened Positional
  import Prelude

  datatype Error = InvalidCrockford32 | InvalidVersion(version: int) | BadChecksum(computed: int, expected: int)
  datatype Result<+T> = Ok(value: T) | Err(error: Error)

  /** The d-th character of C32_CHARACTERS. */
  function CharOf(d: int): (c: char)
    requires 0 <= d < 32
  {
    if d < 10 then (d + 48) as char
    else if d < 18 then (d + 55) as char
    else if d < 20 then (d + 56) as char
    else if d < 22 then (d + 57) as char
    else if d < 27 then (d + 58) as char
    else (d + 59) as char
  }

  /** C32_CHARACTERS.find, or -1. */
  function DigitOf(c: char): (d: int)
    ensures -1 <= d < 32
    ensures d >= 0 ==> c == CharOf(d)
    ensures d < 0 ==> forall k :: 0 <= k < 32 ==> CharOf(k) != c
  {
    if '0' <= c <= '9' then c as int - 48
    else if 'A' <= c <= 'H' then c as int - 55
    else if 'J' <= c <= 'K' then c as int - 56
    else if 'M' <= c <= 'N' then c as int - 57
    else if 'P' <= c <= 'T' then c as int - 58
    else if 'V' <= c <= 'Z' then c as int - 59
    else -1
  }

  lemma AlphabetSpelled(d: int)
    requires 0 <= d < 32
    ensures CharOf(d) == (
      if d < 10 then "0123456789"[d]
      else if d < 18 then "ABCDEFGH"[d - 10]
      else if d < 20 then "JK"[d - 18]
      else if d < 22 then "MN"[d - 20]
      else if d < 27 then "PQRST"[d - 22]
      else "VWXYZ"[d - 27])
  {
  }

  function TextOf(digits: seq<int>): (text: string)
    requires InBase(digits, 32)
    ensures |text| == |digits|
  {
    seq(|digits|, i requires 0 <= i < |digits| => CharOf(digits[i]))
  }

  predicate IsC32(text: string) {
    forall i :: 0 <= i < |text| ==> DigitOf(text[i]) >= 0
  }

  function DigitsOf(text: string): (digits: seq<int>)
    requires IsC32(text)
    ensures |digits| == |text| && InBase(digits, 32)
  {
    seq(|text|, i requires 0 <= i < |text| => DigitOf(text[i]))
  }

  // ---- encoding ----

  ghost function Encoded(data: seq<int>): (text: string)
    requires InBase(data, 256)
  {
    TextOf(Transcode(256, 32, data))
  }

  /** 2^k: shifting by k bits multiplies or divides by it, and masking k bits takes the remainder. */
  function Exp2(k: nat): (p: nat)
    ensures p >= 1
  {
    PowPositive(2, k);
    Pow(2, k)
  }

  /**
   The part of the number still to be emitted: the carried bits below, and the value of the
   digits not yet read above them.
   */
  ghost function Left(base: nat, carry: nat, carryBits: nat, unread: seq<int>): (r: nat)
    requires InBase(unread, base)
  {
    carry + Exp2(carryBits) * Value(base, unread)
  }

  /** `out` holds the low digits of `v`, least significant first, and `r` is what is left to emit. */
  ghost predicate Emitted(base: nat, total: nat, v: nat, out: seq<int>, r: nat)
    requires base >= 2
  {
    |out| <= total && FixedLE(base, total, v) == out + FixedLE(base, total - |out|, r)
  }

  lemma EmitDigit(base: nat, total: nat, v: nat, out: seq<int>, r: nat)
    requires base >= 2 && Emitted(base, total, v, out, r) && |out| < total
    ensures Emitted(base, total, v, out + [r % base], r / base)
  {
  }

  /** A complete emission, stripped and reversed, is the shortest digit string. */
  lemma EmittedAll(base: nat, v: nat, out: seq<int>)
    requires base >= 2 && Emitted(base, |out|, v, out, 0) && v < Pow(base, |out|)
    ensures Reversed(out[..|out| - LeadingZeros(Reversed(out))]) == Digits(base, v)
  {
    assert out + [] == out;
    var f := Reversed(out);
    assert f == Fixed(base, |out|, v) by { ReversedFixedLE(base, |out|, v); }
    assert f[LeadingZeros(f)..] == Digits(base, v) by { FixedStripped(base, |out|, v); }
    assert Reversed(out[..|out| - LeadingZeros(f)]) == f[LeadingZeros(f)..];
  }

  method EncodeBits(data: seq<int>) returns (result: seq<int>)
    requires InBase(data, 256)
    ensures |result| == (8 * |data| + 4) / 5
    ensures Emitted(32, |result|, Value(256, data), result, 0)
  {
    result := [];
    var carry, carryBits := 0, 0;
    var i := |data|;
    ghost var v := Value(256, data);
    ghost var total := (8 * |data| + 4) / 5;
    EmitStart(32, 256, total, data);
    hide Exp2, Emitted, Left, Value;
    while i > 0
      invariant 0 <= i <= |data|
      invariant 0 <= carryBits < 5 && 0 <= carry < Exp2(carryBits)
      invariant 5 * |result| + carryBits == 8 * (|data| - i)
      invariant Emitted(32, total, v, result, Left(256, carry, carryBits, data[..i]))
    {
      i := i - 1;
      Prelude.TakeSnoc(data, i);
      result, carry, carryBits := EncodeByte(data[i], result, carry, carryBits, total, v, data[..i]);
    }
    Prelude.Split(data, 0);
    LastDigit(total, v, result, carry, carryBits, |data|);
    if carryBits > 0 {
      result := result + [carry];
    }
  }

  lemma LastDigit(total: nat, v: nat, result: seq<int>, carry: nat, carryBits: nat, n: nat)
    requires carryBits < 5 && carry < Exp2(carryBits) && total == (8 * n + 4) / 5
    requires 5 * |result| + carryBits == 8 * n
    requires Emitted(32, total, v, result, Left(256, carry, carryBits, []))
    ensures var out := if carryBits > 0 then result + [carry] else result;
      |out| == total && Emitted(32, total, v, out, 0)
  {
    hide Exp2, Emitted, Left;
    LowCarry(carry, carryBits, 5);
    Exp2Constants();
    NothingUnread(256, carry, carryBits);
    if carryBits > 0 {
      EmitDigit(32, total, v, result, carry);
    }
  }

  /** Nothing emitted, everything unread. */
  lemma EmitStart(base: nat, from: nat, total: nat, digits: seq<int>)
    requires base >= 2 && InBase(digits, from)
    ensures digits[..|digits|] == digits && Exp2(0) == 1
    ensures Emitted(base, total, Value(from, digits), [], Left(from, 0, 0, digits))
  {
    hide FixedLE, Value;
    assert Exp2(0) == 1;
  }

  lemma LeftIs(base: nat, carry: nat, carryBits: nat, unread: seq<int>, cur: nat)
    requires InBase(unread, base) && cur < base
    ensures Left(base, carry, carryBits, unread) == carry + Exp2(carryBits) * Value(base, unread)
    ensures Left(base, carry, carryBits, unread + [cur]) == carry + Exp2(carryBits) * (Value(base, unread) * base + cur)
  {
    hide Exp2;
    assert (unread + [cur])[..|unread|] == unread;
  }

  lemma NothingUnread(base: nat, carry: nat, carryBits: nat)
    ensures Left(base, carry, carryBits, []) == carry
  {
  }

  lemma LowCarry(carry: nat, carryBits: nat, b: nat)
    requires carryBits <= b && carry < Exp2(carryBits)
    ensures carryBits == 0 ==> carry == 0
    ensures carry < Exp2(b)
  {
    PowMonotone(2, carryBits, b);
  }

  method Encode(data: seq<int>) returns (text: string)
    requires InBase(data, 256)
    ensures text == Encoded(data)
  {
    var result := EncodeBits(data);
    AllDigitsEmitted(data);
    result := Assemble(32, result, LeadingZeros(data), Value(256, data));
    text := TextOf(result);
  }

  /** The tail of both conversions: strip, restore the input's leading zeros, reverse. */
  method Assemble(ghost base: nat, out: seq<int>, leading: nat, ghost v: nat) returns (result: seq<int>)
    requires base >= 2 && Emitted(base, |out|, v, out, 0) && v < Pow(base, |out|)
    ensures result == Zeros(leading) + Digits(base, v)
  {
    EmittedAll(base, v, out);
    result := StripHigh(out);
    result := result + Zeros(leading);
    result := Reversed(result);
  }

  /** The body of the encoder's loop. */
  method EncodeByte(cur: int, result: seq<int>, carry: nat, carryBits: nat,
                    ghost total: nat, ghost v: nat, ghost unread: seq<int>)
    returns (result': seq<int>, carry': nat, carryBits': nat)
    requires 0 <= cur < 256 && carryBits < 5 && carry < Exp2(carryBits)
    requires 5 * |result| + carryBits + 8 <= 5 * total
    requires InBase(unread, 256)
    requires Emitted(32, total, v, result, Left(256, carry, carryBits, unread + [cur]))
    ensures carryBits' < 5 && carry' < Exp2(carryBits')
    ensures 5 * |result'| + carryBits' == 5 * |result| + carryBits + 8
    ensures Emitted(32, total, v, result', Left(256, carry', carryBits', unread))
  {
    hide Exp2, Emitted;
    var lowBits := cur % Exp2(5 - carryBits);
    var c32 := lowBits * Exp2(carryBits) + carry;
    EmitLow(cur, result, carry, carryBits, total, v, unread);
    result' := result + [c32];
    carryBits' := 8 + carryBits - 5;
    carry' := cur / Exp2(8 - carryBits');
    if carryBits' >= 5 {
      EmitSpill(result', carry', carryBits', total, v, unread);
      result' := result' + [carry' % 32];
      carryBits' := carryBits' - 5;
      carry' := carry' / 32;
    }
  }

  /** The digit completed by the low bits of a byte, and the bits of the byte that are left. */
  function LowDigit(cur: nat, carry: nat, carryBits: nat): (d: nat)
    requires carryBits <= 5
  {
    cur % Exp2(5 - carryBits) * Exp2(carryBits) + carry
  }

  function HighBits(cur: nat, carryBits: nat): (h: nat)
    requires carryBits <= 5
  {
    cur / Exp2(5 - carryBits)
  }

  lemma EmitLow(cur: nat, result: seq<int>, carry: nat, carryBits: nat, total: nat, v: nat, unread: seq<int>)
    requires cur < 256 && carryBits < 5 && carry < Exp2(carryBits) && |result| < total
    requires InBase(unread, 256)
    requires Emitted(32, total, v, result, Left(256, carry, carryBits, unread + [cur]))
    ensures HighBits(cur, carryBits) < Exp2(carryBits + 3)
    ensures Emitted(32, total, v, result + [LowDigit(cur, carry, carryBits)],
                    Left(256, HighBits(cur, carryBits), carryBits + 3, unread))
  {
    hide Exp2, Emitted, Left, LowDigit, HighBits;
    LeftIs(256, carry, carryBits, unread, cur);
    LeftIs(256, HighBits(cur, carryBits), carryBits + 3, unread, cur);
    EncodeStep(carry, carryBits, cur, Value(256, unread));
    EmitDigit(32, total, v, result, Left(256, carry, carryBits, unread + [cur]));
  }

  lemma EmitSpill(result: seq<int>, carry: nat, carryBits: nat, total: nat, v: nat, unread: seq<int>)
    requires 5 <= carryBits < 8 && carry < Exp2(carryBits) && |result| < total
    requires InBase(unread, 256)
    requires Emitted(32, total, v, result, Left(256, carry, carryBits, unread))
    ensures carry / 32 < Exp2(carryBits - 5)
    ensures Emitted(32, total, v, result + [carry % 32], Left(256, carry / 32, carryBits - 5, unread))
  {
    hide Exp2, Emitted;
    Exp2Constants();
    ShiftOut(5, carry, carryBits, Value(256, unread));
    EmitDigit(32, total, v, result, Left(256, carry, carryBits, unread));
  }

  lemma Exp2Sum(a: nat, b: nat)
    ensures Exp2(a + b) == Exp2(a) * Exp2(b)
  {
    PowAdd(2, a, b);
  }

  lemma Exp2Constants()
    ensures Exp2(3) == 8 && Exp2(5) == 32 && Exp2(8) == 256
  {
  }

  /** The bits taken from one byte are the next five bits of the number. */
  lemma EncodeStep(carry: nat, carryBits: nat, cur: nat, rest: nat)
    requires carryBits < 5 && carry < Exp2(carryBits) && cur < 256
    ensures var r := carry + Exp2(carryBits) * (rest * 256 + cur);
      && r % 32 == LowDigit(cur, carry, carryBits)
      && r / 32 == HighBits(cur, carryBits) + Exp2(carryBits + 3) * rest
      && HighBits(cur, carryBits) < Exp2(carryBits + 3)
  {
    hide Exp2;
    var p, k, m := Exp2(carryBits), Exp2(5 - carryBits), Exp2(carryBits + 3);
    Exp2Constants();
    Exp2Sum(carryBits, 5 - carryBits);
    Exp2Sum(carryBits, 3);
    Exp2Sum(5 - carryBits, carryBits + 3);
    DivBelow(cur, k, m);
    DivMod(cur, k);
    SplitByte(p, k, m, rest, cur / k, cur % k);
    LowFits(p, k, cur % k, carry);
    DivModUnique(cur / k + m * rest, 32, cur % k * p + carry);
  }

  lemma SplitByte(p: nat, k: nat, m: nat, rest: nat, q: nat, l: nat)
    requires p * k == 32 && m == p * 8
    ensures p * (rest * 256 + (q * k + l)) == (q + m * rest) * 32 + l * p
  {
  }

  lemma LowFits(p: nat, k: nat, l: nat, carry: nat)
    requires p * k == 32 && l < k && carry < p
    ensures l * p + carry < 32
  {
  }

  lemma SplitCarry(m: nat, k: nat, rest: nat, q: nat, l: nat)
    ensures q * m + l + (m * k) * rest == (q + k * rest) * m + l
  {
  }

  /** Shifting out whole digits: the low `b` bits of a carry are those of the number above it. */
  lemma ShiftOut(b: nat, carry: nat, carryBits: nat, rest: nat)
    requires b <= carryBits && carry < Exp2(carryBits)
    ensures var r := carry + Exp2(carryBits) * rest;
      && r % Exp2(b) == carry % Exp2(b)
      && r / Exp2(b) == carry / Exp2(b) + Exp2(carryBits - b) * rest
      && carry / Exp2(b) < Exp2(carryBits - b)
  {
    hide Exp2;
    var m, k := Exp2(b), Exp2(carryBits - b);
    Exp2Sum(b, carryBits - b);
    DivMod(carry, m);
    SplitCarry(m, k, rest, carry / m, carry % m);
    DivModUnique(carry / m + k * rest, m, carry % m);
    DivBelow(carry, m, k);
  }

  /** Pop zero digits off the most significant end. */
  method StripHigh(digits: seq<int>) returns (result: seq<int>)
    ensures result == digits[..|digits| - LeadingZeros(Reversed(digits))]
  {
    result := digits;
    while |result| > 0
      invariant result <= digits
      invariant LeadingZeros(Reversed(digits)) == |digits| - |result| + LeadingZeros(Reversed(result))
    {
      var v := result[|result| - 1];
      assert Reversed(result)[1..] == Reversed(result[..|result| - 1]);
      if v != 0 {
        break;
      }
      result := result[..|result| - 1];
    }
  }

  lemma AllDigitsEmitted(data: seq<int>)
    requires InBase(data, 256)
    ensures Value(256, data) < Pow(32, (8 * |data| + 4) / 5)
  {
    ValueBound(256, data);
    Regroup(256, 8, |data|);
    Regroup(32, 5, (8 * |data| + 4) / 5);
    PowMonotone(2, 8 * |data|, 5 * ((8 * |data| + 4) / 5));
  }

  /** Grouping bits: (2^k)^n is 2^(k*n). */
  lemma {:induction false} Regroup(b: nat, k: nat, n: nat)
    requires b == Pow(2, k)
    ensures Pow(b, n) == Pow(2, k * n)
  {
    if n != 0 {
      Regroup(b, k, n - 1);
      PowAdd(2, k, k * (n - 1));
      assert k * n == k + k * (n - 1);
    }
  }

  // ---- decoding ----

  function NormalizeChar(c: char): (n: char)
  {
    var u := if 'a' <= c <= 'z' then (c as int - 32) as char else c;
    if u == 'O' then '0' else if u == 'L' || u == 'I' then '1' else u
  }

  function Normalize(text: string): (n: string)
    ensures |n| == |text|
  {
    seq(|text|, i requires 0 <= i < |text| => NormalizeChar(text[i]))
  }

  /** How many of the input's own characters, before normalization, are leading '0's. */
  function LeadingZeroChars(text: string): (k: nat)
    ensures k <= |text| && (k < |text| ==> text[k] != '0')
    ensures forall i :: 0 <= i < k ==> text[i] == '0'
  {
    if text == [] || text[0] != '0' then 0 else 1 + LeadingZeroChars(text[1..])
  }

  ghost function Decoded(text: string): (r: Result<seq<int>>)
  {
    if IsC32(Normalize(text))
    then Ok(Zeros(LeadingZeroChars(text)) + Digits(256, Value(32, DigitsOf(Normalize(text)))))
    else Err(InvalidCrockford32)
  }

  method Decode(text: string) returns (r: Result<seq<int>>)
    ensures r == Decoded(text)
  {
    var norm := Normalize(text);
    if !IsC32(norm) {
      return Err(InvalidCrockford32);
    }
    var digits := DigitsOf(norm);
    var result := DecodeBits(digits);
    AllBytesEmitted(digits);
    result := Assemble(256, result, LeadingZeroChars(text), Value(32, digits));
    r := Ok(result);
  }

  method DecodeBits(digits: seq<int>) returns (result: seq<int>)
    requires InBase(digits, 32)
    ensures |result| == (5 * |digits| + 7) / 8
    ensures Emitted(256, |result|, Value(32, digits), result, 0)
  {
    result := [];
    var carry, carryBits := 0, 0;
    var i := |digits|;
    ghost var v := Value(32, digits);
    ghost var total := (5 * |digits| + 7) / 8;
    EmitStart(256, 32, total, digits);
    hide Exp2, Emitted, Left, Value;
    while i > 0
      invariant 0 <= i <= |digits|
      invariant 0 <= carryBits < 8 && 0 <= carry < Exp2(carryBits)
      invariant 8 * |result| + carryBits == 5 * (|digits| - i)
      invariant Emitted(256, total, v, result, Left(32, carry, carryBits, digits[..i]))
    {
      i := i - 1;
      Prelude.TakeSnoc(digits, i);
      result, carry, carryBits := DecodeDigit(digits[i], result, carry, carryBits, total, v, digits[..i]);
    }
    Prelude.Split(digits, 0);
    LastByte(total, v, result, carry, carryBits, |digits|);
    if carryBits > 0 {
      result := result + [carry];
    }
  }

  /** The body of the decoder's loop; the 16-bit carry never exceeds twelve bits. */
  method DecodeDigit(cur: int, result: seq<int>, carry: nat, carryBits: nat,
                     ghost total: nat, ghost v: nat, ghost unread: seq<int>)
    returns (result': seq<int>, carry': nat, carryBits': nat)
    requires 0 <= cur < 32 && carryBits < 8 && carry < Exp2(carryBits)
    requires 8 * |result| + carryBits + 5 <= 8 * total
    requires InBase(unread, 32)
    requires Emitted(256, total, v, result, Left(32, carry, carryBits, unread + [cur]))
    ensures carryBits' < 8 && carry' < Exp2(carryBits')
    ensures 8 * |result'| + carryBits' == 8 * |result| + carryBits + 5
    ensures Emitted(256, total, v, result', Left(32, carry', carryBits', unread))
  {
    hide Exp2;
    result' := result;
    assert (unread + [cur])[..|unread|] == unread;
    DecodeStep(carry, carryBits, cur, Value(32, unread));
    carry' := carry + cur * Exp2(carryBits);
    carryBits' := carryBits + 5;
    assert Left(32, carry, carryBits, unread + [cur]) == Left(32, carry', carryBits', unread);
    if carryBits' >= 8 {
      EmitByte(result', carry', carryBits', total, v, unread);
      result' := result' + [carry' % 256];
      carryBits' := carryBits' - 8;
      carry' := carry' / 256;
    }
  }

  lemma EmitByte(result: seq<int>, carry: nat, carryBits: nat, total: nat, v: nat, unread: seq<int>)
    requires 8 <= carryBits && carry < Exp2(carryBits) && |result| < total
    requires InBase(unread, 32)
    requires Emitted(256, total, v, result, Left(32, carry, carryBits, unread))
    ensures carry / 256 < Exp2(carryBits - 8)
    ensures Emitted(256, total, v, result + [carry % 256], Left(32, carry / 256, carryBits - 8, unread))
  {
    hide Exp2, Emitted;
    Exp2Constants();
    ShiftOut(8, carry, carryBits, Value(32, unread));
    EmitDigit(256, total, v, result, Left(32, carry, carryBits, unread));
  }

  lemma DecodeStep(carry: nat, carryBits: nat, cur: nat, rest: nat)
    requires carryBits < 8 && carry < Exp2(carryBits) && cur < 32
    ensures carry + Exp2(carryBits) * (rest * 32 + cur) == carry + cur * Exp2(carryBits) + Exp2(carryBits + 5) * rest
    ensures carry + cur * Exp2(carryBits) < Exp2(carryBits + 5)
  {
    hide Exp2;
    var p := Exp2(carryBits);
    Exp2Constants();
    Exp2Sum(carryBits, 5);
    Distribute(p, rest * 32, cur);
    Associate(p, rest, 32);
    MulMono(cur, 31, p);
  }

  lemma LastByte(total: nat, v: nat, result: seq<int>, carry: nat, carryBits: nat, n: nat)
    requires carryBits < 8 && carry < Exp2(carryBits) && total == (5 * n + 7) / 8
    requires 8 * |result| + carryBits == 5 * n
    requires Emitted(256, total, v, result, Left(32, carry, carryBits, []))
    ensures var out := if carryBits > 0 then result + [carry] else result;
      |out| == total && Emitted(256, total, v, out, 0)
  {
    hide Exp2, Emitted, Left;
    LowCarry(carry, carryBits, 8);
    Exp2Constants();
    NothingUnread(32, carry, carryBits);
    if carryBits > 0 {
      EmitDigit(256, total, v, result, carry);
    }
  }

  lemma AllBytesEmitted(digits: seq<int>)
    requires InBase(digits, 32)
    ensures Value(32, digits) < Pow(256, (5 * |digits| + 7) / 8)
  {
    ValueBound(32, digits);
    Regroup(32, 5, |digits|);
    Regroup(256, 8, (5 * |digits| + 7) / 8);
    PowMonotone(2, 5 * |digits|, 8 * ((5 * |digits| + 7) / 8));
  }

  // ---- the bijection ----

  lemma NormalizeFixes(text: string)
    requires IsC32(text)
    ensures Normalize(text) == text
  {
  }

  lemma NormalizeIdempotent(text: string)
    ensures Normalize(Normalize(text)) == Normalize(text)
  {
  }

  lemma {:induction false} LeadingZeroCharsAreZeros(text: string)
    requires IsC32(text)
    ensures LeadingZeroChars(text) == LeadingZeros(DigitsOf(text))
  {
    if text != [] && text[0] == '0' {
      LeadingZeroCharsAreZeros(text[1..]);
      assert DigitsOf(text)[1..] == DigitsOf(text[1..]);
    }
  }

  lemma DecodedIsTranscode(text: string)
    requires IsC32(text)
    ensures Decoded(text) == Ok(Transcode(32, 256, DigitsOf(text)))
  {
    NormalizeFixes(text);
    LeadingZeroCharsAreZeros(text);
  }

  lemma DecodeEncoded(data: seq<int>)
    requires InBase(data, 256)
    ensures Decoded(Encoded(data)) == Ok(data)
  {
    var digits := Transcode(256, 32, data);
    assert DigitsOf(TextOf(digits)) == digits;
    DecodedIsTranscode(Encoded(data));
    TranscodeRoundTrip(256, 32, data);
  }

  lemma EncodeDecoded(text: string)
    requires IsC32(text)
    ensures Decoded(text).Ok? && InBase(Decoded(text).value, 256)
    ensures Encoded(Decoded(text).value) == text
  {
    DecodedIsTranscode(text);
    TranscodeRoundTrip(32, 256, DigitsOf(text));
    assert TextOf(DigitsOf(text)) == text;
  }

  /**
   Decoding does not quite see text up to normalization: leading zeros are counted before
   normalizing, so a leading 'O' is a zero digit that contributes no zero byte.  It agrees
   with decoding the normalized text exactly when the first non-'0' character is not an 'O'.
   */
  lemma DecodeUpToNormalization(text: string)
    requires IsC32(Normalize(text))
    ensures var k := LeadingZeroChars(text);
      Decoded(text) == Decoded(Normalize(text)) <==> k == |text| || NormalizeChar(text[k]) != '0'
  {
    hide Digits, Value, DigitOf, NormalizeChar, Normalize, LeadingZeroChars;
    var n := Normalize(text);
    var k, k' := LeadingZeroChars(text), LeadingZeroChars(n);
    assert Normalize(n) == n by { NormalizeIdempotent(text); }
    LeadingCharsNormalize(text);
    var d := Digits(256, Value(32, DigitsOf(n)));
    assert |Zeros(k) + d| == k + |d| && |Zeros(k') + d| == k' + |d|;
  }

  lemma {:induction false} LeadingCharsNormalize(text: string)
    ensures var k := LeadingZeroChars(text);
      && k <= LeadingZeroChars(Normalize(text))
      && (LeadingZeroChars(Normalize(text)) == k <==> k == |text| || NormalizeChar(text[k]) != '0')
  {
    if text != [] {
      LeadingCharsNormalize(text[1..]);
      assert Normalize(text)[1..] == Normalize(text[1..]);
    }
  }

  lemma LeadingOIsLost()
    ensures Decoded("O1") == Ok([1]) && Decoded("01") == Ok([0, 1])
  {
    assert DigitsOf("01") == [0, 1] && Normalize("O1") == "01" == Normalize("01");
    assert Value(32, [0, 1]) == 1 by {
      assert [0, 1][..1] == [0] && [0][..0] == [];
      assert Value(32, [0]) == 0;
    }
    assert LeadingZeroChars("O1") == 0 && "01"[1..] == "1" && LeadingZeroChars("01") == 1;
    assert Digits(256, 1) == [1];
    assert Zeros(0) + [1] == [1] && Zeros(1) + [1] == [0, 1];
  }

  // ---- addresses, for any four-byte checksum ----

  ghost function CheckEncoded(sum: Checksum, version: nat, data: seq<int>): (r: Result<string>)
    requires IsChecksum(sum) && InBase(data, 256)
  {
    if version >= 32 then Err(InvalidVersion(version))
    else Ok([CharOf(version)] + Encoded(data + sum([version] + data)))
  }

  ghost function CheckDecoded(sum: Checksum, text: string): (r: Result<(int, seq<int>)>)
    requires IsChecksum(sum)
  {
    if |text| < 2 then Err(InvalidCrockford32) else
    var check := Normalize(text);
    match Decoded(check[1..])
    case Err(e) => Err(e)
    case Ok(bytes) =>
      if |bytes| < 5 then Err(InvalidCrockford32) else
      var data, expected := bytes[..|bytes| - 4], bytes[|bytes| - 4..];
      match Decoded(check[..1])
      case Err(e) => Err(e)
      case Ok(version) =>
        if sum(version + data) != expected then Err(BadChecksum(Word(sum(version + data)), Word(expected)))
        else if version == [] then Err(InvalidCrockford32)
        else Ok((version[0], data))
  }

  method CheckEncode(sum: Checksum, version: nat, data: seq<int>) returns (r: Result<string>)
    requires IsChecksum(sum) && InBase(data, 256)
    ensures r == CheckEncoded(sum, version, data)
  {
    if version >= 32 {
      return Err(InvalidVersion(version));
    }
    var checksum := sum([version] + data);
    var text := Encode(data + checksum);
    r := Ok([CharOf(version)] + text);
  }

  method CheckDecode(sum: Checksum, text: string) returns (r: Result<(int, seq<int>)>)
    requires IsChecksum(sum)
    ensures r == CheckDecoded(sum, text)
  {
    if |text| < 2 {
      return Err(InvalidCrockford32);
    }
    var check := Normalize(text);
    var bytes := Decode(check[1..]);
    if bytes.Err? {
      return Err(bytes.error);
    }
    if |bytes.value| < 5 {
      return Err(InvalidCrockford32);
    }
    var n := |bytes.value| - 4;
    var version := Decode(check[..1]);
    if version.Err? {
      return Err(version.error);
    }
    var computed, expected := sum(version.value + bytes.value[..n]), bytes.value[n..];
    if computed != expected {
      return Err(BadChecksum(Word(computed), Word(expected)));
    }
    VersionDecodes(text);
    r := Ok((version.value[0], bytes.value[..n]));
  }

  method Address(sum: Checksum, version: nat, data: seq<int>) returns (r: Result<string>)
    requires IsChecksum(sum) && InBase(data, 256)
    ensures version >= 32 <==> r.Err?
    ensures r.Ok? ==> r == Ok("S" + CheckEncoded(sum, version, data).value)
  {
    r := CheckEncode(sum, version, data);
    if r.Ok? {
      r := Ok("S" + r.value);
    }
  }

  method AddressDecode(sum: Checksum, text: string) returns (r: Result<(int, seq<int>)>)
    requires IsChecksum(sum)
    ensures r == AddressDecoded(sum, text)
  {
    if |text| <= 5 {
      r := Err(InvalidCrockford32);
    } else {
      r := CheckDecode(sum, text[1..]);
    }
  }

  ghost function AddressDecoded(sum: Checksum, text: string): (r: Result<(int, seq<int>)>)
    requires IsChecksum(sum)
  {
    if |text| <= 5 then Err(InvalidCrockford32) else CheckDecoded(sum, text[1..])
  }

  /** A version character decodes to one byte, its digit, so indexing it cannot fail. */
  lemma VersionDecodes(text: string)
    requires |text| >= 1
    ensures var c := Normalize(text)[..1];
      Decoded(c).Ok? ==> DigitOf(c[0]) >= 0 && Decoded(c).value == [DigitOf(c[0])]
  {
    var c := Normalize(text)[..1];
    assert Normalize(c) == c;
    if IsC32(c) {
      OneDigit(c);
    }
  }

  lemma OneDigit(c: string)
    requires |c| == 1 && IsC32(c)
    ensures Decoded(c) == Ok([DigitOf(c[0])])
  {
    var d := DigitOf(c[0]);
    DecodedIsTranscode(c);
    assert DigitsOf(c) == [d];
    assert Value(32, [d]) == d by { assert [d][..0] == []; }
    if d != 0 {
      assert Digits(256, d) == Digits(256, 0) + [d] == [d];
      assert Zeros(0) + [d] == [d];
    } else {
      assert LeadingZeros([0][1..]) == 0 && LeadingZeros([0]) == 1 && Zeros(1) + [] == [0];
    }
  }

  /**
   c32check accepts exactly what it produces, up to normalization, for versions below 32 and
   non-empty data, and returns the version and data it was given.
   */
  lemma CheckBijection(sum: Checksum, text: string, version: nat, data: seq<int>)
    requires IsChecksum(sum) && InBase(data, 256) && version < 32
    ensures CheckDecoded(sum, text) == Ok((version, data))
       <==> data != [] && Normalize(text) == CheckEncoded(sum, version, data).value
  {
    if CheckDecoded(sum, text) == Ok((version, data)) {
      CheckDecodedIsEncoded(sum, text, version, data);
    }
    if data != [] && Normalize(text) == CheckEncoded(sum, version, data).value {
      CheckEncodedIsDecoded(sum, text, version, data);
    }
  }

  lemma CheckDecodedIsEncoded(sum: Checksum, text: string, version: nat, data: seq<int>)
    requires IsChecksum(sum) && InBase(data, 256) && version < 32
    requires CheckDecoded(sum, text) == Ok((version, data))
    ensures data != [] && Normalize(text) == CheckEncoded(sum, version, data).value
  {
    hide Decoded, Encoded, Transcode;
    var n := Normalize(text);
    VersionDecodes(text);
    NormalizeTail(text);
    OkIsC32(n[1..]);
    EncodeDecoded(n[1..]);
    var bytes := Decoded(n[1..]).value;
    assert bytes == data + sum([version] + data);
    assert n == [n[0]] + n[1..];
  }

  lemma CheckEncodedIsDecoded(sum: Checksum, text: string, version: nat, data: seq<int>)
    requires IsChecksum(sum) && InBase(data, 256) && version < 32 && data != []
    requires Normalize(text) == CheckEncoded(sum, version, data).value
    ensures CheckDecoded(sum, text) == Ok((version, data))
  {
    hide Decoded, Encoded;
    var n := Normalize(text);
    var whole := data + sum([version] + data);
    assert n[1..] == Encoded(whole) && n[..1] == [CharOf(version)];
    assert Decoded(n[1..]) == Ok(whole) by { DecodeEncoded(whole); }
    assert |text| >= 2 by { EncodedNonempty(whole); }
    assert Decoded(n[..1]) == Ok([version]) by {
      assert DigitOf(n[..1][0]) == version;
      OneDigit(n[..1]);
    }
    assert whole[..|whole| - 4] == data && whole[|whole| - 4..] == sum([version] + data);
  }

  lemma OkIsC32(text: string)
    requires Decoded(text).Ok?
    ensures IsC32(Normalize(text))
  {
  }

  lemma NormalizeTail(text: string)
    requires |text| >= 2
    ensures Normalize(Normalize(text)[1..]) == Normalize(text)[1..]
  {
  }

  lemma EncodedNonempty(data: seq<int>)
    requires InBase(data, 256) && data != []
    ensures Encoded(data) != []
  {
    DecodeEncoded(data);
    DecodeEncoded([]);
  }

  /** The texts accepted as an address: an encoding, up to normalization, behind any first character at all. */
  lemma AddressAccepts(sum: Checksum, text: string, version: nat, data: seq<int>)
    requires IsChecksum(sum) && InBase(data, 256) && version < 32
    ensures AddressDecoded(sum, text) == Ok((version, data))
       <==> text != [] && data != [] && Normalize(text[1..]) == CheckEncoded(sum, version, data).value
  {
    if text != [] {
      EncodedLonger(data + sum([version] + data));
      CheckBijection(sum, text[1..], version, data);
    }
  }

  /** Address round trip: exactly the addresses with some data survive it. */
  lemma AddressRoundTrip(sum: Checksum, version: nat, data: seq<int>)
    requires IsChecksum(sum) && InBase(data, 256) && version < 32
    ensures AddressDecoded(sum, "S" + CheckEncoded(sum, version, data).value) == Ok((version, data)) <==> data != []
  {
    var text := CheckEncoded(sum, version, data).value;
    assert ("S" + text)[1..] == text;
    NormalizeFixes(text);
    AddressAccepts(sum, "S" + text, version, data);
  }

  /** Base 32 needs at least as many digits as base 256. */
  lemma {:induction false} EncodedLonger(data: seq<int>)
    requires InBase(data, 256)
    ensures |data| <= |Encoded(data)|
  {
    var z := LeadingZeros(data);
    assert data == Zeros(z) + data[z..];
    ValueSkipsZeros(256, z, data[z..]);
    DigitsOfValue(256, data[z..]);
    FewerDigits(Value(256, data));
  }

  lemma {:induction false} FewerDigits(v: nat)
    ensures |Digits(256, v)| <= |Digits(32, v)|
  {
    if v != 0 {
      FewerDigits(v / 256);
      DigitsMonotone(v / 256, v / 32);
    }
  }

  lemma {:induction false} DigitsMonotone(x: nat, y: nat)
    requires x <= y
    ensures |Digits(32, x)| <= |Digits(32, y)|
  {
    if x != 0 {
      DigitsMonotone(x / 32, y / 32);
    }
  }
}
