/**
 Base58 and base58check (src/address/b58.rs): in-place big-number conversion between
 base 256 and base 58.  Text and data are both sequences of byte values.
 */
module Base58 {
  import opened Positional

  datatype Error = BadByte(b: int) | TooShort(len: nat) | BadChecksum(expected: int, actual: int)
  datatype Result<+T> = Ok(value: T) | Err(error: Error)

  /** The bytes of the alphabet BASE58_CHARS; `AlphabetSpelled` spells it out. */
  function CharOf(d: int): (c: int)
    requires 0 <= d < 58
  {
    if d < 9 then d + 49
    else if d < 17 then d + 56
    else if d < 22 then d + 57
    else if d < 33 then d + 58
    else if d < 44 then d + 64
    else d + 65
  }

  /** The table BASE58_DIGITS; -1 where the table holds None. */
  function DigitOf(c: int): (d: int)
    ensures -1 <= d < 58
    ensures d >= 0 ==> c == CharOf(d) && 49 <= c <= 122
    ensures d < 0 ==> forall k :: 0 <= k < 58 ==> CharOf(k) != c
  {
    if 49 <= c <= 57 then c - 49
    else if 65 <= c <= 72 then c - 56
    else if 74 <= c <= 78 then c - 57
    else if 80 <= c <= 90 then c - 58
    else if 97 <= c <= 107 then c - 64
    else if 109 <= c <= 122 then c - 65
    else -1
  }

  lemma AlphabetSpelled(d: int)
    requires 0 <= d < 58
    ensures CharOf(d) == (
      if d < 9 then "123456789"[d]
      else if d < 17 then "ABCDEFGH"[d - 9]
      else if d < 22 then "JKLMN"[d - 17]
      else if d < 33 then "PQRSTUVWXYZ"[d - 22]
      else if d < 44 then "abcdefghijk"[d - 33]
      else "mnopqrstuvwxyz"[d - 44]) as int
  {
  }

  function TextOf(digits: seq<int>): (text: seq<int>)
    requires InBase(digits, 58)
    ensures |text| == |digits|
  {
    seq(|digits|, i requires 0 <= i < |digits| => CharOf(digits[i]))
  }

  predicate IsBase58(text: seq<int>) {
    forall i :: 0 <= i < |text| ==> DigitOf(text[i]) >= 0
  }

  function DigitsOf(text: seq<int>): (digits: seq<int>)
    requires IsBase58(text)
    ensures |digits| == |text| && InBase(digits, 58)
  {
    seq(|text|, i requires 0 <= i < |text| => DigitOf(text[i]))
  }

  /**
   The bytes of a Rust string are UTF-8, so its first byte above 127, if any, is the
   lead byte of a longer character, and a lead byte is never 128.
   */
  predicate IsStr(text: seq<int>) {
    && InBase(text, 256)
    && forall i :: 0 <= i < |text| && (forall j :: 0 <= j < i ==> text[j] < 128) ==> text[i] != 128
  }

  /** What `from` answers: the first bad byte, or the same number in base 256. */
  ghost function Decoded(text: seq<int>): (r: Result<seq<int>>)
  {
    if IsBase58(text) then Ok(Transcode(58, 256, DigitsOf(text)))
    else Err(BadByte(text[FirstBad(text)]))
  }

  ghost function FirstBad(text: seq<int>): (i: nat)
    requires !IsBase58(text)
    ensures i < |text| && DigitOf(text[i]) < 0
    ensures IsBase58(text[..i])
  {
    if DigitOf(text[0]) < 0 then 0 else
      assert forall i :: 0 < i < |text| ==> text[i] == text[1..][i - 1];
      var i := 1 + FirstBad(text[1..]);
      assert forall j :: 0 < j < i ==> text[..i][j] == text[1..][..i - 1][j - 1];
      i
  }

  ghost function Encoded(data: seq<int>): (text: seq<int>)
    requires InBase(data, 256)
  {
    TextOf(Transcode(256, 58, data))
  }

  // ---- buffer bounds ----

  /** The size of the decoder's scratch buffer. */
  function ScratchLen(n: nat): (w: nat)
    ensures w >= 1
  {
    1 + n * 11 / 15
  }

  /** The capacity the encoder reserves. */
  function ReserveLen(n: nat): (w: nat)
    ensures w >= 1
  {
    1 + n * 7 / 5
  }

  lemma LenMonotone(m: nat, n: nat)
    requires m <= n
    ensures ScratchLen(m) <= ScratchLen(n)
    ensures n - m + ReserveLen(m) <= ReserveLen(n)
  {
  }

  /** 11/15 is just over log_256(58): the scratch buffer holds every n-digit base58 number. */
  lemma {:induction false} ScratchSuffices(n: nat)
    ensures Pow(58, n) <= Pow(256, ScratchLen(n))
    decreases n
  {
    hide Pow;
    if n >= 15 {
      ScratchSuffices(n - 15);
      var w := ScratchLen(n - 15);
      assert ScratchLen(n) == 11 + w;
      PowAdd(58, 15, n - 15);
      PowAdd(256, 11, w);
      PowConstants();
      MulMono2(Pow(58, 15), Pow(256, 11), Pow(58, n - 15), Pow(256, w));
    } else {
      ScratchSmall(n);
    }
  }

  lemma PowConstants()
    ensures Pow(58, 15) <= Pow(256, 11) && Pow(256, 5) <= Pow(58, 7) && Pow(58, 4) <= Pow(256, 3)
  {
  }

  lemma ScratchSmall(n: nat)
    requires n < 15
    ensures Pow(58, n) <= Pow(256, ScratchLen(n))
  {
    hide Pow;
    ByFours(n);
    PowMonotone(256, n - n / 4, ScratchLen(n));
  }

  /** Four base58 digits fit in three bytes. */
  lemma {:induction false} ByFours(n: nat)
    ensures Pow(58, n) <= Pow(256, n - n / 4)
  {
    if n >= 4 {
      hide Pow;
      ByFours(n - 4);
      PowAdd(58, 4, n - 4);
      var w := (n - 4) - (n - 4) / 4;
      assert n - n / 4 == 3 + w;
      PowAdd(256, 3, w);
      PowConstants();
      MulMono2(Pow(58, 4), Pow(256, 3), Pow(58, n - 4), Pow(256, w));
    } else if n > 0 {
      ByFours(n - 1);
      MulMono2(58, 256, Pow(58, n - 1), Pow(256, n - 1));
    }
  }

  /** 7/5 is just over log_58(256). */
  lemma {:induction false} ReserveSuffices(n: nat)
    ensures Pow(256, n) <= Pow(58, ReserveLen(n))
    decreases n
  {
    hide Pow;
    if n >= 5 {
      ReserveSuffices(n - 5);
      var w := ReserveLen(n - 5);
      assert ReserveLen(n) == 7 + w;
      PowAdd(256, 5, n - 5);
      PowAdd(58, 7, w);
      PowConstants();
      MulMono2(Pow(256, 5), Pow(58, 7), Pow(256, n - 5), Pow(58, w));
    } else {
      ReserveSmall(n);
    }
  }

  lemma ReserveSmall(n: nat)
    requires n < 5
    ensures Pow(256, n) <= Pow(58, ReserveLen(n))
  {
    assert Pow(256, 0) <= Pow(58, 1) && Pow(256, 1) <= Pow(58, 2) && Pow(256, 2) <= Pow(58, 3);
    assert Pow(256, 3) <= Pow(58, 5) && Pow(256, 4) <= Pow(58, 6);
  }

  /** The encoder never outgrows the capacity it reserves. */
  lemma EncodedLength(data: seq<int>)
    requires InBase(data, 256)
    ensures |Encoded(data)| <= ReserveLen(|data|)
  {
    hide Pow, Value, Digits, CharOf, ReserveLen;
    var z, n := LeadingZeros(data), |data|;
    assert data == Zeros(z) + data[z..];
    assert Value(256, data) < Pow(256, n - z) by {
      ValueSkipsZeros(256, z, data[z..]);
      ValueBound(256, data[z..]);
    }
    ReserveSuffices(n - z);
    DigitsLength(58, Value(256, data), ReserveLen(n - z));
    LenMonotone(n - z, n);
  }

  // ---- the decoder ----

  method From(data: seq<int>) returns (r: Result<seq<int>>)
    requires IsStr(data)
    ensures r == Decoded(data)
  {
    hide Decoded, DigitOf, Value, Fixed, Digits, Pow, IsStr;
    var scratch := new int[ScratchLen(|data|)](_ => 0);
    ghost var x: nat := 0;
    Start(data, scratch.Length);
    for n := 0 to |data|
      invariant IsBase58(data[..n])
      invariant x == Value(58, DigitsOf(data[..n]))
      invariant scratch[..] == Fixed(256, scratch.Length, x)
    {
      var d58 := data[n];
      if d58 > 128 {
        BadAt(data, n);
        return Err(BadByte(d58));
      }
      NotContinuation(data, n);
      if DigitOf(d58) < 0 {
        BadAt(data, n);
        return Err(BadByte(d58));
      }
      var digit := DigitOf(d58);
      ValueExtend(data, n);
      DecodedFits(data, n);
      MulAdd(scratch, x, digit);
      x := x * 58 + digit;
    }
    assert data[..|data|] == data;
    Finish(data, scratch[..]);
    r := Ok(Zeros(LeadingOnes(data)) + scratch[..][LeadingZeros(scratch[..])..]);
  }

  lemma Start(data: seq<int>, w: nat)
    ensures IsBase58(data[..0]) && Value(58, DigitsOf(data[..0])) == 0
    ensures Fixed(256, w, 0) == Zeros(w)
  {
  }

  lemma Finish(data: seq<int>, scratch: seq<int>)
    requires IsBase58(data) && |scratch| == ScratchLen(|data|)
    requires scratch == Fixed(256, |scratch|, Value(58, DigitsOf(data)))
    ensures Decoded(data) == Ok(Zeros(LeadingOnes(data)) + scratch[LeadingZeros(scratch)..])
  {
    hide DigitOf, Value, Fixed, Digits, Pow;
    ValueFits(data);
    FixedStripped(256, |scratch|, Value(58, DigitsOf(data)));
    LeadingOnesAreZeros(data);
  }

  /** One round of the decoder: X := X * 58 + digit in base 256, in place, and no carry is left over. */
  method MulAdd(scratch: array<int>, ghost x: nat, digit: int)
    requires 0 <= digit < 58
    requires scratch[..] == Fixed(256, scratch.Length, x)
    requires x * 58 + digit < Pow(256, scratch.Length)
    modifies scratch
    ensures scratch[..] == Fixed(256, scratch.Length, x * 58 + digit)
  {
    hide Fixed, Pow, Drop;
    DropStep(x * 58 + digit, 0);
    var carry := digit;
    var i := scratch.Length;
    ghost var xi: nat, y: nat := x, x * 58 + digit;
    assert Fixed(256, i, y) + [] == Fixed(256, i, y);
    while i > 0
      invariant 0 <= i <= scratch.Length && 0 <= carry < 58
      invariant scratch[..i] == Fixed(256, i, xi)
      invariant xi * 58 + carry == Drop(256, y, scratch.Length - i)
      invariant Fixed(256, scratch.Length, y) == Fixed(256, i, xi * 58 + carry) + scratch[i..]
    {
      DropStep(y, scratch.Length - i);
      i := i - 1;
      carry := MulAddByte(scratch, i, carry, xi);
      xi := xi / 256;
    }
    NothingLeft(y, scratch.Length);
    assert carry == 0;
    assert scratch[0..] == scratch[..] && Fixed(256, 0, 0) == [];
  }

  /** The body of the carry loop. */
  method MulAddByte(scratch: array<int>, i: nat, carry: nat, ghost xi: nat) returns (carry': nat)
    requires i < scratch.Length && carry < 58
    requires scratch[..i + 1] == Fixed(256, i + 1, xi)
    modifies scratch
    ensures scratch[..i] == Fixed(256, i, xi / 256) && carry' < 58
    ensures xi / 256 * 58 + carry' == (xi * 58 + carry) / 256
    ensures Fixed(256, i + 1, xi * 58 + carry) + old(scratch[i + 1..])
         == Fixed(256, i, xi / 256 * 58 + carry') + scratch[i..]
  {
    hide Fixed;
    ghost var low, done := scratch[..i + 1], scratch[i + 1..];
    Step(xi, xi * 58 + carry, i, low);
    carry' := carry + scratch[i] * 58;
    scratch[i] := carry' % 256;
    carry' := carry' / 256;
    assert scratch[i..] == [(xi * 58 + carry) % 256] + done;
    assert scratch[..i] == low[..i];
  }

  lemma DropStep(y: nat, k: nat)
    ensures Drop(256, y, 0) == y && Drop(256, y, k + 1) == Drop(256, y, k) / 256
  {
  }

  lemma NothingLeft(y: nat, w: nat)
    requires y < Pow(256, w)
    ensures Drop(256, y, w) == 0
  {
    DropAll(256, y, w, w);
  }

  /** One byte of the multiplication: what it becomes, and what it carries. */
  lemma Step(xi: nat, yi: nat, i: nat, low: seq<int>)
    requires 0 <= yi - xi * 58 < 58 && low == Fixed(256, i + 1, xi)
    ensures var c := yi - xi * 58 + low[i] * 58;
      && low[..i] == Fixed(256, i, xi / 256)
      && yi % 256 == c % 256 && yi / 256 == xi / 256 * 58 + c / 256 && 0 <= c / 256 < 58
      && Fixed(256, i + 1, yi) == Fixed(256, i, yi / 256) + [yi % 256]
  {
    hide Fixed;
    Unfold(256, xi, i);
    Unfold(256, yi, i);
    assert low == low[..i] + [low[i]];
    var c := yi - xi * 58 + low[i] * 58;
    DivMod(xi, 256);
    DivMod(c, 256);
    DivModUnique(xi / 256 * 58 + c / 256, 256, c % 256);
  }

  /** The index into the 128-entry table is in range even though the guard lets 128 through. */
  lemma NotContinuation(data: seq<int>, n: nat)
    requires IsStr(data) && n < |data| && IsBase58(data[..n])
    ensures data[n] != 128
  {
  }

  lemma ValueExtend(data: seq<int>, n: nat)
    requires n < |data| && IsBase58(data[..n]) && DigitOf(data[n]) >= 0
    ensures IsBase58(data[..n + 1])
    ensures Value(58, DigitsOf(data[..n + 1])) == Value(58, DigitsOf(data[..n])) * 58 + DigitOf(data[n])
  {
    hide DigitOf;
    assert forall j :: 0 <= j < n ==> data[..n + 1][j] == data[..n][j];
    assert DigitsOf(data[..n + 1])[..n] == DigitsOf(data[..n]);
  }

  lemma BadAt(data: seq<int>, n: nat)
    requires n < |data| && IsBase58(data[..n]) && DigitOf(data[n]) < 0
    ensures !IsBase58(data) && FirstBad(data) == n && Decoded(data) == Err(BadByte(data[n]))
  {
    hide DigitOf, Transcode;
  }

  lemma ValueFits(data: seq<int>)
    requires IsBase58(data)
    ensures Value(58, DigitsOf(data)) < Pow(256, ScratchLen(|data|))
  {
    ValueBound(58, DigitsOf(data));
    ScratchSuffices(|data|);
  }

  /** Every intermediate number fits, because fewer digits never need more room. */
  lemma DecodedFits(data: seq<int>, n: nat)
    requires n < |data| && IsBase58(data[..n + 1])
    ensures Value(58, DigitsOf(data[..n + 1])) < Pow(256, ScratchLen(|data|))
  {
    hide Pow, Value, ScratchLen, DigitOf;
    ValueFits(data[..n + 1]);
    LenMonotone(n + 1, |data|);
    PowMonotone(256, ScratchLen(n + 1), ScratchLen(|data|));
  }

  function LeadingOnes(data: seq<int>): (k: nat)
    ensures k <= |data|
  {
    if data == [] || data[0] != CharOf(0) then 0 else 1 + LeadingOnes(data[1..])
  }

  lemma {:induction false} LeadingOnesAreZeros(data: seq<int>)
    requires IsBase58(data)
    ensures LeadingOnes(data) == LeadingZeros(DigitsOf(data))
  {
    if data != [] && DigitOf(data[0]) == 0 {
      LeadingOnesAreZeros(data[1..]);
      assert DigitsOf(data)[1..] == DigitsOf(data[1..]);
    }
  }

  // ---- the encoder ----

  method EncodeSlice(data: seq<int>) returns (text: seq<int>)
    requires InBase(data, 256)
    ensures text == Encoded(data)
    ensures |text| <= ReserveLen(|data|)
  {
    hide DigitsLE, LeadingZeros, CharOf;
    var ret: seq<int> := [];
    var leadingZeroCount := 0;
    var leadingZeroes := true;
    Unfold(58, 0, 0);
    for n := 0 to |data|
      invariant ret == DigitsLE(58, Value(256, data[..n]))
      invariant leadingZeroCount == LeadingZeros(data[..n])
      invariant leadingZeroes <==> leadingZeroCount == n
    {
      assert data[..n + 1][..n] == data[..n];
      LeadingZerosExtend(data, n);
      if leadingZeroes && data[n] == 0 {
        leadingZeroCount := leadingZeroCount + 1;
      } else {
        leadingZeroes := false;
      }
      ret := AppendByte(ret, Value(256, data[..n]), data[n]);
    }
    assert data[..|data|] == data;
    ReversedLE(58, Value(256, data));
    ret := ret + Zeros(leadingZeroCount);
    ret := Reversed(ret);
    text := TextOf(ret);
    EncodedLength(data);
  }

  /** One round of the encoder: multiply by 256 and add, in base 58, growing by the final carry. */
  method AppendByte(digits: seq<int>, ghost x: nat, d256: int) returns (ret: seq<int>)
    requires 0 <= d256 < 256
    requires digits == DigitsLE(58, x)
    ensures ret == DigitsLE(58, x * 256 + d256)
  {
    hide DigitsLE;
    ret := digits;
    var carry := d256;
    ghost var xi: nat := x;
    ghost var goal := DigitsLE(58, x * 256 + d256);
    for i := 0 to |ret|
      invariant |ret| == |digits| && carry >= 0
      invariant ret[i..] == DigitsLE(58, xi)
      invariant goal == ret[..i] + DigitsLE(58, xi * 256 + carry)
    {
      var newCh := ret[i] * 256 + carry;
      EncodeStep(xi, carry, ret[i..]);
      ghost var before := ret;
      ret := ret[i := newCh % 58];
      assert ret[i + 1..] == before[i..][1..];
      assert ret[..i + 1] == before[..i] + [newCh % 58];
      carry := newCh / 58;
      xi := xi / 58;
    }
    Unfold(58, xi, 0);
    assert xi == 0 && ret[..|ret|] == ret;
    ret := PushCarry(ret, carry);
  }

  method PushCarry(digits: seq<int>, carry: nat) returns (ret: seq<int>)
    ensures ret == digits + DigitsLE(58, carry)
  {
    ret := digits;
    var c := carry;
    while c > 0
      invariant c >= 0
      invariant digits + DigitsLE(58, carry) == ret + DigitsLE(58, c)
    {
      ret := ret + [c % 58];
      c := c / 58;
    }
  }

  /** One digit: what it becomes, and what it carries. */
  lemma EncodeStep(xi: nat, carry: nat, rest: seq<int>)
    requires rest != [] && rest == DigitsLE(58, xi)
    ensures var n := rest[0] * 256 + carry;
      && rest[1..] == DigitsLE(58, xi / 58)
      && DigitsLE(58, xi * 256 + carry) == [n % 58] + DigitsLE(58, xi / 58 * 256 + n / 58)
  {
  }

  lemma {:induction false} LeadingZerosExtend(data: seq<int>, n: nat)
    requires n < |data|
    ensures LeadingZeros(data[..n + 1])
         == LeadingZeros(data[..n]) + (if LeadingZeros(data[..n]) == n && data[n] == 0 then 1 else 0)
  {
    if n > 0 && data[0] == 0 {
      LeadingZerosExtend(data[1..], n - 1);
      assert data[..n + 1][1..] == data[1..][..n] && data[..n][1..] == data[1..][..n - 1];
    }
  }

  // ---- the bijection ----

  lemma TextOfDigitsOf(text: seq<int>)
    requires IsBase58(text)
    ensures TextOf(DigitsOf(text)) == text
  {
  }

  lemma DigitsOfTextOf(digits: seq<int>)
    requires InBase(digits, 58)
    ensures IsBase58(TextOf(digits)) && DigitsOf(TextOf(digits)) == digits
  {
  }

  lemma DecodeEncoded(data: seq<int>)
    requires InBase(data, 256)
    ensures Decoded(Encoded(data)) == Ok(data)
  {
    hide DigitOf, CharOf, Transcode;
    DigitsOfTextOf(Transcode(256, 58, data));
    TranscodeRoundTrip(256, 58, data);
  }

  lemma EncodeDecoded(text: seq<int>)
    requires IsBase58(text)
    ensures Decoded(text).Ok? && InBase(Decoded(text).value, 256)
    ensures Encoded(Decoded(text).value) == text
  {
    TranscodeRoundTrip(58, 256, DigitsOf(text));
    TextOfDigitsOf(text);
  }

  // ---- base58check, for any four-byte checksum ----

  ghost function CheckEncoded(sum: Checksum, data: seq<int>): (text: seq<int>)
    requires IsChecksum(sum) && InBase(data, 256)
  {
    Encoded(data + sum(data))
  }

  ghost function CheckDecoded(sum: Checksum, text: seq<int>): (r: Result<seq<int>>)
    requires IsChecksum(sum)
  {
    match Decoded(text)
    case Err(e) => Err(e)
    case Ok(ret) =>
      if |ret| < 4 then Err(TooShort(|ret|)) else
      var data, checksum := ret[..|ret| - 4], ret[|ret| - 4..];
      if sum(data) != checksum then Err(BadChecksum(Word(sum(data)), Word(checksum)))
      else Ok(data)
  }

  method FromCheck(sum: Checksum, data: seq<int>) returns (r: Result<seq<int>>)
    requires IsChecksum(sum) && IsStr(data)
    ensures r == CheckDecoded(sum, data)
  {
    r := From(data);
    if r.Err? { return; }
    var ret := r.value;
    if |ret| < 4 {
      return Err(TooShort(|ret|));
    }
    var ckStart := |ret| - 4;
    var expected, actual := Word(sum(ret[..ckStart])), Word(ret[ckStart..]);
    OkIsBase58(data);
    EncodeDecoded(data);
    WordInjective(sum(ret[..ckStart]), ret[ckStart..]);
    if expected != actual {
      return Err(BadChecksum(expected, actual));
    }
    r := Ok(ret[..ckStart]);
  }

  method CheckEncodeSlice(sum: Checksum, data: seq<int>) returns (text: seq<int>)
    requires IsChecksum(sum) && InBase(data, 256)
    ensures text == CheckEncoded(sum, data)
  {
    text := EncodeSlice(data + sum(data));
  }

  lemma OkIsBase58(text: seq<int>)
    requires Decoded(text).Ok?
    ensures IsBase58(text)
  {
  }

  /** The strings base58check accepts are exactly the ones it produces, and it inverts them. */
  lemma CheckBijection(sum: Checksum, text: seq<int>, data: seq<int>)
    requires IsChecksum(sum) && InBase(data, 256)
    ensures CheckDecoded(sum, text) == Ok(data) <==> text == CheckEncoded(sum, data)
  {
    hide Decoded, Encoded;
    var whole := data + sum(data);
    DecodeEncoded(whole);
    assert whole[..|whole| - 4] == data && whole[|whole| - 4..] == sum(data);
    if CheckDecoded(sum, text) == Ok(data) {
      OkIsBase58(text);
      EncodeDecoded(text);
      var ret := Decoded(text).value;
      assert ret == ret[..|ret| - 4] + ret[|ret| - 4..];
    }
  }
}
