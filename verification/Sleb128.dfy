/**
 * Signed LEB128 numbers (section 7.6 of the DWARF 5 specification) as the relocation decoder
 * reads them: at most ten bytes, sign extension only below 64 bits, and a 64-bit range check.
 */
module Sleb128 {
  import opened Outcomes

  type byte = b: int | 0 <= b < 256

  const TWO_62 := 0x4000_0000_0000_0000
  const TWO_63 := 0x8000_0000_0000_0000
  const TWO_64 := 0x1_0000_0000_0000_0000
  const MAX_BYTES := 10

  /** The place value of the byte at index `n` of an encoding. */
  function Pow128(n: nat): (r: nat)
    ensures r > 0
  {
    if n == 0 then 1 else 128 * Pow128(n - 1)
  }

  /** Base-128 digits, least significant first; continuation bits do not count. */
  function Digits(s: seq<byte>): (r: nat)
    ensures r < Pow128(|s|)
  {
    if |s| == 0 then 0 else s[0] % 128 + 128 * Digits(s[1..])
  }

  /** Index of the first byte at or after `pos` without a continuation bit, or `|s|`. */
  function Terminator(s: seq<byte>, pos: nat): (last: nat)
    requires pos <= |s|
    ensures pos <= last <= |s|
    ensures forall i :: pos <= i < last ==> s[i] >= 128
    ensures last < |s| ==> s[last] < 128
    decreases |s| - pos
  {
    if pos == |s| || s[pos] < 128 then pos else Terminator(s, pos + 1)
  }

  /** What one read yields: the number and the position after it. */
  datatype Read = Read(value: int, next: nat)

  /** Sign extension, as long as the digits have fewer than 64 bits. */
  function Extended(digits: nat, n: nat, last: byte): int {
    if 7 * n < 64 && last >= 64 then digits - Pow128(n) else digits
  }

  function InRange(value: int, next: nat): (r: Outcome<Read>)
    ensures r.Ok? ==> r.value.next == next && -TWO_63 <= r.value.value < TWO_64
  {
    if -TWO_63 <= value < TWO_64 then Ok(Read(value, next)) else Rejected
  }

  function Pop(s: seq<byte>, pos: nat): (r: Outcome<Read>)
    requires pos <= |s|
    ensures r.Ok? ==> pos < r.value.next <= |s| && -TWO_63 <= r.value.value < TWO_64
  {
    var last := Terminator(s, pos);
    if last == |s| || last - pos >= MAX_BYTES then
      Rejected
    else
      InRange(Extended(Digits(s[pos..last + 1]), last + 1 - pos, s[last]), last + 1)
  }

  /** The reader object: a byte string and a position that only moves forward. */
  class Sleb128Reader {
    const encoded: seq<byte>
    var position: nat

    ghost predicate Valid()
      reads this
    {
      position <= |encoded|
    }

    constructor (encoded: seq<byte>)
      ensures Valid() && this.encoded == encoded && position == 0
    {
      this.encoded := encoded;
      position := 0;
    }

    /** The digits are disjoint bit ranges, so adding them is the same as or-ing them. */
    method PopValue() returns (r: Outcome<int>)
      requires Valid()
      modifies this
      ensures Valid()
      ensures match Pop(encoded, old(position))
              case Ok(read) => r == Ok(read.value) && position == read.next
              case Rejected => r == Rejected
    {
      hide Pop, Digits, Terminator, Pow128;
      ghost var start := position;
      DigitsNone(encoded, start);
      NextPlace(0);
      var value, n, weight, more := 0, 0, 1, true;
      var last: byte := 0;
      while more
        invariant start + n == position <= |encoded| && n <= MAX_BYTES
        invariant weight == Pow128(n) && value == Digits(encoded[start..position])
        invariant forall i :: start <= i < (if more then position else position - 1) ==> encoded[i] >= 128
        invariant !more ==> n > 0 && last == encoded[position - 1] < 128
        decreases MAX_BYTES - n, more
      {
        if position >= |encoded| || 7 * n >= 70 {
          PopUnterminated(encoded, start, n);
          return Rejected;
        }
        last := encoded[position];
        DigitsExtend(encoded, start, position);
        NextPlace(n);
        value := value + (last % 128) * weight;
        weight := 128 * weight;
        position, n := position + 1, n + 1;
        more := last >= 128;
      }
      PopTerminated(encoded, start, n);
      if 7 * n < 64 && last >= 64 {
        value := value - weight;
      }
      return if -TWO_63 <= value < TWO_64 then Ok(value) else Rejected;
    }

    predicate AtEnd()
      reads this
    {
      position == |encoded|
    }
  }

  /** The shortest two's-complement encoding. */
  function Encode(v: int): (s: seq<byte>)
    ensures |s| > 0
    decreases if v < 0 then -v else v
  {
    if -64 <= v < 64 then [v % 128] else [128 + v % 128] + Encode(v / 128)
  }

  /** One number: continuation bits on every byte but the last. */
  predicate WellFormed(s: seq<byte>) {
    && |s| > 0
    && s[|s| - 1] < 128
    && forall i :: 0 <= i < |s| - 1 ==> s[i] >= 128
  }

  /** The number DWARF assigns to a well-formed encoding of any length. */
  function SignedValue(s: seq<byte>): int
    requires WellFormed(s)
  {
    if s[|s| - 1] >= 64 then Digits(s) - Pow128(|s|) else Digits(s)
  }

  /** The numbers the reader accepts in shortest form. */
  predicate Fits(v: int) {
    -TWO_62 <= v < TWO_64
  }

  // ---------------------------------------------------------------- helpers

  lemma TerminatorIs(s: seq<byte>, pos: nat, last: nat)
    requires pos <= last <= |s|
    requires forall i :: pos <= i < last ==> s[i] >= 128
    requires last < |s| ==> s[last] < 128
    ensures Terminator(s, pos) == last
  {
  }

  lemma {:induction false} DigitsAppend(s: seq<byte>, b: byte)
    ensures Digits(s + [b]) == Digits(s) + (b % 128) * Pow128(|s|)
  {
    if |s| > 0 {
      DigitsAppend(s[1..], b);
      assert (s + [b])[1..] == s[1..] + [b] && (s + [b])[0] == s[0];
      Shift(b % 128, Pow128(|s| - 1));
    } else {
      assert |(s + [b])[1..]| == 0;
    }
  }

  lemma Shift(d: nat, p: nat)
    ensures 128 * (d * p) == d * (128 * p)
  {
  }

  lemma NextPlace(n: nat)
    ensures Pow128(0) == 1 && Pow128(n + 1) == 128 * Pow128(n)
  {
  }

  lemma DigitsNone(s: seq<byte>, pos: nat)
    requires pos <= |s|
    ensures Digits(s[pos..pos]) == 0
  {
  }

  lemma DigitsExtend(s: seq<byte>, lo: nat, hi: nat)
    requires lo <= hi < |s|
    ensures Digits(s[lo..hi + 1]) == Digits(s[lo..hi]) + (s[hi] % 128) * Pow128(hi - lo)
  {
    assert s[lo..hi + 1] == s[lo..hi] + [s[hi]];
    DigitsAppend(s[lo..hi], s[hi]);
  }

  /** After `n` continuation bytes the reader is out of bytes or past the limit. */
  lemma PopUnterminated(s: seq<byte>, pos: nat, n: nat)
    requires pos + n <= |s| && (pos + n == |s| || n >= MAX_BYTES)
    requires forall i :: pos <= i < pos + n ==> s[i] >= 128
    ensures Pop(s, pos) == Rejected
  {
    var last := Terminator(s, pos);
    assert last >= pos + n;
  }

  lemma PopTerminated(s: seq<byte>, pos: nat, n: nat)
    requires 0 < n <= MAX_BYTES && pos + n <= |s| && s[pos + n - 1] < 128
    requires forall i :: pos <= i < pos + n - 1 ==> s[i] >= 128
    ensures Pop(s, pos) == InRange(Extended(Digits(s[pos..pos + n]), n, s[pos + n - 1]), pos + n)
  {
    TerminatorIs(s, pos, pos + n - 1);
    hide Terminator, Digits, InRange, Extended;
  }

  /** `n` bytes hold exactly the numbers of `7 * n` bits in two's complement. */
  lemma {:induction false} EncodedLength(v: int, n: nat)
    requires n >= 1
    ensures |Encode(v)| <= n <==> -64 * Pow128(n - 1) <= v < 64 * Pow128(n - 1)
    decreases n
  {
    if n > 1 {
      EncodedLength(v / 128, n - 1);
      var p := Pow128(n - 2);
      assert Pow128(n - 1) == 128 * p;
      assert -64 * p <= v / 128 < 64 * p <==> -64 * (128 * p) <= v < 64 * (128 * p);
      if -64 <= v < 64 {
        assert p >= 1;
      }
    }
  }

  lemma WellFormedCons(digit: nat, rest: seq<byte>)
    requires digit < 128 && WellFormed(rest)
    ensures WellFormed([128 + digit] + rest)
    ensures SignedValue([128 + digit] + rest) == digit + 128 * SignedValue(rest)
  {
    var s := [128 + digit] + rest;
    assert s[1..] == rest;
    assert s[|s| - 1] == rest[|rest| - 1];
    assert forall i :: 0 < i < |s| - 1 ==> s[i] == rest[i - 1];
  }

  lemma WellFormedSingle(b: byte)
    requires b < 128
    ensures WellFormed([b]) && SignedValue([b]) == if b >= 64 then b - 128 else b
  {
    assert [b][1..] == [];
    assert Pow128(1) == 128 * Pow128(0);
  }

  lemma {:induction false} EncodeWellFormed(v: int)
    ensures WellFormed(Encode(v)) && SignedValue(Encode(v)) == v
    decreases if v < 0 then -v else v
  {
    hide SignedValue, WellFormed;
    var low, high := v % 128, v / 128;
    assert v == low + 128 * high;
    if -64 <= v < 64 {
      WellFormedSingle(low);
    } else {
      EncodeWellFormed(high);
      WellFormedCons(low, Encode(high));
      assert Encode(v) == [128 + low] + Encode(high);
    }
  }

  lemma TopDigit(d: nat, p: nat)
    ensures d >= 64 ==> d * p >= 64 * p
    ensures d < 64 ==> d * p <= 63 * p
  {
    if d >= 64 {
      assert d * p - 64 * p == (d - 64) * p;
    } else {
      assert 63 * p - d * p == (63 - d) * p;
    }
  }

  lemma {:induction false} SignedValueBounds(s: seq<byte>)
    requires WellFormed(s)
    ensures -64 * Pow128(|s| - 1) <= SignedValue(s) < 64 * Pow128(|s| - 1)
  {
    var front, last := s[..|s| - 1], s[|s| - 1];
    assert s == front + [last];
    DigitsAppend(front, last);
    assert last % 128 == last;
    TopDigit(last, Pow128(|s| - 1));
  }

  lemma Place9()
    ensures Pow128(8) == 0x100_0000_0000_0000
    ensures Pow128(9) == 128 * 0x100_0000_0000_0000
    ensures Pow128(10) == 128 * 128 * 0x100_0000_0000_0000
  {
    assert Pow128(2) == 128 * 128;
    assert Pow128(4) == 128 * 128 * Pow128(2);
    assert Pow128(6) == 128 * 128 * Pow128(4);
    assert Pow128(8) == 128 * 128 * Pow128(6);
    assert Pow128(10) == 128 * Pow128(9);
  }

  // ------------------------------------------------------------ main results

  /** No encoding of `v`, however padded, is shorter than `Encode(v)`. */
  lemma EncodeIsShortest(s: seq<byte>)
    requires WellFormed(s)
    ensures |Encode(SignedValue(s))| <= |s|
  {
    SignedValueBounds(s);
    EncodedLength(SignedValue(s), |s|);
  }

  /** `e` occurs in `s` at `pos`. */
  predicate At(s: seq<byte>, pos: nat, e: seq<byte>) {
    pos + |e| <= |s| && s[pos..pos + |e|] == e
  }

  lemma AtSplit(s: seq<byte>, pos: nat, a: seq<byte>, b: seq<byte>)
    requires At(s, pos, a + b)
    ensures At(s, pos, a) && At(s, pos + |a|, b)
  {
    var whole := s[pos..pos + |a + b|];
    assert whole[..|a|] == a && whole[|a|..] == b;
    assert s[pos..pos + |a|] == whole[..|a|];
    assert s[pos + |a|..pos + |a| + |b|] == whole[|a|..];
  }

  /** An occurrence of `Encode(v)` ends at its last byte and not before. */
  lemma OccurrenceIsTerminated(s: seq<byte>, pos: nat, v: int)
    requires At(s, pos, Encode(v))
    ensures forall i :: pos <= i < pos + |Encode(v)| - 1 ==> s[i] >= 128
    ensures s[pos + |Encode(v)| - 1] < 128 && s[pos + |Encode(v)| - 1] == Encode(v)[|Encode(v)| - 1]
  {
    EncodeWellFormed(v);
    var e := Encode(v);
    hide Encode, SignedValue, Digits;
    forall i | pos <= i < pos + |e|
      ensures s[i] == e[i - pos]
    {
      assert s[pos..pos + |e|][i - pos] == e[i - pos];
    }
  }

  /**
   * In any surrounding stream, reading at a shortest encoding gives back the number and stops
   * right after it when the number fits, and is rejected otherwise.
   */
  lemma PopInvertsEncode(s: seq<byte>, pos: nat, v: int)
    requires At(s, pos, Encode(v))
    ensures Pop(s, pos) == if Fits(v) then Ok(Read(v, pos + |Encode(v)|)) else Rejected
  {
    hide Pop, Encode, Terminator, Digits, Extended, SignedValue, WellFormed;
    OccurrenceIsTerminated(s, pos, v);
    if |Encode(v)| <= MAX_BYTES {
      PopTerminated(s, pos, |Encode(v)|);
      DecodedValue(v);
    } else {
      PopUnterminated(s, pos, MAX_BYTES);
      TooLong(v);
    }
  }

  lemma TooLong(v: int)
    requires |Encode(v)| > MAX_BYTES
    ensures !Fits(v)
  {
    LengthDecides(v);
  }

  /** Nine bytes hold only numbers that fit; ten hold the others between -2^69 and 2^69. */
  lemma LengthDecides(v: int)
    ensures |Encode(v)| <= 9 <==> -TWO_62 <= v < TWO_62
    ensures |Encode(v)| <= 10 <==> -128 * TWO_62 <= v < 128 * TWO_62
  {
    Place9();
    EncodedLength(v, 9);
    EncodedLength(v, 10);
  }

  /** What the reader makes of the digits: sign extension up to nine bytes, the range test for ten. */
  lemma DecodedValue(v: int)
    requires |Encode(v)| <= MAX_BYTES
    ensures var e := Encode(v);
            var value := Extended(Digits(e), |e|, e[|e| - 1]);
            if Fits(v) then value == v else !(-TWO_63 <= value < TWO_64)
  {
    EncodeWellFormed(v);
    LengthDecides(v);
    hide Encode, Digits;
    if |Encode(v)| == 10 {
      Place9();
    }
  }

  /** What the reader accepts of a well-formed encoding: ten bytes at most, and then no negative number. */
  predicate Readable(s: seq<byte>)
    requires WellFormed(s)
  {
    |s| <= MAX_BYTES && -TWO_63 <= SignedValue(s) < TWO_64 && (|s| == MAX_BYTES ==> SignedValue(s) >= 0)
  }

  /** Sign extension stops at nine bytes, and the range test catches the negative numbers of ten. */
  lemma ExtendedIsSigned(s: seq<byte>)
    requires WellFormed(s) && |s| <= MAX_BYTES
    ensures var value := Extended(Digits(s), |s|, s[|s| - 1]);
            if Readable(s) then value == SignedValue(s) else !(-TWO_63 <= value < TWO_64)
  {
    SignedValueBounds(s);
    hide Digits;
    if |s| == MAX_BYTES {
      Place9();
    }
  }

  /** Padded encodings included: every well-formed encoding reads as its number, or is rejected if not readable. */
  lemma PopReadsTheNumber(s: seq<byte>, pos: nat, e: seq<byte>)
    requires At(s, pos, e) && WellFormed(e)
    ensures Pop(s, pos) == if Readable(e) then Ok(Read(SignedValue(e), pos + |e|)) else Rejected
  {
    forall i | pos <= i < pos + |e|
      ensures s[i] == e[i - pos]
    {
      assert s[pos..pos + |e|][i - pos] == e[i - pos];
    }
    hide Pop, Digits, Terminator, Extended, SignedValue;
    if |e| <= MAX_BYTES {
      PopTerminated(s, pos, |e|);
      ExtendedIsSigned(e);
    } else {
      PopUnterminated(s, pos, MAX_BYTES);
    }
  }

  /** And whatever is read was a well-formed encoding of the number returned. */
  lemma PopIsSound(s: seq<byte>, pos: nat)
    requires pos <= |s| && Pop(s, pos).Ok?
    ensures var read := Pop(s, pos).value; var e := s[pos..read.next];
            WellFormed(e) && Readable(e) && read.value == SignedValue(e)
  {
    var last := Terminator(s, pos);
    var e := s[pos..last + 1];
    assert Pop(s, pos).value.next == last + 1;
    assert WellFormed(e);
    PopReadsTheNumber(s, pos, e);
  }

  /** A successful read depends only on the bytes it consumed. */
  lemma PopIgnoresTail(s: seq<byte>, tail: seq<byte>, pos: nat)
    requires pos <= |s|
    requires Pop(s, pos).Ok?
    ensures Pop(s + tail, pos) == Pop(s, pos)
  {
    var last := Terminator(s, pos);
    TerminatorIs(s + tail, pos, last);
    assert (s + tail)[pos..last + 1] == s[pos..last + 1];
  }
}
