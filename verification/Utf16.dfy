/** The UTF-16 codec of eabase/rapidjson/encodings.h against section 2 of RFC 2781, and the
    transcoding between the two encodings. */
module Utf16 {
  import Utf8

  // ------------------------------------------------------------ RFC 2781

  predicate IsHigh(w: bv16) {
    0xD800 <= w <= 0xDBFF
  }

  predicate IsLow(w: bv16) {
    0xDC00 <= w <= 0xDFFF
  }

  predicate IsSurrogate(w: bv16) {
    0xD800 <= w <= 0xDFFF
  }

  /** A character of section 2: one value outside the surrogate range, or a high surrogate and a
      low one. */
  predicate IsChar(w: seq<bv16>) {
    (|w| == 1 && !IsSurrogate(w[0])) || (|w| == 2 && IsHigh(w[0]) && IsLow(w[1]))
  }

  function Wide(w: bv16): bv32 {
    w as bv32
  }

  /** Section 2.2: the ten low-order bits of each half side by side, and 10000 hexadecimal
      added. */
  function PairNumber(high: bv16, low: bv16): bv32 {
    ((((high & 0x3FF) as bv32) << 10) | ((low & 0x3FF) as bv32)) + 0x10000
  }

  function Number(w: seq<bv16>): bv32
    requires IsChar(w)
  {
    if |w| == 1 then Wide(w[0]) else PairNumber(w[0], w[1])
  }

  function CharLen(s: seq<bv16>): (n: nat)
    ensures n <= |s| && n <= 2 && (n > 0 ==> IsChar(s[..n]))
    ensures n == 0 ==> forall k :: 0 < k <= |s| ==> !IsChar(s[..k])
  {
    if |s| >= 1 && IsChar(s[..1]) then 1 else if |s| >= 2 && IsChar(s[..2]) then 2 else 0
  }

  lemma PrefixFree(s: seq<bv16>, n: nat)
    requires 0 < n <= |s| && IsChar(s[..n])
    ensures CharLen(s) == n
  {
    assert s[..n][0] == s[..1][0] == s[0];
  }

  // ------------------------------------------------------------ Encode

  function High(cp: bv32): bv16 {
    ((((cp - 0x10000) >> 10) | 0xD800) & 0xFFFF) as bv16
  }

  function Low(cp: bv32): bv16 {
    ((((cp - 0x10000) & 0x3FF) | 0xDC00) & 0xFFFF) as bv16
  }

  function Unit(cp: bv32): bv16 {
    (cp & 0xFFFF) as bv16
  }

  /** UTF16::Encode, which is asserted not to be given a surrogate. */
  function Encode(cp: bv32): seq<bv16> {
    if cp <= 0xFFFF then [Unit(cp)] else [High(cp), Low(cp)]
  }

  lemma EncodePairRange(cp: bv32)
    requires 0x10000 <= cp <= 0x10FFFF
    ensures IsHigh(High(cp)) && IsLow(Low(cp))
  {}

  lemma EncodePairBits(cp: bv32)
    requires 0x10000 <= cp <= 0x10FFFF
    ensures PairNumber(High(cp), Low(cp)) == cp
  {}

  lemma EncodeOne(cp: bv32)
    requires cp <= 0xFFFF
    ensures Wide(Unit(cp)) == cp && (Utf8.Scalar(cp) ==> !IsSurrogate(Unit(cp)))
  {}

  lemma DecodePair(high: bv16, low: bv16)
    requires IsHigh(high) && IsLow(low)
    ensures var cp := PairNumber(high, low); cp > 0xFFFF && Utf8.Scalar(cp) && High(cp) == high && Low(cp) == low
  {}

  lemma DecodeOne(w: bv16)
    requires !IsSurrogate(w)
    ensures var cp := Wide(w); cp <= 0xFFFF && Utf8.Scalar(cp) && Unit(cp) == w
  {}

  lemma ScalarPair(cp: bv32)
    requires Utf8.Scalar(cp) && cp > 0xFFFF
    ensures 0x10000 <= cp <= 0x10FFFF
  {}

  lemma EncodeIsChar(cp: bv32)
    requires Utf8.Scalar(cp)
    ensures IsChar(Encode(cp)) && Number(Encode(cp)) == cp
  {
    hide High, Low, PairNumber, Unit;
    hide IsHigh, IsLow, IsSurrogate, Wide;
    if cp <= 0xFFFF { EncodeOne(cp); } else { ScalarPair(cp); EncodePairRange(cp); EncodePairBits(cp); }
    hide Utf8.Scalar;
  }

  lemma NumberEncodes(w: seq<bv16>)
    requires IsChar(w)
    ensures Utf8.Scalar(Number(w)) && Encode(Number(w)) == w
  {
    hide High, Low, PairNumber, Unit;
    hide IsHigh, IsLow, IsSurrogate, Wide, Utf8.Scalar;
    if |w| == 1 { DecodeOne(w[0]); } else { DecodePair(w[0], w[1]); }
  }

  // ------------------------------------------------------------ Decode and Validate

  class Stream {
    const src: seq<bv16>
    var pos: nat

    ghost predicate Valid()
      reads this
    {
      pos <= |src|
    }

    function Rest(): seq<bv16>
      requires Valid()
      reads this
    {
      src[pos..]
    }

    constructor (src: seq<bv16>)
      ensures Valid() && Rest() == src
    {
      this.src, pos := src, 0;
    }

    /** Past the end there is the terminating 0. */
    method Take() returns (c: bv16)
      requires Valid()
      modifies this`pos
      ensures Valid() && c == (if old(Rest()) == [] then 0 else old(Rest())[0])
      ensures Rest() == if old(Rest()) == [] then [] else old(Rest())[1..]
    {
      if pos == |src| {
        c := 0;
      } else {
        c := src[pos];
        pos := pos + 1;
      }
    }
  }

  /** The bits that Decode puts together for a pair. */
  function HighBits(w: bv16): bv32 {
    (Wide(w) & 0x3FF) << 10
  }

  function AddLowBits(bits: bv32, w: bv16): bv32 {
    (bits | (Wide(w) & 0x3FF)) + 0x10000
  }

  lemma PairBits(high: bv16, low: bv16)
    ensures AddLowBits(HighBits(high), low) == PairNumber(high, low)
  {}

  lemma CharLenByUnits(s: seq<bv16>)
    requires s != []
    ensures var w0, w1 := s[0], if |s| > 1 then s[1] else 0;
            && CharLen(s) == (if !IsSurrogate(w0) then 1 else if IsHigh(w0) && IsLow(w1) then 2 else 0)
            && (CharLen(s) > 0 ==> Number(s[..CharLen(s)]) == if CharLen(s) == 1 then Wide(w0) else PairNumber(w0, w1))
  {
    hide PairNumber, Wide;
  }

  method Decode(input: Stream) returns (ok: bool, codepoint: bv32)
    requires input.Valid()
    modifies input`pos
    ensures input.Valid()
    ensures var s := old(input.Rest());
            && (ok <==> s == [] || CharLen(s) > 0)
            && (ok && s != [] ==> codepoint == Number(s[..CharLen(s)]) && input.Rest() == s[CharLen(s)..])
            && (s == [] ==> codepoint == 0 && input.Rest() == [])
  {
    ghost var s := input.Rest();
    if s != [] { CharLenByUnits(s); }
    assert !IsSurrogate(0) && Wide(0) == 0;
    hide PairNumber, CharLen, Number, IsHigh, IsLow, IsSurrogate, Wide, HighBits, AddLowBits;
    var c := input.Take();
    if !IsSurrogate(c) {
      return true, Wide(c);
    }
    if IsHigh(c) {
      ghost var high := c;
      codepoint := HighBits(c);
      c := input.Take();
      codepoint := AddLowBits(codepoint, c);
      PairBits(high, c);
      return IsLow(c), codepoint;
    }
    return false, 0;
  }

  method Validate(input: Stream) returns (ok: bool, copied: seq<bv16>)
    requires input.Valid()
    modifies input`pos
    ensures input.Valid()
    ensures var s := old(input.Rest());
            && (ok <==> s == [] || CharLen(s) > 0)
            && (ok && s != [] ==> copied == s[..CharLen(s)] && input.Rest() == s[CharLen(s)..])
  {
    ghost var s := input.Rest();
    if s != [] { CharLenByUnits(s); }
    assert !IsSurrogate(0);
    hide PairNumber, CharLen, Number, IsHigh, IsLow, IsSurrogate;
    var c := input.Take();
    copied := [c];
    if !IsSurrogate(c) {
      return true, copied;
    }
    if IsHigh(c) {
      c := input.Take();
      copied := copied + [c];
      return IsLow(c), copied;
    }
    return false, copied;
  }

  // ------------------------------------------------------------ whole texts

  predicate IsText(s: seq<bv16>)
    decreases |s|
  {
    s == [] || (CharLen(s) > 0 && IsText(s[CharLen(s)..]))
  }

  function EncodeText(cps: seq<bv32>): seq<bv16> {
    if cps == [] then [] else Encode(cps[0]) + EncodeText(cps[1..])
  }

  function Numbers(s: seq<bv16>): seq<bv32>
    requires IsText(s)
    decreases |s|
  {
    if s == [] then [] else [Number(s[..CharLen(s)])] + Numbers(s[CharLen(s)..])
  }

  lemma FirstChar(c: seq<bv16>, rest: seq<bv16>)
    requires IsChar(c)
    ensures CharLen(c + rest) == |c| && (c + rest)[..|c|] == c && (c + rest)[|c|..] == rest
  {
    assert (c + rest)[..|c|] == c;
    PrefixFree(c + rest, |c|);
  }

  lemma {:induction false} TextRoundTrip(cps: seq<bv32>)
    requires Utf8.Scalars(cps)
    ensures IsText(EncodeText(cps)) && Numbers(EncodeText(cps)) == cps
  {
    if cps != [] {
      EncodeIsChar(cps[0]);
      TextRoundTrip(cps[1..]);
      FirstChar(Encode(cps[0]), EncodeText(cps[1..]));
      hide Encode, IsChar, Number, CharLen;
    }
  }

  lemma FirstNumber(s: seq<bv16>)
    requires s != [] && IsText(s)
    ensures var n := CharLen(s); var later := Numbers(s[n..]);
            Numbers(s) == [Number(s[..n])] + later && ([Number(s[..n])] + later)[1..] == later && s == s[..n] + s[n..]
  {
    NumbersBegin(s);
    hide *;
    Split(s, CharLen(s), Number(s[..CharLen(s)]), Numbers(s[CharLen(s)..]));
  }

  lemma NumbersBegin(s: seq<bv16>)
    requires s != [] && IsText(s)
    ensures CharLen(s) <= |s| && IsText(s[CharLen(s)..]) && IsChar(s[..CharLen(s)])
    ensures Numbers(s) == [Number(s[..CharLen(s)])] + Numbers(s[CharLen(s)..])
  {
    hide IsChar, Number;
  }

  lemma Split<T, U>(s: seq<T>, n: nat, first: U, later: seq<U>)
    requires n <= |s|
    ensures ([first] + later)[1..] == later && s == s[..n] + s[n..]
  {}

  lemma {:induction false} NumbersEncodeText(s: seq<bv16>)
    requires IsText(s)
    ensures Utf8.Scalars(Numbers(s)) && EncodeText(Numbers(s)) == s
    decreases |s|
  {
    if s != [] {
      var n := CharLen(s);
      NumberEncodes(s[..n]);
      NumbersEncodeText(s[n..]);
      FirstNumber(s);
      hide Encode, IsChar, Number, CharLen, Utf8.Scalar, Numbers;
    }
  }

  // ------------------------------------------------------------ transcoding

  /** Transcoder<UTF8, UTF16>::Transcode up to the end of the text or the first bad character. */
  method TranscodeText(input: Utf8.MemoryStream) returns (ok: bool, out: seq<bv16>)
    requires input.Valid()
    modifies input`pos
    ensures ok <==> Utf8.IsText(old(input.Rest()))
    ensures ok ==> out == EncodeText(Utf8.Numbers(old(input.Rest())))
  {
    out := [];
    ghost var s := input.Rest();
    while input.pos < |input.src|
      invariant input.Valid()
      invariant Utf8.IsText(s) <==> Utf8.IsText(input.Rest())
      invariant Utf8.IsText(s) ==> out + EncodeText(Utf8.Numbers(input.Rest())) == EncodeText(Utf8.Numbers(s))
      decreases |input.src| - input.pos
    {
      ghost var rest, before := input.Rest(), out;
      hide Utf8.CharLen, Utf8.Number, Encode;
      var good, cp := Utf8.Decode(input);
      if !good {
        return false, out;
      }
      out := out + Encode(cp);
      if Utf8.IsText(rest) { NextCharacter(rest, before); }
    }
    ok := true;
  }

  lemma NextCharacter(rest: seq<bv8>, before: seq<bv16>)
    requires rest != [] && Utf8.IsText(rest)
    ensures before + EncodeText(Utf8.Numbers(rest)) ==
            (before + Encode(Utf8.Number(rest[..Utf8.CharLen(rest)]))) + EncodeText(Utf8.Numbers(rest[Utf8.CharLen(rest)..]))
  {
    Utf8.FirstNumber(rest);
    hide Utf8.CharLen, Utf8.Number, Utf8.Numbers, Encode;
    EncodeFirst(before, Utf8.Number(rest[..Utf8.CharLen(rest)]), Utf8.Numbers(rest[Utf8.CharLen(rest)..]));
  }

  lemma EncodeFirst(before: seq<bv16>, first: bv32, later: seq<bv32>)
    ensures before + EncodeText([first] + later) == (before + Encode(first)) + EncodeText(later)
  {
    assert ([first] + later)[1..] == later;
    hide Encode;
  }

  /** A UTF-8 text survives the way to UTF-16 and back, and a UTF-16 text the other one. */
  lemma TranscodeRoundTrips(s: seq<bv8>, w: seq<bv16>)
    ensures Utf8.IsText(s) ==>
              var there := EncodeText(Utf8.Numbers(s)); IsText(there) && Utf8.EncodeText(Numbers(there)) == s
    ensures IsText(w) ==>
              var there := Utf8.EncodeText(Numbers(w)); Utf8.IsText(there) && EncodeText(Utf8.Numbers(there)) == w
  {
    if Utf8.IsText(s) {
      Utf8.NumbersEncodeText(s);
      TextRoundTrip(Utf8.Numbers(s));
    }
    if IsText(w) {
      NumbersEncodeText(w);
      Utf8.TextRoundTrip(Numbers(w));
    }
  }
}
