/** The UTF-8 codec of eabase/rapidjson/encodings.h over an in-memory stream
    (eabase/rapidjson/memorystream.h), against the grammar and the bit layout of RFC 3629. */
module Utf8 {

  // ------------------------------------------------------------ RFC 3629

  /** A character number that UTF-8 can carry: up to 10FFFF and no surrogate (section 3). */
  predicate Scalar(cp: bv32) {
    cp <= 0xD7FF || (0xE000 <= cp && cp <= 0x10FFFF)
  }

  predicate Tail(b: bv8) {
    0x80 <= b <= 0xBF
  }

  /** UTF8-2, UTF8-3 and UTF8-4 of the grammar in section 4. */
  predicate Two(b0: bv8, b1: bv8) {
    0xC2 <= b0 <= 0xDF && Tail(b1)
  }

  predicate Three(b0: bv8, b1: bv8, b2: bv8) {
    Tail(b2) && ((b0 == 0xE0 && 0xA0 <= b1 <= 0xBF) || (0xE1 <= b0 <= 0xEC && Tail(b1))
                 || (b0 == 0xED && 0x80 <= b1 <= 0x9F) || (0xEE <= b0 <= 0xEF && Tail(b1)))
  }

  predicate Four(b0: bv8, b1: bv8, b2: bv8, b3: bv8) {
    Tail(b2) && Tail(b3)
    && ((b0 == 0xF0 && 0x90 <= b1 <= 0xBF) || (0xF1 <= b0 <= 0xF3 && Tail(b1)) || (b0 == 0xF4 && 0x80 <= b1 <= 0x8F))
  }

  predicate IsChar(b: seq<bv8>) {
    || (|b| == 1 && b[0] <= 0x7F)
    || (|b| == 2 && Two(b[0], b[1]))
    || (|b| == 3 && Three(b[0], b[1], b[2]))
    || (|b| == 4 && Four(b[0], b[1], b[2], b[3]))
  }

  /** The bits of the character number in its octets, by the table of section 3. */
  function Number2(b0: bv8, b1: bv8): bv32 {
    (((b0 & 0x1F) as bv32) << 6) | ((b1 & 0x3F) as bv32)
  }

  function Number3(b0: bv8, b1: bv8, b2: bv8): bv32 {
    (((b0 & 0x0F) as bv32) << 12) | (((b1 & 0x3F) as bv32) << 6) | ((b2 & 0x3F) as bv32)
  }

  function Number4(b0: bv8, b1: bv8, b2: bv8, b3: bv8): bv32 {
    (((b0 & 0x07) as bv32) << 18) | (((b1 & 0x3F) as bv32) << 12) | (((b2 & 0x3F) as bv32) << 6) | ((b3 & 0x3F) as bv32)
  }

  function Number(b: seq<bv8>): bv32
    requires IsChar(b)
  {
    if |b| == 1 then b[0] as bv32
    else if |b| == 2 then Number2(b[0], b[1])
    else if |b| == 3 then Number3(b[0], b[1], b[2])
    else Number4(b[0], b[1], b[2], b[3])
  }

  /** The length of the character a text starts with, 0 if there is none. */
  function CharLen(s: seq<bv8>): (n: nat)
    ensures n <= |s| && n <= 4 && (n > 0 ==> IsChar(s[..n]))
    ensures n == 0 ==> forall k :: 0 < k <= |s| ==> !IsChar(s[..k])
  {
    if |s| >= 1 && IsChar(s[..1]) then 1
    else if |s| >= 2 && IsChar(s[..2]) then 2
    else if |s| >= 3 && IsChar(s[..3]) then 3
    else if |s| >= 4 && IsChar(s[..4]) then 4
    else 0
  }

  /** No character is the beginning of another. */
  lemma PrefixFree(s: seq<bv8>, n: nat)
    requires 0 < n <= |s| && IsChar(s[..n])
    ensures CharLen(s) == n
  {
    if |s| >= 1 { assert s[..n][0] == s[..1][0] == s[0]; }
    if |s| >= 2 && n >= 2 { assert s[..n][1] == s[1]; }
  }

  // ------------------------------------------------------------ Encode

  function Low8(x: bv32): bv8 {
    (x & 0xFF) as bv8
  }

  function Lead2(cp: bv32): bv8 {
    Low8(0xC0 | ((cp >> 6) & 0xFF))
  }

  function Lead3(cp: bv32): bv8 {
    Low8(0xE0 | ((cp >> 12) & 0xFF))
  }

  function Lead4(cp: bv32): bv8 {
    Low8(0xF0 | ((cp >> 18) & 0xFF))
  }

  function Tail0(cp: bv32): bv8 {
    Low8(0x80 | (cp & 0x3F))
  }

  function Tail6(cp: bv32): bv8 {
    Low8(0x80 | ((cp >> 6) & 0x3F))
  }

  function Tail12(cp: bv32): bv8 {
    Low8(0x80 | ((cp >> 12) & 0x3F))
  }

  /** UTF8::Encode, for the code points it is asserted for. */
  function Encode(cp: bv32): seq<bv8> {
    if cp <= 0x7F then [Low8(cp & 0xFF)]
    else if cp <= 0x7FF then [Lead2(cp), Tail0(cp)]
    else if cp <= 0xFFFF then [Lead3(cp), Tail6(cp), Tail0(cp)]
    else [Lead4(cp), Tail12(cp), Tail6(cp), Tail0(cp)]
  }

  lemma Encode1(cp: bv32)
    requires cp <= 0x7F
    ensures Low8(cp & 0xFF) <= 0x7F && Low8(cp & 0xFF) as bv32 == cp
  {}

  lemma Encode2(cp: bv32)
    requires 0x80 <= cp <= 0x7FF
    ensures Two(Lead2(cp), Tail0(cp)) && Number2(Lead2(cp), Tail0(cp)) == cp
  {}

  lemma Encode3Range(cp: bv32)
    requires 0x800 <= cp <= 0xFFFF && !(0xD800 <= cp <= 0xDFFF)
    ensures Three(Lead3(cp), Tail6(cp), Tail0(cp))
  {}

  lemma Encode3Bits(cp: bv32)
    requires 0x800 <= cp <= 0xFFFF
    ensures Number3(Lead3(cp), Tail6(cp), Tail0(cp)) == cp
  {}

  lemma Encode4Range(cp: bv32)
    requires 0x10000 <= cp <= 0x10FFFF
    ensures Four(Lead4(cp), Tail12(cp), Tail6(cp), Tail0(cp))
  {}

  lemma Encode4Bits(cp: bv32)
    requires 0x10000 <= cp <= 0x10FFFF
    ensures Number4(Lead4(cp), Tail12(cp), Tail6(cp), Tail0(cp)) == cp
  {}

  lemma Decode1(b: bv8)
    requires b <= 0x7F
    ensures (b as bv32) <= 0x7F && Low8((b as bv32) & 0xFF) == b
  {}

  lemma Decode2(b0: bv8, b1: bv8)
    requires Two(b0, b1)
    ensures var cp := Number2(b0, b1); 0x80 <= cp <= 0x7FF && Lead2(cp) == b0 && Tail0(cp) == b1
  {}

  lemma Decode3(b0: bv8, b1: bv8, b2: bv8)
    requires Three(b0, b1, b2)
    ensures var cp := Number3(b0, b1, b2);
            0x800 <= cp <= 0xFFFF && !(0xD800 <= cp <= 0xDFFF) && Lead3(cp) == b0 && Tail6(cp) == b1 && Tail0(cp) == b2
  {}

  lemma Decode4(b0: bv8, b1: bv8, b2: bv8, b3: bv8)
    requires Four(b0, b1, b2, b3)
    ensures var cp := Number4(b0, b1, b2, b3);
            0x10000 <= cp <= 0x10FFFF && Lead4(cp) == b0 && Tail12(cp) == b1 && Tail6(cp) == b2 && Tail0(cp) == b3
  {}

  /** What is encoded is a character of the grammar and carries the number. */
  lemma EncodeIsChar(cp: bv32)
    requires Scalar(cp)
    ensures IsChar(Encode(cp)) && Number(Encode(cp)) == cp
  {
    hide Two, Three, Four, Number2, Number3, Number4, Low8, Lead2, Lead3, Lead4, Tail0, Tail6, Tail12;
    if cp <= 0x7F { Encode1(cp); }
    else if cp <= 0x7FF { Encode2(cp); }
    else if cp <= 0xFFFF { Encode3Range(cp); Encode3Bits(cp); }
    else { Encode4Range(cp); Encode4Bits(cp); }
  }

  /** Every character of the grammar is the encoding of its number, and of no other. */
  lemma NumberEncodes(b: seq<bv8>)
    requires IsChar(b)
    ensures Scalar(Number(b)) && Encode(Number(b)) == b
  {
    hide Two, Three, Four, Number2, Number3, Number4, Low8, Lead2, Lead3, Lead4, Tail0, Tail6, Tail12;
    if |b| == 1 { Decode1(b[0]); }
    else if |b| == 2 { Decode2(b[0], b[1]); } else if |b| == 3 { Decode3(b[0], b[1], b[2]); } else { Decode4(b[0], b[1], b[2], b[3]); }
  }

  lemma Surrogate3(cp: bv32)
    requires 0xD800 <= cp <= 0xDFFF
    ensures Lead3(cp) == 0xED && 0xA0 <= Tail6(cp)
  {}

  /** A surrogate code point is put out as three octets that the grammar rejects. */
  lemma SurrogateIsNoChar(cp: bv32)
    requires 0xD800 <= cp <= 0xDFFF
    ensures |Encode(cp)| == 3 && CharLen(Encode(cp)) == 0
  {
    Surrogate3(cp);
    hide Low8, Lead2, Lead3, Lead4, Tail0, Tail6, Tail12;
  }

  // ------------------------------------------------------------ the streams

  /** MemoryStream: reading past the end gives 0 and does not move. */
  class MemoryStream {
    const src: seq<bv8>
    var pos: nat

    ghost predicate Valid()
      reads this
    {
      pos <= |src|
    }

    /** What has not been read yet. */
    function Rest(): seq<bv8>
      requires Valid()
      reads this
    {
      src[pos..]
    }

    constructor (src: seq<bv8>)
      ensures Valid() && this.src == src && Rest() == src
    {
      this.src, pos := src, 0;
    }

    method Take() returns (c: bv8)
      requires Valid()
      modifies this`pos
      ensures Valid() && c == Octet(old(Rest()), 0) && Rest() == Skip(old(Rest()), 1)
    {
      if pos == |src| {
        c := 0;
      } else {
        c := src[pos];
        pos := pos + 1;
      }
    }
  }

  class StringBuffer {
    var out: seq<bv8>

    constructor ()
      ensures out == []
    {
      out := [];
    }

    method Put(c: bv8)
      modifies this
      ensures out == old(out) + [c]
    {
      out := out + [c];
    }
  }

  /** The k-th octet as a stream hands it out. */
  function Octet(s: seq<bv8>, k: nat): bv8 {
    if k < |s| then s[k] else 0
  }

  function Skip(s: seq<bv8>, k: nat): seq<bv8> {
    if k <= |s| then s[k..] else []
  }

  lemma SkipOne(s: seq<bv8>, k: nat)
    ensures Skip(Skip(s, k), 1) == Skip(s, k + 1) && Octet(Skip(s, k), 0) == Octet(s, k)
  {}

  /** The 0 after the end continues no character. */
  lemma CharLenByOctets(s: seq<bv8>)
    requires s != []
    ensures var b0, b1, b2, b3 := Octet(s, 0), Octet(s, 1), Octet(s, 2), Octet(s, 3);
            && CharLen(s) == (if b0 <= 0x7F then 1 else if Two(b0, b1) then 2 else if Three(b0, b1, b2) then 3
                              else if Four(b0, b1, b2, b3) then 4 else 0)
            && (CharLen(s) > 0 ==>
                  Number(s[..CharLen(s)]) == (if b0 <= 0x7F then b0 as bv32 else if Two(b0, b1) then Number2(b0, b1)
                                              else if Three(b0, b1, b2) then Number3(b0, b1, b2) else Number4(b0, b1, b2, b3)))
  {
    hide Number2, Number3, Number4;
  }

  // ------------------------------------------------------------ Decode and Validate

  function GetRange(c: bv8): bv8 {
    if c < 0x80 then 0 else if c < 0x90 then 0x10 else if c < 0xA0 then 0x40 else if c < 0xC0 then 0x20
    else if c < 0xC2 then 8 else if c < 0xE0 then 2
    else if c == 0xE0 then 10 else if c == 0xED then 4 else if c < 0xF0 then 3
    else if c == 0xF0 then 11 else if c < 0xF4 then 6 else if c == 0xF4 then 5 else 8
  }

  predicate Trans(c: bv8, mask: bv8) {
    GetRange(c) & mask != 0
  }

  /** The masks of the transitions select the octet ranges of the grammar. */
  lemma Masks(c: bv8)
    ensures (Trans(c, 0x70) <==> Tail(c)) && (Trans(c, 0x50) <==> 0x80 <= c <= 0x9F) && (Trans(c, 0x10) <==> 0x80 <= c <= 0x8F)
    ensures (Trans(c, 0x20) <==> 0xA0 <= c <= 0xBF) && (Trans(c, 0x60) <==> 0x90 <= c <= 0xBF)
  {}

  /** The types of the lead octets, and the transitions that follow, are those of the grammar. */
  lemma LeadTypes(b0: bv8, b1: bv8, b2: bv8, b3: bv8)
    requires b0 >= 0x80
    ensures Two(b0, b1) <==> GetRange(b0) == 2 && Trans(b1, 0x70)
    ensures Three(b0, b1, b2) <==>
              Trans(b2, 0x70) && ((GetRange(b0) == 3 && Trans(b1, 0x70)) || (GetRange(b0) == 4 && Trans(b1, 0x50)) || (GetRange(b0) == 10 && Trans(b1, 0x20)))
    ensures Four(b0, b1, b2, b3) <==>
              Trans(b2, 0x70) && Trans(b3, 0x70)
              && ((GetRange(b0) == 5 && Trans(b1, 0x10)) || (GetRange(b0) == 6 && Trans(b1, 0x70)) || (GetRange(b0) == 11 && Trans(b1, 0x60)))
  {
    Masks(b1);
    Masks(b2);
    Masks(b3);
    hide Trans;
  }

  /** The bits of the lead octet that the decoder keeps. */
  function LeadBits(c: bv8): bv32 {
    var kind := GetRange(c);
    if kind >= 32 then 0 else (0xFF >> kind) & (c as bv32)
  }

  function Shifted(codepoint: bv32, c: bv8): bv32 {
    (codepoint << 6) | ((c & 0x3F) as bv32)
  }

  lemma Shifted2(b0: bv8, b1: bv8)
    requires Two(b0, b1)
    ensures Shifted(LeadBits(b0), b1) == Number2(b0, b1)
  {}

  lemma Shifted3(b0: bv8, b1: bv8, b2: bv8)
    requires Three(b0, b1, b2)
    ensures Shifted(Shifted(LeadBits(b0), b1), b2) == Number3(b0, b1, b2)
  {}

  lemma Shifted4(b0: bv8, b1: bv8, b2: bv8, b3: bv8)
    requires Four(b0, b1, b2, b3)
    ensures Shifted(Shifted(Shifted(LeadBits(b0), b1), b2), b3) == Number4(b0, b1, b2, b3)
  {}

  /** One continuation octet: COPY and TRANS. The k octets before it have been taken. */
  method TakeTail(input: MemoryStream, codepoint: bv32, ok: bool, mask: bv8, ghost s: seq<bv8>, ghost k: nat) returns (cp: bv32, r: bool)
    requires input.Valid() && input.Rest() == Skip(s, k)
    modifies input`pos
    ensures input.Valid() && input.Rest() == Skip(s, k + 1)
    ensures cp == Shifted(codepoint, Octet(s, k)) && (r <==> ok && Trans(Octet(s, k), mask))
  {
    SkipOne(s, k);
    hide *;
    var c := input.Take();
    cp := Shifted(codepoint, c);
    r := ok && Trans(c, mask);
  }

  /** What the decoder computes after the lead octet of a text, by its type. */
  function DecodeTail(s: seq<bv8>): (bool, bv32, nat) {
    var b0, b1, b2, b3 := Octet(s, 0), Octet(s, 1), Octet(s, 2), Octet(s, 3);
    var kind, cp1 := GetRange(b0), Shifted(LeadBits(b0), b1);
    var cp2, tail2, tail3 := Shifted(cp1, b2), Trans(b2, 0x70), Trans(b3, 0x70);
    if kind == 2 then (Trans(b1, 0x70), cp1, 2)
    else if kind == 3 then (Trans(b1, 0x70) && tail2, cp2, 3)
    else if kind == 4 then (Trans(b1, 0x50) && tail2, cp2, 3)
    else if kind == 5 then (Trans(b1, 0x10) && tail2 && tail3, Shifted(cp2, b3), 4)
    else if kind == 6 then (Trans(b1, 0x70) && tail2 && tail3, Shifted(cp2, b3), 4)
    else if kind == 10 then (Trans(b1, 0x20) && tail2, cp2, 3)
    else if kind == 11 then (Trans(b1, 0x60) && tail2 && tail3, Shifted(cp2, b3), 4)
    else (false, LeadBits(b0), 1)
  }

  lemma DecodeTailIsGrammar(s: seq<bv8>)
    requires s != [] && s[0] >= 0x80
    ensures var (ok, cp, n) := DecodeTail(s);
            && (ok <==> CharLen(s) > 0) && (ok ==> n == CharLen(s) && cp == Number(s[..CharLen(s)]))
  {
    var b0, b1, b2, b3 := Octet(s, 0), Octet(s, 1), Octet(s, 2), Octet(s, 3);
    CharLenByOctets(s);
    LeadTypes(b0, b1, b2, b3);
    if Two(b0, b1) { Shifted2(b0, b1); }
    if Three(b0, b1, b2) { Shifted3(b0, b1, b2); }
    if Four(b0, b1, b2, b3) { Shifted4(b0, b1, b2, b3); }
    hide Two, Three, Four, Number, Number2, Number3, Number4, Shifted, LeadBits, Trans, CharLen, GetRange;
  }

  method Decode(input: MemoryStream) returns (ok: bool, codepoint: bv32)
    requires input.Valid()
    modifies input`pos
    ensures input.Valid()
    ensures var s := old(input.Rest());
            && (ok <==> s == [] || CharLen(s) > 0)
            && (ok && s != [] ==> codepoint == Number(s[..CharLen(s)]) && input.Rest() == s[CharLen(s)..])
            && (s == [] ==> codepoint == 0 && input.Rest() == [])
  {
    ghost var s := input.Rest();
    if s != [] && s[0] >= 0x80 { DecodeTailIsGrammar(s); }
    if s != [] { CharLenByOctets(s); }
    assert Skip(s, 0) == s;
    var c := input.Take();
    if c & 0x80 == 0 {
      return true, c as bv32;
    }
    ok, codepoint := DecodeRest(input, c, s);
  }

  /** The switch of Decode. */
  method DecodeRest(input: MemoryStream, c: bv8, ghost s: seq<bv8>) returns (ok: bool, codepoint: bv32)
    requires input.Valid() && input.Rest() == Skip(s, 1) && c == Octet(s, 0)
    modifies input`pos
    ensures input.Valid() && (ok, codepoint) == (DecodeTail(s).0, DecodeTail(s).1) && input.Rest() == Skip(s, DecodeTail(s).2)
  {
    var kind := GetRange(c);
    codepoint := if kind >= 32 then 0 else (0xFF >> kind) & (c as bv32);
    assert codepoint == LeadBits(c);
    hide LeadBits, GetRange, Shifted, Trans, Octet, Skip;
    ok := true;
    if kind == 2 {
      codepoint, ok := TakeTail(input, codepoint, ok, 0x70, s, 1);
    } else if kind == 3 {
      codepoint, ok := TakeTail(input, codepoint, ok, 0x70, s, 1);
      codepoint, ok := TakeTail(input, codepoint, ok, 0x70, s, 2);
    } else if kind == 4 {
      codepoint, ok := TakeTail(input, codepoint, ok, 0x50, s, 1);
      codepoint, ok := TakeTail(input, codepoint, ok, 0x70, s, 2);
    } else if kind == 5 {
      codepoint, ok := TakeTail(input, codepoint, ok, 0x10, s, 1);
      codepoint, ok := TakeTail(input, codepoint, ok, 0x70, s, 2);
      codepoint, ok := TakeTail(input, codepoint, ok, 0x70, s, 3);
    } else if kind == 6 {
      codepoint, ok := TakeTail(input, codepoint, ok, 0x70, s, 1);
      codepoint, ok := TakeTail(input, codepoint, ok, 0x70, s, 2);
      codepoint, ok := TakeTail(input, codepoint, ok, 0x70, s, 3);
    } else if kind == 10 {
      codepoint, ok := TakeTail(input, codepoint, ok, 0x20, s, 1);
      codepoint, ok := TakeTail(input, codepoint, ok, 0x70, s, 2);
    } else if kind == 11 {
      codepoint, ok := TakeTail(input, codepoint, ok, 0x60, s, 1);
      codepoint, ok := TakeTail(input, codepoint, ok, 0x70, s, 2);
      codepoint, ok := TakeTail(input, codepoint, ok, 0x70, s, 3);
    } else {
      ok := false;
    }
  }

  /** The first n octets as a stream hands them out. */
  function Taken(s: seq<bv8>, n: nat): seq<bv8> {
    if n == 0 then [] else Taken(s, n - 1) + [Octet(s, n - 1)]
  }

  lemma {:induction false} TakenIsPrefix(s: seq<bv8>, n: nat)
    requires n <= |s|
    ensures Taken(s, n) == s[..n]
  {
    if n > 0 {
      TakenIsPrefix(s, n - 1);
      assert s[..n] == s[..n - 1] + [s[n - 1]];
    }
  }

  method CopyTail(input: MemoryStream, output: StringBuffer, ok: bool, mask: bv8, ghost s: seq<bv8>, ghost k: nat, ghost before: seq<bv8>)
    returns (r: bool)
    requires input.Valid() && input.Rest() == Skip(s, k) && output.out == before + Taken(s, k)
    modifies input`pos, output
    ensures input.Valid() && input.Rest() == Skip(s, k + 1) && output.out == before + Taken(s, k + 1)
    ensures r <==> ok && Trans(Octet(s, k), mask)
  {
    SkipOne(s, k);
    assert before + Taken(s, k) + [Octet(s, k)] == before + Taken(s, k + 1);
    hide *;
    var c := input.Take();
    output.Put(c);
    r := ok && Trans(c, mask);
  }

  /** Validate copies what Decode would take, and accepts the same texts. */
  method Validate(input: MemoryStream, output: StringBuffer) returns (ok: bool)
    requires input.Valid()
    modifies input`pos, output
    ensures input.Valid()
    ensures var s := old(input.Rest());
            && (ok <==> s == [] || CharLen(s) > 0)
            && (ok && s != [] ==> input.Rest() == s[CharLen(s)..] && output.out == old(output.out) + s[..CharLen(s)])
  {
    ghost var s, before := input.Rest(), output.out;
    if s != [] && s[0] >= 0x80 { DecodeTailIsGrammar(s); }
    if s != [] {
      CharLenByOctets(s);
      TakenIsPrefix(s, CharLen(s));
    }
    assert Skip(s, 0) == s && Taken(s, 1) == Taken(s, 0) + [Octet(s, 0)] == [Octet(s, 0)];
    var c := input.Take();
    output.Put(c);
    if c & 0x80 == 0 {
      return true;
    }
    ok := ValidateRest(input, output, c, s, before);
  }

  method ValidateRest(input: MemoryStream, output: StringBuffer, c: bv8, ghost s: seq<bv8>, ghost before: seq<bv8>) returns (ok: bool)
    requires input.Valid() && input.Rest() == Skip(s, 1) && c == Octet(s, 0) && output.out == before + Taken(s, 1)
    modifies input`pos, output
    ensures input.Valid() && ok == DecodeTail(s).0 && input.Rest() == Skip(s, DecodeTail(s).2)
    ensures output.out == before + Taken(s, DecodeTail(s).2)
  {
    var kind := GetRange(c);
    hide LeadBits, GetRange, Shifted, Trans, Octet, Skip, Taken;
    ok := true;
    if kind == 2 {
      ok := CopyTail(input, output, ok, 0x70, s, 1, before);
    } else if kind == 3 {
      ok := CopyTail(input, output, ok, 0x70, s, 1, before);
      ok := CopyTail(input, output, ok, 0x70, s, 2, before);
    } else if kind == 4 {
      ok := CopyTail(input, output, ok, 0x50, s, 1, before);
      ok := CopyTail(input, output, ok, 0x70, s, 2, before);
    } else if kind == 5 {
      ok := CopyTail(input, output, ok, 0x10, s, 1, before);
      ok := CopyTail(input, output, ok, 0x70, s, 2, before);
      ok := CopyTail(input, output, ok, 0x70, s, 3, before);
    } else if kind == 6 {
      ok := CopyTail(input, output, ok, 0x70, s, 1, before);
      ok := CopyTail(input, output, ok, 0x70, s, 2, before);
      ok := CopyTail(input, output, ok, 0x70, s, 3, before);
    } else if kind == 10 {
      ok := CopyTail(input, output, ok, 0x20, s, 1, before);
      ok := CopyTail(input, output, ok, 0x70, s, 2, before);
    } else if kind == 11 {
      ok := CopyTail(input, output, ok, 0x60, s, 1, before);
      ok := CopyTail(input, output, ok, 0x70, s, 2, before);
      ok := CopyTail(input, output, ok, 0x70, s, 3, before);
    } else {
      ok := false;
    }
  }

  method PutEncoded(output: StringBuffer, codepoint: bv32)
    modifies output
    ensures output.out == old(output.out) + Encode(codepoint)
  {
    ghost var before := output.out;
    hide Low8, Lead2, Lead3, Lead4, Tail0, Tail6, Tail12;
    if codepoint <= 0x7F {
      output.Put(Low8(codepoint & 0xFF));
    } else if codepoint <= 0x7FF {
      output.Put(Lead2(codepoint));
      output.Put(Tail0(codepoint));
    } else if codepoint <= 0xFFFF {
      output.Put(Lead3(codepoint));
      output.Put(Tail6(codepoint));
      output.Put(Tail0(codepoint));
    } else {
      output.Put(Lead4(codepoint));
      output.Put(Tail12(codepoint));
      output.Put(Tail6(codepoint));
      output.Put(Tail0(codepoint));
    }
    assert output.out == before + Encode(codepoint);
  }

  // ------------------------------------------------------------ whole texts

  /** UTF8-octets of the grammar: a sequence of characters. */
  predicate IsText(s: seq<bv8>)
    decreases |s|
  {
    s == [] || (CharLen(s) > 0 && IsText(s[CharLen(s)..]))
  }

  function EncodeText(cps: seq<bv32>): seq<bv8> {
    if cps == [] then [] else Encode(cps[0]) + EncodeText(cps[1..])
  }

  function Numbers(s: seq<bv8>): seq<bv32>
    requires IsText(s)
    decreases |s|
  {
    if s == [] then [] else [Number(s[..CharLen(s)])] + Numbers(s[CharLen(s)..])
  }

  predicate Scalars(cps: seq<bv32>) {
    forall k :: 0 <= k < |cps| ==> Scalar(cps[k])
  }

  lemma FirstChar(c: seq<bv8>, rest: seq<bv8>)
    requires IsChar(c)
    ensures CharLen(c + rest) == |c| && (c + rest)[..|c|] == c && (c + rest)[|c|..] == rest
  {
    assert (c + rest)[..|c|] == c;
    PrefixFree(c + rest, |c|);
  }

  /** Every list of Unicode scalar values is encoded as a text and decoded again. */
  lemma {:induction false} TextRoundTrip(cps: seq<bv32>)
    requires Scalars(cps)
    ensures IsText(EncodeText(cps)) && Numbers(EncodeText(cps)) == cps
  {
    if cps != [] {
      EncodeIsChar(cps[0]);
      TextRoundTrip(cps[1..]);
      FirstChar(Encode(cps[0]), EncodeText(cps[1..]));
      hide Encode, IsChar, Number, CharLen;
    }
  }

  lemma FirstNumber(s: seq<bv8>)
    requires s != [] && IsText(s)
    ensures var n := CharLen(s); var later := Numbers(s[n..]);
            Numbers(s) == [Number(s[..n])] + later && ([Number(s[..n])] + later)[1..] == later && s == s[..n] + s[n..]
  {
    hide IsChar, Number, CharLen;
    var n := CharLen(s);
    var first, later := Number(s[..n]), Numbers(s[n..]);
    assert Numbers(s) == [first] + later;
    assert |[first] + later| == 1 + |later|;
  }

  /** Every text is the encoding of its numbers, which are scalar values. */
  lemma {:induction false} NumbersEncodeText(s: seq<bv8>)
    requires IsText(s)
    ensures Scalars(Numbers(s)) && EncodeText(Numbers(s)) == s
    decreases |s|
  {
    if s != [] {
      var n := CharLen(s);
      NumberEncodes(s[..n]);
      NumbersEncodeText(s[n..]);
      FirstNumber(s);
      hide Encode, IsChar, Number, CharLen, Scalar, Numbers;
    }
  }

  lemma {:induction false} TextWithChar(s: seq<bv8>, c: seq<bv8>)
    requires IsText(s) && IsChar(c)
    ensures IsText(s + c)
    decreases |s|
  {
    if s == [] {
      assert s + c == c + [];
      FirstChar(c, []);
    } else {
      var n := CharLen(s);
      assert (s + c)[..n] == s[..n] && (s + c)[n..] == s[n..] + c;
      PrefixFree(s + c, n);
      TextWithChar(s[n..], c);
      hide IsChar, CharLen;
    }
  }
}
