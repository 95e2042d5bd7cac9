/** String escaping of the Writer and the OptimizedWriter (eabase/rapidjson/writer.h and
    optimized_writer.h), against section 7 of RFC 8259. */
module JsonString {
  import opened HexDigits
  import Utf8

  type Text = seq<bv8>

  const QUOTE: bv8 := 0x22
  const BACKSLASH: bv8 := 0x5C

  // ------------------------------------------------------------ RFC 8259, section 7

  datatype Unescaped = Plain(s: Text) | Malformed

  function Quad(h3: bv8, h2: bv8, h1: bv8, h0: bv8): bv32 {
    ((HexValue(h3) as bv32) << 12) | ((HexValue(h2) as bv32) << 8) | ((HexValue(h1) as bv32) << 4) | (HexValue(h0) as bv32)
  }

  /** Four hexadecimal digits after a reverse solidus and a u. */
  predicate HasQuad(t: Text) {
    |t| >= 6 && t[0] == BACKSLASH && t[1] == 0x75 && IsHex(t[2]) && IsHex(t[3]) && IsHex(t[4]) && IsHex(t[5])
  }

  function QuadOf(t: Text): bv32
    requires HasQuad(t)
  {
    Quad(t[2], t[3], t[4], t[5])
  }

  predicate IsHigh(x: bv32) {
    0xD800 <= x <= 0xDBFF
  }

  predicate IsLow(x: bv32) {
    0xDC00 <= x <= 0xDFFF
  }

  function Pair(high: bv32, low: bv32): bv32 {
    (((high & 0x3FF) << 10) | (low & 0x3FF)) + 0x10000
  }

  /** The two-character escapes. */
  function Short(c: bv8): bv8 {
    if c == 0x62 then 0x08 else if c == 0x66 then 0x0C else if c == 0x6E then 0x0A else if c == 0x72 then 0x0D
    else if c == 0x74 then 0x09 else c
  }

  predicate IsShort(c: bv8) {
    c == QUOTE || c == BACKSLASH || c == 0x2F || c == 0x62 || c == 0x66 || c == 0x6E || c == 0x72 || c == 0x74
  }

  /** The first character or escape of a string body: its octets, and how long it is. */
  datatype Item = Item(octets: Text, length: nat) | NoItem

  function FirstItem(t: Text): Item
    requires t != []
  {
    if t[0] < 0x20 || t[0] == QUOTE then NoItem
    else if t[0] != BACKSLASH then Item([t[0]], 1)
    else if |t| >= 2 && IsShort(t[1]) then Item([Short(t[1])], 2)
    else if !HasQuad(t) then NoItem
    else
      var x := QuadOf(t);
      if !IsHigh(x) && !IsLow(x) then Item(Utf8.Encode(x), 6)
      else if IsHigh(x) && HasQuad(t[6..]) && IsLow(QuadOf(t[6..])) then Item(Utf8.Encode(Pair(x, QuadOf(t[6..]))), 12)
      else NoItem
  }

  lemma ItemFits(t: Text)
    requires t != [] && FirstItem(t).Item?
    ensures 0 < FirstItem(t).length <= |t|
  {}

  /** What the body of a JSON string stands for, in UTF-8. */
  function Unescape(t: Text): Unescaped
    decreases |t|
  {
    if t == [] then Plain([])
    else
      match FirstItem(t)
      case NoItem => Malformed
      case Item(octets, length) =>
        ItemFits(t);
        match Unescape(t[length..])
        case Malformed => Malformed
        case Plain(s) => Plain(octets + s)
  }

  // ------------------------------------------------------------ the Writer

  /** The table of escapes, 0 for none. */
  function EscapeOf(c: bv8): bv8 {
    if c == QUOTE || c == BACKSLASH then c
    else if c >= 0x20 then 0
    else if c == 0x08 then 0x62 else if c == 0x09 then 0x74 else if c == 0x0A then 0x6E
    else if c == 0x0C then 0x66 else if c == 0x0D then 0x72 else 0x75
  }

  function EscapeOctet(c: bv8): Text {
    var e := EscapeOf(c);
    if e == 0 then [c]
    else if e == 0x75 then [BACKSLASH, 0x75, 0x30, 0x30, HexDigit(c >> 4), HexDigit(c & 15)]
    else [BACKSLASH, e]
  }

  function Body(s: Text): Text {
    if s == [] then [] else EscapeOctet(s[0]) + Body(s[1..])
  }

  function Quoted(s: Text): Text {
    [QUOTE] + Body(s) + [QUOTE]
  }

  lemma EscapeTable(c: bv8)
    ensures EscapeOf(c) == 0 ==> c >= 0x20 && c != QUOTE && c != BACKSLASH
    ensures EscapeOf(c) != 0 && EscapeOf(c) != 0x75 ==> IsShort(EscapeOf(c)) && Short(EscapeOf(c)) == c
    ensures EscapeOf(c) == 0x75 ==>
              && IsHex(0x30) && IsHex(HexDigit(c >> 4)) && IsHex(HexDigit(c & 15)) && !IsShort(0x75)
              && Quad(0x30, 0x30, HexDigit(c >> 4), HexDigit(c & 15)) == c as bv32 && c <= 0x7F && !IsHigh(c as bv32) && !IsLow(c as bv32)
  {}

  lemma OneOctet(c: bv8)
    requires c <= 0x7F
    ensures Utf8.Encode(c as bv32) == [c]
  {
    Utf8.Decode1(c);
    hide Utf8.Low8, Utf8.Lead2, Utf8.Lead3, Utf8.Lead4, Utf8.Tail0, Utf8.Tail6, Utf8.Tail12;
  }

  lemma EscapeIsItem(c: bv8, rest: Text)
    ensures EscapeOctet(c) + rest != [] && FirstItem(EscapeOctet(c) + rest) == Item([c], |EscapeOctet(c)|)
  {
    var t := EscapeOctet(c) + rest;
    EscapeTable(c);
    if EscapeOf(c) == 0x75 {
      OneOctet(c);
      assert t[2] == 0x30 && t[3] == 0x30 && t[4] == HexDigit(c >> 4) && t[5] == HexDigit(c & 15);
    }
    hide Quad, HexDigit, IsHex, Short, IsShort, IsHigh, IsLow, Utf8.Encode, EscapeOf, Pair;
  }

  /** Unescaping what the Writer puts between the quotes gives the source back, for every string
      of octets. */
  lemma {:induction false} UnescapeOfBody(s: Text)
    ensures Unescape(Body(s)) == Plain(s)
    decreases |s|
  {
    if s != [] {
      UnescapeOfBody(s[1..]);
      EscapeIsItem(s[0], Body(s[1..]));
      hide EscapeOctet, FirstItem;
      assert (EscapeOctet(s[0]) + Body(s[1..]))[|EscapeOctet(s[0])|..] == Body(s[1..]);
      assert [s[0]] + s[1..] == s;
    }
  }

  lemma BodyNext(s: Text, i: nat)
    requires i < |s|
    ensures s[..i + 1] == s[..i] + [s[i]] && Body(s[..i + 1]) == Body(s[..i]) + EscapeOctet(s[i])
  {
    assert s[..i + 1] == s[..i] + [s[i]];
    BodyConcat(s[..i], [s[i]]);
    assert [s[i]][1..] == [];
    hide EscapeOctet;
  }

  lemma {:induction false} BodyConcat(a: Text, b: Text)
    ensures Body(a + b) == Body(a) + Body(b)
  {
    hide EscapeOctet;
    if a == [] {
      assert a + b == b;
    } else {
      assert (a + b)[0] == a[0] && (a + b)[1..] == a[1..] + b;
      BodyConcat(a[1..], b);
    }
  }

  /** An octet without an entry in the table stands for itself. */
  lemma {:induction false} PlainRun(s: Text)
    requires forall k :: 0 <= k < |s| ==> EscapeOf(s[k]) == 0
    ensures Body(s) == s
  {
    if s != [] {
      PlainRun(s[1..]);
      assert s == [s[0]] + s[1..];
      hide EscapeOf;
    }
  }

  class OutputStream {
    var out: Text

    constructor ()
      ensures out == []
    {
      out := [];
    }

    method Put(c: bv8)
      modifies this
      ensures out == old(out) + [c]
    {
      out := out + [c];
    }

    method Puts(s: Text)
      modifies this
      ensures out == old(out) + s
    {
      out := out + s;
    }
  }

  method PutEscaped(os: OutputStream, c: bv8)
    requires EscapeOf(c) != 0
    modifies os
    ensures os.out == old(os.out) + EscapeOctet(c)
  {
    os.Put(BACKSLASH);
    os.Put(EscapeOf(c));
    if EscapeOf(c) == 0x75 {
      os.Put(0x30);
      os.Put(0x30);
      os.Put(HexDigit(c >> 4));
      os.Put(HexDigit(c & 15));
    }
    hide HexDigit, EscapeOf;
  }

  method PutOctet(os: OutputStream, c: bv8)
    modifies os
    ensures os.out == old(os.out) + EscapeOctet(c)
  {
    if EscapeOf(c) != 0 {
      PutEscaped(os, c);
    } else {
      os.Put(c);
    }
    hide HexDigit;
  }

  /** Writer::WriteString, octet by octet, when source and target are both UTF-8. */
  method WriteString(os: OutputStream, str: Text)
    modifies os
    ensures os.out == old(os.out) + Quoted(str)
  {
    ghost var was := os.out;
    QuotedIs(was, str);
    os.Put(QUOTE);
    var pos := 0;
    assert str[..0] == [];
    hide *;
    while pos < |str|
      invariant pos <= |str| && os.out == was + [QUOTE] + Body(str[..pos])
    {
      var c := str[pos];
      BodyNext(str, pos);
      PutOctet(os, c);
      Rejoin(was + [QUOTE], Body(str[..pos]), EscapeOctet(c), []);
      pos := pos + 1;
    }
    assert str[..pos] == str;
    os.Put(QUOTE);
  }

  lemma QuotedIs(was: Text, str: Text)
    ensures was + [QUOTE] + Body(str) + [QUOTE] == was + Quoted(str) && was + [QUOTE] + Body([]) == was + [QUOTE]
  {}

  /** The run before an escape and the escape itself. */
  method PutChunk(os: OutputStream, str: Text, index: nat, pos: nat, ghost before: Text)
    requires index <= pos < |str| && EscapeOf(str[pos]) != 0 && os.out == before + Body(str[..index])
    requires forall k :: index <= k < pos ==> EscapeOf(str[k]) == 0
    modifies os
    ensures os.out == before + Body(str[..pos + 1])
  {
    ChunkEnds(str, index, pos);
    BodyNext(str, pos);
    hide *;
    os.Puts(str[index..pos]);
    PutEscaped(os, str[pos]);
    Rejoin(before, Body(str[..index]), str[index..pos], EscapeOctet(str[pos]));
  }

  lemma Rejoin<T>(a: seq<T>, b: seq<T>, c: seq<T>, d: seq<T>)
    ensures a + b + c + d == a + ((b + c) + d) && a + b + c == a + (b + c)
  {}

  /** OptimizedWriter::WriteString: runs without escapes go out in one piece. */
  method WriteStringInChunks(os: OutputStream, str: Text)
    modifies os
    ensures os.out == old(os.out) + Quoted(str)
  {
    os.Put(QUOTE);
    ghost var before := os.out;
    var index, pos := 0, 0;
    assert before + Body(str[..0]) == before;
    while pos < |str|
      invariant index <= pos <= |str| && os.out == before + Body(str[..index])
      invariant forall k :: index <= k < pos ==> EscapeOf(str[k]) == 0
    {
      hide Body, EscapeOf;
      if EscapeOf(str[pos]) != 0 {
        PutChunk(os, str, index, pos, before);
        index := pos + 1;
      }
      pos := pos + 1;
    }
    PutLast(os, str, index, before);
    os.Put(QUOTE);
  }

  method PutLast(os: OutputStream, str: Text, index: nat, ghost before: Text)
    requires index <= |str| && os.out == before + Body(str[..index])
    requires forall k :: index <= k < |str| ==> EscapeOf(str[k]) == 0
    modifies os
    ensures os.out == before + Body(str)
  {
    ChunkEnds(str, index, |str|);
    Whole(str, index);
    hide *;
    if index < |str| {
      os.Puts(str[index..]);
    }
    Rejoin(before, Body(str[..index]), str[index..], []);
  }

  lemma Whole<T>(s: seq<T>, index: nat)
    requires index <= |s|
    ensures s[..|s|] == s && s[index..|s|] == s[index..] && (index == |s| ==> s[..index] == s)
  {}

  lemma ChunkEnds(str: Text, index: nat, pos: nat)
    requires index <= pos <= |str| && forall k :: index <= k < pos ==> EscapeOf(str[k]) == 0
    ensures Body(str[..pos]) == Body(str[..index]) + str[index..pos]
  {
    assert str[..pos] == str[..index] + str[index..pos];
    BodyConcat(str[..index], str[index..pos]);
    PlainRun(str[index..pos]);
    hide Body;
  }

  // ------------------------------------------------------------ a target without Unicode

  function Four(x: bv32): Text {
    [BACKSLASH, 0x75, HexDigit(((x >> 12) & 15) as bv8), HexDigit(((x >> 8) & 15) as bv8),
     HexDigit(((x >> 4) & 15) as bv8), HexDigit((x & 15) as bv8)]
  }

  function Lead(cp: bv32): bv32 {
    ((cp - 0x10000) >> 10) + 0xD800
  }

  function Trail(cp: bv32): bv32 {
    ((cp - 0x10000) & 0x3FF) + 0xDC00
  }

  /** The code point needs no surrogate pair. */
  predicate OneUnit(cp: bv32) {
    cp <= 0xD7FF || (0xE000 <= cp && cp <= 0xFFFF)
  }

  /** The escapes for one code point. */
  function EscapeCode(cp: bv32): Text {
    if OneUnit(cp) then Four(cp) else Four(Lead(cp)) + Four(Trail(cp))
  }

  /** A UTF-8 text for a target that has no Unicode. */
  function AsciiBody(s: Text): Text
    requires Utf8.IsText(s)
    decreases |s|
  {
    if s == [] then []
    else
      var n := Utf8.CharLen(s);
      (if s[0] >= 0x80 then EscapeCode(Utf8.Number(s[..n])) else EscapeOctet(s[0])) + AsciiBody(s[n..])
  }

  lemma HexIsAscii(n: bv8)
    requires n <= 15
    ensures HexDigit(n) <= 0x7F && IsHex(HexDigit(n)) && HexValue(HexDigit(n)) == n
  {}

  lemma NibblesSmall(x: bv32)
    ensures (((x >> 12) & 15) as bv8) <= 15 && (((x >> 8) & 15) as bv8) <= 15 && (((x >> 4) & 15) as bv8) <= 15 && ((x & 15) as bv8) <= 15
  {}

  lemma NibblesJoin(x: bv32)
    requires x <= 0xFFFF
    ensures (((((x >> 12) & 15) as bv8) as bv32) << 12) | (((((x >> 8) & 15) as bv8) as bv32) << 8)
          | (((((x >> 4) & 15) as bv8) as bv32) << 4) | (((x & 15) as bv8) as bv32) == x
  {}

  lemma FourIsQuad(x: bv32, rest: Text)
    requires x <= 0xFFFF
    ensures HasQuad(Four(x) + rest) && QuadOf(Four(x) + rest) == x && (Four(x) + rest)[6..] == rest
    ensures forall k :: 0 <= k < 6 ==> Four(x)[k] <= 0x7F
  {
    NibblesSmall(x);
    NibblesJoin(x);
    HexIsAscii(((x >> 12) & 15) as bv8);
    HexIsAscii(((x >> 8) & 15) as bv8);
    HexIsAscii(((x >> 4) & 15) as bv8);
    HexIsAscii((x & 15) as bv8);
    hide HexDigit, IsHex, HexValue;
  }

  lemma LeadInRange(cp: bv32)
    requires 0x10000 <= cp <= 0x10FFFF
    ensures Lead(cp) <= 0xFFFF && IsHigh(Lead(cp))
  {}

  lemma TrailInRange(cp: bv32)
    ensures Trail(cp) <= 0xFFFF && IsLow(Trail(cp))
  {}

  lemma PairBits(cp: bv32)
    requires 0x10000 <= cp <= 0x10FFFF
    ensures Pair(Lead(cp), Trail(cp)) == cp
  {}

  lemma OneUnitOrPair(cp: bv32)
    requires Utf8.Scalar(cp)
    ensures if OneUnit(cp) then cp <= 0xFFFF && !IsHigh(cp) && !IsLow(cp) else 0x10000 <= cp <= 0x10FFFF
  {}

  lemma FourIsItem(x: bv32, rest: Text)
    requires x <= 0xFFFF && !IsHigh(x) && !IsLow(x)
    ensures Four(x) + rest != [] && FirstItem(Four(x) + rest) == Item(Utf8.Encode(x), 6)
  {
    FourIsQuad(x, rest);
    hide QuadOf, IsHigh, IsLow, Utf8.Encode, Pair, Short;
  }

  lemma TwoFoursAreItem(high: bv32, low: bv32, rest: Text)
    requires high <= 0xFFFF && low <= 0xFFFF && IsHigh(high) && IsLow(low)
    ensures var t := Four(high) + Four(low) + rest; t != [] && FirstItem(t) == Item(Utf8.Encode(Pair(high, low)), 12)
  {
    assert Four(high) + Four(low) + rest == Four(high) + (Four(low) + rest);
    FourIsQuad(high, Four(low) + rest);
    FourIsQuad(low, rest);
    assert !IsShort(0x75);
    hide QuadOf, IsHigh, IsLow, Utf8.Encode, Pair, Short;
    var t := Four(high) + (Four(low) + rest);
    assert t[0] == BACKSLASH && t[1] == 0x75;
    hide Four;
  }

  predicate Ascii(t: Text) {
    forall k :: 0 <= k < |t| ==> t[k] <= 0x7F
  }

  lemma FourIsAscii(x: bv32)
    requires x <= 0xFFFF
    ensures Ascii(Four(x))
  {
    FourIsQuad(x, []);
    hide Four;
    FourLength(x);
  }

  lemma AsciiConcat(a: Text, b: Text)
    ensures Ascii(a + b) <==> Ascii(a) && Ascii(b)
  {
    assert a == (a + b)[..|a|] && b == (a + b)[|a|..];
  }

  lemma EscapeCodeIsItem(cp: bv32, rest: Text)
    requires Utf8.Scalar(cp)
    ensures EscapeCode(cp) + rest != [] && FirstItem(EscapeCode(cp) + rest) == Item(Utf8.Encode(cp), |EscapeCode(cp)|)
    ensures Ascii(EscapeCode(cp))
  {
    OneUnitOrPair(cp);
    hide *;
    EscapeCodeIs(cp);
    if OneUnit(cp) {
      FourIsItem(cp, rest);
      FourIsAscii(cp);
      FourLength(cp);
    } else {
      var lead, trail := Lead(cp), Trail(cp);
      LeadInRange(cp);
      TrailInRange(cp);
      PairBits(cp);
      TwoFoursAreItem(lead, trail, rest);
      FourIsAscii(lead);
      FourIsAscii(trail);
      FourLength(lead);
      FourLength(trail);
      AsciiConcat(Four(lead), Four(trail));
    }
  }

  lemma EscapeCodeIs(cp: bv32)
    ensures EscapeCode(cp) == if OneUnit(cp) then Four(cp) else Four(Lead(cp)) + Four(Trail(cp))
  {
    hide Four, Lead, Trail, OneUnit;
  }

  lemma FourLength(x: bv32)
    ensures |Four(x)| == 6
  {}

  function AsciiFront(s: Text): Text
    requires s != [] && Utf8.IsText(s)
  {
    if s[0] >= 0x80 then EscapeCode(Utf8.Number(s[..Utf8.CharLen(s)])) else EscapeOctet(s[0])
  }

  lemma AsciiSplit(s: Text)
    requires s != [] && Utf8.IsText(s)
    ensures var n := Utf8.CharLen(s);
            0 < n <= |s| && Utf8.IsChar(s[..n]) && Utf8.IsText(s[n..]) && AsciiBody(s) == AsciiFront(s) + AsciiBody(s[n..]) && s[..n] + s[n..] == s
    ensures s[0] < 0x80 ==> Utf8.CharLen(s) == 1 && s[..1] == [s[0]]
  {
    hide EscapeOctet, EscapeCode, Utf8.IsChar, Utf8.Number, Utf8.CharLen;
    if s[0] < 0x80 { AsciiIsOne(s); }
    TakeDrop(s, Utf8.CharLen(s));
  }

  lemma TakeDrop<T>(s: seq<T>, n: nat)
    requires n <= |s|
    ensures s[..n] + s[n..] == s
  {}

  lemma AsciiIsOne(s: Text)
    requires s != [] && s[0] < 0x80
    ensures Utf8.CharLen(s) == 1 && s[..1] == [s[0]]
  {
    assert s[..1][0] == s[0];
  }

  lemma OctetIsAscii(c: bv8)
    requires c < 0x80
    ensures Ascii(EscapeOctet(c))
  {}

  lemma AsciiFrontIsItem(s: Text, rest: Text)
    requires s != [] && Utf8.IsText(s)
    ensures AsciiFront(s) + rest != [] && FirstItem(AsciiFront(s) + rest) == Item(s[..Utf8.CharLen(s)], |AsciiFront(s)|)
    ensures Ascii(AsciiFront(s))
  {
    AsciiSplit(s);
    var n := Utf8.CharLen(s);
    if s[0] >= 0x80 {
      Utf8.NumberEncodes(s[..n]);
      EscapeCodeIsItem(Utf8.Number(s[..n]), rest);
    } else {
      EscapeIsItem(s[0], rest);
      OctetIsAscii(s[0]);
    }
    hide FirstItem, EscapeCode, EscapeOctet, Utf8.Encode, Utf8.Number, Utf8.CharLen, Utf8.IsChar, Utf8.Scalar, Ascii;
  }

  /** For a target without Unicode the output is ASCII, and unescaping it gives back the UTF-8
      source, so it stands for the same code points. */
  lemma {:induction false} AsciiRoundTrip(s: Text)
    requires Utf8.IsText(s)
    ensures Unescape(AsciiBody(s)) == Plain(s) && Ascii(AsciiBody(s))
    decreases |s|
  {
    if s != [] {
      AsciiSplit(s);
      var n := Utf8.CharLen(s);
      var rest := AsciiBody(s[n..]);
      AsciiRoundTrip(s[n..]);
      AsciiFrontIsItem(s, rest);
      hide AsciiFront, AsciiBody, FirstItem, Utf8.CharLen, Utf8.IsText, Ascii;
      AsciiConcat(AsciiFront(s), rest);
      assert (AsciiFront(s) + rest)[|AsciiFront(s)|..] == rest;
    }
  }

  /** Writer::WriteString for a target without Unicode; it fails exactly on what is no UTF-8. */
  method WriteStringAscii(os: OutputStream, str: Text) returns (ok: bool)
    modifies os
    ensures ok <==> Utf8.IsText(str)
    ensures ok ==> os.out == old(os.out) + [QUOTE] + AsciiBody(str) + [QUOTE]
  {
    os.Put(QUOTE);
    ghost var before := os.out;
    var input := new Utf8.MemoryStream(str);
    AsciiBegins(str, before);
    hide *;
    while input.pos < |input.src|
      invariant input.Valid() && input.src == str
      invariant AsciiTo(str, input.Rest(), before, os.out)
      decreases |str| - input.pos
    {
      ok := AsciiRound(os, input, str, before);
      if !ok {
        return;
      }
    }
    ok := true;
    AsciiDone(str, input.Rest(), before, os.out);
    os.Put(QUOTE);
  }

  lemma AsciiBegins(str: Text, before: Text)
    ensures AsciiTo(str, str, before, before)
  {
    hide Utf8.IsText, AsciiBody;
  }

  lemma AsciiDone(str: Text, rest: Text, before: Text, out: Text)
    requires rest == [] && AsciiTo(str, rest, before, out)
    ensures Utf8.IsText(str) && out == before + AsciiBody(str)
  {
    hide Utf8.CharLen;
  }

  /** The part of the source before `rest` has been written behind `before`. */
  ghost predicate AsciiTo(str: Text, rest: Text, before: Text, out: Text) {
    && (Utf8.IsText(str) <==> Utf8.IsText(rest))
    && (Utf8.IsText(str) ==> out + AsciiBody(rest) == before + AsciiBody(str))
  }

  method AsciiRound(os: OutputStream, input: Utf8.MemoryStream, ghost str: Text, ghost before: Text) returns (ok: bool)
    requires input.Valid() && input.pos < |input.src| && AsciiTo(str, input.Rest(), before, os.out)
    modifies os, input`pos
    ensures input.Valid() && (ok ==> input.pos > old(input.pos) && AsciiTo(str, input.Rest(), before, os.out))
    ensures !ok ==> !Utf8.IsText(str)
  {
    ghost var rest, out := input.Rest(), os.out;
    var c := input.src[input.pos];
    assert rest[0] == c;
    AsciiFurther(str, rest, before, out);
    hide AsciiTo, EscapeOctet, EscapeCode, EscapeOf, Utf8.IsText, Utf8.CharLen, Utf8.Number, AsciiFront;
    if c >= 0x80 {
      var good, codepoint := Utf8.Decode(input);
      if !good {
        return false;
      }
      os.Puts(EscapeCode(codepoint));
    } else {
      input.pos := input.pos + 1;
      assert input.Rest() == rest[1..];
      if EscapeOf(c) != 0 {
        PutEscaped(os, c);
      } else {
        os.Put(c);
        assert EscapeOctet(c) == [c] by { OctetPlain(c); }
      }
    }
    ok := true;
  }

  lemma OctetPlain(c: bv8)
    requires EscapeOf(c) == 0
    ensures EscapeOctet(c) == [c]
  {}

  lemma AsciiFurther(str: Text, rest: Text, before: Text, out: Text)
    requires rest != [] && AsciiTo(str, rest, before, out)
    ensures var n := Utf8.CharLen(rest);
            && (n == 0 ==> !Utf8.IsText(str))
            && (n > 0 && rest[0] >= 0x80 ==> AsciiTo(str, rest[n..], before, out + EscapeCode(Utf8.Number(rest[..n]))))
            && (rest[0] < 0x80 ==> n == 1 && AsciiTo(str, rest[1..], before, out + EscapeOctet(rest[0])))
  {
    if rest[0] < 0x80 { AsciiIsOne(rest); }
    hide Utf8.CharLen, Utf8.IsChar, Utf8.Number;
    if Utf8.IsText(rest) {
      AsciiSplit(rest);
      Rejoin(out, AsciiFront(rest), AsciiBody(rest[Utf8.CharLen(rest)..]), []);
    }
    hide EscapeOctet, EscapeCode, AsciiBody;
  }
}
