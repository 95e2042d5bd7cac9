/** Parsing and printing of JSON Pointers (eabase/rapidjson/pointer.h, UTF-8 instance), plain and
    as URI fragments; RFC 6901 sections 3, 4 and 6. */
module JsonPointer {
  import opened HexDigits
  import Utf8

  type Text = seq<bv8>

  const SLASH: bv8 := 0x2F
  const TILDE: bv8 := 0x7E
  const PERCENT: bv8 := 0x25
  const HASH: bv8 := 0x23
  const ZERO: bv8 := 0x30
  const ONE: bv8 := 0x31

  datatype Error = TokenMustBeginWithSolidus | InvalidEscape | InvalidPercentEncoding | CharacterMustPercentEncode

  predicate IsDigit(c: bv8) {
    0x30 <= c <= 0x39
  }

  predicate NeedPercentEncode(c: bv8) {
    !(IsDigit(c) || 0x41 <= c <= 0x5A || 0x61 <= c <= 0x7A || c == 0x2D || c == 0x2E || c == 0x5F || c == 0x7E)
  }

  // ------------------------------------------------------------ percent triplets

  predicate HasTriplet(s: Text, i: nat) {
    i + 3 <= |s| && s[i] == PERCENT && IsHex(s[i + 1]) && IsHex(s[i + 2])
  }

  function Joined(high: bv8, low: bv8): bv8 {
    (HexValue(high) << 4) + HexValue(low)
  }

  function Triplet(s: Text, i: nat): bv8
    requires HasTriplet(s, i)
  {
    Joined(s[i + 1], s[i + 2])
  }

  /** The octets of the run of triplets from i on. */
  function Octets(s: Text, i: nat): (r: seq<bv8>)
    ensures i + 3 * |r| <= |s| || r == []
    decreases |s| - i
  {
    if HasTriplet(s, i) then [Triplet(s, i)] + Octets(s, i + 3) else []
  }

  // ------------------------------------------------------------ what the parser reads

  /** One round of the inner loop of Parse: what it adds to the name and where it goes on. */
  datatype Step = Emit(next: nat, bytes: seq<bv8>) | Bad(code: Error, at: nat)

  function Unescape(s: Text, i: nat, c: bv8): Step {
    if c != TILDE then Emit(i, [c])
    else if i < |s| && s[i] == ZERO then Emit(i + 1, [TILDE])
    else if i < |s| && s[i] == ONE then Emit(i + 1, [SLASH])
    else Bad(InvalidEscape, i)
  }

  function StepAt(s: Text, i: nat, fragment: bool): Step
    requires i < |s|
  {
    if fragment && s[i] == PERCENT then
      var octets := Octets(s, i);
      var n := Utf8.CharLen(octets);
      if n == 0 then Bad(InvalidPercentEncoding, i)
      else if n == 1 then Unescape(s, i + 3, octets[0])
      else Emit(i + 3 * n, octets[..n])
    else if fragment && NeedPercentEncode(s[i]) then Bad(CharacterMustPercentEncode, i)
    else Unescape(s, i + 1, s[i])
  }

  datatype NameResult = Name(next: nat, name: Text) | NameError(code: Error, at: nat)

  lemma StepMoves(s: Text, i: nat, fragment: bool)
    requires i < |s| && StepAt(s, i, fragment).Emit?
    ensures i < StepAt(s, i, fragment).next <= |s|
    ensures 0 < |StepAt(s, i, fragment).bytes| <= StepAt(s, i, fragment).next - i
  {}

  /** The name of the token whose text starts at i, added to what has been read before. */
  function ParseName(s: Text, i: nat, fragment: bool, before: Text): NameResult
    requires i <= |s|
    decreases |s| - i
  {
    if i == |s| || s[i] == SLASH then Name(i, before)
    else
      match StepAt(s, i, fragment)
      case Emit(next, bytes) => StepMoves(s, i, fragment); ParseName(s, next, fragment, before + bytes)
      case Bad(code, at) => NameError(code, at)
  }

  datatype Result = Tokens(names: seq<Text>) | ParseError(code: Error, at: nat)

  lemma {:induction false} NameMoves(s: Text, i: nat, fragment: bool, before: Text)
    requires i <= |s| && ParseName(s, i, fragment, before).Name?
    ensures var r := ParseName(s, i, fragment, before);
            && i <= r.next <= |s| && (r.next < |s| ==> s[r.next] == SLASH)
            && |r.name| - |before| <= r.next - i
    decreases |s| - i
  {
    if i < |s| && s[i] != SLASH {
      StepMoves(s, i, fragment);
      var step := StepAt(s, i, fragment);
      hide StepAt;
      NameMoves(s, step.next, fragment, before + step.bytes);
    }
  }

  function ParseTokens(s: Text, i: nat, fragment: bool): Result
    requires i <= |s| && (i < |s| ==> s[i] == SLASH)
    decreases |s| - i
  {
    if i == |s| then Tokens([])
    else
      match ParseName(s, i + 1, fragment, [])
      case NameError(code, at) => ParseError(code, at)
      case Name(next, name) =>
        NameMoves(s, i + 1, fragment, []);
        match ParseTokens(s, next, fragment)
        case Tokens(names) => Tokens([name] + names)
        case error => error
  }

  function Parse(s: Text): Result {
    var fragment := |s| > 0 && s[0] == HASH;
    var i := if fragment then 1 else 0;
    if i < |s| && s[i] != SLASH then ParseError(TokenMustBeginWithSolidus, i) else ParseTokens(s, i, fragment)
  }

  // ------------------------------------------------------------ printing

  function Escape(name: Text): Text {
    if name == [] then []
    else (if name[0] == TILDE then [TILDE, ZERO] else if name[0] == SLASH then [TILDE, ONE] else [name[0]]) + Escape(name[1..])
  }

  function Print(names: seq<Text>): Text {
    if names == [] then [] else [SLASH] + Escape(names[0]) + Print(names[1..])
  }

  function HighDigit(c: bv8): bv8 {
    HexDigit(c >> 4)
  }

  function LowDigit(c: bv8): bv8 {
    HexDigit(c & 15)
  }

  function PercentOne(c: bv8): Text {
    [PERCENT, HighDigit(c), LowDigit(c)]
  }

  function PercentAll(octets: seq<bv8>): Text {
    if octets == [] then [] else PercentOne(octets[0]) + PercentAll(octets[1..])
  }

  /** A name in a URI fragment; only UTF-8 texts can be printed. */
  function EscapeFragment(name: Text): Text
    requires Utf8.IsText(name)
    decreases |name|
  {
    if name == [] then []
    else
      var n := Utf8.CharLen(name);
      (if name[0] == TILDE then [TILDE, ZERO] else if name[0] == SLASH then [TILDE, ONE]
       else if NeedPercentEncode(name[0]) then PercentAll(name[..n]) else [name[0]])
      + EscapeFragment(name[n..])
  }

  predicate AllTexts(names: seq<Text>) {
    forall k :: 0 <= k < |names| ==> Utf8.IsText(names[k])
  }

  function PrintTokens(names: seq<Text>): Text
    requires AllTexts(names)
  {
    if names == [] then [] else [SLASH] + EscapeFragment(names[0]) + PrintTokens(names[1..])
  }

  function PrintFragment(names: seq<Text>): Text
    requires AllTexts(names)
  {
    [HASH] + PrintTokens(names)
  }

  // ------------------------------------------------------------ plain pointers

  lemma Rejoin<T>(a: seq<T>, b: seq<T>, n: nat)
    requires n <= |b|
    ensures a + b[..n] + b[n..] == a + b
  {}

  lemma HeadTail<T>(a: seq<T>)
    requires a != []
    ensures [a[0]] + a[1..] == a
  {}

  lemma NoMore<T>(s: seq<T>, i: nat, rest: seq<T>, before: seq<T>)
    requires i <= |s| && s[i..] == [] + rest
    ensures i == |s| - |rest| && before + [] == before && (i < |s| ==> s[i] == rest[0])
  {
    if i < |s| { assert s[i..][0] == s[i]; }
  }

  /** The rest of a text after its first characters. */
  lemma Behind(s: Text, i: nat, front: Text, rest: Text)
    requires i <= |s| && s[i..] == front + rest
    ensures i + |front| <= |s| && s[i + |front|..] == rest && forall k :: 0 <= k < |front| ==> s[i + k] == front[k]
  {
    assert forall k :: 0 <= k < |front| ==> s[i..][k] == front[k];
    assert s[i..][|front|..] == rest;
  }

  lemma {:induction false} ParseEscaped(s: Text, i: nat, name: Text, rest: Text, before: Text)
    requires i <= |s| && s[i..] == Escape(name) + rest && (rest == [] || rest[0] == SLASH)
    ensures ParseName(s, i, false, before) == Name(|s| - |rest|, before + name)
    decreases |name|
  {
    if name == [] {
      assert s[i..] == rest && before + name == before;
      if i < |s| { assert s[i] == s[i..][0]; }
    } else {
      var front := if name[0] == TILDE then [TILDE, ZERO] else if name[0] == SLASH then [TILDE, ONE] else [name[0]];
      assert Escape(name) + rest == front + (Escape(name[1..]) + rest);
      Behind(s, i, front, Escape(name[1..]) + rest);
      assert s[i] == front[0] && (|front| > 1 ==> s[i + 1] == front[1]);
      assert StepAt(s, i, false) == Emit(i + |front|, [name[0]]);
      assert before + [name[0]] + name[1..] == before + name;
      ParseEscaped(s, i + |front|, name[1..], rest, before + [name[0]]);
    }
  }

  lemma FirstPrinted(s: Text, i: nat, name: Text, rest: Text)
    requires i <= |s| && s[i..] == [SLASH] + Escape(name) + rest && (rest == [] || rest[0] == SLASH)
    ensures i < |s| && s[i] == SLASH && |s| - |rest| > i && s[|s| - |rest|..] == rest
    ensures ParseName(s, i + 1, false, []) == Name(|s| - |rest|, name)
  {
    assert [SLASH] + Escape(name) + rest == [SLASH] + (Escape(name) + rest);
    Behind(s, i, [SLASH], Escape(name) + rest);
    assert s[i + 0] == SLASH;
    ParseEscaped(s, i + 1, name, rest, []);
    Behind(s, i + 1, Escape(name), rest);
    assert [] + name == name;
    hide Escape, ParseName;
  }

  lemma {:induction false} ParsePrinted(s: Text, i: nat, names: seq<Text>)
    requires i <= |s| && s[i..] == Print(names)
    ensures (i < |s| ==> s[i] == SLASH) && ParseTokens(s, i, false) == Tokens(names)
    decreases |names|
  {
    if names == [] {
      assert i == |s|;
    } else {
      hide Escape, ParseName;
      var rest := Print(names[1..]);
      FirstPrinted(s, i, names[0], rest);
      HeadTail(names);
      ParsePrinted(s, |s| - |rest|, names[1..]);
    }
  }

  /** Section 4 of RFC 6901 undoes section 3: what is printed is parsed back to the same names. */
  lemma PrintParses(names: seq<Text>)
    ensures Parse(Print(names)) == Tokens(names)
  {
    var s := Print(names);
    assert s[0..] == s;
    ParsePrinted(s, 0, names);
    hide ParseTokens;
    if s != [] { assert s[0] == SLASH; }
  }

  lemma {:induction false} NameIsEscaped(s: Text, i: nat, before: Text)
    requires i <= |s| && ParseName(s, i, false, before).Name?
    ensures var r := ParseName(s, i, false, before);
            before <= r.name && i <= r.next <= |s| && s[i..r.next] == Escape(r.name[|before|..])
    decreases |s| - i
  {
    if i == |s| || s[i] == SLASH {
      assert s[i..i] == [] && before[|before|..] == [];
    } else {
      StepMoves(s, i, false);
      var step, r := StepAt(s, i, false), ParseName(s, i, false, before);
      assert |step.bytes| == 1;
      NameIsEscaped(s, step.next, before + step.bytes);
      var name := r.name[|before|..];
      assert r.name[|before + step.bytes|..] == name[1..] && name[0] == step.bytes[0];
      assert s[i..r.next] == s[i..step.next] + s[step.next..r.next];
      assert s[i..step.next] == if name[0] == TILDE then [TILDE, ZERO] else if name[0] == SLASH then [TILDE, ONE] else [name[0]];
    }
  }

  lemma {:induction false} TokensArePrinted(s: Text, i: nat)
    requires i <= |s| && (i < |s| ==> s[i] == SLASH) && ParseTokens(s, i, false).Tokens?
    ensures s[i..] == Print(ParseTokens(s, i, false).names)
    decreases |s| - i
  {
    if i < |s| {
      var r := ParseName(s, i + 1, false, []);
      NameMoves(s, i + 1, false, []);
      NameIsEscaped(s, i + 1, []);
      assert r.name[0..] == r.name;
      TokensArePrinted(s, r.next);
      hide ParseName, Escape;
      var names := ParseTokens(s, i, false).names;
      assert names[0] == r.name && names[1..] == ParseTokens(s, r.next, false).names;
      assert s[i..] == [SLASH] + s[i + 1..r.next] + s[r.next..];
    }
  }

  /** A plain pointer that parses is the printing of its names, so a text is accepted exactly when
      it is the printing of some names. */
  lemma ParsedPrintsBack(s: Text)
    requires s == [] || s[0] != HASH
    ensures Parse(s).Tokens? ==> Print(Parse(s).names) == s
    ensures Parse(s).Tokens? <==> exists names :: Print(names) == s
  {
    if Parse(s).Tokens? {
      TokensArePrinted(s, 0);
      assert s[0..] == s;
    }
    if names :| Print(names) == s { PrintParses(names); }
  }

  // ------------------------------------------------------------ URI fragments

  lemma HexRoundTrip(c: bv8)
    ensures IsHex(HighDigit(c)) && IsHex(LowDigit(c)) && Joined(HighDigit(c), LowDigit(c)) == c
  {}

  lemma TripletOfPercentOne(s: Text, i: nat, c: bv8, rest: Text)
    requires i <= |s| && s[i..] == PercentOne(c) + rest
    ensures HasTriplet(s, i) && Triplet(s, i) == c && s[i + 3..] == rest
  {
    HexRoundTrip(c);
    hide HighDigit, LowDigit, Joined, IsHex;
    Behind(s, i, PercentOne(c), rest);
    assert s[i + 0] == PERCENT && s[i + 1] == HighDigit(c) && s[i + 2] == LowDigit(c);
  }

  lemma {:induction false} OctetsOfPercentAll(s: Text, i: nat, octets: seq<bv8>, rest: Text)
    requires i <= |s| && s[i..] == PercentAll(octets) + rest
    ensures |PercentAll(octets)| == 3 * |octets| && i + 3 * |octets| <= |s|
    ensures octets <= Octets(s, i)
    decreases |octets|
  {
    if octets != [] {
      assert PercentAll(octets) + rest == PercentOne(octets[0]) + (PercentAll(octets[1..]) + rest);
      TripletOfPercentOne(s, i, octets[0], PercentAll(octets[1..]) + rest);
      OctetsOfPercentAll(s, i + 3, octets[1..], rest);
      assert octets == [octets[0]] + octets[1..];
      hide PercentOne, Triplet, HasTriplet;
    }
  }

  function FragmentFront(name: Text): Text
    requires name != []
  {
    if name[0] == TILDE then [TILDE, ZERO] else if name[0] == SLASH then [TILDE, ONE]
    else if NeedPercentEncode(name[0]) then PercentAll(name[..Utf8.CharLen(name)]) else [name[0]]
  }

  lemma PercentStep(s: Text, i: nat, code: seq<bv8>, rest: Text)
    requires i < |s| && Utf8.IsChar(code) && code[0] != TILDE && s[i..] == PercentAll(code) + rest
    ensures s[i] != SLASH && StepAt(s, i, true) == Emit(i + |PercentAll(code)|, code)
  {
    OctetsOfPercentAll(s, i, code, rest);
    PercentFirst(code);
    Behind(s, i, PercentAll(code), rest);
    assert s[i + 0] == PERCENT;
    var octets := Octets(s, i);
    assert octets[..|code|] == code;
    Utf8.PrefixFree(octets, |code|);
    hide Octets, PercentAll, Utf8.CharLen, Utf8.IsChar;
  }

  lemma PlainStep(s: Text, i: nat, name: Text, rest: Text)
    requires i < |s| && name != [] && (name[0] == TILDE || name[0] == SLASH || !NeedPercentEncode(name[0]))
    requires s[i..] == FragmentFront(name) + rest
    ensures s[i] != SLASH && StepAt(s, i, true) == Emit(i + |FragmentFront(name)|, [name[0]])
  {
    var front := FragmentFront(name);
    assert |front| == if name[0] == TILDE || name[0] == SLASH then 2 else 1;
    Behind(s, i, front, rest);
    assert s[i + 0] == front[0] && (|front| > 1 ==> s[i + 1] == front[1]);
    hide Octets, PercentAll, Utf8.CharLen;
  }

  lemma FragmentStep(s: Text, i: nat, name: Text, rest: Text)
    requires i < |s| && name != [] && Utf8.CharLen(name) > 0 && s[i..] == FragmentFront(name) + rest
    ensures s[i] != SLASH && StepAt(s, i, true) == Emit(i + |FragmentFront(name)|, name[..Utf8.CharLen(name)])
  {
    var n := Utf8.CharLen(name);
    assert name[..n][0] == name[0];
    if name[0] != TILDE && name[0] != SLASH && NeedPercentEncode(name[0]) {
      PercentStep(s, i, name[..n], rest);
    } else {
      PlainStep(s, i, name, rest);
      UnreservedIsOne(name);
    }
    hide StepAt, Utf8.CharLen, PercentAll;
  }

  lemma UnreservedIsOne(name: Text)
    requires name != [] && (name[0] == TILDE || name[0] == SLASH || !NeedPercentEncode(name[0]))
    ensures Utf8.CharLen(name) == 1 && name[..1] == [name[0]]
  {
    assert name[..1][0] == name[0];
  }

  lemma PercentFirst(octets: seq<bv8>)
    requires octets != []
    ensures PercentAll(octets) != [] && PercentAll(octets)[0] == PERCENT
  {}

  lemma ParseNameStep(s: Text, i: nat, fragment: bool, before: Text)
    requires i < |s| && s[i] != SLASH && StepAt(s, i, fragment).Emit?
    ensures var step := StepAt(s, i, fragment);
            step.next <= |s| && ParseName(s, i, fragment, before) == ParseName(s, step.next, fragment, before + step.bytes)
  {
    StepMoves(s, i, fragment);
    hide StepAt;
  }

  lemma EscapeFragmentFront(name: Text)
    requires name != [] && Utf8.IsText(name)
    ensures var n := Utf8.CharLen(name);
            0 < n <= |name| && Utf8.IsText(name[n..]) && EscapeFragment(name) == FragmentFront(name) + EscapeFragment(name[n..])
  {
    hide Utf8.CharLen;
  }

  lemma FragmentSplit(s: Text, i: nat, name: Text, rest: Text)
    requires i <= |s| && name != [] && Utf8.IsText(name) && s[i..] == EscapeFragment(name) + rest
    ensures var n, next := Utf8.CharLen(name), i + |FragmentFront(name)|;
            && 0 < n <= |name| && Utf8.IsText(name[n..]) && i < next <= |s| && s[i] != SLASH && StepAt(s, i, true) == Emit(next, name[..n])
            && s[next..] == EscapeFragment(name[n..]) + rest
  {
    hide StepAt, EscapeFragment, FragmentFront, Utf8.CharLen, Utf8.IsText;
    EscapeFragmentFront(name);
    var front, later := FragmentFront(name), EscapeFragment(name[Utf8.CharLen(name)..]);
    assert (front + later) + rest == front + (later + rest);
    FrontIsSomething(name);
    Behind(s, i, front, later + rest);
    FragmentStep(s, i, name, later + rest);
  }

  lemma ParseFragmentEnd(s: Text, i: nat, rest: Text, before: Text)
    requires i <= |s| && s[i..] == EscapeFragment([]) + rest && (rest == [] || rest[0] == SLASH)
    ensures ParseName(s, i, true, before) == Name(|s| - |rest|, before + [])
  {
    NoMore(s, i, rest, before);
    hide StepAt, Utf8.CharLen;
  }

  lemma {:induction false} ParseFragmentName(s: Text, i: nat, name: Text, rest: Text, before: Text)
    requires i <= |s| && Utf8.IsText(name) && s[i..] == EscapeFragment(name) + rest && (rest == [] || rest[0] == SLASH)
    ensures ParseName(s, i, true, before) == Name(|s| - |rest|, before + name)
    decreases |name|
  {
    hide *;
    if name == [] {
      ParseFragmentEnd(s, i, rest, before);
    } else {
      FragmentSplit(s, i, name, rest);
      ParseNameStep(s, i, true, before);
      var n, next := Utf8.CharLen(name), i + |FragmentFront(name)|;
      ParseFragmentName(s, next, name[n..], rest, before + name[..n]);
      Rejoin(before, name, n);
    }
  }

  lemma FrontIsSomething(name: Text)
    requires name != [] && Utf8.CharLen(name) > 0
    ensures |FragmentFront(name)| > 0
  {
    PercentFirst(name[..Utf8.CharLen(name)]);
    hide PercentAll, Utf8.CharLen;
  }

  lemma FirstPrintedFragment(s: Text, i: nat, name: Text, rest: Text)
    requires Utf8.IsText(name) && i <= |s| && s[i..] == [SLASH] + EscapeFragment(name) + rest && (rest == [] || rest[0] == SLASH)
    ensures i < |s| && s[i] == SLASH && |s| - |rest| > i && s[|s| - |rest|..] == rest
    ensures ParseName(s, i + 1, true, []) == Name(|s| - |rest|, name)
  {
    assert [SLASH] + EscapeFragment(name) + rest == [SLASH] + (EscapeFragment(name) + rest);
    Behind(s, i, [SLASH], EscapeFragment(name) + rest);
    assert s[i + 0] == SLASH;
    ParseFragmentName(s, i + 1, name, rest, []);
    Behind(s, i + 1, EscapeFragment(name), rest);
    assert [] + name == name;
    hide EscapeFragment, ParseName;
  }

  lemma {:induction false} ParsePrintedTokens(s: Text, i: nat, names: seq<Text>)
    requires i <= |s| && AllTexts(names) && s[i..] == PrintTokens(names)
    ensures (i < |s| ==> s[i] == SLASH) && ParseTokens(s, i, true) == Tokens(names)
    decreases |names|
  {
    if names == [] {
      assert i == |s|;
    } else {
      hide EscapeFragment, ParseName, Utf8.IsText;
      var rest := PrintTokens(names[1..]);
      FirstPrintedFragment(s, i, names[0], rest);
      HeadTail(names);
      ParsePrintedTokens(s, |s| - |rest|, names[1..]);
    }
  }

  /** Section 6 of RFC 6901: names that are UTF-8 texts survive the URI fragment form. */
  lemma FragmentParses(names: seq<Text>)
    requires AllTexts(names)
    ensures Parse(PrintFragment(names)) == Tokens(names)
  {
    var s := PrintFragment(names);
    assert s[1..] == PrintTokens(names) && s[0] == HASH;
    ParsePrintedTokens(s, 1, names);
    hide ParseTokens, AllTexts;
  }

  lemma EmittedIsText(s: Text, i: nat)
    requires i < |s| && StepAt(s, i, true).Emit?
    ensures Utf8.IsChar(StepAt(s, i, true).bytes)
  {
    if s[i] == PERCENT {
      var octets := Octets(s, i);
      assert octets[..1][0] == octets[0];
      hide Octets;
    }
  }

  lemma {:induction false} FragmentNameIsText(s: Text, i: nat, before: Text)
    requires i <= |s| && Utf8.IsText(before) && ParseName(s, i, true, before).Name?
    ensures Utf8.IsText(ParseName(s, i, true, before).name)
    decreases |s| - i
  {
    if i < |s| && s[i] != SLASH {
      StepMoves(s, i, true);
      EmittedIsText(s, i);
      Utf8.TextWithChar(before, StepAt(s, i, true).bytes);
      hide StepAt, Utf8.IsChar, Utf8.IsText;
      FragmentNameIsText(s, StepAt(s, i, true).next, before + StepAt(s, i, true).bytes);
    }
  }

  lemma {:induction false} FragmentNamesAreTexts(s: Text, i: nat)
    requires i <= |s| && (i < |s| ==> s[i] == SLASH) && ParseTokens(s, i, true).Tokens?
    ensures AllTexts(ParseTokens(s, i, true).names)
    decreases |s| - i
  {
    if i < |s| {
      NameMoves(s, i + 1, true, []);
      FragmentNameIsText(s, i + 1, []);
      FragmentNamesAreTexts(s, ParseName(s, i + 1, true, []).next);
      hide ParseName, Utf8.IsText;
    }
  }

  /** What a URI fragment parses to can be printed again, and then parses to the same names: the
      printing is the canonical form of the fragment. */
  lemma FragmentIsCanonical(s: Text)
    requires s != [] && s[0] == HASH && Parse(s).Tokens?
    ensures AllTexts(Parse(s).names) && Parse(PrintFragment(Parse(s).names)) == Parse(s)
  {
    FragmentNamesAreTexts(s, 1);
    FragmentParses(Parse(s).names);
    hide ParseTokens, PrintFragment, AllTexts;
  }

  // ------------------------------------------------------------ what Parse allocates

  function CountSlashes(s: Text): nat {
    if s == [] then 0 else (if s[0] == SLASH then 1 else 0) + CountSlashes(s[1..])
  }

  lemma {:induction false} CountConcat(a: Text, b: Text)
    ensures CountSlashes(a + b) == CountSlashes(a) + CountSlashes(b)
  {
    if a == [] { assert a + b == b; } else {
      assert (a + b)[0] == a[0] && (a + b)[1..] == a[1..] + b;
      CountConcat(a[1..], b);
    }
  }

  lemma {:induction false} CountNone(s: Text)
    requires forall k :: 0 <= k < |s| ==> s[k] != SLASH
    ensures CountSlashes(s) == 0
  {
    if s != [] { CountNone(s[1..]); }
  }

  lemma {:induction false} TripletsHoldNoSlash(s: Text, i: nat, n: nat)
    requires i <= |s| && n <= |Octets(s, i)|
    ensures i + 3 * n <= |s| && forall k :: i <= k < i + 3 * n ==> s[k] != SLASH
    decreases n
  {
    if n > 0 {
      TripletsHoldNoSlash(s, i + 3, n - 1);
      assert s[i] != SLASH && s[i + 1] != SLASH && s[i + 2] != SLASH;
      hide Triplet;
    }
  }

  lemma StepHoldsNoSlash(s: Text, i: nat, fragment: bool)
    requires i < |s| && s[i] != SLASH && StepAt(s, i, fragment).Emit?
    ensures i < StepAt(s, i, fragment).next <= |s| && forall k :: i <= k < StepAt(s, i, fragment).next ==> s[k] != SLASH
  {
    if fragment && s[i] == PERCENT { TripletsHoldNoSlash(s, i, Utf8.CharLen(Octets(s, i))); }
    hide Octets, Utf8.CharLen;
  }

  lemma {:induction false} NameHoldsNoSlash(s: Text, i: nat, fragment: bool, before: Text)
    requires i <= |s| && ParseName(s, i, fragment, before).Name?
    ensures i <= ParseName(s, i, fragment, before).next <= |s|
    ensures forall k :: i <= k < ParseName(s, i, fragment, before).next ==> s[k] != SLASH
    decreases |s| - i
  {
    if i < |s| && s[i] != SLASH {
      StepHoldsNoSlash(s, i, fragment);
      StepMoves(s, i, fragment);
      var step := StepAt(s, i, fragment);
      hide StepAt;
      NameHoldsNoSlash(s, step.next, fragment, before + step.bytes);
    }
  }

  function TotalLength(names: seq<Text>): nat {
    if names == [] then 0 else |names[0]| + 1 + TotalLength(names[1..])
  }

  lemma OneSlash(s: Text, i: nat, next: nat)
    requires i < next <= |s| && s[i] == SLASH && forall k :: i < k < next ==> s[k] != SLASH
    ensures CountSlashes(s[i..]) == 1 + CountSlashes(s[next..])
  {
    assert s[i..][1..] == s[i + 1..next] + s[next..];
    CountConcat(s[i + 1..next], s[next..]);
    CountNone(s[i + 1..next]);
  }

  /** A pointer that parses has exactly as many tokens as there are slashes, and its names with
      their terminators fit into a buffer of the length of the source. */
  lemma {:induction false} TokensFit(s: Text, i: nat, fragment: bool)
    requires i <= |s| && (i < |s| ==> s[i] == SLASH) && ParseTokens(s, i, fragment).Tokens?
    ensures var names := ParseTokens(s, i, fragment).names; |names| == CountSlashes(s[i..]) && TotalLength(names) <= |s| - i
    decreases |s| - i
  {
    if i < |s| {
      var r := ParseName(s, i + 1, fragment, []);
      NameMoves(s, i + 1, fragment, []);
      NameHoldsNoSlash(s, i + 1, fragment, []);
      hide ParseName;
      TokensFit(s, r.next, fragment);
      var later := ParseTokens(s, r.next, fragment).names;
      assert ParseTokens(s, i, fragment).names == [r.name] + later && ([r.name] + later)[1..] == later;
      hide CountSlashes;
      OneSlash(s, i, r.next);
    }
  }

  lemma ParsedFits(s: Text)
    requires Parse(s).Tokens?
    ensures |Parse(s).names| == CountSlashes(s) && TotalLength(Parse(s).names) <= |s|
  {
    var i := if |s| > 0 && s[0] == HASH then 1 else 0;
    TokensFit(s, i, i == 1);
    if i == 1 { assert CountSlashes(s) == CountSlashes(s[1..]); } else { assert s[0..] == s; }
    hide ParseTokens;
  }
}
