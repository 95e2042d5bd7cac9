/** The loops of Parse and Stringify (eabase/rapidjson/pointer.h) on their buffers, against the
    functions of module JsonPointer. */
module JsonPointerParser {
  import opened HexDigits
  import opened JsonPointer
  import opened JsonTree
  import Utf8

  // ------------------------------------------------------------ percent decoding

  class PercentDecodeStream {
    const source: Text
    const head: nat
    var pos: nat
    var valid: bool

    /** While it is valid the stream stands behind the first m triplets. */
    ghost predicate Taken(m: nat)
      reads this
    {
      head < |source| && (valid ==> m <= |Octets(source, head)| && pos == head + 3 * m) && pos <= |source|
    }

    constructor (source: Text, start: nat)
      requires start < |source|
      ensures this.source == source && head == start && valid && Taken(0)
    {
      this.source, head, pos, valid := source, start, start, true;
    }

    /** The next octet; 0 after the first thing that is no triplet. */
    method Take(ghost m: nat) returns (c: bv8)
      requires Taken(m)
      modifies this`pos, this`valid
      ensures Taken(m + 1) && (valid <==> old(valid) && m < |Octets(source, head)|)
      ensures valid ==> c == Octets(source, head)[m]
    {
      ghost var start := pos;
      if valid { OctetAt(source, head, m); }
      hide Octets, Triplet, Joined, HexValue;
      if !(pos < |source| && source[pos] == PERCENT) || pos + 3 > |source| {
        valid := false;
        return 0;
      }
      pos := pos + 1;
      c := 0;
      for j := 0 to 2
        invariant valid == old(valid) && pos == start + 1 + j && start + 3 <= |source| && source[start] == PERCENT
        invariant (j >= 1 ==> IsHex(source[start + 1])) && (j >= 2 ==> IsHex(source[start + 2]))
        invariant c == if j == 0 then 0 else if j == 1 then HexValue(source[start + 1]) else Joined(source[start + 1], source[start + 2])
      {
        if j == 0 { assert c << 4 == 0; } else { JoinedIs(source[start + 1], source[start + 2]); }
        c := c << 4;
        var h := source[pos];
        if !IsHex(h) {
          valid := false;
          return 0;
        }
        c := c + HexValue(h);
        pos := pos + 1;
      }
    }
  }

  lemma JoinedIs(high: bv8, low: bv8)
    ensures Joined(high, low) == (HexValue(high) << 4) + HexValue(low)
  {}

  lemma {:induction false} OctetAt(s: Text, i: nat, m: nat)
    requires m <= |Octets(s, i)|
    ensures m < |Octets(s, i)| <==> HasTriplet(s, i + 3 * m)
    ensures m < |Octets(s, i)| ==> Octets(s, i)[m] == Triplet(s, i + 3 * m)
    decreases m
  {
    if m > 0 {
      OctetAt(s, i + 3, m - 1);
    }
  }

  /** One tail octet of UTF8::Validate from the percent stream into the name buffer. */
  method TailInto(input: PercentDecodeStream, buffer: array<bv8>, at: nat, ok: bool, mask: bv8, ghost m: nat) returns (r: bool)
    requires input.Taken(m) && at < buffer.Length
    modifies input`pos, input`valid, buffer
    ensures input.Taken(m + 1) && (input.valid <==> old(input.valid) && m < |Octets(input.source, input.head)|)
    ensures forall k :: 0 <= k < buffer.Length && k != at ==> buffer[k] == old(buffer[k])
    ensures input.valid ==>
              buffer[at] == Octets(input.source, input.head)[m] && (r <==> ok && Utf8.Trans(Octets(input.source, input.head)[m], mask))
  {
    hide Octets, Utf8.Trans;
    var c := input.Take(m);
    buffer[at] := c;
    r := ok && Utf8.Trans(c, mask);
  }

  /** What the switch of Validate does with the octets of the stream as long as they are there. */
  ghost predicate Copied(input: PercentDecodeStream, buffer: array<bv8>, at: nat, n: nat)
    reads input, buffer
  {
    var octets := Octets(input.source, input.head);
    && input.Taken(n) && (input.valid <==> n <= |octets|)
    && at + n <= buffer.Length && (input.valid ==> buffer[at..at + n] == octets[..n])
  }

  method TailStep(input: PercentDecodeStream, buffer: array<bv8>, at: nat, ok: bool, mask: bv8, m: nat) returns (r: bool)
    requires Copied(input, buffer, at, m) && at + m < buffer.Length
    modifies input`pos, input`valid, buffer
    ensures Copied(input, buffer, at, m + 1)
    ensures forall k :: 0 <= k < at ==> buffer[k] == old(buffer[k])
    ensures input.valid ==> (r <==> ok && Utf8.Trans(Utf8.Octet(Octets(input.source, input.head), m), mask))
  {
    hide Octets, Utf8.Trans;
    ghost var was := buffer[at..at + m];
    r := TailInto(input, buffer, at + m, ok, mask, m);
    assert buffer[at..at + m] == was && buffer[at..at + m + 1] == was + [buffer[at + m]];
  }

  /** What has to hold of the octets for the switch to accept a character of n octets. */
  ghost predicate Accepts(octets: seq<bv8>, n: nat, ok: bool)
    requires octets != []
  {
    (ok && n <= |octets| <==> Utf8.DecodeTail(octets).0) && (ok && n <= |octets| ==> n == Utf8.DecodeTail(octets).2)
  }

  /** Validate on the percent stream: the octets of one character go into the name buffer from
      `at` on. It succeeds, with all triplets well formed, exactly when they start with a
      character. */
  method ValidateInto(source: Text, i: nat, buffer: array<bv8>, at: nat) returns (good: bool, n: nat)
    requires i < |source| == buffer.Length && at + 2 <= i
    modifies buffer
    ensures forall k :: 0 <= k < at ==> buffer[k] == old(buffer[k])
    ensures good <==> Utf8.CharLen(Octets(source, i)) > 0
    ensures good ==> n == Utf8.CharLen(Octets(source, i)) && at + n <= buffer.Length && buffer[at..at + n] == Octets(source, i)[..n]
  {
    var input := new PercentDecodeStream(source, i);
    ghost var octets := Octets(source, i);
    assert buffer[at..at] == [];
    var ok := TailStep(input, buffer, at, true, 0, 0);
    var c := buffer[at];
    if octets != [] { Utf8.CharLenByOctets(octets); }
    if !input.valid {
      return false, 1;
    }
    assert c == octets[0] && buffer[at..at + 1] == octets[..1];
    hide Octets, Utf8.Two, Utf8.Three, Utf8.Four;
    if c & 0x80 == 0 {
      assert c <= 0x7F;
      return true, 1;
    }
    Utf8.DecodeTailIsGrammar(octets);
    hide Utf8.DecodeTail, Utf8.CharLen;
    ok, n := ValidateTail(input, buffer, at, c);
    good := ok && input.valid;
  }

  lemma CopiedSays(input: PercentDecodeStream, buffer: array<bv8>, at: nat, n: nat)
    requires Copied(input, buffer, at, n)
    ensures input.valid <==> n <= |Octets(input.source, input.head)|
  {}

  /** The 0 behind the octets is accepted by no transition. */
  lemma TailsAreOctets(octets: seq<bv8>)
    requires octets != []
    ensures Utf8.DecodeTail(octets).0 ==> Utf8.DecodeTail(octets).2 <= |octets|
  {
    assert !Utf8.Trans(0, 0x70) && !Utf8.Trans(0, 0x50) && !Utf8.Trans(0, 0x10) && !Utf8.Trans(0, 0x20) && !Utf8.Trans(0, 0x60);
    hide Utf8.Trans, Utf8.Shifted, Utf8.LeadBits, Utf8.GetRange;
  }

  method ValidateTail(input: PercentDecodeStream, buffer: array<bv8>, at: nat, c: bv8) returns (ok: bool, n: nat)
    requires Copied(input, buffer, at, 1) && input.valid && at + 4 <= buffer.Length
    requires Octets(input.source, input.head) != [] && c == Octets(input.source, input.head)[0] && c >= 0x80
    modifies input`pos, input`valid, buffer
    ensures forall k :: 0 <= k < at ==> buffer[k] == old(buffer[k])
    ensures 1 <= n <= 4 && Copied(input, buffer, at, n) && Accepts(Octets(input.source, input.head), n, ok)
  {
    var kind := Utf8.GetRange(c);
    ghost var octets := Octets(input.source, input.head);
    TailsAreOctets(octets);
    assert c == Utf8.Octet(octets, 0);
    hide Octets, Utf8.Octet, Utf8.Trans, Utf8.GetRange, Utf8.Shifted, Utf8.LeadBits, Copied;
    ok := true;
    if kind == 2 {
      ok := TailStep(input, buffer, at, ok, 0x70, 1);
      n := 2;
    } else if kind == 3 {
      ok := TailStep(input, buffer, at, ok, 0x70, 1);
      ok := TailStep(input, buffer, at, ok, 0x70, 2);
      n := 3;
    } else if kind == 4 {
      ok := TailStep(input, buffer, at, ok, 0x50, 1);
      ok := TailStep(input, buffer, at, ok, 0x70, 2);
      n := 3;
    } else if kind == 5 {
      ok := TailStep(input, buffer, at, ok, 0x10, 1);
      ok := TailStep(input, buffer, at, ok, 0x70, 2);
      ok := TailStep(input, buffer, at, ok, 0x70, 3);
      n := 4;
    } else if kind == 6 {
      ok := TailStep(input, buffer, at, ok, 0x70, 1);
      ok := TailStep(input, buffer, at, ok, 0x70, 2);
      ok := TailStep(input, buffer, at, ok, 0x70, 3);
      n := 4;
    } else if kind == 10 {
      ok := TailStep(input, buffer, at, ok, 0x20, 1);
      ok := TailStep(input, buffer, at, ok, 0x70, 2);
      n := 3;
    } else if kind == 11 {
      ok := TailStep(input, buffer, at, ok, 0x60, 1);
      ok := TailStep(input, buffer, at, ok, 0x70, 2);
      ok := TailStep(input, buffer, at, ok, 0x70, 3);
      n := 4;
    } else {
      ok, n := false, 1;
    }
    CopiedSays(input, buffer, at, n);
  }

  // ------------------------------------------------------------ Parse

  datatype Progress = Going | Stopped(code: Error)

  /** One round of the inner loop: `at` is the end of the names written so far. */
  method ParseStep(source: Text, i: nat, fragment: bool, buffer: array<bv8>, at: nat) returns (p: Progress, next: nat, end: nat)
    requires i < |source| == buffer.Length && at + (if fragment then 2 else 1) <= i
    modifies buffer
    ensures forall k :: 0 <= k < at ==> buffer[k] == old(buffer[k])
    ensures var step := StepAt(source, i, fragment);
            && (step.Emit? ==> p == Going && next == step.next && end == at + |step.bytes| <= buffer.Length && buffer[at..end] == step.bytes)
            && (step.Bad? ==> p == Stopped(step.code) && next == step.at)
  {
    next, end := i, at;
    var c := source[i];
    StepMovesIf(source, i, fragment);
    hide Octets, Utf8.CharLen;
    if fragment {
      if c == PERCENT {
        var good, n := ValidateInto(source, i, buffer, at);
        if !good {
          return Stopped(InvalidPercentEncoding), i, at;
        }
        next := i + 3 * n - 1;
        if n != 1 {
          return Going, next + 1, at + n;
        }
        c := buffer[at];
        assert buffer[at..at + 1] == [c];
      } else if NeedPercentEncode(c) {
        return Stopped(CharacterMustPercentEncode), i, at;
      }
    }
    next := next + 1;
    if c == TILDE {
      if next < |source| {
        c := source[next];
        if c == ZERO {
          c := TILDE;
        } else if c == ONE {
          c := SLASH;
        } else {
          return Stopped(InvalidEscape), next, at;
        }
        next := next + 1;
      } else {
        return Stopped(InvalidEscape), next, at;
      }
    }
    buffer[at] := c;
    end := at + 1;
    p := Going;
    assert buffer[at..end] == [c];
  }

  lemma StepMovesIf(s: Text, i: nat, fragment: bool)
    requires i < |s|
    ensures StepAt(s, i, fragment).Emit? ==> i < StepAt(s, i, fragment).next <= |s| && 0 < |StepAt(s, i, fragment).bytes| <= StepAt(s, i, fragment).next - i
  {
    if StepAt(s, i, fragment).Emit? { StepMoves(s, i, fragment); }
  }

  predicate AllDigits(name: Text) {
    forall k :: 0 <= k < |name| ==> IsDigit(name[k])
  }

  lemma DigitsOf(a: Text, b: Text)
    ensures AllDigits(a + b) <==> AllDigits(a) && AllDigits(b)
  {
    hide IsDigit;
    if AllDigits(a + b) {
      forall k | 0 <= k < |a| ensures IsDigit(a[k]) { assert (a + b)[k] == a[k]; }
      forall k | 0 <= k < |b| ensures IsDigit(b[k]) { assert (a + b)[|a| + k] == b[k]; }
    }
  }

  lemma Joins<T>(b: seq<T>, at: nat, last: nat, end: nat, before: seq<T>)
    requires at <= last <= end <= |b| && |before| == last - at && forall k :: 0 <= k < |before| ==> b[at + k] == before[k]
    ensures b[at..end] == before + b[last..end]
  {
    assert b[at..end] == b[at..last] + b[last..end];
    assert b[at..last] == before;
  }

  /** A character of several octets has no digit. */
  lemma StepDigits(s: Text, i: nat, fragment: bool)
    requires i < |s| && StepAt(s, i, fragment).Emit?
    ensures var bytes := StepAt(s, i, fragment).bytes; |bytes| > 0 && (AllDigits(bytes) <==> |bytes| == 1 && IsDigit(bytes[0]))
  {
    if fragment { EmittedIsText(s, i); }
    hide Octets, Utf8.CharLen;
  }

  /** The name of one token, from behind its slash. */
  method ParseToken(source: Text, start: nat, fragment: bool, buffer: array<bv8>, at: nat) returns (p: Progress, i: nat, end: nat, isNumber: bool)
    requires start <= |source| == buffer.Length && at + (if fragment then 2 else 1) <= start
    modifies buffer
    ensures forall k :: 0 <= k < at ==> buffer[k] == old(buffer[k])
    ensures var r := ParseName(source, start, fragment, []);
            && (r.Name? ==>
                  && p == Going && i == r.next <= |source| && end == at + |r.name| && end + (if fragment then 2 else 1) <= i
                  && buffer[at..end] == r.name && (isNumber <==> AllDigits(r.name)))
            && (r.NameError? ==> p == Stopped(r.code) && i == r.at)
  {
    i, end, isNumber, p := start, at, true, Going;
    assert buffer[at..end] == [];
    while i < |source| && source[i] != SLASH
      invariant start <= i <= |source| && at <= end && end + (if fragment then 2 else 1) <= i
      invariant forall k :: 0 <= k < at ==> buffer[k] == old(buffer[k])
      invariant ParseName(source, start, fragment, []) == ParseName(source, i, fragment, buffer[at..end])
      invariant isNumber <==> AllDigits(buffer[at..end])
      invariant p == Going
      decreases |source| - i
    {
      ghost var before := buffer[at..end];
      StepMovesIf(source, i, fragment);
      if StepAt(source, i, fragment).Emit? {
        ParseNameStep(source, i, fragment, before);
        StepDigits(source, i, fragment);
      }
      ghost var i0 := i;
      hide StepAt, ParseName, AllDigits, IsDigit;
      var last := end;
      p, i, end := ParseStep(source, i, fragment, buffer, end);
      if p.Stopped? {
        ParseNameStops(source, i0, fragment, before);
        return;
      }
      assert forall k :: 0 <= k < |before| ==> buffer[at + k] == before[k];
      Joins(buffer[..], at, last, end, before);
      DigitsOf(before, buffer[last..end]);
      if end - last != 1 || !IsDigit(buffer[last]) {
        isNumber := false;
      }
    }
  }

  lemma ParseNameStops(s: Text, i: nat, fragment: bool, before: Text)
    requires i < |s| && s[i] != SLASH && StepAt(s, i, fragment).Bad?
    ensures ParseName(s, i, fragment, before) == NameError(StepAt(s, i, fragment).code, StepAt(s, i, fragment).at)
  {
    hide StepAt;
  }

  // ------------------------------------------------------------ the index of a token

  function Decimal(name: Text): nat
    requires AllDigits(name)
  {
    if name == [] then 0 else Decimal(name[..|name| - 1]) * 10 + (name[|name| - 1] - 0x30) as nat
  }

  /** Section 4 of RFC 6901: digits without a leading zero. */
  function IndexOf(name: Text): Index {
    if name != [] && AllDigits(name) && (|name| == 1 || name[0] != ZERO) then At(Decimal(name)) else NoIndex
  }

  method ParseIndex(buffer: array<bv8>, at: nat, end: nat, isNumber: bool) returns (index: Index)
    requires at <= end <= buffer.Length && (isNumber <==> AllDigits(buffer[at..end]))
    ensures index == IndexOf(buffer[at..end])
  {
    ghost var name := buffer[at..end];
    if !isNumber || end == at || (end - at > 1 && buffer[at] == ZERO) {
      return NoIndex;
    }
    var n := 0;
    for j := at to end
      invariant AllDigits(buffer[at..j]) && n == Decimal(buffer[at..j])
    {
      assert buffer[at..j + 1] == buffer[at..j] + [buffer[j]] && buffer[at..j + 1] <= name;
      assert name[j - at] == buffer[j];
      n := n * 10 + (buffer[j] - 0x30) as nat;
    }
    index := At(n);
  }

  // ------------------------------------------------------------ the pointer

  /** A token: its name is buffer[name..name + length], followed by a 0. */
  datatype Token = Token(name: nat, length: nat, index: Index)

  /** The token lies below `used` in the buffer and reads as the name. */
  ghost predicate Reads(buffer: seq<bv8>, token: Token, name: Text, used: nat) {
    && token.name + token.length < used <= |buffer| && buffer[token.name..token.name + token.length] == name
    && buffer[token.name + token.length] == 0 && token.index == IndexOf(name)
  }

  ghost predicate AllRead(buffer: seq<bv8>, tokens: seq<Token>, names: seq<Text>, used: nat) {
    |tokens| == |names| && forall k :: 0 <= k < |names| ==> Reads(buffer, tokens[k], names[k], used)
  }

  lemma StillRead(buffer: seq<bv8>, buffer': seq<bv8>, tokens: seq<Token>, names: seq<Text>, used: nat, used': nat)
    requires AllRead(buffer, tokens, names, used) && |buffer'| == |buffer| && used <= used' <= |buffer|
    requires forall k :: 0 <= k < used && k < |buffer| ==> buffer'[k] == buffer[k]
    ensures AllRead(buffer', tokens, names, used')
  {
    forall k | 0 <= k < |names| ensures Reads(buffer', tokens[k], names[k], used') {
      var a, b := tokens[k].name, tokens[k].name + tokens[k].length;
      assert Reads(buffer, tokens[k], names[k], used);
      assert buffer'[a..b] == buffer[a..b];
    }
  }

  function Prepend(names: seq<Text>, r: Result): Result {
    match r
    case Tokens(more) => Tokens(names + more)
    case error => error
  }

  lemma TokenStep(s: Text, i: nat, fragment: bool, names: seq<Text>)
    requires i < |s| && s[i] == SLASH
    ensures var r := ParseName(s, i + 1, fragment, []);
            && (r.NameError? ==> Prepend(names, ParseTokens(s, i, fragment)) == ParseError(r.code, r.at))
            && (r.Name? ==>
                  && i < r.next <= |s| && (r.next < |s| ==> s[r.next] == SLASH) && CountSlashes(s[i..]) == 1 + CountSlashes(s[r.next..])
                  && Prepend(names, ParseTokens(s, i, fragment)) == Prepend(names + [r.name], ParseTokens(s, r.next, fragment)))
  {
    var r := ParseName(s, i + 1, fragment, []);
    if r.Name? {
      NameMoves(s, i + 1, fragment, []);
      NameHoldsNoSlash(s, i + 1, fragment, []);
      OneSlash(s, i, r.next);
      var later := ParseTokens(s, r.next, fragment);
      if later.Tokens? { assert names + ([r.name] + later.names) == names + [r.name] + later.names; }
    }
    hide ParseName, CountSlashes;
  }

  method CountTokens(source: Text) returns (n: nat)
    ensures n == CountSlashes(source)
  {
    n := 0;
    for i := 0 to |source|
      invariant n == CountSlashes(source[..i])
    {
      assert source[..i + 1] == source[..i] + [source[i]];
      CountConcat(source[..i], [source[i]]);
      assert [source[i]][1..] == [];
      if source[i] == SLASH {
        n := n + 1;
      }
    }
    assert source[..|source|] == source;
  }

  /** What follows the name of a token: its terminator, its index and its entry. */
  method FinishToken(buffer: array<bv8>, name: nat, end: nat, isNumber: bool, ghost tokens: seq<Token>, ghost names: seq<Text>) returns (token: Token)
    requires name <= end < buffer.Length && (isNumber <==> AllDigits(buffer[name..end]))
    requires AllRead(buffer[..], tokens, names, name)
    modifies buffer
    ensures AllRead(buffer[..], tokens + [token], names + [old(buffer[name..end])], end + 1)
  {
    ghost var before, text := buffer[..], buffer[name..end];
    var index := ParseIndex(buffer, name, end, isNumber);
    buffer[end] := 0;
    token := Token(name, end - name, index);
    assert buffer[..][name..end] == text;
    hide IndexOf, AllDigits;
    AddRead(before, buffer[..], tokens, names, name, token, text);
  }

  /** Where the outer loop of Parse stands: at a slash or at the end, with the tokens so far in
      the buffer, which has room for what the rest of the source holds. */
  ghost predicate ParsingAt(source: Text, start: nat, fragment: bool, buffer: array<bv8>, i: nat, name: nat, tokens: seq<Token>, names: seq<Text>)
    requires start <= |source| && (start < |source| ==> source[start] == SLASH)
    reads buffer
  {
    && start <= i <= |source| == buffer.Length && (i < |source| ==> source[i] == SLASH)
    && name + (if fragment then 1 else 0) <= i && |tokens| + CountSlashes(source[i..]) == CountSlashes(source[start..])
    && AllRead(buffer[..], tokens, names, name)
    && ParseTokens(source, start, fragment) == Prepend(names, ParseTokens(source, i, fragment))
  }

  method ParseRound(source: Text, start: nat, fragment: bool, buffer: array<bv8>, i: nat, name: nat, tokens: seq<Token>, ghost names: seq<Text>)
    returns (p: Progress, next: nat, used: nat, more: seq<Token>, ghost texts: seq<Text>)
    requires start <= |source| && (start < |source| ==> source[start] == SLASH)
    requires i < |source| && ParsingAt(source, start, fragment, buffer, i, name, tokens, names)
    modifies buffer
    ensures p == Going ==> i < next && ParsingAt(source, start, fragment, buffer, next, used, more, texts)
    ensures p.Stopped? ==> ParseTokens(source, start, fragment) == ParseError(p.code, next)
  {
    TokenStep(source, i, fragment, names);
    hide ParseName, ParseTokens, Prepend, CountSlashes, AllRead, IndexOf, AllDigits;
    var end, isNumber;
    ghost var before := buffer[..];
    p, next, end, isNumber := ParseToken(source, i + 1, fragment, buffer, name);
    used, more, texts := name, tokens, names;
    if p.Going? {
      StillRead(before, buffer[..], tokens, names, name, name);
      texts := names + [buffer[name..end]];
      var token := FinishToken(buffer, name, end, isNumber, tokens, names);
      more := tokens + [token];
      used := end + 1;
    }
  }

  /** The outer loop of Parse, which writes into a buffer of the length of the source. */
  method ParseAll(source: Text, start: nat, fragment: bool, buffer: array<bv8>)
    returns (p: Progress, i: nat, tokens: seq<Token>, ghost used: nat)
    requires start <= |source| == buffer.Length && (start < |source| ==> source[start] == SLASH)
    requires fragment ==> start > 0
    modifies buffer
    ensures var r := ParseTokens(source, start, fragment);
            && (r.Tokens? ==> p == Going && AllRead(buffer[..], tokens, r.names, used) && |tokens| == CountSlashes(source[start..]))
            && (r.ParseError? ==> p == Stopped(r.code) && i == r.at)
  {
    var name := 0;
    ghost var names: seq<Text> := [];
    i, p, tokens, used := start, Going, [], 0;
    assert ParsingAt(source, start, fragment, buffer, i, name, tokens, names);
    hide ParsingAt;
    while i < |source|
      invariant p == Going && ParsingAt(source, start, fragment, buffer, i, name, tokens, names)
      decreases |source| - i
    {
      p, i, name, tokens, names := ParseRound(source, start, fragment, buffer, i, name, tokens, names);
      if p.Stopped? {
        return;
      }
    }
    used := name;
    ParsingEnds(source, start, fragment, buffer, i, name, tokens, names);
  }

  lemma ParsingEnds(source: Text, start: nat, fragment: bool, buffer: array<bv8>, i: nat, name: nat, tokens: seq<Token>, names: seq<Text>)
    requires start <= |source| && (start < |source| ==> source[start] == SLASH)
    requires i >= |source| && ParsingAt(source, start, fragment, buffer, i, name, tokens, names)
    ensures ParseTokens(source, start, fragment) == Tokens(names) && AllRead(buffer[..], tokens, names, name)
    ensures |tokens| == CountSlashes(source[start..])
  {
    assert source[i..] == [] && names + [] == names;
    hide AllRead;
  }

  lemma AddRead(before: seq<bv8>, buffer: seq<bv8>, tokens: seq<Token>, names: seq<Text>, used: nat, token: Token, name: Text)
    requires AllRead(before, tokens, names, used) && |before| == |buffer| && used <= |buffer|
    requires forall k :: 0 <= k < used ==> buffer[k] == before[k]
    requires token.name == used && Reads(buffer, token, name, used + token.length + 1)
    ensures AllRead(buffer, tokens + [token], names + [name], used + token.length + 1)
  {
    StillRead(before, buffer, tokens, names, used, used + token.length + 1);
    hide Reads;
  }

  datatype ErrorCode = NoError | Failed(code: Error)

  lemma SlashesFromStart(source: Text, i: nat)
    requires i <= |source| && (i == 0 || (i == 1 && source[0] != SLASH))
    ensures CountSlashes(source[i..]) == CountSlashes(source)
  {
    if i == 0 { assert source[0..] == source; }
  }

  lemma ParseCases(source: Text)
    ensures var fragment := |source| > 0 && source[0] == HASH; var i := if fragment then 1 else 0;
            && (i != |source| && source[i] != SLASH ==> JsonPointer.Parse(source) == ParseError(TokenMustBeginWithSolidus, i))
            && (i == |source| || source[i] == SLASH ==> JsonPointer.Parse(source) == ParseTokens(source, i, fragment))
            && CountSlashes(source[i..]) == CountSlashes(source)
  {
    SlashesFromStart(source, if |source| > 0 && source[0] == HASH then 1 else 0);
    hide ParseTokens, CountSlashes;
  }

  class GenericPointer {
    var nameBuffer: array<bv8>
    var tokens: seq<Token>
    var tokenCount: nat
    var parseErrorCode: ErrorCode
    var parseErrorOffset: nat

    /** The tokens read as the names, one after the other in the buffer. */
    ghost predicate Holds(names: seq<Text>)
      reads this, nameBuffer
    {
      parseErrorCode.NoError? && tokenCount == |tokens| && exists used :: AllRead(nameBuffer[..], tokens, names, used)
    }

    constructor Parse(source: Text)
      ensures fresh(nameBuffer)
      ensures var r := JsonPointer.Parse(source);
              && (r.Tokens? ==> Holds(r.names) && tokenCount == CountSlashes(source))
              && (r.ParseError? ==> parseErrorCode == Failed(r.code) && parseErrorOffset == r.at && tokenCount == 0)
    {
      var buffer := new bv8[|source|];
      nameBuffer, tokens, tokenCount, parseErrorCode, parseErrorOffset := buffer, [], 0, NoError, 0;
      new;
      ParseCases(source);
      hide JsonPointer.Parse, ParseTokens, AllRead, CountSlashes;
      tokenCount := CountTokens(source);
      var i := 0;
      var fragment := false;
      if |source| > 0 && source[0] == HASH {
        fragment := true;
        i := 1;
      }
      if i != |source| && source[i] != SLASH {
        parseErrorCode, parseErrorOffset, tokenCount := Failed(TokenMustBeginWithSolidus), i, 0;
        return;
      }
      var p, at, parsed;
      ghost var used;
      p, at, parsed, used := ParseAll(source, i, fragment, nameBuffer);
      if p.Stopped? {
        parseErrorCode, parseErrorOffset, tokenCount := Failed(p.code), at, 0;
      } else {
        tokens := parsed;
        assert AllRead(nameBuffer[..], tokens, JsonPointer.Parse(source).names, used);
      }
    }

    /** The name of a token, as a C string with its length. */
    method NameOf(token: Token, ghost name: Text) returns (r: Text)
      requires exists used :: Reads(nameBuffer[..], token, name, used)
      ensures r == name
    {
      r := nameBuffer[token.name..token.name + token.length];
    }

    /** The URI fragment form, which fails on a name that is no UTF-8 text. */
    method StringifyUriFragment(ghost names: seq<Text>) returns (ok: bool, out: Text)
      requires Holds(names)
      ensures ok <==> AllTexts(names)
      ensures ok ==> out == PrintFragment(names)
    {
      out := [HASH];
      ghost var used :| AllRead(nameBuffer[..], tokens, names, used);
      assert names[0..] == names;
      for t := 0 to tokenCount
        invariant forall k :: 0 <= k < t ==> Utf8.IsText(names[k])
        invariant AllTexts(names) ==> out + PrintTokens(names[t..]) == PrintFragment(names)
      {
        assert Reads(nameBuffer[..], tokens[t], names[t], used);
        var name := NameOf(tokens[t], names[t]);
        if AllTexts(names) { PrintTokensNext(names, t, out); }
        hide PrintTokens, EscapeFragment, Reads, AllRead, Utf8.IsText, PrintFragment;
        var good, text := EscapeFragmentName(name);
        if !good {
          return false, out;
        }
        out := out + [SLASH] + text;
      }
      ok := true;
      assert names[tokenCount..] == [];
    }

    method Stringify(ghost names: seq<Text>) returns (out: Text)
      requires Holds(names)
      ensures out == Print(names)
    {
      out := [];
      ghost var used :| AllRead(nameBuffer[..], tokens, names, used);
      for t := 0 to tokenCount
        invariant out + Print(names[t..]) == Print(names)
      {
        assert Reads(nameBuffer[..], tokens[t], names[t], used);
        var name := NameOf(tokens[t], names[t]);
        PrintNext(names, t, out);
        hide Print, Escape, Reads, AllRead;
        var text := EscapeName(name);
        out := out + [SLASH] + text;
      }
    }
  }

  lemma PrintNext(names: seq<Text>, t: nat, before: Text)
    requires t < |names|
    ensures before + Print(names[t..]) == before + [SLASH] + Escape(names[t]) + Print(names[t + 1..])
  {
    assert names[t..][0] == names[t] && names[t..][1..] == names[t + 1..];
    hide Escape;
    assert Print(names[t..]) == [SLASH] + Escape(names[t]) + Print(names[t + 1..]);
    Reassociate(before, [SLASH], Escape(names[t]), Print(names[t + 1..]));
  }

  lemma PrintTokensNext(names: seq<Text>, t: nat, before: Text)
    requires t < |names| && AllTexts(names)
    ensures before + PrintTokens(names[t..]) == before + [SLASH] + EscapeFragment(names[t]) + PrintTokens(names[t + 1..])
  {
    assert names[t..][0] == names[t] && names[t..][1..] == names[t + 1..];
    hide EscapeFragment, Utf8.IsText;
    assert PrintTokens(names[t..]) == [SLASH] + EscapeFragment(names[t]) + PrintTokens(names[t + 1..]);
    Reassociate(before, [SLASH], EscapeFragment(names[t]), PrintTokens(names[t + 1..]));
  }

  lemma Reassociate<T>(a: seq<T>, b: seq<T>, c: seq<T>, d: seq<T>)
    ensures a + (b + c + d) == a + b + c + d
  {}

  lemma EscapeNext(name: Text, j: nat, before: Text)
    requires j < |name|
    ensures before + Escape(name[j..]) ==
            (before + (if name[j] == TILDE then [TILDE, ZERO] else if name[j] == SLASH then [TILDE, ONE] else [name[j]])) + Escape(name[j + 1..])
  {
    assert name[j..][0] == name[j] && name[j..][1..] == name[j + 1..];
  }

  method EscapeName(name: Text) returns (out: Text)
    ensures out == Escape(name)
  {
    out := [];
    assert name[0..] == name;
    for j := 0 to |name|
      invariant out + Escape(name[j..]) == Escape(name)
    {
      var c := name[j];
      EscapeNext(name, j, out);
      hide Escape;
      if c == TILDE {
        out := out + [TILDE, ZERO];
      } else if c == SLASH {
        out := out + [TILDE, ONE];
      } else {
        out := out + [c];
      }
    }
    assert name[|name|..] == [];
  }

  /** PercentEncodeStream::Put for each octet. */
  method PutPercent(octets: seq<bv8>) returns (out: Text)
    ensures out == PercentAll(octets)
  {
    out := [];
    assert octets[0..] == octets;
    for k := 0 to |octets|
      invariant out + PercentAll(octets[k..]) == PercentAll(octets)
    {
      assert octets[k..][0] == octets[k] && octets[k..][1..] == octets[k + 1..];
      ghost var before := out;
      var c := octets[k];
      out := out + [PERCENT, HighDigit(c), LowDigit(c)];
      assert before + (PercentOne(c) + PercentAll(octets[k + 1..])) == out + PercentAll(octets[k + 1..]);
    }
    assert octets[|octets|..] == [];
  }

  lemma FragmentNext(name: Text, before: Text)
    requires name != []
    ensures var n := Utf8.CharLen(name);
            && (Utf8.IsText(name) <==> n > 0 && Utf8.IsText(name[n..]))
            && (Utf8.IsText(name) ==> before + EscapeFragment(name) == (before + FragmentFront(name)) + EscapeFragment(name[n..]))
  {
    if Utf8.IsText(name) {
      EscapeFragmentFront(name);
      hide EscapeFragment, FragmentFront, Utf8.CharLen;
      assert before + (FragmentFront(name) + EscapeFragment(name[Utf8.CharLen(name)..])) ==
             (before + FragmentFront(name)) + EscapeFragment(name[Utf8.CharLen(name)..]);
    }
    hide Utf8.CharLen;
  }

  /** Validate from the name into the percent stream. */
  method PercentRound(rest: Text) returns (ok: bool, text: Text, n: nat)
    requires rest != []
    ensures ok <==> Utf8.CharLen(rest) > 0
    ensures ok ==> n == Utf8.CharLen(rest) && text == PercentAll(rest[..n])
  {
    hide Utf8.CharLen, PercentAll;
    text, n := [], 0;
    var source := new Utf8.MemoryStream(rest);
    var target := new Utf8.StringBuffer();
    ok := Utf8.Validate(source, target);
    if ok {
      assert [] + rest[..Utf8.CharLen(rest)] == rest[..Utf8.CharLen(rest)];
      text := PutPercent(target.out);
      assert |source.Rest()| == |rest| - Utf8.CharLen(rest);
      n := source.pos;
    }
  }

  /** One character of a name in the fragment form: the text for it, and how far it goes. */
  method FragmentRound(name: Text, j: nat) returns (ok: bool, text: Text, n: nat)
    requires j < |name|
    ensures ok <==> Utf8.CharLen(name[j..]) > 0
    ensures ok ==> n == Utf8.CharLen(name[j..]) && text == FragmentFront(name[j..])
  {
    var c := name[j];
    ghost var rest := name[j..];
    assert rest[0] == c;
    if c == TILDE {
      UnreservedIsOne(rest);
      return true, [TILDE, ZERO], 1;
    }
    if c == SLASH {
      UnreservedIsOne(rest);
      return true, [TILDE, ONE], 1;
    }
    if NeedPercentEncode(c) {
      assert FragmentFront(rest) == PercentAll(rest[..Utf8.CharLen(rest)]);
      hide FragmentFront;
      ok, text, n := PercentRound(name[j..]);
      return;
    }
    UnreservedIsOne(rest);
    return true, [c], 1;
  }

  /** The loop over a name has put out what belongs to its first j octets. */
  ghost predicate EscapedTo(name: Text, j: nat, out: Text) {
    && j <= |name| && (Utf8.IsText(name) <==> Utf8.IsText(name[j..]))
    && (Utf8.IsText(name) ==> out + EscapeFragment(name[j..]) == EscapeFragment(name))
  }

  lemma EscapedFurther(name: Text, j: nat, out: Text)
    requires j < |name| && EscapedTo(name, j, out)
    ensures var n := Utf8.CharLen(name[j..]);
            if n == 0 then !Utf8.IsText(name) else EscapedTo(name, j + n, out + FragmentFront(name[j..]))
  {
    FragmentNext(name[j..], out);
    hide EscapeFragment, FragmentFront, Utf8.CharLen, Utf8.IsText;
    assert name[j..][Utf8.CharLen(name[j..])..] == name[j + Utf8.CharLen(name[j..])..];
  }

  method EscapeFragmentName(name: Text) returns (ok: bool, out: Text)
    ensures ok <==> Utf8.IsText(name)
    ensures ok ==> out == EscapeFragment(name)
  {
    out := [];
    var j := 0;
    assert name[0..] == name && name[|name|..] == [];
    while j < |name|
      invariant EscapedTo(name, j, out)
      decreases |name| - j
    {
      EscapedFurther(name, j, out);
      hide EscapeFragment, FragmentFront, Utf8.CharLen, Utf8.IsText;
      var good, text, n := FragmentRound(name, j);
      if !good {
        return false, out;
      }
      out := out + text;
      j := j + n;
    }
    ok := true;
  }
}
