/** The text that the Writer of module JsonWriter makes of a tree determines the tree: no two
    trees are written alike. */
module JsonReading {
  import opened JsonTree
  import opened JsonEvents
  import opened JsonWriter
  import Strings = JsonString

  const LBRACKET: bv8 := 0x5B
  const RBRACKET: bv8 := 0x5D
  const LBRACE: bv8 := 0x7B
  const RBRACE: bv8 := 0x7D

  /** What may follow a value: nothing, or a comma or a closing bracket. */
  predicate Stops(rest: Text) {
    rest == [] || rest[0] == COMMA || rest[0] == RBRACKET || rest[0] == RBRACE
  }

  // ------------------------------------------------------------ numbers

  predicate AllDigits(t: Text) {
    forall k :: 0 <= k < |t| ==> IsDigit(t[k])
  }

  predicate IsDigit(c: bv8) {
    0x30 <= c <= 0x39
  }

  function Decimal(t: Text): nat
    requires AllDigits(t)
  {
    if t == [] then 0 else Decimal(t[..|t| - 1]) * 10 + (t[|t| - 1] - 0x30) as nat
  }

  lemma DigitBack(d: nat)
    requires d < 10
    ensures IsDigit(Digit(d)) && (Digit(d) - 0x30) as nat == d
  {}

  lemma {:induction false} DigitsBack(n: nat)
    ensures AllDigits(Digits(n)) && Digits(n) != [] && Decimal(Digits(n)) == n
    decreases n
  {
    DigitBack(n % 10);
    hide Digit, IsDigit;
    if n < 10 {
      assert n % 10 == n && Digits(n)[..0] == [];
    } else {
      DigitsBack(n / 10);
      assert Digits(n)[..|Digits(n)| - 1] == Digits(n / 10);
    }
  }

  lemma GoesOn(x: Text, y: Text, a: Text, b: Text)
    requires x + a == y + b && |x| < |y|
    ensures a != [] && a[0] == y[|x|]
  {
    assert (x + a)[|x|] == y[|x|];
  }

  /** A run of digits ends where the digits end. */
  lemma DigitsUnique(x: Text, y: Text, a: Text, b: Text)
    requires AllDigits(x) && AllDigits(y) && x + a == y + b && Stops(a) && Stops(b)
    ensures x == y && a == b
  {
    if |x| < |y| { GoesOn(x, y, a, b); }
    if |y| < |x| { GoesOn(y, x, b, a); }
    assert x == (x + a)[..|x|] && y == (y + b)[..|y|] && a == (x + a)[|x|..] && b == (y + b)[|y|..];
  }

  lemma Uncons(c: bv8, d: bv8, x: Text, y: Text)
    requires [c] + x == [d] + y
    ensures c == d && x == y
  {
    assert x == ([c] + x)[1..] && y == ([d] + y)[1..] && c == ([c] + x)[0] && d == ([d] + y)[0];
  }

  lemma Around(c: bv8, x: Text, d: bv8, a: Text)
    ensures [c] + x + [d] + a == [c] + (x + ([d] + a))
  {}

  lemma SameHead(x: Text, y: Text, a: Text, b: Text)
    requires x != [] && y != [] && x + a == y + b
    ensures x[0] == y[0] && x[1..] + a == y[1..] + b
  {
    assert (x + a)[0] == x[0] && (y + b)[0] == y[0];
    assert (x + a)[1..] == x[1..] + a && (y + b)[1..] == y[1..] + b;
  }

  lemma NumberUnique(n: int, m: int, a: Text, b: Text)
    requires NumberText(n) + a == NumberText(m) + b && Stops(a) && Stops(b)
    ensures n == m && a == b
  {
    var x, y := if n < 0 then Digits(-n) else Digits(n), if m < 0 then Digits(-m) else Digits(m);
    DigitsBack(if n < 0 then -n else n);
    DigitsBack(if m < 0 then -m else m);
    assert IsDigit(x[0]) && IsDigit(y[0]);
    SameHead(NumberText(n), NumberText(m), a, b);
    assert n < 0 ==> NumberText(n)[1..] == x;
    assert m < 0 ==> NumberText(m)[1..] == y;
    assert n < 0 <==> m < 0;
    DigitsUnique(x, y, a, b);
  }

  // ------------------------------------------------------------ strings

  /** The closing quote ends the body: an escaped body has none inside. */
  lemma {:induction false} BodyUnique(s: Text, t: Text, a: Text, b: Text)
    requires Strings.Body(s) + ([Strings.QUOTE] + a) == Strings.Body(t) + ([Strings.QUOTE] + b)
    ensures s == t && a == b
    decreases |s|
  {
    var x, y := [Strings.QUOTE] + a, [Strings.QUOTE] + b;
    NoBody(x);
    NoBody(y);
    QuoteIsNoItem(x);
    QuoteIsNoItem(y);
    if s != [] { BodyFront(s, x); }
    if t != [] { BodyFront(t, y); }
    hide Strings.Body, Strings.FirstItem;
    if s == [] && t == [] {
      Uncons(Strings.QUOTE, Strings.QUOTE, a, b);
    } else if s != [] && t != [] {
      BodyUnique(s[1..], t[1..], a, b);
      assert s == [s[0]] + s[1..] && t == [t[0]] + t[1..];
    }
  }

  lemma NoBody(x: Text)
    ensures Strings.Body([]) + x == x
  {}

  lemma QuoteIsNoItem(x: Text)
    requires x != [] && x[0] == Strings.QUOTE
    ensures Strings.FirstItem(x) == Strings.NoItem
  {}

  /** The first item of an escaped string, and what is behind it. */
  lemma BodyFront(s: Text, rest: Text)
    requires s != []
    ensures var text := Strings.Body(s) + rest;
            && text != [] && Strings.FirstItem(text) == Strings.Item([s[0]], |Strings.EscapeOctet(s[0])|)
            && |Strings.EscapeOctet(s[0])| <= |text| && text[|Strings.EscapeOctet(s[0])|..] == Strings.Body(s[1..]) + rest
  {
    BodyStep(s);
    hide *;
    var front, later := Strings.EscapeOctet(s[0]), Strings.Body(s[1..]);
    Strings.EscapeIsItem(s[0], later + rest);
    Behind(front, later, rest);
  }

  lemma BodyStep(s: Text)
    requires s != []
    ensures Strings.Body(s) == Strings.EscapeOctet(s[0]) + Strings.Body(s[1..])
  {
    hide Strings.EscapeOctet;
  }

  lemma Behind(x: Text, y: Text, z: Text)
    ensures x + y + z == x + (y + z) && (x + (y + z))[|x|..] == y + z
  {}

  lemma QuotedUnique(s: Text, t: Text, a: Text, b: Text)
    requires Strings.Quoted(s) + a == Strings.Quoted(t) + b
    ensures s == t && a == b
  {
    hide Strings.Body;
    Around(Strings.QUOTE, Strings.Body(s), Strings.QUOTE, a);
    Around(Strings.QUOTE, Strings.Body(t), Strings.QUOTE, b);
    Uncons(Strings.QUOTE, Strings.QUOTE, Strings.Body(s) + ([Strings.QUOTE] + a), Strings.Body(t) + ([Strings.QUOTE] + b));
    BodyUnique(s, t, a, b);
  }

  // ------------------------------------------------------------ what a value begins with

  datatype Kind = Word(c: bv8) | Num | Quote | Bracket | Brace

  function KindOf(v: Value): Kind {
    match v
    case Null => Word(0x6E)
    case Bool(b) => Word(if b then 0x74 else 0x66)
    case Number(_) => Num
    case Str(_) => Quote
    case Arr(_) => Bracket
    case Obj(_) => Brace
  }

  function KindBy(c: bv8): Kind {
    if c == 0x6E || c == 0x74 || c == 0x66 then Word(c)
    else if c == Strings.QUOTE then Quote else if c == LBRACKET then Bracket else if c == LBRACE then Brace else Num
  }

  lemma PrintBegins(v: Value)
    ensures Print(v) != [] && KindBy(Print(v)[0]) == KindOf(v) && Print(v)[0] != RBRACKET && Print(v)[0] != RBRACE
  {
    if v.Number? {
      DigitsBack(if v.n < 0 then -v.n else v.n);
      assert IsDigit(Digits(if v.n < 0 then -v.n else v.n)[0]);
      hide Digits;
    }
  }

  // ------------------------------------------------------------ arrays and objects from the front

  /** The elements from k on, with the commas before them. */
  function ElemsFrom(v: Value, k: nat): Text
    requires v.Arr? && k <= |v.elems|
    decreases |v.elems| - k
  {
    if k == |v.elems| then [] else (if k > 0 then [COMMA] else []) + Print(v.elems[k]) + ElemsFrom(v, k + 1)
  }

  function MembersFrom(v: Value, k: nat): Text
    requires v.Obj? && k <= |v.members|
    decreases |v.members| - k
  {
    if k == |v.members| then []
    else (if k > 0 then [COMMA] else []) + Strings.Quoted(v.members[k].name) + [COLON] + Print(v.members[k].value) + MembersFrom(v, k + 1)
  }

  lemma {:induction false} ElemsSplit(v: Value, k: nat)
    requires v.Arr? && k <= |v.elems|
    ensures PrintElems(v, |v.elems|) == PrintElems(v, k) + ElemsFrom(v, k)
    decreases |v.elems| - k
  {
    if k < |v.elems| {
      ElemsSplit(v, k + 1);
      var sep := if k > 0 then [COMMA] else [];
      assert PrintElems(v, k + 1) == PrintElems(v, k) + sep + Print(v.elems[k]);
      hide Print, PrintElems;
      Associate(PrintElems(v, k), sep, Print(v.elems[k]), ElemsFrom(v, k + 1));
    }
  }

  lemma Associate(a: Text, b: Text, c: Text, d: Text)
    ensures a + b + c + d == a + (b + c + d)
  {}

  lemma {:induction false} MembersSplit(v: Value, k: nat)
    requires v.Obj? && k <= |v.members|
    ensures PrintMembers(v, |v.members|) == PrintMembers(v, k) + MembersFrom(v, k)
    decreases |v.members| - k
  {
    if k < |v.members| {
      MembersSplit(v, k + 1);
      var sep, m := if k > 0 then [COMMA] else [], v.members[k];
      OneMoreMember(v, k);
      assert UpToValue(v, k) == PrintMembers(v, k) + sep + Strings.Quoted(m.name);
      hide Print, PrintMembers, Strings.Quoted;
      MembersStep(v, k);
      hide MembersFrom, UpToValue;
      AssociateMore(PrintMembers(v, k), sep, Strings.Quoted(m.name), [COLON], Print(m.value), MembersFrom(v, k + 1));
    }
  }

  lemma AssociateMore(a: Text, b: Text, c: Text, d: Text, e: Text, f: Text)
    ensures a + b + c + d + e + f == a + (b + c + d + e + f)
  {}

  lemma AssociateAll(b: Text, c: Text, d: Text, e: Text, f: Text, g: Text)
    ensures b + c + d + e + f + g == b + (c + (d + (e + (f + g))))
    ensures [] + (c + (d + (e + (f + g)))) == c + (d + (e + (f + g)))
  {}

  // ------------------------------------------------------------ the theorem

  /** Two values that are written alike, up to what may follow a value, are equal. */
  lemma {:induction false} PrintUnique(v: Value, w: Value, a: Text, b: Text)
    requires Print(v) + a == Print(w) + b && Stops(a) && Stops(b)
    ensures v == w && a == b
    decreases v, 1, 0
  {
    PrintBegins(v);
    PrintBegins(w);
    assert (Print(v) + a)[0] == Print(v)[0] && (Print(w) + b)[0] == Print(w)[0];
    assert KindOf(v) == KindOf(w);
    match v
    case Arr(_) => ArrUnique(v, w, a, b);
    case Obj(_) => ObjUnique(v, w, a, b);
    case _ => AtomUnique(v, w, a, b);
  }

  lemma AtomUnique(v: Value, w: Value, a: Text, b: Text)
    requires !v.Arr? && !v.Obj? && KindOf(v) == KindOf(w) && Print(v) + a == Print(w) + b && Stops(a) && Stops(b)
    ensures v == w && a == b
  {
    if v.Number? {
      NumberUnique(v.n, w.n, a, b);
    } else if v.Str? {
      QuotedUnique(v.s, w.s, a, b);
    } else {
      assert v == w && a == (Print(v) + a)[|Print(v)|..] && b == (Print(w) + b)[|Print(w)|..];
    }
  }

  lemma {:induction false} ArrUnique(v: Value, w: Value, a: Text, b: Text)
    requires v.Arr? && w.Arr? && Print(v) + a == Print(w) + b
    ensures v == w && a == b
    decreases v, 0, |v.elems| + 1
  {
    ArrayText(v, a);
    ArrayText(w, b);
    hide Print, ElemsFrom, PrintElems;
    Uncons(LBRACKET, LBRACKET, ElemsFrom(v, 0) + ([RBRACKET] + a), ElemsFrom(w, 0) + ([RBRACKET] + b));
    ElemsUnique(v, w, 0, a, b);
    assert v.elems == w.elems;
  }

  lemma ArrayText(v: Value, a: Text)
    requires v.Arr?
    ensures Print(v) + a == [LBRACKET] + (ElemsFrom(v, 0) + ([RBRACKET] + a))
  {
    ElemsSplit(v, 0);
    NoMoreElems(v);
    var x := ElemsFrom(v, 0);
    assert Print(v) == [LBRACKET] + PrintElems(v, |v.elems|) + [RBRACKET];
    hide Print, ElemsFrom, PrintElems;
    assert [] + x == x;
    Around(LBRACKET, x, RBRACKET, a);
  }

  lemma NoMoreElems(v: Value)
    requires v.Arr?
    ensures PrintElems(v, 0) == []
  {}

  lemma {:induction false} ElemsUnique(v: Value, w: Value, k: nat, a: Text, b: Text)
    requires v.Arr? && w.Arr? && k <= |v.elems| && k <= |w.elems|
    requires ElemsFrom(v, k) + ([RBRACKET] + a) == ElemsFrom(w, k) + ([RBRACKET] + b)
    ensures |v.elems| == |w.elems| && (forall j :: k <= j < |v.elems| ==> v.elems[j] == w.elems[j]) && a == b
    decreases v, 0, |v.elems| - k
  {
    var x, y := [RBRACKET] + a, [RBRACKET] + b;
    ElemsBegin(v, k, x);
    ElemsBegin(w, k, y);
    if k == |v.elems| {
      assert x[1..] == a && y[1..] == b;
    } else {
      var p, q := Print(v.elems[k]) + (ElemsFrom(v, k + 1) + x), Print(w.elems[k]) + (ElemsFrom(w, k + 1) + y);
      assert p == q;
      ElemsBegin(v, k + 1, x);
      ElemsBegin(w, k + 1, y);
      hide Print, ElemsFrom;
      PrintUnique(v.elems[k], w.elems[k], ElemsFrom(v, k + 1) + x, ElemsFrom(w, k + 1) + y);
      ElemsUnique(v, w, k + 1, a, b);
    }
  }

  /** Whether another element comes can be seen from the first octet. */
  lemma ElemsBegin(v: Value, k: nat, rest: Text)
    requires v.Arr? && k <= |v.elems| && rest != [] && rest[0] == RBRACKET
    ensures var text := ElemsFrom(v, k) + rest;
            && text != [] && (text[0] == RBRACKET <==> k == |v.elems|) && (k > 0 ==> Stops(text))
            && (k == |v.elems| ==> text == rest)
            && (k < |v.elems| && k > 0 ==> text[1..] == Print(v.elems[k]) + (ElemsFrom(v, k + 1) + rest))
            && (k < |v.elems| && k == 0 ==> text == Print(v.elems[k]) + (ElemsFrom(v, k + 1) + rest))
  {
    if k < |v.elems| {
      PrintBegins(v.elems[k]);
      ElemsStep(v, k);
      hide Print, ElemsFrom;
      Separated(if k > 0 then [COMMA] else [], Print(v.elems[k]), ElemsFrom(v, k + 1), rest);
    } else {
      hide Print;
      assert [] + rest == rest;
    }
  }

  lemma Separated(sep: Text, x: Text, y: Text, z: Text)
    requires (sep == [] || sep == [COMMA]) && x != []
    ensures var text := sep + x + y + z;
            && text != [] && text[0] == (if sep == [] then x[0] else COMMA) && text == sep + (x + (y + z))
            && (sep == [] ==> text == x + (y + z)) && (sep != [] ==> text[1..] == x + (y + z))
  {
    assert sep + x + y + z == sep + (x + (y + z));
    assert [] + (x + (y + z)) == x + (y + z);
  }

  lemma ElemsStep(v: Value, k: nat)
    requires v.Arr? && k < |v.elems|
    ensures ElemsFrom(v, k) == (if k > 0 then [COMMA] else []) + Print(v.elems[k]) + ElemsFrom(v, k + 1)
  {
    hide Print;
  }

  lemma {:induction false} ObjUnique(v: Value, w: Value, a: Text, b: Text)
    requires v.Obj? && w.Obj? && Print(v) + a == Print(w) + b
    ensures v == w && a == b
    decreases v, 0, |v.members| + 1
  {
    var x, y := MembersFrom(v, 0), MembersFrom(w, 0);
    ObjectText(v, a);
    ObjectText(w, b);
    hide Print, MembersFrom, PrintMembers;
    Uncons(LBRACE, LBRACE, x + ([RBRACE] + a), y + ([RBRACE] + b));
    MembersUnique(v, w, 0, a, b);
    assert v.members == w.members;
  }

  lemma ObjectText(v: Value, a: Text)
    requires v.Obj?
    ensures Print(v) + a == [LBRACE] + (MembersFrom(v, 0) + ([RBRACE] + a))
  {
    MembersSplit(v, 0);
    NoMoreMembers(v);
    var x := MembersFrom(v, 0);
    assert Print(v) == [LBRACE] + PrintMembers(v, |v.members|) + [RBRACE];
    hide Print, MembersFrom, PrintMembers;
    assert [] + x == x;
    Around(LBRACE, x, RBRACE, a);
  }

  lemma NoMoreMembers(v: Value)
    requires v.Obj?
    ensures PrintMembers(v, 0) == []
  {}

  lemma {:induction false} MembersUnique(v: Value, w: Value, k: nat, a: Text, b: Text)
    requires v.Obj? && w.Obj? && k <= |v.members| && k <= |w.members|
    requires MembersFrom(v, k) + ([RBRACE] + a) == MembersFrom(w, k) + ([RBRACE] + b)
    ensures |v.members| == |w.members| && (forall j :: k <= j < |v.members| ==> v.members[j] == w.members[j]) && a == b
    decreases v, 0, |v.members| - k
  {
    hide *;
    var x, y := [RBRACE] + a, [RBRACE] + b;
    MembersBegin(v, k, x);
    MembersBegin(w, k, y);
    if k == |v.members| {
      assert x[1..] == a && y[1..] == b;
    } else {
      NextComes(v, k, x);
      NextComes(w, k, y);
      MemberUnique(v.members[k], w.members[k], MembersFrom(v, k + 1) + x, MembersFrom(w, k + 1) + y);
      PrintUnique(v.members[k].value, w.members[k].value, MembersFrom(v, k + 1) + x, MembersFrom(w, k + 1) + y);
      MembersUnique(v, w, k + 1, a, b);
    }
  }

  lemma NextComes(v: Value, k: nat, rest: Text)
    requires v.Obj? && k < |v.members| && rest != [] && rest[0] == RBRACE
    ensures Stops(MembersFrom(v, k + 1) + rest)
  {
    MembersBegin(v, k + 1, rest);
    hide MembersFrom;
  }

  /** The text of the member k and what is behind it. */
  function MemberAnd(m: Member, later: Text): Text {
    Strings.Quoted(m.name) + ([COLON] + (Print(m.value) + later))
  }

  lemma MemberUnique(m: Member, n: Member, x: Text, y: Text)
    requires MemberAnd(m, x) == MemberAnd(n, y)
    ensures m.name == n.name && Print(m.value) + x == Print(n.value) + y
  {
    hide Print, Strings.Quoted;
    QuotedUnique(m.name, n.name, [COLON] + (Print(m.value) + x), [COLON] + (Print(n.value) + y));
    Uncons(COLON, COLON, Print(m.value) + x, Print(n.value) + y);
  }

  lemma MembersBegin(v: Value, k: nat, rest: Text)
    requires v.Obj? && k <= |v.members| && rest != [] && rest[0] == RBRACE
    ensures var text := MembersFrom(v, k) + rest;
            && text != [] && (text[0] == RBRACE <==> k == |v.members|) && (k > 0 ==> Stops(text))
            && (k == |v.members| ==> text == rest)
            && (k < |v.members| ==> (if k > 0 then text[1..] else text) == MemberAnd(v.members[k], MembersFrom(v, k + 1) + rest))
  {
    if k < |v.members| {
      var m, sep := v.members[k], if k > 0 then [COMMA] else [];
      assert Strings.Quoted(m.name)[0] == Strings.QUOTE;
      MembersStep(v, k);
      hide Print, MembersFrom, Strings.Quoted;
      AssociateAll(sep, Strings.Quoted(m.name), [COLON], Print(m.value), MembersFrom(v, k + 1), rest);
      assert MemberAnd(m, MembersFrom(v, k + 1) + rest)[0] == Strings.QUOTE;
      var text := MemberAnd(m, MembersFrom(v, k + 1) + rest);
      hide MemberAnd;
      assert ([COMMA] + text)[1..] == text;
    } else {
      assert [] + rest == rest;
    }
  }

  lemma MembersStep(v: Value, k: nat)
    requires v.Obj? && k < |v.members|
    ensures MembersFrom(v, k) == (if k > 0 then [COMMA] else []) + Strings.Quoted(v.members[k].name) + [COLON]
                                 + Print(v.members[k].value) + MembersFrom(v, k + 1)
  {
    hide Print, Strings.Quoted;
  }

  /** Different trees are written differently. */
  lemma PrintInjective(v: Value, w: Value)
    requires Print(v) == Print(w)
    ensures v == w
  {
    assert Print(v) + [] == Print(v) && Print(w) + [] == Print(w);
    PrintUnique(v, w, [], []);
  }

  /** What two new Writers have put out after accepting two trees is the same only for the same
      tree. */
  lemma WrittenTextDetermines(v: Value, w: Value)
    requires WriteAll(State([], [], false), Events(v)).out == WriteAll(State([], [], false), Events(w)).out
    ensures v == w
  {
    WholeDocumentPrints(v);
    WholeDocumentPrints(w);
    hide Events, WriteAll, Print;
    PrintInjective(v, w);
  }
}
