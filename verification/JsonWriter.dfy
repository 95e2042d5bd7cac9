/** The Writer as a handler (eabase/rapidjson/writer.h): separators by the level stack, against a
    recursive printer. Numbers are printed as their decimal digits. */
module JsonWriter {
  import opened JsonTree
  import opened JsonEvents
  import Strings = JsonString

  const COMMA: bv8 := 0x2C
  const COLON: bv8 := 0x3A

  // ------------------------------------------------------------ the printer

  function Digits(n: nat): Text
    decreases n
  {
    if n < 10 then [Digit(n)] else Digits(n / 10) + [Digit(n % 10)]
  }

  function Digit(d: nat): bv8
    requires d < 10
  {
    (0x30 + d) as bv8
  }

  function NumberText(n: int): Text {
    if n < 0 then [0x2D] + Digits(-n) else Digits(n)
  }

  /** What a value without parts is written as. */
  function Atom(v: Value): Text
    requires !v.Arr? && !v.Obj?
  {
    match v
    case Null => [0x6E, 0x75, 0x6C, 0x6C]
    case Bool(b) => if b then [0x74, 0x72, 0x75, 0x65] else [0x66, 0x61, 0x6C, 0x73, 0x65]
    case Number(n) => NumberText(n)
    case Str(s) => Strings.Quoted(s)
  }

  /** The JSON text of a tree, without white space. */
  function Print(v: Value): Text
    decreases v, 1, 0
  {
    match v
    case Arr(elems) => [0x5B] + PrintElems(v, |elems|) + [0x5D]
    case Obj(members) => [0x7B] + PrintMembers(v, |members|) + [0x7D]
    case _ => Atom(v)
  }

  function PrintElems(v: Value, k: nat): Text
    requires v.Arr? && k <= |v.elems|
    decreases v, 0, k
  {
    if k == 0 then [] else PrintElems(v, k - 1) + (if k > 1 then [COMMA] else []) + Print(v.elems[k - 1])
  }

  function PrintMembers(v: Value, k: nat): Text
    requires v.Obj? && k <= |v.members|
    decreases v, 0, k
  {
    if k == 0 then []
    else
      PrintMembers(v, k - 1) + (if k > 1 then [COMMA] else [])
      + Strings.Quoted(v.members[k - 1].name) + [COLON] + Print(v.members[k - 1].value)
  }

  // ------------------------------------------------------------ the Writer's state

  datatype Level = Level(inArray: bool, count: nat)

  datatype State = State(out: Text, levels: seq<Level>, hasRoot: bool)

  /** Prefix: the separator that the innermost level asks for, and one more value in it. */
  function Separator(levels: seq<Level>): Text {
    if levels == [] then []
    else
      var top := levels[|levels| - 1];
      if top.count == 0 then [] else if top.inArray || top.count % 2 == 0 then [COMMA] else [COLON]
  }

  function Counted(levels: seq<Level>): seq<Level>
    requires levels != []
  {
    levels[|levels| - 1 := levels[|levels| - 1].(count := levels[|levels| - 1].count + 1)]
  }

  function Prefix(s: State): State {
    if s.levels == [] then s.(hasRoot := true)
    else s.(out := s.out + Separator(s.levels), levels := Counted(s.levels))
  }

  function Write(s: State, e: Event): State {
    match e
    case StartObject => var p := Prefix(s); p.(levels := p.levels + [Level(false, 0)], out := p.out + [0x7B])
    case StartArray => var p := Prefix(s); p.(levels := p.levels + [Level(true, 0)], out := p.out + [0x5B])
    case EndObject(_) => if s.levels == [] then s else s.(levels := s.levels[..|s.levels| - 1], out := s.out + [0x7D])
    case EndArray(_) => if s.levels == [] then s else s.(levels := s.levels[..|s.levels| - 1], out := s.out + [0x5D])
    case NullEvent => var p := Prefix(s); p.(out := p.out + Atom(Null))
    case BoolEvent(b) => var p := Prefix(s); p.(out := p.out + Atom(Bool(b)))
    case NumberEvent(n) => var p := Prefix(s); p.(out := p.out + Atom(Number(n)))
    case StringEvent(t) => var p := Prefix(s); p.(out := p.out + Strings.Quoted(t))
    case KeyEvent(t) => var p := Prefix(s); p.(out := p.out + Strings.Quoted(t))
  }

  function WriteAll(s: State, events: seq<Event>): State
    decreases |events|
  {
    if events == [] then s else WriteAll(Write(s, events[0]), events[1..])
  }

  lemma {:induction false} WriteAllConcat(s: State, a: seq<Event>, b: seq<Event>)
    ensures WriteAll(s, a + b) == WriteAll(WriteAll(s, a), b)
    decreases |a|
  {
    hide Write;
    if a == [] {
      assert a + b == b;
    } else {
      assert (a + b)[0] == a[0] && (a + b)[1..] == a[1..] + b;
      WriteAllConcat(Write(s, a[0]), a[1..], b);
    }
  }

  lemma WriteOne(s: State, e: Event)
    ensures WriteAll(s, [e]) == Write(s, e)
  {
    hide Write;
    assert [e][1..] == [];
  }

  /** Where a whole value has been written. */
  function After(s: State, text: Text): State {
    var p := Prefix(s);
    p.(out := p.out + text)
  }

  /** Accepting a tree into the Writer writes, after the separator of its place, what the
      recursive printer prints. */
  lemma {:induction false} AcceptPrints(v: Value, s: State)
    ensures WriteAll(s, Events(v)) == After(s, Print(v))
    decreases v, 1, 0
  {
    match v
    case Arr(_) => ArrPrinted(v, s);
    case Obj(_) => ObjPrinted(v, s);
    case _ => WriteOne(s, Events(v)[0]);
  }

  function Inside(s: State, text: Text, level: Level): State {
    State(s.out + text, s.levels + [level], s.hasRoot)
  }

  lemma ArrayEnds(s: State, text: Text, n: nat)
    ensures var p := Prefix(s); var q := p.(out := p.out + [0x5B]);
            Write(Inside(q, text, Level(true, n)), EndArray(n)) == After(s, [0x5B] + text + [0x5D])
  {
    var p := Prefix(s);
    var q := p.(out := p.out + [0x5B]);
    var s2 := Inside(q, text, Level(true, n));
    hide Prefix;
    assert s2.levels[..|s2.levels| - 1] == p.levels;
    assert p.out + [0x5B] + text + [0x5D] == p.out + ([0x5B] + text + [0x5D]);
  }

  lemma ArrayStarts(s: State)
    ensures var p := Prefix(s); Write(s, StartArray) == Inside(p.(out := p.out + [0x5B]), [], Level(true, 0))
  {
    hide Prefix;
  }

  lemma {:induction false} ArrPrinted(v: Value, s: State)
    requires v.Arr?
    ensures WriteAll(s, Events(v)) == After(s, Print(v))
    decreases v, 0, |v.elems| + 1
  {
    var n, p := |v.elems|, Prefix(s);
    var q := p.(out := p.out + [0x5B]);
    assert Events(v) == [StartArray] + (ElemEvents(v, n) + [EndArray(n)]);
    WriteAllConcat(s, [StartArray], ElemEvents(v, n) + [EndArray(n)]);
    WriteOne(s, StartArray);
    ArrayStarts(s);
    hide Write, Events, ElemEvents, Prefix, After, Inside;
    WriteAllConcat(Inside(q, [], Level(true, 0)), ElemEvents(v, n), [EndArray(n)]);
    ElemsPrinted(v, n, q);
    WriteOne(Inside(q, PrintElems(v, n), Level(true, n)), EndArray(n));
    ArrayEnds(s, PrintElems(v, n), n);
  }

  lemma {:induction false} ElemsPrinted(v: Value, k: nat, q: State)
    requires v.Arr? && k <= |v.elems|
    ensures WriteAll(Inside(q, [], Level(true, 0)), ElemEvents(v, k)) == Inside(q, PrintElems(v, k), Level(true, k))
    decreases v, 0, k
  {
    if k > 0 {
      var s1 := Inside(q, PrintElems(v, k - 1), Level(true, k - 1));
      WriteAllConcat(Inside(q, [], Level(true, 0)), ElemEvents(v, k - 1), Events(v.elems[k - 1]));
      ElemsPrinted(v, k - 1, q);
      AcceptPrints(v.elems[k - 1], s1);
      NextInside(q, PrintElems(v, k - 1), Level(true, k - 1), Print(v.elems[k - 1]));
      hide Print, Events, WriteAll;
    }
  }

  /** One more value at the innermost level. */
  lemma NextInside(q: State, text: Text, level: Level, more: Text)
    ensures After(Inside(q, text, level), more) ==
            Inside(q, text + Separator([level]) + more, level.(count := level.count + 1))
  {
    var s1 := Inside(q, text, level);
    assert s1.levels[|s1.levels| - 1] == level;
    assert Counted(s1.levels) == q.levels + [level.(count := level.count + 1)];
    assert q.out + text + Separator([level]) + more == q.out + (text + Separator([level]) + more);
  }

  lemma ObjectEnds(s: State, text: Text, n: nat)
    ensures var p := Prefix(s); var q := p.(out := p.out + [0x7B]);
            Write(Inside(q, text, Level(false, 2 * n)), EndObject(n)) == After(s, [0x7B] + text + [0x7D])
  {
    var p := Prefix(s);
    var q := p.(out := p.out + [0x7B]);
    var s2 := Inside(q, text, Level(false, 2 * n));
    hide Prefix;
    assert s2.levels[..|s2.levels| - 1] == p.levels;
    assert p.out + [0x7B] + text + [0x7D] == p.out + ([0x7B] + text + [0x7D]);
  }

  lemma ObjectStarts(s: State)
    ensures var p := Prefix(s); Write(s, StartObject) == Inside(p.(out := p.out + [0x7B]), [], Level(false, 0))
  {
    hide Prefix;
  }

  lemma {:induction false} ObjPrinted(v: Value, s: State)
    requires v.Obj?
    ensures WriteAll(s, Events(v)) == After(s, Print(v))
    decreases v, 0, |v.members| + 1
  {
    var n, p := |v.members|, Prefix(s);
    var q := p.(out := p.out + [0x7B]);
    assert Events(v) == [StartObject] + (MemberEvents(v, n) + [EndObject(n)]);
    WriteAllConcat(s, [StartObject], MemberEvents(v, n) + [EndObject(n)]);
    WriteOne(s, StartObject);
    ObjectStarts(s);
    hide Write, Events, MemberEvents, Prefix, After, Inside;
    WriteAllConcat(Inside(q, [], Level(false, 0)), MemberEvents(v, n), [EndObject(n)]);
    MembersPrinted(v, n, q);
    WriteOne(Inside(q, PrintMembers(v, n), Level(false, 2 * n)), EndObject(n));
    ObjectEnds(s, PrintMembers(v, n), n);
  }

  /** A key is the even value of its level. */
  lemma KeyPrinted(q: State, text: Text, k: nat, name: Text)
    requires k > 0
    ensures WriteAll(Inside(q, text, Level(false, 2 * (k - 1))), [KeyEvent(name)]) ==
            Inside(q, text + (if k > 1 then [COMMA] else []) + Strings.Quoted(name), Level(false, 2 * k - 1))
  {
    var s1 := Inside(q, text, Level(false, 2 * (k - 1)));
    WriteOne(s1, KeyEvent(name));
    assert Write(s1, KeyEvent(name)) == After(s1, Strings.Quoted(name));
    NextInside(q, text, Level(false, 2 * (k - 1)), Strings.Quoted(name));
    hide WriteAll, Write, After, Strings.Quoted;
  }

  lemma MemberValuePrinted(q: State, text: Text, k: nat, value: Text)
    requires k > 0
    ensures After(Inside(q, text, Level(false, 2 * k - 1)), value) == Inside(q, text + [COLON] + value, Level(false, 2 * k))
  {
    NextInside(q, text, Level(false, 2 * k - 1), value);
    hide After;
  }

  /** What has been written of an object when the value of member i is due. */
  function UpToValue(v: Value, i: nat): Text
    requires v.Obj? && i < |v.members|
  {
    PrintMembers(v, i) + (if i + 1 > 1 then [COMMA] else []) + Strings.Quoted(v.members[i].name)
  }

  lemma KeyPlace(v: Value, i: nat, q: State)
    requires v.Obj? && i < |v.members|
    ensures Write(Inside(q, PrintMembers(v, i), Level(false, 2 * i)), KeyEvent(v.members[i].name)) ==
            Inside(q, UpToValue(v, i), Level(false, 2 * i + 1))
  {
    var text, name := PrintMembers(v, i), v.members[i].name;
    hide PrintMembers, Strings.Quoted, Write, WriteAll, Inside;
    KeyPrinted(q, text, i + 1, name);
    WriteOne(Inside(q, text, Level(false, 2 * i)), KeyEvent(name));
  }

  lemma OneMoreMember(v: Value, i: nat)
    requires v.Obj? && i < |v.members|
    ensures PrintMembers(v, i + 1) == UpToValue(v, i) + [COLON] + Print(v.members[i].value)
  {
    hide Print, Strings.Quoted;
  }

  lemma ValuePlace(v: Value, i: nat, q: State)
    requires v.Obj? && i < |v.members|
    ensures After(Inside(q, UpToValue(v, i), Level(false, 2 * i + 1)), Print(v.members[i].value)) ==
            Inside(q, PrintMembers(v, i + 1), Level(false, 2 * (i + 1)))
  {
    hide *;
    MemberValuePrinted(q, UpToValue(v, i), i + 1, Print(v.members[i].value));
    OneMoreMember(v, i);
  }

  lemma {:induction false} MembersPrinted(v: Value, k: nat, q: State)
    requires v.Obj? && k <= |v.members|
    ensures WriteAll(Inside(q, [], Level(false, 0)), MemberEvents(v, k)) == Inside(q, PrintMembers(v, k), Level(false, 2 * k))
    decreases v, 0, k
  {
    if k > 0 {
      var m, text := v.members[k - 1], PrintMembers(v, k - 1);
      var s0 := Inside(q, [], Level(false, 0));
      assert MemberEvents(v, k) == MemberEvents(v, k - 1) + ([KeyEvent(m.name)] + Events(m.value));
      hide Print, Events, MemberEvents, WriteAll, Write, Inside, After, Strings.Quoted;
      WriteAllConcat(s0, MemberEvents(v, k - 1), [KeyEvent(m.name)] + Events(m.value));
      MembersPrinted(v, k - 1, q);
      WriteAllConcat(Inside(q, text, Level(false, 2 * (k - 1))), [KeyEvent(m.name)], Events(m.value));
      KeyPrinted(q, text, k, m.name);
      var text1 := text + (if k > 1 then [COMMA] else []) + Strings.Quoted(m.name);
      AcceptPrints(m.value, Inside(q, text1, Level(false, 2 * k - 1)));
      MemberValuePrinted(q, text1, k, Print(m.value));
    } else {
      hide Inside;
    }
  }

  /** A document written from the start is the printing of its tree. */
  lemma WholeDocumentPrints(v: Value)
    ensures WriteAll(State([], [], false), Events(v)) == State(Print(v), [], true)
  {
    AcceptPrints(v, State([], [], false));
    hide Print, Events, WriteAll;
    assert [] + Print(v) == Print(v);
  }

  // ------------------------------------------------------------ the Writer

  class Writer {
    const os: Strings.OutputStream
    var levelStack: seq<Level>
    var hasRoot: bool

    function View(): State
      reads this, os
    {
      State(os.out, levelStack, hasRoot)
    }

    constructor ()
      ensures fresh(os) && View() == State([], [], false)
    {
      os := new Strings.OutputStream();
      levelStack, hasRoot := [], false;
    }

    method PutPrefix()
      modifies this, os
      ensures View() == Prefix(old(View()))
    {
      if levelStack != [] {
        var top := levelStack[|levelStack| - 1];
        if top.count > 0 {
          if top.inArray {
            os.Put(COMMA);
          } else {
            os.Put(if top.count % 2 == 0 then COMMA else COLON);
          }
        }
        levelStack := levelStack[|levelStack| - 1 := top.(count := top.count + 1)];
      } else {
        hasRoot := true;
      }
    }

    /** Null, Bool and the number handlers. */
    method PutAtom(v: Value)
      requires !v.Arr? && !v.Obj? && !v.Str?
      modifies this, os
      ensures View() == After(old(View()), Atom(v))
    {
      PutPrefix();
      os.Puts(Atom(v));
    }

    method String(s: Text)
      modifies this, os
      ensures View() == After(old(View()), Strings.Quoted(s))
    {
      PutPrefix();
      hide Strings.Quoted;
      Strings.WriteString(os, s);
    }

    method Key(s: Text)
      modifies this, os
      ensures View() == Write(old(View()), KeyEvent(s))
    {
      String(s);
    }

    method StartObject()
      modifies this, os
      ensures View() == Write(old(View()), Event.StartObject)
    {
      PutPrefix();
      levelStack := levelStack + [Level(false, 0)];
      os.Put(0x7B);
    }

    method EndObject(count: nat)
      requires levelStack != [] && !levelStack[|levelStack| - 1].inArray
      modifies this, os
      ensures View() == Write(old(View()), Event.EndObject(count))
    {
      levelStack := levelStack[..|levelStack| - 1];
      os.Put(0x7D);
    }

    method StartArray()
      modifies this, os
      ensures View() == Write(old(View()), Event.StartArray)
    {
      PutPrefix();
      levelStack := levelStack + [Level(true, 0)];
      os.Put(0x5B);
    }

    method EndArray(count: nat)
      requires levelStack != [] && levelStack[|levelStack| - 1].inArray
      modifies this, os
      ensures View() == Write(old(View()), Event.EndArray(count))
    {
      levelStack := levelStack[..|levelStack| - 1];
      os.Put(0x5D);
    }

    /** Accept with this handler. */
    method Accept(v: Value)
      modifies this, os
      ensures View() == After(old(View()), Print(v))
      decreases v, 1
    {
      match v
      case Str(s) => String(s);
      case Arr(_) => AcceptArray(v);
      case Obj(_) => AcceptObject(v);
      case _ => PutAtom(v);
    }

    method AcceptArray(v: Value)
      requires v.Arr?
      modifies this, os
      ensures View() == After(old(View()), Print(v))
      decreases v, 0
    {
      ghost var before := View();
      ArrayStarts(before);
      StartArray();
      ghost var p := Prefix(before);
      ghost var q := p.(out := p.out + [0x5B]);
      ghost var n := |v.elems|;
      for i := 0 to |v.elems|
        invariant View() == Inside(q, PrintElems(v, i), Level(true, i))
      {
        hide Inside, After, Print, Prefix;
        NextInside(q, PrintElems(v, i), Level(true, i), Print(v.elems[i]));
        Accept(v.elems[i]);
      }
      ArrayEnds(before, PrintElems(v, n), n);
      assert levelStack[|levelStack| - 1] == Level(true, n);
      hide Inside, After, Prefix, Write;
      EndArray(|v.elems|);
    }

    method AcceptObject(v: Value)
      requires v.Obj?
      modifies this, os
      ensures View() == After(old(View()), Print(v))
      decreases v, 0
    {
      ghost var before := View();
      ObjectStarts(before);
      StartObject();
      ghost var p := Prefix(before);
      ghost var q := p.(out := p.out + [0x7B]);
      ghost var n := |v.members|;
      for i := 0 to |v.members|
        invariant View() == Inside(q, PrintMembers(v, i), Level(false, 2 * i))
      {
        AcceptMember(v, i, q);
      }
      ObjectEnds(before, PrintMembers(v, n), n);
      assert levelStack[|levelStack| - 1] == Level(false, 2 * n);
      hide Inside, After, Prefix, Write;
      EndObject(|v.members|);
    }

    method AcceptMember(v: Value, i: nat, ghost q: State)
      requires v.Obj? && i < |v.members| && View() == Inside(q, PrintMembers(v, i), Level(false, 2 * i))
      modifies this, os
      ensures View() == Inside(q, PrintMembers(v, i + 1), Level(false, 2 * (i + 1)))
      decreases v, 0, i
    {
      hide *;
      KeyPlace(v, i, q);
      ValuePlace(v, i, q);
      Key(v.members[i].name);
      Accept(v.members[i].value);
    }
  }
}
