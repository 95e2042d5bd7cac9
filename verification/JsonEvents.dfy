/** GenericValue::Accept (eabase/rapidjson/document.h) and its two receivers: the Writer
    (eabase/rapidjson/writer.h) and the stack of GenericDocument, which the deep copy uses. */
module JsonEvents {
  import opened JsonTree

  type Text = seq<bv8>

  datatype Event =
    | NullEvent
    | BoolEvent(b: bool)
    | NumberEvent(n: int)
    | StringEvent(s: Text)
    | KeyEvent(s: Text)
    | StartObject
    | EndObject(count: nat)
    | StartArray
    | EndArray(count: nat)

  /** The calls that Accept makes on its handler. */
  function Events(v: Value): seq<Event>
    decreases v, 1, 0
  {
    match v
    case Null => [NullEvent]
    case Bool(b) => [BoolEvent(b)]
    case Number(n) => [NumberEvent(n)]
    case Str(s) => [StringEvent(s)]
    case Arr(elems) => [StartArray] + ElemEvents(v, |elems|) + [EndArray(|elems|)]
    case Obj(members) => [StartObject] + MemberEvents(v, |members|) + [EndObject(|members|)]
  }

  function ElemEvents(v: Value, k: nat): seq<Event>
    requires v.Arr? && k <= |v.elems|
    decreases v, 0, k
  {
    if k == 0 then [] else ElemEvents(v, k - 1) + Events(v.elems[k - 1])
  }

  function MemberEvents(v: Value, k: nat): seq<Event>
    requires v.Obj? && k <= |v.members|
    decreases v, 0, k
  {
    if k == 0 then []
    else MemberEvents(v, k - 1) + [KeyEvent(v.members[k - 1].name)] + Events(v.members[k - 1].value)
  }

  // ------------------------------------------------------------ the document's stack

  /** The members made of alternating names and values. */
  function Pairs(values: seq<Value>): seq<Member>
    requires |values| % 2 == 0
    decreases |values|
  {
    if values == [] then []
    else Pairs(values[..|values| - 2]) + [Member(NameOf(values[|values| - 2]), values[|values| - 1])]
  }

  function NameOf(v: Value): Text {
    if v.Str? then v.s else []
  }

  /** A handler call on the stack; the count of an end event is that of what was pushed. */
  function Push(stack: seq<Value>, e: Event): seq<Value> {
    match e
    case NullEvent => stack + [Null]
    case BoolEvent(b) => stack + [Bool(b)]
    case NumberEvent(n) => stack + [Number(n)]
    case StringEvent(s) => stack + [Str(s)]
    case KeyEvent(s) => stack + [Str(s)]
    case StartObject => stack + [Obj([])]
    case StartArray => stack + [Arr([])]
    case EndObject(count) =>
      var base := |stack| - 2 * count;
      if base < 1 then stack else stack[..base - 1] + [Obj(Pairs(stack[base..]))]
    case EndArray(count) =>
      var base := |stack| - count;
      if base < 1 then stack else stack[..base - 1] + [Arr(stack[base..])]
  }

  function PushAll(stack: seq<Value>, events: seq<Event>): seq<Value>
    decreases |events|
  {
    if events == [] then stack else PushAll(Push(stack, events[0]), events[1..])
  }

  lemma {:induction false} PushAllConcat(stack: seq<Value>, a: seq<Event>, b: seq<Event>)
    ensures PushAll(stack, a + b) == PushAll(PushAll(stack, a), b)
    decreases |a|
  {
    hide Push;
    if a == [] {
      assert a + b == b;
    } else {
      assert (a + b)[0] == a[0] && (a + b)[1..] == a[1..] + b;
      PushAllConcat(Push(stack, a[0]), a[1..], b);
    }
  }

  lemma PushOne(stack: seq<Value>, e: Event)
    ensures PushAll(stack, [e]) == Push(stack, e)
  {
    hide Push;
    assert [e][1..] == [];
  }

  /** Names and values of the first k members, as they lie on the stack. */
  function Flat(members: seq<Member>): seq<Value>
    decreases |members|
  {
    if members == [] then []
    else var m := members[|members| - 1]; Flat(members[..|members| - 1]) + [Str(m.name), m.value]
  }

  lemma PairsStep(values: seq<Value>, m: Member)
    requires |values| % 2 == 0
    ensures Pairs(values + [Str(m.name), m.value]) == Pairs(values) + [m]
  {
    var more := values + [Str(m.name), m.value];
    assert more[..|more| - 2] == values && more[|more| - 2] == Str(m.name) && more[|more| - 1] == m.value;
  }

  lemma PairsOfNone()
    ensures Pairs([]) == []
  {}

  lemma Grow<T>(a: seq<T>, b: seq<T>, k: nat)
    requires k < |b|
    ensures a + b[..k + 1] == a + b[..k] + [b[k]] && (k + 1 == |b| ==> b[..k + 1] == b && [] + b[..k] + [b[k]] == b && b[..k] + [b[k]] == b)
  {}

  lemma {:induction false} PairsOfFlat(members: seq<Member>)
    ensures |Flat(members)| == 2 * |members| && Pairs(Flat(members)) == members
    decreases |members|
  {
    hide Pairs;
    if members == [] {
      PairsOfNone();
    } else {
      var n := |members| - 1;
      PairsOfFlat(members[..n]);
      PairsStep(Flat(members[..n]), members[n]);
      Grow([], members, n);
    }
  }

  /** Accepting a tree into the stack pushes exactly that tree. */
  lemma {:induction false} AcceptPushesTree(v: Value, stack: seq<Value>)
    ensures PushAll(stack, Events(v)) == stack + [v]
    decreases v, 1, 0
  {
    match v
    case Arr(_) => ArrPushed(v, stack);
    case Obj(_) => ObjPushed(v, stack);
    case _ => PushOne(stack, Events(v)[0]);
  }

  lemma {:induction false} ArrPushed(v: Value, stack: seq<Value>)
    requires v.Arr?
    ensures PushAll(stack, Events(v)) == stack + [v]
    decreases v, 0, |v.elems| + 1
  {
    var n := |v.elems|;
    var s1 := stack + [Arr([])];
    assert Events(v) == [StartArray] + (ElemEvents(v, n) + [EndArray(n)]);
    PushAllConcat(stack, [StartArray], ElemEvents(v, n) + [EndArray(n)]);
    PushOne(stack, StartArray);
    PushAllConcat(s1, ElemEvents(v, n), [EndArray(n)]);
    ElemsPushed(v, n, s1);
    assert v.elems[..n] == v.elems;
    var s2 := s1 + v.elems;
    PushOne(s2, EndArray(n));
    assert s2[|s2| - n..] == v.elems && s2[..|s2| - n - 1] == stack;
  }

  lemma {:induction false} ElemsPushed(v: Value, k: nat, stack: seq<Value>)
    requires v.Arr? && k <= |v.elems|
    ensures PushAll(stack, ElemEvents(v, k)) == stack + v.elems[..k]
    decreases v, 0, k
  {
    if k > 0 {
      PushAllConcat(stack, ElemEvents(v, k - 1), Events(v.elems[k - 1]));
      ElemsPushed(v, k - 1, stack);
      AcceptPushesTree(v.elems[k - 1], stack + v.elems[..k - 1]);
      hide Push, PushAll, Events;
      Grow(stack, v.elems, k - 1);
    }
  }

  lemma {:induction false} ObjPushed(v: Value, stack: seq<Value>)
    requires v.Obj?
    ensures PushAll(stack, Events(v)) == stack + [v]
    decreases v, 0, |v.members| + 1
  {
    var n := |v.members|;
    var s1 := stack + [Obj([])];
    assert Events(v) == [StartObject] + (MemberEvents(v, n) + [EndObject(n)]);
    PushAllConcat(stack, [StartObject], MemberEvents(v, n) + [EndObject(n)]);
    PushOne(stack, StartObject);
    PushAllConcat(s1, MemberEvents(v, n), [EndObject(n)]);
    MembersPushed(v, n, s1);
    assert v.members[..n] == v.members;
    PairsOfFlat(v.members);
    var s2 := s1 + Flat(v.members);
    PushOne(s2, EndObject(n));
    assert s2[|s2| - 2 * n..] == Flat(v.members) && s2[..|s2| - 2 * n - 1] == stack;
  }

  lemma {:induction false} MembersPushed(v: Value, k: nat, stack: seq<Value>)
    requires v.Obj? && k <= |v.members|
    ensures PushAll(stack, MemberEvents(v, k)) == stack + Flat(v.members[..k])
    decreases v, 0, k
  {
    if k > 0 {
      var m, s1 := v.members[k - 1], stack + Flat(v.members[..k - 1]);
      assert MemberEvents(v, k) == MemberEvents(v, k - 1) + ([KeyEvent(m.name)] + Events(m.value));
      PushAllConcat(stack, MemberEvents(v, k - 1), [KeyEvent(m.name)] + Events(m.value));
      MembersPushed(v, k - 1, stack);
      PushAllConcat(s1, [KeyEvent(m.name)], Events(m.value));
      PushOne(s1, KeyEvent(m.name));
      AcceptPushesTree(m.value, s1 + [Str(m.name)]);
      assert v.members[..k][..k - 1] == v.members[..k - 1];
      assert s1 + [Str(m.name)] + [m.value] == stack + (Flat(v.members[..k - 1]) + [Str(m.name), m.value]);
    }
  }

  /** The deep copy of a tree, made through a document, is the tree. */
  function DeepCopy(v: Value): Value {
    AcceptPushesTree(v, []);
    PushAll([], Events(v))[0]
  }

  lemma DeepCopyIsEqual(v: Value)
    ensures DeepCopy(v) == v
  {
    AcceptPushesTree(v, []);
    hide PushAll, Events;
  }

  lemma PairsNext(stack: seq<Value>, base: nat, i: nat)
    requires base <= i && i + 2 <= |stack| && (i - base) % 2 == 0
    ensures Pairs(stack[base..i + 2]) == Pairs(stack[base..i]) + [Member(NameOf(stack[i]), stack[i + 1])]
  {
    var more := stack[base..i + 2];
    assert more[..|more| - 2] == stack[base..i] && more[|more| - 2] == stack[i] && more[|more| - 1] == stack[i + 1];
  }

  /** GenericDocument as a handler. */
  class GenericDocument {
    var stack: seq<Value>

    constructor ()
      ensures stack == []
    {
      stack := [];
    }

    method PushValue(v: Value)
      modifies this
      ensures stack == old(stack) + [v]
    {
      stack := stack + [v];
    }

    method StartObject()
      modifies this
      ensures stack == Push(old(stack), Event.StartObject)
    {
      PushValue(Obj([]));
    }

    method StartArray()
      modifies this
      ensures stack == Push(old(stack), Event.StartArray)
    {
      PushValue(Arr([]));
    }

    method Key(s: Text)
      modifies this
      ensures stack == Push(old(stack), KeyEvent(s))
    {
      PushValue(Str(s));
    }

    /** Pops the members as pairs of values, and SetObjectRaw on the value below them. */
    method EndObject(count: nat)
      requires |stack| > 2 * count
      modifies this
      ensures stack == Push(old(stack), Event.EndObject(count))
    {
      var base := |stack| - 2 * count;
      var members: seq<Member> := [];
      var i := base;
      assert stack[base..base] == [];
      while i < |stack|
        invariant base <= i <= |stack| && (i - base) % 2 == 0 && (|stack| - base) % 2 == 0 && stack == old(stack)
        invariant members == Pairs(stack[base..i])
      {
        PairsNext(stack, base, i);
        hide Pairs;
        members := members + [Member(NameOf(stack[i]), stack[i + 1])];
        i := i + 2;
      }
      assert stack[base..i] == stack[base..];
      stack := stack[..base - 1] + [Obj(members)];
    }

    method EndArray(count: nat)
      requires |stack| > count
      modifies this
      ensures stack == Push(old(stack), Event.EndArray(count))
    {
      var base := |stack| - count;
      stack := stack[..base - 1] + [Arr(stack[base..])];
    }
  }

  /** Accept, with the document as its handler. */
  method Accept(v: Value, handler: GenericDocument)
    modifies handler
    ensures handler.stack == old(handler.stack) + [v]
    decreases v, 1
  {
    match v
    case Null => handler.PushValue(Null);
    case Bool(b) => handler.PushValue(Bool(b));
    case Number(n) => handler.PushValue(Number(n));
    case Str(s) => handler.PushValue(Str(s));
    case Arr(_) => AcceptArray(v, handler);
    case Obj(_) => AcceptObject(v, handler);
  }

  method AcceptArray(v: Value, handler: GenericDocument)
    requires v.Arr?
    modifies handler
    ensures handler.stack == old(handler.stack) + [v]
    decreases v, 0
  {
    ghost var before := handler.stack;
    handler.StartArray();
    for i := 0 to |v.elems|
      invariant handler.stack == before + [Arr([])] + v.elems[..i]
    {
      Accept(v.elems[i], handler);
      Grow(before + [Arr([])], v.elems, i);
    }
    assert v.elems[..|v.elems|] == v.elems;
    ghost var s2 := handler.stack;
    handler.EndArray(|v.elems|);
    assert s2[|s2| - |v.elems|..] == v.elems && s2[..|s2| - |v.elems| - 1] == before;
  }

  method AcceptObject(v: Value, handler: GenericDocument)
    requires v.Obj?
    modifies handler
    ensures handler.stack == old(handler.stack) + [v]
    decreases v, 0
  {
    hide Pairs, Flat;
    ghost var before, n := handler.stack, |v.members|;
    handler.StartObject();
    FlatOfNone(v.members);
    for i := 0 to |v.members|
      invariant handler.stack == before + [Obj([])] + Flat(v.members[..i])
    {
      handler.Key(v.members[i].name);
      Accept(v.members[i].value, handler);
      FlatNext(v.members, i);
      assert handler.stack == before + [Obj([])] + (Flat(v.members[..i]) + [Str(v.members[i].name), v.members[i].value]);
    }
    assert v.members[..n] == v.members;
    PairsOfFlat(v.members);
    ghost var s2 := handler.stack;
    handler.EndObject(|v.members|);
    assert s2[|s2| - 2 * n..] == Flat(v.members) && s2[..|s2| - 2 * n - 1] == before;
  }

  lemma FlatOfNone(members: seq<Member>)
    ensures members[..0] == [] && Flat(members[..0]) == []
  {}

  lemma FlatNext(members: seq<Member>, i: nat)
    requires i < |members|
    ensures Flat(members[..i + 1]) == Flat(members[..i]) + [Str(members[i].name), members[i].value]
  {
    assert members[..i + 1][..i] == members[..i];
  }
}
