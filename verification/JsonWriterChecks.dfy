/** The assertions of the Writer (eabase/rapidjson/writer.h): one root, names that are strings,
    and ends that match their starts. */
module JsonWriterChecks {
  import opened JsonTree
  import opened JsonEvents
  import opened JsonWriter

  /** What Prefix asserts of its level: at the root nothing has been written yet, and an even
      value of an object is a string. */
  predicate PrefixCheck(s: State, isString: bool) {
    if s.levels == [] then !s.hasRoot
    else var top := s.levels[|s.levels| - 1]; !top.inArray && top.count % 2 == 0 ==> isString
  }

  predicate Check(s: State, e: Event) {
    match e
    case StringEvent(_) => PrefixCheck(s, true)
    case KeyEvent(_) => PrefixCheck(s, true)
    case EndObject(_) => s.levels != [] && !s.levels[|s.levels| - 1].inArray
    case EndArray(_) => s.levels != [] && s.levels[|s.levels| - 1].inArray
    case _ => PrefixCheck(s, false)
  }

  /** No call of the run violates an assertion. */
  predicate ChecksHold(s: State, events: seq<Event>)
    decreases |events|
  {
    events == [] || (Check(s, events[0]) && ChecksHold(Write(s, events[0]), events[1..]))
  }

  lemma {:induction false} ChecksConcat(s: State, a: seq<Event>, b: seq<Event>)
    ensures ChecksHold(s, a + b) <==> ChecksHold(s, a) && ChecksHold(WriteAll(s, a), b)
    decreases |a|
  {
    hide Write, Check;
    if a == [] {
      assert a + b == b;
    } else {
      assert (a + b)[0] == a[0] && (a + b)[1..] == a[1..] + b;
      ChecksConcat(Write(s, a[0]), a[1..], b);
    }
  }

  lemma CheckOne(s: State, e: Event)
    ensures ChecksHold(s, [e]) <==> Check(s, e)
  {
    hide Write, Check;
    assert [e][1..] == [];
  }

  lemma InsideChecks(q: State, text: Text, level: Level)
    ensures PrefixCheck(Inside(q, text, level), false) <==> level.inArray || level.count % 2 == 1
    ensures Check(Inside(q, text, level), EndArray(0)) <==> level.inArray
    ensures PrefixCheck(Inside(q, text, level), true)
  {}

  lemma EndsAlike(s: State, n: nat)
    ensures Check(s, EndArray(n)) == Check(s, EndArray(0)) && Check(s, EndObject(n)) == (s.levels != [] && !Check(s, EndArray(0)))
  {}

  /** A value can be accepted exactly where its first call can be made: no assertion fails inside
      it. */
  lemma {:induction false} AcceptChecks(v: Value, s: State)
    ensures ChecksHold(s, Events(v)) <==> PrefixCheck(s, v.Str?)
    decreases v, 1, 0
  {
    match v
    case Arr(_) => ArrChecks(v, s);
    case Obj(_) => ObjChecks(v, s);
    case _ => CheckOne(s, Events(v)[0]);
  }

  lemma {:induction false} ArrChecks(v: Value, s: State)
    requires v.Arr?
    ensures ChecksHold(s, Events(v)) <==> PrefixCheck(s, false)
    decreases v, 0, |v.elems| + 1
  {
    var n, p := |v.elems|, Prefix(s);
    var q := p.(out := p.out + [0x5B]);
    var s1 := Inside(q, [], Level(true, 0));
    var s2 := Inside(q, PrintElems(v, n), Level(true, n));
    assert Events(v) == [StartArray] + (ElemEvents(v, n) + [EndArray(n)]);
    assert Check(s, StartArray) == PrefixCheck(s, false);
    ArrayStarts(s);
    InsideChecks(q, PrintElems(v, n), Level(true, n));
    EndsAlike(s2, n);
    hide Write, Events, ElemEvents, Prefix, Inside, ChecksHold, PrefixCheck, Check, PrintElems;
    ChecksConcat(s, [StartArray], ElemEvents(v, n) + [EndArray(n)]);
    CheckOne(s, StartArray);
    WriteOne(s, StartArray);
    ChecksConcat(s1, ElemEvents(v, n), [EndArray(n)]);
    ElemsCheck(v, n, q);
    ElemsPrinted(v, n, q);
    CheckOne(s2, EndArray(n));
  }

  lemma {:induction false} ElemsCheck(v: Value, k: nat, q: State)
    requires v.Arr? && k <= |v.elems|
    ensures ChecksHold(Inside(q, [], Level(true, 0)), ElemEvents(v, k))
    decreases v, 0, k
  {
    if k > 0 {
      var text := PrintElems(v, k - 1);
      InsideChecks(q, text, Level(true, k - 1));
      PrefixAnyString(Inside(q, text, Level(true, k - 1)));
      ElemsCheck(v, k - 1, q);
      ElemsPrinted(v, k - 1, q);
      AcceptChecks(v.elems[k - 1], Inside(q, text, Level(true, k - 1)));
      ChecksConcat(Inside(q, [], Level(true, 0)), ElemEvents(v, k - 1), Events(v.elems[k - 1]));
      hide Events, ChecksHold, PrefixCheck, Inside, WriteAll, PrintElems;
    }
  }

  lemma PrefixAnyString(s: State)
    ensures PrefixCheck(s, false) ==> PrefixCheck(s, true)
  {}

  lemma {:induction false} ObjChecks(v: Value, s: State)
    requires v.Obj?
    ensures ChecksHold(s, Events(v)) <==> PrefixCheck(s, false)
    decreases v, 0, |v.members| + 1
  {
    var n, p := |v.members|, Prefix(s);
    var q := p.(out := p.out + [0x7B]);
    var s1 := Inside(q, [], Level(false, 0));
    var s2 := Inside(q, PrintMembers(v, n), Level(false, 2 * n));
    assert Events(v) == [StartObject] + (MemberEvents(v, n) + [EndObject(n)]);
    assert Check(s, StartObject) == PrefixCheck(s, false);
    ObjectStarts(s);
    InsideChecks(q, PrintMembers(v, n), Level(false, 2 * n));
    EndsAlike(s2, n);
    assert s2.levels != [];
    hide Write, Events, MemberEvents, Prefix, Inside, ChecksHold, PrefixCheck, Check, PrintMembers;
    ChecksConcat(s, [StartObject], MemberEvents(v, n) + [EndObject(n)]);
    CheckOne(s, StartObject);
    WriteOne(s, StartObject);
    ChecksConcat(s1, MemberEvents(v, n), [EndObject(n)]);
    MembersCheck(v, n, q);
    MembersPrinted(v, n, q);
    CheckOne(s2, EndObject(n));
  }

  lemma {:induction false} MembersCheck(v: Value, k: nat, q: State)
    requires v.Obj? && k <= |v.members|
    ensures ChecksHold(Inside(q, [], Level(false, 0)), MemberEvents(v, k))
    decreases v, 0, k
  {
    hide *;
    if k > 0 {
      var m := v.members[k - 1];
      var s2 := Inside(q, UpToValue(v, k - 1), Level(false, 2 * (k - 1) + 1));
      MembersSplit(v, k);
      ValueMayCome(q, UpToValue(v, k - 1), k - 1, m.value.Str?);
      MembersCheck(v, k - 1, q);
      MembersPrinted(v, k - 1, q);
      AcceptChecks(m.value, s2);
      KeyAndValue(v, k - 1, q);
      ChecksConcat(Inside(q, [], Level(false, 0)), MemberEvents(v, k - 1), [KeyEvent(m.name)] + Events(m.value));
    } else {
      NoMembers(v, Inside(q, [], Level(false, 0)));
    }
  }

  lemma NoMembers(v: Value, s: State)
    requires v.Obj?
    ensures ChecksHold(s, MemberEvents(v, 0))
  {}

  lemma MembersSplit(v: Value, k: nat)
    requires v.Obj? && 0 < k <= |v.members|
    ensures var m := v.members[k - 1]; MemberEvents(v, k) == MemberEvents(v, k - 1) + ([KeyEvent(m.name)] + Events(m.value))
  {
    hide Events;
  }

  lemma ValueMayCome(q: State, text: Text, i: nat, isString: bool)
    ensures PrefixCheck(Inside(q, text, Level(false, 2 * i + 1)), isString)
  {}

  lemma KeyMayCome(q: State, text: Text, level: Level, name: Text)
    ensures Check(Inside(q, text, level), KeyEvent(name))
  {}

  lemma KeyAndValue(v: Value, i: nat, q: State)
    requires v.Obj? && i < |v.members|
    requires ChecksHold(Inside(q, UpToValue(v, i), Level(false, 2 * i + 1)), Events(v.members[i].value))
    ensures ChecksHold(Inside(q, PrintMembers(v, i), Level(false, 2 * i)), [KeyEvent(v.members[i].name)] + Events(v.members[i].value))
  {
    hide *;
    var m, s1 := v.members[i], Inside(q, PrintMembers(v, i), Level(false, 2 * i));
    KeyMayCome(q, PrintMembers(v, i), Level(false, 2 * i), m.name);
    ChecksConcat(s1, [KeyEvent(m.name)], Events(m.value));
    CheckOne(s1, KeyEvent(m.name));
    WriteOne(s1, KeyEvent(m.name));
    KeyPlace(v, i, q);
  }

  /** A new Writer accepts every tree without violating an assertion, and then no second root. */
  lemma OneRoot(v: Value, w: Value)
    ensures ChecksHold(State([], [], false), Events(v))
    ensures !ChecksHold(WriteAll(State([], [], false), Events(v)), Events(w))
  {
    AcceptChecks(v, State([], [], false));
    WholeDocumentPrints(v);
    AcceptChecks(w, State(Print(v), [], true));
    hide Events, Print, ChecksHold, WriteAll;
  }
}
