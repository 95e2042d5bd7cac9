/** Resolving, creating, setting and erasing by JSON Pointer (eabase/rapidjson/pointer.h). */
module JsonLens {
  import opened Shared
  import opened JsonTree

  datatype Token = Token(name: seq<bv8>, index: Index)

  datatype Found = Some(value: Value) | Nothing

  const DASH: seq<bv8> := [0x2D]

  /** "-" is no index; Parse makes only such tokens. */
  predicate Parsed(tokens: seq<Token>) {
    forall k :: 0 <= k < |tokens| && tokens[k].name == DASH ==> tokens[k].index == NoIndex
  }

  /** The child that Get goes to. */
  function Child(v: Value, t: Token): Found {
    match v
    case Obj(members) => var k := Find(members, t.name); if k < |members| then Some(members[k].value) else Nothing
    case Arr(elems) => if t.index.At? && t.index.n < |elems| then Some(elems[t.index.n]) else Nothing
    case _ => Nothing
  }

  function Get(v: Value, tokens: seq<Token>): Found {
    if tokens == [] then Some(v)
    else
      match Child(v, tokens[0])
      case Some(child) => Get(child, tokens[1..])
      case Nothing => Nothing
  }

  function Nulls(n: nat): (r: seq<Value>)
    ensures |r| == n && forall k :: 0 <= k < n ==> r[k] == Null
  {
    seq(n, _ => Null)
  }

  predicate Appends(v: Value, t: Token) {
    v.Arr? && t.name == DASH
  }

  /** One round of the loop of Create: the value made ready for the token. */
  function MakeRoom(v: Value, t: Token): Value {
    if Appends(v, t) then Arr(v.elems + [Null])
    else
      var w := if t.index.NoIndex? then (if v.Obj? then v else Obj([])) else if v.Arr? || v.Obj? then v else Arr([]);
      match w
      case Arr(elems) => if t.index.n < |elems| then w else Arr(elems + Nulls(t.index.n + 1 - |elems|))
      case Obj(members) => if Find(members, t.name) < |members| then w else Obj(members + [Member(t.name, Null)])
      case other => other
  }

  /** The place that the round goes to: an element or a member. */
  function Place(v: Value, t: Token): nat {
    match MakeRoom(v, t)
    case Arr(elems) => if Appends(v, t) then |elems| - 1 else t.index.n
    case Obj(members) => Find(members, t.name)
    case _ => 0
  }

  lemma PlaceExists(v: Value, t: Token)
    ensures var w := MakeRoom(v, t);
            (w.Arr? && Place(v, t) < |w.elems|) || (w.Obj? && Place(v, t) < |w.members| && w.members[Place(v, t)].name == t.name)
  {
    if v.Obj? && Find(v.members, t.name) == |v.members| { FindLast(v.members, t.name); }
    FindLast([], t.name);
  }

  lemma {:induction false} FindLast(members: seq<Member>, name: seq<bv8>)
    requires Find(members, name) == |members|
    ensures Find(members + [Member(name, Null)], name) == |members|
  {
    if members == [] {
      assert [] + [Member(name, Null)] == [Member(name, Null)];
    } else {
      assert (members + [Member(name, Null)])[1..] == members[1..] + [Member(name, Null)];
      FindLast(members[1..], name);
    }
  }

  function ChildAt(w: Value, k: nat): Value
    requires (w.Arr? && k < |w.elems|) || (w.Obj? && k < |w.members|)
  {
    if w.Arr? then w.elems[k] else w.members[k].value
  }

  function WithChild(w: Value, k: nat, x: Value): Value
    requires (w.Arr? && k < |w.elems|) || (w.Obj? && k < |w.members|)
  {
    if w.Arr? then Arr(w.elems[k := x]) else Obj(w.members[k := Member(w.members[k].name, x)])
  }

  /** Create, and the assignment that Set makes to what it returns. */
  function Update(v: Value, tokens: seq<Token>, x: Found): Value
    decreases |tokens|
  {
    if tokens == [] then (if x.Some? then x.value else v)
    else
      PlaceExists(v, tokens[0]);
      var w, k := MakeRoom(v, tokens[0]), Place(v, tokens[0]);
      WithChild(w, k, Update(ChildAt(w, k), tokens[1..], x))
  }

  function Create(v: Value, tokens: seq<Token>): Value {
    Update(v, tokens, Nothing)
  }

  function Set(v: Value, tokens: seq<Token>, x: Value): Value {
    Update(v, tokens, Some(x))
  }

  /** What one round leaves in `exist`. */
  predicate StepExists(v: Value, t: Token) {
    if Appends(v, t) then false
    else match v
      case Obj(members) => Find(members, t.name) < |members|
      case Arr(elems) => t.index.At? && t.index.n < |elems|
      case _ => false
  }

  /** *alreadyExist. */
  predicate AlreadyExist(v: Value, tokens: seq<Token>)
    decreases |tokens|
  {
    if tokens == [] then true
    else
      PlaceExists(v, tokens[0]);
      StepExists(v, tokens[0]) && AlreadyExist(ChildAt(MakeRoom(v, tokens[0]), Place(v, tokens[0])), tokens[1..])
  }

  /** No "-" meets an array on the way of Create. */
  predicate NoDash(v: Value, tokens: seq<Token>)
    decreases |tokens|
  {
    if tokens == [] then true
    else
      PlaceExists(v, tokens[0]);
      !Appends(v, tokens[0]) && NoDash(ChildAt(MakeRoom(v, tokens[0]), Place(v, tokens[0])), tokens[1..])
  }

  // ------------------------------------------------------------ one round

  lemma ExistingChild(v: Value, t: Token)
    requires t.name == DASH ==> t.index == NoIndex
    ensures StepExists(v, t) <==> Child(v, t).Some?
    ensures StepExists(v, t) ==> MakeRoom(v, t) == v
    ensures StepExists(v, t) ==> (v.Arr? && Place(v, t) < |v.elems|) || (v.Obj? && Place(v, t) < |v.members|)
    ensures StepExists(v, t) ==> Child(v, t) == Some(ChildAt(v, Place(v, t))) && WithChild(v, Place(v, t), ChildAt(v, Place(v, t))) == v
  {}

  lemma {:induction false} FindSame(members: seq<Member>, k: nat, x: Value, name: seq<bv8>)
    requires k < |members|
    ensures Find(members[k := Member(members[k].name, x)], name) == Find(members, name)
  {
    var more := members[k := Member(members[k].name, x)];
    if k > 0 {
      assert more[1..] == members[1..][k - 1 := Member(members[k].name, x)];
      FindSame(members[1..], k - 1, x, name);
    } else {
      assert more[1..] == members[1..];
    }
  }

  /** The child put in place is the one that Get finds, unless it was appended. */
  lemma PutChild(v: Value, t: Token, x: Value)
    requires t.name == DASH ==> t.index == NoIndex
    ensures var w, k := MakeRoom(v, t), Place(v, t);
            && ((w.Arr? && k < |w.elems|) || (w.Obj? && k < |w.members|))
            && (if Appends(v, t) then Child(WithChild(w, k, x), t) == Nothing else Child(WithChild(w, k, x), t) == Some(x))
  {
    PlaceExists(v, t);
    var w, k := MakeRoom(v, t), Place(v, t);
    if w.Obj? { FindSame(w.members, k, x, t.name); }
  }

  /** Doing the round again goes to the same place. */
  lemma PutAgain(v: Value, t: Token, x: Value)
    requires !Appends(v, t) && (t.name == DASH ==> t.index == NoIndex)
    ensures var w, k := MakeRoom(v, t), Place(v, t);
            && ((w.Arr? && k < |w.elems|) || (w.Obj? && k < |w.members|))
            && var u := WithChild(w, k, x);
               !Appends(u, t) && MakeRoom(u, t) == u && Place(u, t) == k
  {
    PlaceExists(v, t);
    var w, k := MakeRoom(v, t), Place(v, t);
    if w.Obj? { FindSame(w.members, k, x, t.name); }
  }

  // ------------------------------------------------------------ the laws

  /** Set then Get gives the value set, exactly when no "-" met an array on the way. */
  lemma {:induction false} GetAfterSet(v: Value, tokens: seq<Token>, x: Value)
    requires Parsed(tokens)
    ensures Get(Set(v, tokens, x), tokens) == Some(x) <==> NoDash(v, tokens)
    ensures !NoDash(v, tokens) ==> Get(Set(v, tokens, x), tokens) == Nothing
    decreases |tokens|
  {
    if tokens != [] {
      var t := tokens[0];
      PlaceExists(v, t);
      var c := ChildAt(MakeRoom(v, t), Place(v, t));
      PutChild(v, t, Update(c, tokens[1..], Some(x)));
      GetAfterSet(c, tokens[1..], x);
      hide MakeRoom, Place, Child;
    }
  }

  /** alreadyExist is true exactly when Get resolved before, and then Create changes nothing. */
  lemma {:induction false} AlreadyExistTells(v: Value, tokens: seq<Token>)
    requires Parsed(tokens)
    ensures AlreadyExist(v, tokens) <==> Get(v, tokens).Some?
    ensures AlreadyExist(v, tokens) ==> Create(v, tokens) == v
    decreases |tokens|
  {
    if tokens != [] {
      var t := tokens[0];
      PlaceExists(v, t);
      ExistingChild(v, t);
      if StepExists(v, t) { AlreadyExistTells(ChildAt(v, Place(v, t)), tokens[1..]); }
      hide MakeRoom, Place, Child;
    }
  }

  /** Setting what is there already changes nothing. */
  lemma {:induction false} SetOfGet(v: Value, tokens: seq<Token>)
    requires Parsed(tokens) && Get(v, tokens).Some?
    ensures Set(v, tokens, Get(v, tokens).value) == v
    decreases |tokens|
  {
    if tokens != [] {
      var t := tokens[0];
      PlaceExists(v, t);
      ExistingChild(v, t);
      SetOfGet(ChildAt(v, Place(v, t)), tokens[1..]);
      hide MakeRoom, Place, Child, StepExists;
    }
  }

  /** The last of two settings wins. */
  lemma {:induction false} SetTwice(v: Value, tokens: seq<Token>, x: Value, y: Value)
    requires Parsed(tokens) && NoDash(v, tokens)
    ensures Set(Set(v, tokens, x), tokens, y) == Set(v, tokens, y)
    decreases |tokens|
  {
    if tokens != [] {
      var t := tokens[0];
      PlaceExists(v, t);
      var w, k := MakeRoom(v, t), Place(v, t);
      var c := ChildAt(w, k);
      var u := WithChild(w, k, Update(c, tokens[1..], Some(x)));
      PutAgain(v, t, Update(c, tokens[1..], Some(x)));
      hide MakeRoom, Place, Appends;
      SetTwice(c, tokens[1..], x, y);
      WithTwice(w, k, Update(c, tokens[1..], Some(x)), Update(c, tokens[1..], Some(y)));
      hide WithChild, ChildAt;
    }
  }

  lemma WithTwice(w: Value, k: nat, x: Value, y: Value)
    requires (w.Arr? && k < |w.elems|) || (w.Obj? && k < |w.members|)
    ensures ChildAt(WithChild(w, k, x), k) == x && WithChild(WithChild(w, k, x), k, y) == WithChild(w, k, y)
  {}

  /** Where Create goes from an array by a token that is no index, it turns it into an object. */
  predicate KeepsArrays(v: Value, tokens: seq<Token>)
    decreases |tokens|
  {
    if tokens == [] then true
    else
      PlaceExists(v, tokens[0]);
      (v.Arr? ==> Appends(v, tokens[0]) || tokens[0].index.At?)
      && KeepsArrays(ChildAt(MakeRoom(v, tokens[0]), Place(v, tokens[0])), tokens[1..])
  }

  /** The path q leaves the path p at some node that it goes on from. */
  predicate OffPath(v: Value, p: seq<Token>, q: seq<Token>)
    decreases |p|
  {
    if p == [] || q == [] || Child(v, q[0]).Nothing? then false
    else if !StepExists(v, p[0]) || !SameStep(v, p[0], q[0]) then true
    else OffPath(Child(v, q[0]).value, p[1..], q[1..])
  }

  /** Both tokens go to the same child. */
  predicate SameStep(v: Value, s: Token, t: Token) {
    match v
    case Obj(_) => s.name == t.name
    case Arr(_) => s.index == t.index && s.index.At?
    case _ => false
  }

  lemma OtherChild(v: Value, s: Token, t: Token, x: Value)
    requires s.name == DASH ==> s.index == NoIndex
    requires v.Arr? ==> Appends(v, s) || s.index.At?
    requires Child(v, t).Some? && (!StepExists(v, s) || !SameStep(v, s, t))
    ensures var w, k := MakeRoom(v, s), Place(v, s);
            && ((w.Arr? && k < |w.elems|) || (w.Obj? && k < |w.members|)) && Child(WithChild(w, k, x), t) == Child(v, t)
  {
    PlaceExists(v, s);
    var w, k := MakeRoom(v, s), Place(v, s);
    if v.Obj? {
      FindSame(w.members, k, x, t.name);
      if Find(v.members, s.name) == |v.members| { FindOther(v.members, Member(s.name, Null), t.name); }
    }
  }

  lemma {:induction false} FindOther(members: seq<Member>, m: Member, name: seq<bv8>)
    requires Find(members, name) < |members|
    ensures Find(members + [m], name) == Find(members, name)
  {
    if members[0].name != name {
      assert (members + [m])[1..] == members[1..] + [m];
      FindOther(members[1..], m, name);
    }
  }

  /** What resolves off the path of a Create or Set, still resolves to the same value, as long as
      the path turns no array into an object. */
  lemma {:induction false} OffPathStays(v: Value, p: seq<Token>, q: seq<Token>, x: Found)
    requires Parsed(p) && KeepsArrays(v, p) && OffPath(v, p, q)
    ensures Get(Update(v, p, x), q) == Get(v, q)
    decreases |p|
  {
    var s, t := p[0], q[0];
    PlaceExists(v, s);
    var w, k := MakeRoom(v, s), Place(v, s);
    var c := Update(ChildAt(w, k), p[1..], x);
    if !StepExists(v, s) || !SameStep(v, s, t) {
      OtherChild(v, s, t, c);
    } else {
      ExistingChild(v, s);
      PutChild(v, s, c);
      SameChild(w, k, c, s, t);
      OffPathStays(ChildAt(v, k), p[1..], q[1..], x);
    }
    hide MakeRoom, Place;
  }

  lemma SameChild(w: Value, k: nat, c: Value, s: Token, t: Token)
    requires ((w.Arr? && k < |w.elems|) || (w.Obj? && k < |w.members|)) && SameStep(w, s, t)
    ensures Child(WithChild(w, k, c), t) == Child(WithChild(w, k, c), s) && Child(w, t) == Child(w, s)
  {}

  /** Where an array meets a token that is no index its elements are lost. */
  lemma ArrayIsReplaced(v: Value, s: Token, t: Token, x: Value)
    requires v.Arr? && s.index.NoIndex? && s.name != DASH && t.name != s.name
    ensures Get(Set(v, [s], x), [t]).Nothing?
  {
    PlaceExists(v, s);
    GetOne(Set(v, [s], x), [t]);
    assert [s][1..] == [];
  }

  // ------------------------------------------------------------ Erase

  /** Erase: the value afterwards and what is returned. */
  function Erase(v: Value, tokens: seq<Token>): (Value, bool)
    decreases |tokens|
  {
    if tokens == [] then (v, false)
    else if |tokens| == 1 then EraseChild(v, tokens[0])
    else if !StepExists(v, tokens[0]) || Child(v, tokens[0]).Nothing? then (v, false)
    else
      PlaceExists(v, tokens[0]);
      var k := Place(v, tokens[0]);
      var (c, ok) := Erase(Child(v, tokens[0]).value, tokens[1..]);
      (WithChild(MakeRoom(v, tokens[0]), k, c), ok)
  }

  function EraseChild(v: Value, t: Token): (Value, bool) {
    match v
    case Obj(members) => var k := Find(members, t.name); if k < |members| then (Obj(Without(members, k)), true) else (v, false)
    case Arr(elems) => if t.index.At? && t.index.n < |elems| then (Arr(Without(elems, t.index.n)), true) else (v, false)
    case _ => (v, false)
  }

  /** Erase succeeds exactly when there is something to erase that is not the root, and otherwise
      changes nothing. */
  lemma {:induction false} EraseTells(v: Value, tokens: seq<Token>)
    requires Parsed(tokens)
    ensures Erase(v, tokens).1 <==> tokens != [] && Get(v, tokens).Some?
    ensures !Erase(v, tokens).1 ==> Erase(v, tokens).0 == v
    decreases |tokens|
  {
    if |tokens| > 1 {
      var t := tokens[0];
      PlaceExists(v, t);
      ExistingChild(v, t);
      if StepExists(v, t) { EraseTells(Child(v, t).value, tokens[1..]); }
      hide MakeRoom, Place, Child;
    } else if |tokens| == 1 {
      assert Get(v, tokens) == if Child(v, tokens[0]).Some? then Get(Child(v, tokens[0]).value, []) else Nothing by { assert tokens[1..] == []; }
    }
  }

  /** Setting a new member and erasing it again gives back the tree, and so does setting the
      element behind the last one. */
  lemma {:induction false} EraseUndoesSet(v: Value, tokens: seq<Token>, x: Value)
    requires Parsed(tokens) && |tokens| > 0 && Get(v, tokens[..|tokens| - 1]).Some? && Get(v, tokens) == Nothing
    requires var parent := Get(v, tokens[..|tokens| - 1]).value; var t := tokens[|tokens| - 1];
             parent.Obj? || (parent.Arr? && t.index == At(|parent.elems|))
    ensures Erase(Set(v, tokens, x), tokens) == (v, true)
    decreases |tokens|
  {
    var t := tokens[0];
    PlaceExists(v, t);
    if |tokens| == 1 {
      assert tokens[..0] == [] && tokens[1..] == [];
      assert tokens[..|tokens| - 1] == [] && tokens[|tokens| - 1] == t;
      GetOne(v, tokens);
      EraseNew(v, t, x);
      assert Update(ChildAt(MakeRoom(v, t), Place(v, t)), tokens[1..], Some(x)) == x;
    } else {
      assert tokens[..|tokens| - 1][0] == t && tokens[..|tokens| - 1][1..] == tokens[1..][..|tokens[1..]| - 1];
      ExistingChild(v, t);
      var c := ChildAt(v, Place(v, t));
      EraseUndoesSet(c, tokens[1..], x);
      EraseBelow(v, t, c, Set(c, tokens[1..], x));
      hide MakeRoom, Place, Child, StepExists;
    }
  }

  lemma GetOne(v: Value, tokens: seq<Token>)
    requires |tokens| == 1
    ensures Get(v, tokens) == Child(v, tokens[0])
  {
    assert tokens[1..] == [];
  }

  lemma EraseNew(v: Value, t: Token, x: Value)
    requires (t.name == DASH ==> t.index == NoIndex) && Child(v, t).Nothing? && (v.Obj? || (v.Arr? && t.index == At(|v.elems|)))
    ensures var w, k := MakeRoom(v, t), Place(v, t);
            ((w.Arr? && k < |w.elems|) || (w.Obj? && k < |w.members|)) && EraseChild(WithChild(w, k, x), t) == (v, true)
  {
    PlaceExists(v, t);
    var w, k := MakeRoom(v, t), Place(v, t);
    if v.Obj? {
      var more := v.members + [Member(t.name, Null)];
      FindLast(v.members, t.name);
      FindSame(more, |v.members|, x, t.name);
      assert Without(more[|v.members| := Member(t.name, x)], |v.members|) == v.members;
    } else {
      assert Without(w.elems[k := x], k) == v.elems;
    }
  }

  /** Going down again after a Set to the child d, and putting back the child c. */
  lemma EraseBelow(v: Value, t: Token, c: Value, d: Value)
    requires (t.name == DASH ==> t.index == NoIndex) && StepExists(v, t) && Child(v, t) == Some(c)
    ensures var k := Place(v, t);
            && MakeRoom(v, t) == v && ((v.Arr? && k < |v.elems|) || (v.Obj? && k < |v.members|))
            && var u := WithChild(v, k, d);
               && StepExists(u, t) && Child(u, t) == Some(d) && MakeRoom(u, t) == u && Place(u, t) == k
               && WithChild(u, k, c) == v
  {
    ExistingChild(v, t);
    PutChild(v, t, d);
    PutAgain(v, t, d);
    ExistingChild(WithChild(v, Place(v, t), d), t);
    assert WithChild(WithChild(v, Place(v, t), d), Place(v, t), c) == WithChild(v, Place(v, t), c);
  }

  // ------------------------------------------------------------ the loop of Get

  /** The cursor loop of Get; `unresolved` is the number of the token that cannot be resolved. */
  method Resolve(root: Value, tokens: seq<Token>) returns (r: Found, unresolved: nat)
    ensures r == Get(root, tokens)
    ensures r.Nothing? ==> unresolved < |tokens| && Get(root, tokens[..unresolved]).Some? && Get(root, tokens[..unresolved + 1]).Nothing?
  {
    var v := root;
    var t := 0;
    assert tokens[0..] == tokens;
    while t < |tokens|
      invariant t <= |tokens| && Get(v, tokens[t..]) == Get(root, tokens) && Get(root, tokens[..t]) == Some(v)
    {
      assert tokens[t..][0] == tokens[t] && tokens[t..][1..] == tokens[t + 1..];
      GetFurther(root, tokens, t, v);
      match v {
        case Obj(members) =>
          var m := Find(members, tokens[t].name);
          if m == |members| {
            return Nothing, t;
          }
          v := members[m].value;
        case Arr(elems) =>
          if tokens[t].index.NoIndex? || tokens[t].index.n >= |elems| {
            return Nothing, t;
          }
          v := elems[tokens[t].index.n];
        case _ =>
          return Nothing, t;
      }
      t := t + 1;
    }
    assert tokens[t..] == [] && tokens[..t] == tokens;
    r, unresolved := Some(v), 0;
  }

  lemma {:induction false} GetFurther(root: Value, tokens: seq<Token>, t: nat, v: Value)
    requires t < |tokens| && Get(root, tokens[..t]) == Some(v)
    ensures Get(root, tokens[..t + 1]) == Child(v, tokens[t])
    decreases t
  {
    var more := tokens[..t + 1];
    if t == 0 {
      assert more[1..] == [] && more[0] == tokens[0];
    } else {
      var c := Child(root, tokens[0]);
      assert tokens[..t][0] == tokens[0] && tokens[..t][1..] == tokens[1..][..t - 1];
      assert more[0] == tokens[0] && more[1..] == tokens[1..][..t];
      GetFurther(c.value, tokens[1..], t - 1, v);
    }
  }
}
