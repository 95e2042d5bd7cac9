/** Create, Set and Erase (eabase/rapidjson/pointer.h) as loops that move a cursor through a
    document and change it in place, against the functions of module JsonLens. The cursor is the
    list of places on the way from the root. */
module JsonCursor {
  import opened JsonTree
  import opened JsonLens
  import Parser = JsonPointerParser
  import Text = JsonPointer

  predicate HasChild(v: Value, k: nat) {
    (v.Arr? && k < |v.elems|) || (v.Obj? && k < |v.members|)
  }

  predicate HasPlace(v: Value, path: seq<nat>) {
    path == [] || (HasChild(v, path[0]) && HasPlace(ChildAt(v, path[0]), path[1..]))
  }

  function ValueAt(v: Value, path: seq<nat>): Value
    requires HasPlace(v, path)
  {
    if path == [] then v else ValueAt(ChildAt(v, path[0]), path[1..])
  }

  function PutAt(v: Value, path: seq<nat>, x: Value): Value
    requires HasPlace(v, path)
  {
    if path == [] then x else WithChild(v, path[0], PutAt(ChildAt(v, path[0]), path[1..], x))
  }

  lemma WithChildAt(v: Value, k: nat, x: Value)
    requires HasChild(v, k)
    ensures var w := WithChild(v, k, x); HasChild(w, k) && ChildAt(w, k) == x && forall y :: WithChild(w, k, y) == WithChild(v, k, y)
    ensures WithChild(v, k, ChildAt(v, k)) == v
  {}

  /** What is put at a place is there, and may be replaced. */
  lemma {:induction false} PutThere(v: Value, path: seq<nat>, x: Value, y: Value)
    requires HasPlace(v, path)
    ensures var w := PutAt(v, path, x);
            HasPlace(w, path) && ValueAt(w, path) == x && PutAt(w, path, y) == PutAt(v, path, y)
    ensures PutAt(v, path, ValueAt(v, path)) == v
    decreases |path|
  {
    if path != [] {
      var c := ChildAt(v, path[0]);
      PutThere(c, path[1..], x, y);
      WithChildAt(v, path[0], PutAt(c, path[1..], x));
      WithChildAt(v, path[0], c);
    }
  }

  /** One place further down. */
  lemma {:induction false} Further(v: Value, path: seq<nat>, k: nat, x: Value)
    requires HasPlace(v, path) && HasChild(ValueAt(v, path), k)
    ensures HasPlace(v, path + [k]) && ValueAt(v, path + [k]) == ChildAt(ValueAt(v, path), k)
    ensures PutAt(v, path + [k], x) == PutAt(v, path, WithChild(ValueAt(v, path), k, x))
    decreases |path|
  {
    var more := path + [k];
    if path == [] {
      assert more[0] == k && more[1..] == [];
    } else {
      assert more[0] == path[0] && more[1..] == path[1..] + [k];
      Further(ChildAt(v, path[0]), path[1..], k, x);
    }
  }

  // ------------------------------------------------------------ Create

  /** One round of the loop of Create on the value under the cursor. */
  method MakeRoomFor(v: Value, t: Token) returns (w: Value, k: nat, existed: bool)
    ensures w == MakeRoom(v, t) && k == Place(v, t) && existed == StepExists(v, t)
  {
    w, existed := v, true;
    if v.Arr? && t.name == DASH {
      return Arr(v.elems + [Null]), |v.elems|, false;
    }
    if t.index.NoIndex? {
      if !w.Obj? { w := Obj([]); }
    } else {
      if !w.Arr? && !w.Obj? { w := Arr([]); }
    }
    if w.Arr? {
      assert t.index.At? && !Appends(v, t);
      var elems, enough := Fill(w.elems, t.index.n);
      w, k, existed := Arr(elems), t.index.n, enough;
    } else {
      var m := Find(w.members, t.name);
      if m == |w.members| {
        FindLast(w.members, t.name);
        w, k, existed := Obj(w.members + [Member(t.name, Null)]), m, false;
      } else {
        k := m;
      }
    }
  }

  /** The loop that makes an array long enough for index n. */
  method Fill(elems0: seq<Value>, n: nat) returns (elems: seq<Value>, enough: bool)
    ensures enough <==> n < |elems0|
    ensures elems == if enough then elems0 else elems0 + Nulls(n + 1 - |elems0|)
  {
    elems, enough := elems0, n < |elems0|;
    while n >= |elems|
      invariant |elems0| <= |elems| && (enough ==> elems == elems0) && (!enough ==> |elems| <= n + 1)
      invariant elems == elems0 + Nulls(|elems| - |elems0|)
      decreases n + 1 - |elems|
    {
      assert Nulls(|elems| - |elems0|) + [Null] == Nulls(|elems| + 1 - |elems0|);
      elems := elems + [Null];
    }
  }

  /** The cursor stands before token t, and what is left to do there is what is left to do. */
  ghost predicate Creating(root0: Value, root: Value, path: seq<nat>, tokens: seq<Token>, t: nat, exist: bool) {
    && t <= |tokens| && HasPlace(root, path)
    && (forall x :: PutAt(root, path, Update(ValueAt(root, path), tokens[t..], x)) == Update(root0, tokens, x))
    && (AlreadyExist(root0, tokens) <==> exist && AlreadyExist(ValueAt(root, path), tokens[t..]))
  }

  lemma CreatingStarts(root: Value, tokens: seq<Token>)
    ensures Creating(root, root, [], tokens, 0, true)
  {
    assert tokens[0..] == tokens;
  }

  lemma CreatingGoesOn(root0: Value, root: Value, path: seq<nat>, tokens: seq<Token>, t: nat, exist: bool)
    requires Creating(root0, root, path, tokens, t, exist) && t < |tokens|
    ensures var v := ValueAt(root, path); var w, k := MakeRoom(v, tokens[t]), Place(v, tokens[t]);
            HasPlace(root, path) && Creating(root0, PutAt(root, path, w), path + [k], tokens, t + 1, exist && StepExists(v, tokens[t]))
  {
    var v := ValueAt(root, path);
    var w, k := MakeRoom(v, tokens[t]), Place(v, tokens[t]);
    var root1, rest := PutAt(root, path, w), tokens[t..];
    assert rest[0] == tokens[t] && rest[1..] == tokens[t + 1..];
    PlaceExists(v, tokens[t]);
    assert HasChild(w, k);
    PutThere(root, path, w, w);
    Further(root1, path, k, w);
    hide MakeRoom, Place, PutAt, ValueAt, HasPlace;
    forall x
      ensures PutAt(root1, path + [k], Update(ChildAt(w, k), tokens[t + 1..], x)) == Update(root0, tokens, x)
    {
      var c := Update(ChildAt(w, k), tokens[t + 1..], x);
      Further(root1, path, k, c);
      PutThere(root, path, w, WithChild(w, k, c));
      assert Update(v, rest, x) == WithChild(w, k, c);
    }
  }

  class Document {
    var root: Value

    constructor (root: Value)
      ensures this.root == root
    {
      this.root := root;
    }

    /** Create: the place that the cursor ends at, and whether it was there before. */
    method Create(tokens: seq<Token>) returns (path: seq<nat>, alreadyExist: bool)
      modifies this
      ensures root == JsonLens.Create(old(root), tokens) && HasPlace(root, path)
      ensures forall x :: PutAt(root, path, x) == JsonLens.Set(old(root), tokens, x)
      ensures alreadyExist == AlreadyExist(old(root), tokens)
    {
      CreatingStarts(root, tokens);
      path, alreadyExist := [], true;
      hide *;
      for t := 0 to |tokens|
        invariant Creating(old(root), root, path, tokens, t, alreadyExist)
      {
        CreatingGoesOn(old(root), root, path, tokens, t, alreadyExist);
        var w, k, existed := MakeRoomFor(ValueAt(root, path), tokens[t]);
        root := PutAt(root, path, w);
        path, alreadyExist := path + [k], alreadyExist && existed;
      }
      CreatingEnds(old(root), root, path, tokens, alreadyExist);
    }

    /** Set: the value is assigned to what Create returns. */
    method Set(tokens: seq<Token>, x: Value)
      modifies this
      ensures root == JsonLens.Set(old(root), tokens, x)
    {
      var path, _ := Create(tokens);
      root := PutAt(root, path, x);
    }

    /** Erase: the cursor goes to the parent of the last token. */
    method Erase(tokens: seq<Token>) returns (ok: bool)
      requires Parsed(tokens)
      modifies this
      ensures (root, ok) == JsonLens.Erase(old(root), tokens)
    {
      if |tokens| == 0 {
        return false;
      }
      ErasingStarts(root, tokens);
      var path: seq<nat> := [];
      hide *;
      for t := 0 to |tokens| - 1
        invariant root == old(root) && Erasing(root, path, tokens, t)
      {
        ErasingGoesOn(root, path, tokens, t);
        var k, found := StepDown(ValueAt(root, path), tokens[t]);
        if !found {
          return false;
        }
        path := path + [k];
      }
      ErasingEnds(root, path, tokens);
      var c;
      c, ok := EraseMember(ValueAt(root, path), tokens[|tokens| - 1]);
      if ok {
        root := PutAt(root, path, c);
      }
    }
  }

  lemma CreatingEnds(root0: Value, root: Value, path: seq<nat>, tokens: seq<Token>, exist: bool)
    requires Creating(root0, root, path, tokens, |tokens|, exist)
    ensures root == JsonLens.Create(root0, tokens) && HasPlace(root, path) && exist == AlreadyExist(root0, tokens)
    ensures forall x :: PutAt(root, path, x) == JsonLens.Set(root0, tokens, x)
  {
    var v := ValueAt(root, path);
    assert tokens[|tokens|..] == [];
    PutThere(root, path, v, v);
    assert Update(v, [], Nothing) == v;
    forall x
      ensures PutAt(root, path, x) == JsonLens.Set(root0, tokens, x)
    {
      assert Update(v, [], Some(x)) == x;
    }
  }

  // ------------------------------------------------------------ Erase

  /** One round of the loop of Erase. */
  method StepDown(v: Value, t: Token) returns (k: nat, found: bool)
    requires t.name == DASH ==> t.index == NoIndex
    ensures found == StepExists(v, t) && (found ==> k == Place(v, t))
  {
    ExistingChild(v, t);
    match v {
      case Obj(members) =>
        k := Find(members, t.name);
        found := k < |members|;
      case Arr(elems) =>
        found := t.index.At? && t.index.n < |elems|;
        k := if found then t.index.n else 0;
      case _ =>
        return 0, false;
    }
  }

  /** The switch behind the loop. */
  method EraseMember(v: Value, t: Token) returns (c: Value, ok: bool)
    ensures (c, ok) == EraseChild(v, t) && (!ok ==> c == v)
  {
    match v {
      case Obj(members) =>
        var k := Find(members, t.name);
        if k == |members| {
          return v, false;
        }
        return Obj(members[..k] + members[k + 1..]), true;
      case Arr(elems) =>
        if t.index.NoIndex? || t.index.n >= |elems| {
          return v, false;
        }
        return Arr(elems[..t.index.n] + elems[t.index.n + 1..]), true;
      case _ =>
        return v, false;
    }
  }

  ghost predicate Erasing(root: Value, path: seq<nat>, tokens: seq<Token>, t: nat) {
    && t < |tokens| && HasPlace(root, path)
    && var (c, ok) := JsonLens.Erase(ValueAt(root, path), tokens[t..]);
       JsonLens.Erase(root, tokens) == (PutAt(root, path, c), ok)
  }

  lemma ErasingStarts(root: Value, tokens: seq<Token>)
    requires tokens != []
    ensures Erasing(root, [], tokens, 0)
  {
    assert tokens[0..] == tokens;
  }

  lemma ErasingGoesOn(root: Value, path: seq<nat>, tokens: seq<Token>, t: nat)
    requires Erasing(root, path, tokens, t) && t + 1 < |tokens| && Parsed(tokens)
    ensures HasPlace(root, path) && (tokens[t].name == DASH ==> tokens[t].index == NoIndex)
    ensures var v := ValueAt(root, path);
            if StepExists(v, tokens[t]) then Erasing(root, path + [Place(v, tokens[t])], tokens, t + 1)
            else JsonLens.Erase(root, tokens) == (root, false)
  {
    var v, rest, k := ValueAt(root, path), tokens[t..], Place(ValueAt(root, path), tokens[t]);
    assert rest[0] == tokens[t] && rest[1..] == tokens[t + 1..];
    ExistingChild(v, tokens[t]);
    PutThere(root, path, v, v);
    if StepExists(v, tokens[t]) {
      Further(root, path, k, v);
      Further(root, path, k, JsonLens.Erase(ChildAt(v, k), tokens[t + 1..]).0);
    }
    hide MakeRoom, Place, PutAt, ValueAt, HasPlace, StepExists, Child;
  }

  lemma ErasingEnds(root: Value, path: seq<nat>, tokens: seq<Token>)
    requires tokens != [] && Erasing(root, path, tokens, |tokens| - 1)
    ensures HasPlace(root, path)
    ensures var (c, ok) := EraseChild(ValueAt(root, path), tokens[|tokens| - 1]);
            && JsonLens.Erase(root, tokens) == (PutAt(root, path, c), ok)
            && (c == ValueAt(root, path) ==> PutAt(root, path, c) == root)
  {
    var v := ValueAt(root, path);
    assert tokens[|tokens| - 1..] == [tokens[|tokens| - 1]];
    PutThere(root, path, v, v);
  }

  // ------------------------------------------------------------ from text

  /** The tokens that Parse makes for these names. */
  function TokensOf(names: seq<Text.Text>): (r: seq<Token>)
    ensures |r| == |names|
    ensures forall k :: 0 <= k < |names| ==> r[k] == Token(names[k], Parser.IndexOf(names[k]))
  {
    seq(|names|, k requires 0 <= k < |names| => Token(names[k], Parser.IndexOf(names[k])))
  }

  lemma TokensAreParsed(names: seq<Text.Text>)
    ensures Parsed(TokensOf(names))
  {
    forall k | 0 <= k < |names| && names[k] == DASH
      ensures Parser.IndexOf(names[k]) == NoIndex
    {
      assert !Text.IsDigit(DASH[0]);
    }
  }

  /** The tokens of a pointer, read from its buffer, as the loops above take them. */
  method ReadTokens(p: Parser.GenericPointer, ghost names: seq<Text.Text>) returns (tokens: seq<Token>)
    requires p.Holds(names)
    ensures tokens == TokensOf(names)
  {
    tokens := [];
    ghost var used :| Parser.AllRead(p.nameBuffer[..], p.tokens, names, used);
    for k := 0 to |p.tokens|
      invariant |tokens| == k <= |names| && tokens == TokensOf(names)[..k]
    {
      assert Parser.Reads(p.nameBuffer[..], p.tokens[k], names[k], used);
      var name := p.NameOf(p.tokens[k], names[k]);
      tokens := tokens + [Token(name, p.tokens[k].index)];
    }
  }

  /** Setting by the text of a pointer and getting by it: the value set comes back exactly when
      no "-" of the text has met an array. */
  lemma GetAfterSetByText(source: Text.Text, v: Value, x: Value)
    requires Text.Parse(source).Tokens?
    ensures var tokens := TokensOf(Text.Parse(source).names);
            Get(JsonLens.Set(v, tokens, x), tokens) == Some(x) <==> NoDash(v, tokens)
  {
    var names := Text.Parse(source).names;
    TokensAreParsed(names);
    GetAfterSet(v, TokensOf(names), x);
  }
}
