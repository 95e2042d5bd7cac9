/** ListOfABAFreeId (eabase/fiber/list_of_abafree_id.h) on its linked blocks; what add() and
    apply() do is stated with the functions of module AbaFreeList. */
module AbaFreeBlocks {
  import opened AbaFreeList

  class IdBlock {
    var ids: seq<int>
    var next: IdBlock?

    constructor (n: nat)
      ensures ids == Unused(n) && next == null
    {
      ids, next := Unused(n), null;
    }
  }

  function After(blocks: seq<IdBlock>, k: nat): IdBlock? {
    if k + 1 < |blocks| then blocks[k + 1] else null
  }

  /** The `next` fields run through the blocks, whose entries are the rows of the grid. */
  ghost predicate Represents(blocks: seq<IdBlock>, grid: Grid)
    reads blocks
  {
    |grid| == |blocks| && forall k :: 0 <= k < |blocks| ==> blocks[k].next == After(blocks, k) && blocks[k].ids == grid[k]
  }

  ghost predicate Distinct(blocks: seq<IdBlock>) {
    forall j, k :: 0 <= j < k < |blocks| ==> blocks[j] != blocks[k]
  }

  /** A sequence with one more element after position k. */
  function InsertAfter<T>(x: seq<T>, k: nat, v: T): (r: seq<T>)
    requires k < |x|
  {
    x[..k + 1] + [v] + x[k + 1..]
  }

  lemma DistinctWith(blocks: seq<IdBlock>, k: nat, b: IdBlock)
    requires k < |blocks| && Distinct(blocks) && b !in blocks
    ensures Distinct(InsertAfter(blocks, k, b))
  {}

  lemma RepresentsWith(blocks: seq<IdBlock>, grid: Grid, k: nat, b: IdBlock, row: seq<int>)
    requires |grid| == |blocks| && k < |blocks| && blocks[k].next == b && b.next == After(blocks, k) && blocks[k].ids == row
    requires forall j :: 0 <= j < |blocks| && j != k ==> blocks[j].next == After(blocks, j) && blocks[j].ids == grid[j]
    ensures Represents(InsertAfter(blocks, k, b), InsertAfter(grid[k := row], k, b.ids))
  {
    var more, rows := InsertAfter(blocks, k, b), InsertAfter(grid[k := row], k, b.ids);
    forall j | 0 <= j < |more| ensures more[j].next == After(more, j) && more[j].ids == rows[j] {
      if j <= k { assert more[j] == blocks[j]; } else if j > k + 1 { assert more[j] == blocks[j - 1]; }
    }
  }

  /** The grid with the current block cut at the cursor, and what is cut off. */
  function HeadPart(grid: Grid, cur: Pos): Grid
    requires At(grid, cur)
  {
    grid[cur.b := grid[cur.b][..cur.i] + Unused(|grid[cur.b]| - cur.i)]
  }

  function TailPart(grid: Grid, cur: Pos): seq<int>
    requires At(grid, cur)
  {
    Unused(cur.i) + grid[cur.b][cur.i..]
  }

  lemma SplitIsInsert(grid: Grid, cur: Pos)
    requires At(grid, cur)
    ensures |HeadPart(grid, cur)| == |grid| && Split(grid, cur) == InsertAfter(HeadPart(grid, cur), cur.b, TailPart(grid, cur))
  {}

  /** A saved position: an entry of a block. */
  datatype Entry = Entry(block: IdBlock, i: nat)

  /** Entry e is position p of the list. */
  ghost predicate Names(blocks: seq<IdBlock>, e: Entry, p: Pos) {
    p.b < |blocks| && blocks[p.b] == e.block && p.i == e.i
  }

  /** The first three writes. */
  function Moved(g: Grid, cur: Pos, s1: Pos, s2: Pos): Grid
    requires At(g, cur) && At(g, s1) && At(g, s2)
  {
    var g1 := Put(g, cur, Get(g, s2));
    Put(Put(g1, s2, Get(g1, s1)), s1, ID_INIT)
  }

  /** The other writes, from the entry the third saved id goes to. */
  function LastMoved(g: Grid, n: nat, d2: Pos, s3: Pos, id: int): State
    requires Blocks(g, n) && At(g, d2) && At(g, s3)
  {
    ForwardAt(g, n, d2);
    var d3 := Forward(g, d2);
    State(Put(Put(Put(g, d2, Get(g, s3)), s3, ID_INIT), d3, id), Forward(g, d3))
  }

  lemma LastMovedIs(g: Grid, n: nat, d2: Pos, s3: Pos, id: int)
    requires Blocks(g, n) && At(g, d2) && At(g, s3)
    ensures var d3 := Forward(g, d2);
            At(g, d3) && At(Put(Put(g, d2, Get(g, s3)), s3, ID_INIT), d3)
            && LastMoved(g, n, d2, s3, id) == State(Put(Put(Put(g, d2, Get(g, s3)), s3, ID_INIT), d3, id), Forward(g, d3))
  {
    ForwardAt(g, n, d2);
  }

  lemma ScatterSteps(g: Grid, n: nat, cur: Pos, s1: Pos, s2: Pos, s3: Pos, id: int)
    requires Blocks(g, n) && At(g, cur) && At(g, s1) && At(g, s2) && At(g, s3)
    ensures var g3 := Moved(g, cur, s1, s2); var d1 := Forward(g, cur);
            Blocks(g3, n) && |g3| == |g| && At(g, d1) && At(g, Forward(g, d1)) && At(g3, Forward(g, d1)) && At(g3, s3)
            && Scatter(g, n, cur, s1, s2, s3, id) == LastMoved(g3, n, Forward(g, d1), s3, id)
  {
    var g1 := Put(g, cur, Get(g, s2));
    PutShape(g, n, cur, Get(g, s2));
    PutShape(g1, n, s2, Get(g1, s1));
    PutShape(Put(g1, s2, Get(g1, s1)), n, s1, ID_INIT);
    var g3, d2 := Moved(g, cur, s1, s2), Forward(g, Forward(g, cur));
    ForwardAt(g, n, cur);
    ForwardAt(g, n, Forward(g, cur));
    ForwardAt(g, n, d2);
    ForwardSame(g, g3, n, d2);
    ForwardSame(g, g3, n, Forward(g, d2));
    hide Forward, Put, Get, Blocks;
  }

  lemma ForwardSame(g: Grid, h: Grid, n: nat, p: Pos)
    requires Blocks(g, n) && Blocks(h, n) && |g| == |h| && At(g, p)
    ensures At(h, p) && Forward(h, p) == Forward(g, p)
  {}

  /** The loops that move the entries from the cursor on into the new block. */
  method MoveEntries(from: IdBlock, to: IdBlock, c: nat)
    requires from != to && |from.ids| == |to.ids| && c < |from.ids|
    modifies from`ids, to`ids
    ensures from.ids == old(from.ids[..c]) + Unused(|old(from.ids)| - c)
    ensures to.ids == Unused(c) + old(from.ids[c..])
  {
    for i := 0 to c
      invariant from.ids == old(from.ids) && |to.ids| == |from.ids|
      invariant forall j :: 0 <= j < i ==> to.ids[j] == ID_INIT
    {
      to.ids := to.ids[i := ID_INIT];
    }
    for i := c to |from.ids|
      invariant |to.ids| == |from.ids| == |old(from.ids)|
      invariant forall j :: 0 <= j < c ==> to.ids[j] == ID_INIT && from.ids[j] == old(from.ids)[j]
      invariant forall j :: c <= j < i ==> to.ids[j] == old(from.ids)[j] && from.ids[j] == ID_INIT
      invariant forall j :: i <= j < |from.ids| ==> from.ids[j] == old(from.ids)[j]
    {
      to.ids := to.ids[i := from.ids[i]];
      from.ids := from.ids[i := ID_INIT];
    }
  }

  lemma CrowdedIsScatter(s: State, n: nat, saved: seq<Pos>, id: int, maxEntries: nat)
    requires Blocks(s.grid, n) && At(s.grid, s.cur) && |saved| == 4 && (forall k :: 0 <= k < 4 ==> At(s.grid, saved[k]))
    requires |s.grid| * n <= maxEntries
    ensures var h := Split(s.grid, s.cur);
            && Blocks(h, n) && At(h, s.cur) && At(h, Shift(saved[1], s.cur)) && At(h, Shift(saved[2], s.cur)) && At(h, Shift(saved[3], s.cur))
            && AddCrowded(s, n, saved, id, maxEntries, true) ==
               (Scatter(h, n, s.cur, Shift(saved[1], s.cur), Shift(saved[2], s.cur), Shift(saved[3], s.cur), id), Added)
  {
    SplitBlocks(s.grid, n, s.cur);
    ShiftAt(s.grid, n, s.cur, saved[1]);
    ShiftAt(s.grid, n, s.cur, saved[2]);
    ShiftAt(s.grid, n, s.cur, saved[3]);
    hide Scatter, Split, Shift;
  }

  lemma ShiftIndex(p: Pos, cur: Pos)
    ensures Shift(p, cur).i == p.i
  {}

  lemma OldOrNew(before: seq<IdBlock>, k: nat, b: IdBlock)
    requires k < |before|
    ensures forall x :: x in InsertAfter(before, k, b) ==> x in before || x == b
  {}

  /** What the first k rows contribute. */
  function VisitedTo(g: Grid, k: nat, alive: set<int>): seq<int>
    requires k <= |g|
  {
    Visited(g[..k], alive)
  }

  lemma {:induction false} VisitedConcat(g: Grid, row: seq<int>, alive: set<int>)
    ensures Visited(g + [row], alive) == Visited(g, alive) + LiveOf(row, alive)
  {
    hide LiveOf;
    if g == [] {
      assert [row][1..] == [] && g + [row] == [row];
    } else {
      assert (g + [row])[0] == g[0] && (g + [row])[1..] == g[1..] + [row];
      VisitedConcat(g[1..], row, alive);
    }
  }

  lemma VisitedNext(g: Grid, k: nat, alive: set<int>)
    requires k < |g|
    ensures VisitedTo(g, k + 1, alive) == VisitedTo(g, k, alive) + LiveOf(g[k], alive)
  {
    assert g[..k + 1] == g[..k] + [g[k]];
    VisitedConcat(g[..k], g[k], alive);
  }

  lemma VisitedEnds(g: Grid, alive: set<int>)
    ensures VisitedTo(g, 0, alive) == [] && VisitedTo(g, |g|, alive) == Visited(g, alive)
  {
    assert g[..|g|] == g;
  }

  lemma {:induction false} LiveOfConcat(row: seq<int>, x: int, alive: set<int>)
    ensures LiveOf(row + [x], alive) == LiveOf(row, alive) + (if Live(x, alive) then [x] else [])
  {
    if row == [] {
      assert [x][1..] == [] && row + [x] == [x];
    } else {
      assert (row + [x])[0] == row[0] && (row + [x])[1..] == row[1..] + [x];
      LiveOfConcat(row[1..], x, alive);
    }
  }

  method ApplyToBlock(p: IdBlock, alive: set<int>) returns (visited: seq<int>)
    ensures visited == LiveOf(p.ids, alive)
  {
    visited := [];
    for i := 0 to |p.ids|
      invariant visited == LiveOf(p.ids[..i], alive)
    {
      LiveOfConcat(p.ids[..i], p.ids[i], alive);
      assert p.ids[..i + 1] == p.ids[..i] + [p.ids[i]];
      if p.ids[i] != ID_INIT && p.ids[i] in alive {
        visited := visited + [p.ids[i]];
      }
    }
    assert p.ids[..|p.ids|] == p.ids;
  }

  class ListOfABAFreeId {
    const n: nat
    const headBlock: IdBlock
    var curBlock: IdBlock
    var curIndex: nat
    var nblock: nat
    ghost var blocks: seq<IdBlock>
    ghost var s: State

    ghost predicate Linked()
      reads this
    {
      && Blocks(s.grid, n) && At(s.grid, s.cur) && |blocks| == |s.grid| == nblock && Distinct(blocks) && blocks[0] == headBlock
      && curBlock == blocks[s.cur.b] && curIndex == s.cur.i
    }

    /** The list is in state s. */
    ghost predicate Valid()
      reads this, blocks
    {
      Linked() && Represents(blocks, s.grid)
    }

    constructor (n: nat)
      requires n > 0
      ensures Valid() && this.n == n && s == State([Unused(n)], Pos(0, 0))
      ensures forall b :: b in blocks ==> fresh(b)
    {
      var head := new IdBlock(n);
      this.n := n;
      headBlock, curBlock, curIndex, nblock := head, head, 0, 1;
      blocks, s := [head], State([Unused(n)], Pos(0, 0));
    }

    method ForwardIndex()
      requires Valid()
      modifies this`curBlock, this`curIndex, this`s
      ensures Valid() && s == old(s).(cur := Forward(old(s).grid, old(s).cur))
    {
      assert blocks[s.cur.b].next == After(blocks, s.cur.b);
      ForwardAt(s.grid, n, s.cur);
      curIndex := curIndex + 1;
      if curIndex >= n {
        curIndex := 0;
        if curBlock.next != null {
          curBlock := curBlock.next;
        } else {
          curBlock := headBlock;
        }
      }
      s := s.(cur := Forward(s.grid, s.cur));
    }

    method Load(e: Entry, ghost p: Pos) returns (v: int)
      requires Valid() && Names(blocks, e, p) && p.i < n
      ensures v == Get(s.grid, p)
    {
      v := e.block.ids[e.i];
    }

    method Store(e: Entry, v: int, ghost p: Pos)
      requires Valid() && Names(blocks, e, p) && p.i < n
      modifies this`s, e.block`ids
      ensures Valid() && s == old(s).(grid := Put(old(s).grid, p, v))
    {
      e.block.ids := e.block.ids[e.i := v];
      s := s.(grid := Put(s.grid, p, v));
    }

    /** A new block after the current one takes over the entries from the cursor on. */
    method SplitBlock() returns (newBlock: IdBlock)
      requires Valid()
      modifies this`nblock, this`blocks, this`s, curBlock
      ensures Valid() && s == old(s).(grid := Split(old(s).grid, old(s).cur)) && fresh(newBlock)
      ensures s.cur.b < |old(blocks)| && blocks == InsertAfter(old(blocks), s.cur.b, newBlock)
      ensures forall b :: b in blocks ==> b in old(blocks) || fresh(b)
    {
      newBlock := new IdBlock(n);
      OldOrNew(blocks, s.cur.b, newBlock);
      SplitBlocks(s.grid, n, s.cur);
      hide Split, Represents, Blocks, Distinct;
      CutBlock(newBlock);
      Adopt(newBlock);
    }

    method MoveTail(newBlock: IdBlock)
      requires Valid() && newBlock !in blocks && |newBlock.ids| == n
      modifies curBlock`ids, newBlock`ids
      ensures At(s.grid, s.cur) && Represents(blocks, HeadPart(s.grid, s.cur)) && newBlock.ids == TailPart(s.grid, s.cur)
    {
      assert curBlock.ids == s.grid[s.cur.b];
      MoveEntries(curBlock, newBlock, curIndex);
    }

    method LinkIn(newBlock: IdBlock, ghost grid: Grid)
      requires Linked() && newBlock !in blocks && Represents(blocks, grid)
      modifies curBlock`next, newBlock`next
      ensures s.cur.b < |grid| && Represents(InsertAfter(blocks, s.cur.b, newBlock), InsertAfter(grid, s.cur.b, newBlock.ids))
    {
      ghost var b := s.cur.b;
      assert curBlock.next == After(blocks, b) && grid[b := grid[b]] == grid && curBlock.ids == grid[b];
      newBlock.next := curBlock.next;
      curBlock.next := newBlock;
      RepresentsWith(blocks, grid, b, newBlock, grid[b]);
    }

    /** The entries move and the links change, so that with the new block in its place the list
        is split. */
    method CutBlock(newBlock: IdBlock)
      requires Valid() && newBlock !in blocks && |newBlock.ids| == n
      modifies curBlock, newBlock
      ensures s.cur.b < |blocks| && At(s.grid, s.cur) && Represents(InsertAfter(blocks, s.cur.b, newBlock), Split(s.grid, s.cur))
    {
      SplitIsInsert(s.grid, s.cur);
      assert Linked() && At(s.grid, s.cur) && s.cur.b < |blocks| && curIndex == s.cur.i;
      hide *;
      MoveTail(newBlock);
      LinkIn(newBlock, HeadPart(s.grid, s.cur));
    }

    method Adopt(newBlock: IdBlock)
      requires Linked() && newBlock !in blocks && Represents(InsertAfter(blocks, s.cur.b, newBlock), Split(s.grid, s.cur))
      modifies this`nblock, this`blocks, this`s
      ensures Valid() && s == old(s).(grid := Split(old(s).grid, old(s).cur))
      ensures s.cur.b < |old(blocks)| && blocks == InsertAfter(old(blocks), s.cur.b, newBlock)
    {
      SplitBlocks(s.grid, n, s.cur);
      DistinctWith(blocks, s.cur.b, newBlock);
      assert InsertAfter(blocks, s.cur.b, newBlock)[0] == headBlock;
      assert InsertAfter(blocks, s.cur.b, newBlock)[s.cur.b] == curBlock;
      hide Split, Distinct, Represents;
      nblock := nblock + 1;
      blocks := InsertAfter(blocks, s.cur.b, newBlock);
      s := s.(grid := Split(s.grid, s.cur));
    }

    method StoreAtCursor(v: int)
      requires Valid()
      modifies this`s, curBlock`ids
      ensures Valid() && At(old(s).grid, old(s).cur) && s == old(s).(grid := Put(old(s).grid, old(s).cur, v))
    {
      Store(Entry(curBlock, curIndex), v, s.cur);
    }

    lemma Shape(p: Pos)
      requires Valid() && p.b < |blocks| && p.i < n
      ensures Blocks(s.grid, n) && At(s.grid, s.cur) && At(s.grid, p) && curBlock in blocks
    {}

    /** The writes that spread the four saved ids, and the new id. */
    method ScatterEntries(e1: Entry, e2: Entry, e3: Entry, id: int, ghost s1: Pos, ghost s2: Pos, ghost s3: Pos)
      requires Valid() && Names(blocks, e1, s1) && Names(blocks, e2, s2) && Names(blocks, e3, s3) && s1.i < n && s2.i < n && s3.i < n
      modifies this`curBlock, this`curIndex, this`s, blocks`ids
      ensures Valid() && Blocks(old(s).grid, n) && At(old(s).grid, old(s).cur)
      ensures At(old(s).grid, s1) && At(old(s).grid, s2) && At(old(s).grid, s3)
      ensures s == Scatter(old(s).grid, n, old(s).cur, s1, s2, s3, id)
    {
      ghost var g, cur := s.grid, s.cur;
      Shape(s1);
      Shape(s2);
      Shape(s3);
      ScatterSteps(g, n, cur, s1, s2, s3, id);
      hide *;
      MoveFirst(e1, e2, s1, s2);
      ForwardTwice(g);
      MoveLast(e3, id, s3);
    }

    /** Forward from an entry of g is the same in any grid of its shape. */
    method ForwardTwice(ghost g: Grid)
      requires Valid() && Blocks(g, n) && |g| == |s.grid|
      modifies this`curBlock, this`curIndex, this`s
      ensures Valid() && At(g, old(s).cur) && At(g, Forward(g, old(s).cur))
      ensures s == old(s).(cur := Forward(g, Forward(g, old(s).cur)))
    {
      ForwardSame(g, s.grid, n, s.cur);
      ForwardAt(g, n, s.cur);
      ForwardSame(g, s.grid, n, Forward(g, s.cur));
      hide *;
      ForwardIndex();
      ForwardIndex();
    }

    method MoveLast(e3: Entry, id: int, ghost s3: Pos)
      requires Valid() && Names(blocks, e3, s3) && s3.i < n
      modifies this`curBlock, this`curIndex, this`s, blocks`ids
      ensures Valid() && Blocks(old(s).grid, n) && At(old(s).grid, old(s).cur) && At(old(s).grid, s3)
      ensures s == LastMoved(old(s).grid, n, old(s).cur, s3, id)
    {
      ghost var g := s.grid;
      Shape(s3);
      hide *;
      var v3 := Load(e3, s3);
      StoreAtCursor(v3);
      Store(e3, ID_INIT, s3);
      Shape(s3);
      ForwardSame(g, s.grid, n, s.cur);
      ForwardIndex();
      StoreAtCursor(id);
      Shape(s3);
      ForwardSame(g, s.grid, n, s.cur);
      ForwardIndex();
      LastMovedIs(g, n, old(s).cur, s3, id);
    }

    method MoveFirst(e1: Entry, e2: Entry, ghost s1: Pos, ghost s2: Pos)
      requires Valid() && Names(blocks, e1, s1) && Names(blocks, e2, s2) && s1.i < n && s2.i < n
      modifies this`s, blocks`ids
      ensures Valid() && At(old(s).grid, old(s).cur) && At(old(s).grid, s1) && At(old(s).grid, s2)
      ensures s == old(s).(grid := Moved(old(s).grid, old(s).cur, s1, s2))
    {
      Shape(s1);
      Shape(s2);
      hide *;
      var v2 := Load(e2, s2);
      StoreAtCursor(v2);
      var v1 := Load(e1, s1);
      Store(e2, v1, s2);
      Store(e1, ID_INIT, s1);
    }

    /** The saved entries are where they were, with the new block in the list. */
    lemma NamesAfterSplit(before: seq<IdBlock>, newBlock: IdBlock, e: Entry, p: Pos, cur: Pos)
      requires cur.b < |before| && Names(before, e, p)
      ensures Names(InsertAfter(before, cur.b, newBlock), e, Shift(p, cur))
    {}

    method AddToFull(saved: seq<Entry>, ghost places: seq<Pos>, id: int, maxEntries: nat, memory: bool) returns (r: Result)
      requires Valid() && |saved| == |places| == 4
      requires forall k :: 0 <= k < 4 ==> Names(blocks, saved[k], places[k]) && At(s.grid, places[k])
      modifies this`curBlock, this`curIndex, this`nblock, this`blocks, this`s, blocks
      ensures Valid() && Blocks(old(s).grid, n) && At(old(s).grid, old(s).cur)
      ensures (s, r) == AddCrowded(old(s), n, places, id, maxEntries, memory)
    {
      if nblock * n > maxEntries {
        return Again;
      }
      if !memory {
        return NoMemory;
      }
      ghost var before, cur, g := blocks, s.cur, s.grid;
      assert places[1].i < n && places[2].i < n && places[3].i < n && curBlock in blocks;
      CrowdedIsScatter(s, n, places, id, maxEntries);
      assert Names(before, saved[1], places[1]) && Names(before, saved[2], places[2]) && Names(before, saved[3], places[3]);
      hide Valid, Linked, Represents, Split, Scatter, Shift, AddCrowded, InsertAfter, Names, Blocks, At;
      var newBlock := SplitBlock();
      NamesAfterSplit(before, newBlock, saved[1], places[1], cur);
      NamesAfterSplit(before, newBlock, saved[2], places[2], cur);
      NamesAfterSplit(before, newBlock, saved[3], places[3], cur);
      ShiftIndex(places[1], cur);
      ShiftIndex(places[2], cur);
      ShiftIndex(places[3], cur);
      assert forall k :: 0 <= k < |blocks| ==> blocks[k] in old(blocks) || fresh(blocks[k]);
      ScatterEntries(saved[1], saved[2], saved[3], id, Shift(places[1], cur), Shift(places[2], cur), Shift(places[3], cur));
      r := Added;
    }

    /** exists() answers for the ids in `alive`; `memory` says whether a block can be allocated. */
    method Add(id: int, alive: set<int>, maxEntries: nat, memory: bool) returns (r: Result)
      requires Valid()
      modifies this`curBlock, this`curIndex, this`nblock, this`blocks, this`s, blocks
      ensures Valid() && Blocks(old(s).grid, n) && At(old(s).grid, old(s).cur)
      ensures (s, r) == AbaFreeList.Add(old(s), n, id, alive, maxEntries, memory)
    {
      var saved: seq<Entry> := [];
      ghost var places: seq<Pos> := [];
      for i := 0 to 4
        invariant Valid() && blocks == old(blocks) && |saved| == |places| == i && s.grid == old(s).grid
        invariant forall k :: 0 <= k < i ==> Names(blocks, saved[k], places[k]) && At(s.grid, places[k])
        invariant AddFrom(s, n, places, id, alive, maxEntries, memory) == AbaFreeList.Add(old(s), n, id, alive, maxEntries, memory)
      {
        var pos := Entry(curBlock, curIndex);
        ghost var p := s.cur;
        var v := Load(pos, p);
        ForwardIndex();
        if v == ID_INIT || v !in alive {
          Store(pos, id, p);
          return Added;
        }
        saved, places := saved + [pos], places + [p];
      }
      AddFour(s, n, places, id, alive, maxEntries, memory);
      r := AddToFull(saved, places, id, maxEntries, memory);
    }

    /** apply(): what its function is called with, in order. */
    method Apply(alive: set<int>) returns (visited: seq<int>)
      requires Valid()
      ensures visited == Visited(s.grid, alive)
    {
      visited := [];
      var p: IdBlock? := headBlock;
      ghost var k := 0;
      VisitedEnds(s.grid, alive);
      while p != null
        invariant k <= |blocks| && visited == VisitedTo(s.grid, k, alive)
        invariant p == if k < |blocks| then blocks[k] else null
        decreases |blocks| - k
      {
        assert p.next == After(blocks, k) && p.ids == s.grid[k];
        VisitedNext(s.grid, k, alive);
        var found := ApplyToBlock(p, alive);
        visited := visited + found;
        p := p.next;
        k := k + 1;
      }
    }
  }
}
