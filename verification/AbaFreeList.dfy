/** The list of identifiers of eabase/fiber/list_of_abafree_id.h on values: the blocks in list
    order, the block and the index of the cursor. Class ListOfABAFreeId of module AbaFreeBlocks
    is the linked structure. */
module AbaFreeList {
  import opened Shared

  /** Value of an unused entry. */
  const ID_INIT: int := 0

  type Grid = seq<seq<int>>

  /** k unused entries. */
  function Unused(k: nat): (r: seq<int>)
    ensures |r| == k && forall i :: 0 <= i < k ==> r[i] == ID_INIT
  {
    seq(k, _ => ID_INIT)
  }

  datatype Pos = Pos(b: nat, i: nat)

  datatype State = State(grid: Grid, cur: Pos)

  datatype Result = Added | Again | NoMemory

  ghost predicate Blocks(g: Grid, n: nat) {
    n > 0 && g != [] && forall b :: 0 <= b < |g| ==> |g[b]| == n
  }

  predicate At(g: Grid, p: Pos) {
    p.b < |g| && p.i < |g[p.b]|
  }

  function Get(g: Grid, p: Pos): int
    requires At(g, p)
  {
    g[p.b][p.i]
  }

  function Put(g: Grid, p: Pos, v: int): Grid
    requires At(g, p)
  {
    g[p.b := g[p.b][p.i := v]]
  }

  predicate Live(x: int, alive: set<int>) {
    x != ID_INIT && x in alive
  }

  /** forward_index: the next entry, from the end of the last block back to the head block. */
  function Forward(g: Grid, p: Pos): (r: Pos)
    requires At(g, p)
  {
    if p.i + 1 < |g[p.b]| then Pos(p.b, p.i + 1) else if p.b + 1 < |g| then Pos(p.b + 1, 0) else Pos(0, 0)
  }

  lemma ForwardAt(g: Grid, n: nat, p: Pos)
    requires Blocks(g, n) && At(g, p)
    ensures At(g, Forward(g, p))
  {}

  /** The split of the current block: a new block after it takes over the entries from the
      cursor on. */
  function Split(g: Grid, cur: Pos): Grid
    requires At(g, cur)
  {
    var row := g[cur.b];
    g[..cur.b]
    + [row[..cur.i] + Unused(|row| - cur.i), Unused(cur.i) + row[cur.i..]]
    + g[cur.b + 1..]
  }

  /** Where an old position is after the split; entries are not followed into the new block. */
  function Shift(p: Pos, cur: Pos): Pos {
    if p.b <= cur.b then p else Pos(p.b + 1, p.i)
  }

  /** The writes after the split: the ids at s2 and s1 move one entry on, to the cursor and to
      s2, the one at s3 to d2, and the new id goes to d3. */
  function Writes(g: Grid, cur: Pos, s1: Pos, s2: Pos, s3: Pos, d2: Pos, d3: Pos, id: int): Grid
    requires At(g, cur) && At(g, s1) && At(g, s2) && At(g, s3) && At(g, d2) && At(g, d3)
  {
    var g1 := Put(g, cur, Get(g, s2));
    var g2 := Put(g1, s2, Get(g1, s1));
    var g3 := Put(g2, s1, ID_INIT);
    var g4 := Put(g3, d2, Get(g3, s3));
    var g5 := Put(g4, s3, ID_INIT);
    Put(g5, d3, id)
  }

  function Scatter(g: Grid, n: nat, cur: Pos, s1: Pos, s2: Pos, s3: Pos, id: int): State
    requires Blocks(g, n) && At(g, cur) && At(g, s1) && At(g, s2) && At(g, s3)
  {
    ForwardAt(g, n, cur);
    var d1 := Forward(g, cur);
    ForwardAt(g, n, d1);
    var d2 := Forward(g, d1);
    ForwardAt(g, n, d2);
    var d3 := Forward(g, d2);
    State(Writes(g, cur, s1, s2, s3, d2, d3, id), Forward(g, d3))
  }

  /** add() once four entries in a row were in use. */
  function AddCrowded(s: State, n: nat, saved: seq<Pos>, id: int, maxEntries: nat, memory: bool): (State, Result)
    requires Blocks(s.grid, n) && At(s.grid, s.cur) && |saved| == 4 && forall k :: 0 <= k < 4 ==> At(s.grid, saved[k])
  {
    if |s.grid| * n > maxEntries then (s, Again)
    else if !memory then (s, NoMemory)
    else
      SplitBlocks(s.grid, n, s.cur);
      ShiftAt(s.grid, n, s.cur, saved[1]);
      ShiftAt(s.grid, n, s.cur, saved[2]);
      ShiftAt(s.grid, n, s.cur, saved[3]);
      (Scatter(Split(s.grid, s.cur), n, s.cur, Shift(saved[1], s.cur), Shift(saved[2], s.cur), Shift(saved[3], s.cur), id), Added)
  }

  lemma SplitBlocks(g: Grid, n: nat, cur: Pos)
    requires Blocks(g, n) && At(g, cur)
    ensures Blocks(Split(g, cur), n) && |Split(g, cur)| == |g| + 1
  {}

  lemma ShiftAt(g: Grid, n: nat, cur: Pos, p: Pos)
    requires Blocks(g, n) && At(g, cur) && At(g, p)
    ensures At(Split(g, cur), Shift(p, cur))
  {}

  /** The scan of at most four entries. */
  function AddFrom(s: State, n: nat, saved: seq<Pos>, id: int, alive: set<int>, maxEntries: nat, memory: bool): (State, Result)
    requires Blocks(s.grid, n) && At(s.grid, s.cur) && |saved| <= 4 && forall k :: 0 <= k < |saved| ==> At(s.grid, saved[k])
    decreases 4 - |saved|
  {
    if |saved| == 4 then AddCrowded(s, n, saved, id, maxEntries, memory)
    else
      ForwardAt(s.grid, n, s.cur);
      var next := Forward(s.grid, s.cur);
      if !Live(Get(s.grid, s.cur), alive) then (State(Put(s.grid, s.cur, id), next), Added)
      else AddFrom(s.(cur := next), n, saved + [s.cur], id, alive, maxEntries, memory)
  }

  function Add(s: State, n: nat, id: int, alive: set<int>, maxEntries: nat, memory: bool): (State, Result)
    requires Blocks(s.grid, n) && At(s.grid, s.cur)
  {
    AddFrom(s, n, [], id, alive, maxEntries, memory)
  }

  // ------------------------------------------------------------ what the list holds

  function All(g: Grid): multiset<int> {
    if g == [] then multiset{} else multiset(g[0]) + All(g[1..])
  }

  lemma {:induction false} AllConcat(g: Grid, h: Grid)
    ensures All(g + h) == All(g) + All(h)
  {
    if g == [] {
      assert g + h == h;
    } else {
      assert (g + h)[0] == g[0] && (g + h)[1..] == g[1..] + h;
      AllConcat(g[1..], h);
    }
  }

  lemma RowPut(row: seq<int>, i: nat, v: int)
    requires i < |row|
    ensures multiset(row[i := v]) == multiset(row) - multiset{row[i]} + multiset{v}
  {}

  /** A write replaces one id by another. */
  lemma PutCounts(g: Grid, p: Pos, v: int, x: int)
    requires At(g, p)
    ensures All(Put(g, p, v))[x] == All(g)[x] - One(x == Get(g, p)) + One(x == v)
    ensures All(g)[x] >= One(x == Get(g, p))
  {
    var row, row' := g[p.b], g[p.b][p.i := v];
    assert g == g[..p.b] + ([row] + g[p.b + 1..]);
    assert Put(g, p, v) == g[..p.b] + ([row'] + g[p.b + 1..]);
    AllConcat(g[..p.b], [row] + g[p.b + 1..]);
    AllConcat(g[..p.b], [row'] + g[p.b + 1..]);
    AllConcat([row], g[p.b + 1..]);
    AllConcat([row'], g[p.b + 1..]);
    AllOne(row);
    AllOne(row');
    RowPut(row, p.i, v);
    assert row[p.i] in multiset(row);
  }

  lemma AllOne(row: seq<int>)
    ensures All([row]) == multiset(row)
  {
    assert [row][1..] == [];
  }

  lemma {:induction false} NoneOf(k: nat, x: int)
    requires x != ID_INIT
    ensures multiset(Unused(k))[x] == 0
  {
    assert x !in Unused(k);
  }

  /** The split moves ids but neither drops nor copies one. */
  lemma SplitCounts(g: Grid, cur: Pos, x: int)
    requires At(g, cur) && x != ID_INIT
    ensures All(Split(g, cur))[x] == All(g)[x]
  {
    var row, b, c := g[cur.b], cur.b, cur.i;
    var left, right := row[..c] + Unused(|row| - c), Unused(c) + row[c..];
    assert row == row[..c] + row[c..];
    NoneOf(|row| - c, x);
    NoneOf(c, x);
    assert multiset(left)[x] + multiset(right)[x] == multiset(row)[x];
    assert g == g[..b] + ([row] + g[b + 1..]);
    assert Split(g, cur) == g[..b] + (([left] + [right]) + g[b + 1..]);
    AllConcat(g[..b], [row] + g[b + 1..]);
    AllConcat(g[..b], ([left] + [right]) + g[b + 1..]);
    AllConcat([row], g[b + 1..]);
    AllConcat([left] + [right], g[b + 1..]);
    AllConcat([left], [right]);
    AllOne(row);
    AllOne(left);
    AllOne(right);
  }

  // ------------------------------------------------------------ where the four entries are

  /** The position k steps before `p`, for k up to the size of a block. */
  function Back(blocks: nat, n: nat, p: Pos, k: nat): Pos
    requires blocks > 0 && k <= n
  {
    if k <= p.i then Pos(p.b, p.i - k) else Pos(if p.b > 0 then p.b - 1 else blocks - 1, n + p.i - k)
  }

  lemma BackOfForward(g: Grid, n: nat, p: Pos, k: nat)
    requires Blocks(g, n) && At(g, p) && k + 1 <= n
    ensures Back(|g|, n, Forward(g, p), k + 1) == Back(|g|, n, p, k)
  {}

  /** The saved positions are the last ones passed. */
  ghost predicate Passed(g: Grid, n: nat, cur: Pos, saved: seq<Pos>) {
    g != [] && |saved| <= n && forall k :: 0 <= k < |saved| ==> saved[k] == Back(|g|, n, cur, |saved| - k)
  }

  lemma PassedOne(g: Grid, n: nat, cur: Pos, saved: seq<Pos>)
    requires Blocks(g, n) && At(g, cur) && Passed(g, n, cur, saved) && |saved| < n
    ensures Passed(g, n, Forward(g, cur), saved + [cur])
  {
    forall k | 0 <= k < |saved| + 1 ensures (saved + [cur])[k] == Back(|g|, n, Forward(g, cur), |saved| + 1 - k) {
      BackOfForward(g, n, cur, |saved| - k);
    }
  }

  // ------------------------------------------------------------ the crowded path

  /** After the split the entries from the cursor on are free for a whole block: to the end of
      the current block and, in the new one, up to the cursor's index. */
  predicate Freed(p: Pos, cur: Pos) {
    (p.b == cur.b && p.i >= cur.i) || (p.b == cur.b + 1 && p.i < cur.i)
  }

  lemma FreedIsInit(g: Grid, cur: Pos, p: Pos)
    requires At(g, cur) && At(Split(g, cur), p) && Freed(p, cur)
    ensures Get(Split(g, cur), p) == ID_INIT
  {}

  /** The k-th position after the cursor, for k below the size of a block. */
  function Ahead(n: nat, cur: Pos, k: nat): Pos {
    if cur.i + k < n then Pos(cur.b, cur.i + k) else Pos(cur.b + 1, cur.i + k - n)
  }

  lemma AheadIsForward(g: Grid, n: nat, cur: Pos, k: nat)
    requires Blocks(g, n) && cur.b + 1 < |g| && cur.i < n && k + 1 < n + (n - cur.i) && At(g, Ahead(n, cur, k))
    ensures Forward(g, Ahead(n, cur, k)) == Ahead(n, cur, k + 1)
  {}

  /** The four saved positions and the four from the cursor on, in the split grid. */
  ghost predicate Placed(blocks: nat, n: nat, cur: Pos, s1: Pos, s2: Pos, s3: Pos) {
    && blocks > 0 && n >= 4 && cur.b < blocks && cur.i < n
    && s1 == Shift(Back(blocks, n, cur, 3), cur) && s2 == Shift(Back(blocks, n, cur, 2), cur) && s3 == Shift(Back(blocks, n, cur, 1), cur)
  }

  /** Where old and new positions coincide, which takes a single block, the old entry is one that
      the split has moved away. */
  lemma Aliases(blocks: nat, n: nat, cur: Pos, s1: Pos, s2: Pos, s3: Pos)
    requires Placed(blocks, n, cur, s1, s2, s3)
    ensures s1 != s2 && s1 != s3 && s2 != s3 && cur != s1 && cur != s2 && cur != s3
    ensures Ahead(n, cur, 2) != cur && Ahead(n, cur, 3) != cur && Ahead(n, cur, 2) != Ahead(n, cur, 3) && Ahead(n, cur, 2) != s3
    ensures Freed(cur, cur) && Freed(Ahead(n, cur, 2), cur) && Freed(Ahead(n, cur, 3), cur)
    ensures Freed(s2, cur) ==> Freed(s1, cur)
  {}

  lemma Rotate(g: Grid, d: Pos, s1: Pos, s2: Pos, x: int)
    requires At(g, d) && At(g, s1) && At(g, s2) && d != s1 && d != s2 && s1 != s2 && Get(g, d) == ID_INIT && x != ID_INIT
    ensures var g1 := Put(g, d, Get(g, s2)); var g2 := Put(g1, s2, Get(g1, s1)); All(Put(g2, s1, ID_INIT))[x] == All(g)[x]
  {
    var g1 := Put(g, d, Get(g, s2));
    var g2 := Put(g1, s2, Get(g1, s1));
    PutCounts(g, d, Get(g, s2), x);
    PutCounts(g1, s2, Get(g1, s1), x);
    PutCounts(g2, s1, ID_INIT, x);
    hide All;
  }

  lemma MoveTo(g: Grid, d: Pos, s: Pos, x: int)
    requires At(g, d) && At(g, s) && d != s && Get(g, d) == ID_INIT && x != ID_INIT
    ensures All(Put(Put(g, d, Get(g, s)), s, ID_INIT))[x] == All(g)[x]
  {
    var g1 := Put(g, d, Get(g, s));
    PutCounts(g, d, Get(g, s), x);
    PutCounts(g1, s, ID_INIT, x);
    hide All;
  }

  lemma ForwardSplit(g: Grid, n: nat, cur: Pos)
    requires Blocks(g, n) && n >= 4 && cur.b + 1 < |g| && cur.i < n
    ensures Forward(g, cur) == Ahead(n, cur, 1) && Forward(g, Forward(g, cur)) == Ahead(n, cur, 2)
    ensures Forward(g, Forward(g, Forward(g, cur))) == Ahead(n, cur, 3)
    ensures At(g, Ahead(n, cur, 2)) && At(g, Ahead(n, cur, 3))
  {
    AheadIsForward(g, n, cur, 0);
    AheadIsForward(g, n, cur, 1);
    AheadIsForward(g, n, cur, 2);
  }

  lemma PutGet(g: Grid, p: Pos, v: int, q: Pos)
    requires At(g, p) && At(g, q)
    ensures At(Put(g, p, v), q) && Get(Put(g, p, v), q) == if q == p then v else Get(g, q)
  {}

  /** The entry d is free when it is written: it is free after the split and no saved id has been
      put there by the rotation of s2, s1 and the cursor. */
  lemma StillFree(g: Grid, cur: Pos, s1: Pos, s2: Pos, d: Pos)
    requires At(g, cur) && At(g, s1) && At(g, s2) && At(g, d) && d != cur && cur != s1 && cur != s2 && s1 != s2
    requires Get(g, d) == ID_INIT && (d == s2 ==> Get(g, s1) == ID_INIT)
    ensures var g1 := Put(g, cur, Get(g, s2)); var g2 := Put(g1, s2, Get(g1, s1)); Get(Put(g2, s1, ID_INIT), d) == ID_INIT
  {}

  /** Every write goes to a free entry: nothing but the new id is added and nothing is lost. */
  lemma WritesCount(g: Grid, cur: Pos, s1: Pos, s2: Pos, s3: Pos, d2: Pos, d3: Pos, id: int, x: int)
    requires At(g, cur) && At(g, s1) && At(g, s2) && At(g, s3) && At(g, d2) && At(g, d3) && x != ID_INIT
    requires s1 != s2 && cur != s1 && cur != s2 && d2 != cur && d3 != cur && d2 != d3 && d2 != s3
    requires Get(g, cur) == Get(g, d2) == Get(g, d3) == ID_INIT
    requires d2 == s2 || d3 == s2 ==> Get(g, s1) == ID_INIT
    ensures All(Writes(g, cur, s1, s2, s3, d2, d3, id))[x] == All(g)[x] + One(x == id)
  {
    var g1 := Put(g, cur, Get(g, s2));
    var g2 := Put(g1, s2, Get(g1, s1));
    var g3 := Put(g2, s1, ID_INIT);
    var g4 := Put(g3, d2, Get(g3, s3));
    var g5 := Put(g4, s3, ID_INIT);
    Rotate(g, cur, s1, s2, x);
    StillFree(g, cur, s1, s2, d2);
    StillFree(g, cur, s1, s2, d3);
    MoveTo(g3, d2, s3, x);
    PutGet(g3, d2, Get(g3, s3), d3);
    PutGet(g4, s3, ID_INIT, d3);
    PutCounts(g5, d3, id, x);
    assert Writes(g, cur, s1, s2, s3, d2, d3, id) == Put(g5, d3, id);
    hide *;
  }

  lemma ScatterCounts(g: Grid, n: nat, cur: Pos, s1: Pos, s2: Pos, s3: Pos, id: int, x: int)
    requires Blocks(g, n) && Placed(|g|, n, cur, s1, s2, s3) && x != ID_INIT
    requires Blocks(Split(g, cur), n) && |Split(g, cur)| == |g| + 1
    requires At(Split(g, cur), s1) && At(Split(g, cur), s2) && At(Split(g, cur), s3)
    ensures All(Scatter(Split(g, cur), n, cur, s1, s2, s3, id).grid)[x] == All(g)[x] + One(x == id)
  {
    var h := Split(g, cur);
    var d2, d3 := Ahead(n, cur, 2), Ahead(n, cur, 3);
    Aliases(|g|, n, cur, s1, s2, s3);
    ForwardSplit(h, n, cur);
    SplitCounts(g, cur, x);
    FreedIsInit(g, cur, cur);
    FreedIsInit(g, cur, d2);
    FreedIsInit(g, cur, d3);
    if Freed(s1, cur) { FreedIsInit(g, cur, s1); }
    hide All, Split, Shift, Back, Ahead, Freed, Placed, Forward, Get, Put, Writes;
    WritesCount(h, cur, s1, s2, s3, d2, d3, id, x);
  }

  // ------------------------------------------------------------ add

  lemma CrowdedCounts(s: State, n: nat, saved: seq<Pos>, id: int, maxEntries: nat, memory: bool, x: int)
    requires Blocks(s.grid, n) && n >= 4 && At(s.grid, s.cur) && |saved| == 4 && (forall k :: 0 <= k < 4 ==> At(s.grid, saved[k]))
    requires Passed(s.grid, n, s.cur, saved) && x != ID_INIT
    ensures var (s', r) := AddCrowded(s, n, saved, id, maxEntries, memory);
            && (r.Added? ==> All(s'.grid)[x] == All(s.grid)[x] + One(x == id))
            && (!r.Added? ==> s' == s)
  {
    if |s.grid| * n <= maxEntries && memory {
      SplitBlocks(s.grid, n, s.cur);
      ShiftAt(s.grid, n, s.cur, saved[1]);
      ShiftAt(s.grid, n, s.cur, saved[2]);
      ShiftAt(s.grid, n, s.cur, saved[3]);
      ScatterCounts(s.grid, n, s.cur, Shift(saved[1], s.cur), Shift(saved[2], s.cur), Shift(saved[3], s.cur), id, x);
    }
    hide All, Split, Scatter;
  }

  lemma {:induction false} FromCounts(s: State, n: nat, saved: seq<Pos>, id: int, alive: set<int>, maxEntries: nat, memory: bool, x: int)
    requires Blocks(s.grid, n) && n >= 4 && At(s.grid, s.cur) && |saved| <= 4 && (forall k :: 0 <= k < |saved| ==> At(s.grid, saved[k]))
    requires Passed(s.grid, n, s.cur, saved) && Live(x, alive)
    ensures var (s', r) := AddFrom(s, n, saved, id, alive, maxEntries, memory);
            && (r.Added? ==> All(s'.grid)[x] == All(s.grid)[x] + One(x == id))
            && (!r.Added? ==> s'.grid == s.grid)
    decreases 4 - |saved|
  {
    if |saved| == 4 {
      CrowdedCounts(s, n, saved, id, maxEntries, memory, x);
    } else {
      ForwardAt(s.grid, n, s.cur);
      if !Live(Get(s.grid, s.cur), alive) {
        PutCounts(s.grid, s.cur, id, x);
      } else {
        PassedOne(s.grid, n, s.cur, saved);
        FromCounts(s.(cur := Forward(s.grid, s.cur)), n, saved + [s.cur], id, alive, maxEntries, memory, x);
      }
    }
    hide All, AddCrowded, Put;
  }

  /** With blocks of at least four entries: when add() succeeds the live ids are the old ones and
      the new one, each as often as before, on every path; when it fails nothing has changed. */
  lemma AddKeepsLiveIds(s: State, n: nat, id: int, alive: set<int>, maxEntries: nat, memory: bool, x: int)
    requires Blocks(s.grid, n) && n >= 4 && At(s.grid, s.cur) && Live(x, alive)
    ensures var (s', r) := Add(s, n, id, alive, maxEntries, memory);
            && (r.Added? ==> All(s'.grid)[x] == All(s.grid)[x] + One(x == id))
            && (!r.Added? ==> s'.grid == s.grid)
  {
    FromCounts(s, n, [], id, alive, maxEntries, memory, x);
  }

  /** The cursor stays on an entry and the blocks keep their size. */
  lemma {:induction false} AddKeepsShape(s: State, n: nat, saved: seq<Pos>, id: int, alive: set<int>, maxEntries: nat, memory: bool)
    requires Blocks(s.grid, n) && At(s.grid, s.cur) && |saved| <= 4 && (forall k :: 0 <= k < |saved| ==> At(s.grid, saved[k]))
    ensures var (s', _) := AddFrom(s, n, saved, id, alive, maxEntries, memory);
            Blocks(s'.grid, n) && At(s'.grid, s'.cur) && |s.grid| <= |s'.grid| <= |s.grid| + 1
    decreases 4 - |saved|
  {
    if |saved| == 4 {
      CrowdedKeepsShape(s, n, saved, id, maxEntries, memory);
    } else {
      ForwardAt(s.grid, n, s.cur);
      if Live(Get(s.grid, s.cur), alive) {
        AddKeepsShape(s.(cur := Forward(s.grid, s.cur)), n, saved + [s.cur], id, alive, maxEntries, memory);
      }
    }
    hide AddCrowded;
  }

  lemma PutShape(g: Grid, n: nat, p: Pos, v: int)
    requires Blocks(g, n) && At(g, p)
    ensures Blocks(Put(g, p, v), n) && |Put(g, p, v)| == |g|
  {}

  lemma ScatterShape(g: Grid, n: nat, cur: Pos, s1: Pos, s2: Pos, s3: Pos, id: int)
    requires Blocks(g, n) && At(g, cur) && At(g, s1) && At(g, s2) && At(g, s3)
    ensures var s' := Scatter(g, n, cur, s1, s2, s3, id); Blocks(s'.grid, n) && |s'.grid| == |g| && At(s'.grid, s'.cur)
  {
    var d1 := Forward(g, cur);
    ForwardAt(g, n, cur);
    ForwardAt(g, n, d1);
    var d2 := Forward(g, d1);
    ForwardAt(g, n, d2);
    var d3 := Forward(g, d2);
    ForwardAt(g, n, d3);
    hide Forward;
    var g1 := Put(g, cur, Get(g, s2));
    PutShape(g, n, cur, Get(g, s2));
    var g2 := Put(g1, s2, Get(g1, s1));
    PutShape(g1, n, s2, Get(g1, s1));
    var g3 := Put(g2, s1, ID_INIT);
    PutShape(g2, n, s1, ID_INIT);
    var g4 := Put(g3, d2, Get(g3, s3));
    PutShape(g3, n, d2, Get(g3, s3));
    var g5 := Put(g4, s3, ID_INIT);
    PutShape(g4, n, s3, ID_INIT);
    PutShape(g5, n, d3, id);
    hide Put, Get;
  }

  lemma CrowdedKeepsShape(s: State, n: nat, saved: seq<Pos>, id: int, maxEntries: nat, memory: bool)
    requires Blocks(s.grid, n) && At(s.grid, s.cur) && |saved| == 4 && (forall k :: 0 <= k < 4 ==> At(s.grid, saved[k]))
    ensures var (s', _) := AddCrowded(s, n, saved, id, maxEntries, memory);
            Blocks(s'.grid, n) && At(s'.grid, s'.cur) && |s.grid| <= |s'.grid| <= |s.grid| + 1
  {
    if |s.grid| * n <= maxEntries && memory {
      SplitBlocks(s.grid, n, s.cur);
      ShiftAt(s.grid, n, s.cur, saved[1]);
      ShiftAt(s.grid, n, s.cur, saved[2]);
      ShiftAt(s.grid, n, s.cur, saved[3]);
      ScatterShape(Split(s.grid, s.cur), n, s.cur, Shift(saved[1], s.cur), Shift(saved[2], s.cur), Shift(saved[3], s.cur), id);
    }
    hide Scatter, Split, Shift;
  }

  /** add() fails exactly when the next four entries are all in use and there is no room for,
      or no memory for, another block. */
  lemma AddFailsWhenCrowded(s: State, n: nat, id: int, alive: set<int>, maxEntries: nat, memory: bool)
    requires Blocks(s.grid, n) && At(s.grid, s.cur)
    ensures var p1 := Forward(s.grid, s.cur);
            var p2 := if At(s.grid, p1) then Forward(s.grid, p1) else p1;
            var p3 := if At(s.grid, p2) then Forward(s.grid, p2) else p2;
            var crowded := At(s.grid, p3)
                           && Live(Get(s.grid, s.cur), alive) && Live(Get(s.grid, p1), alive) && Live(Get(s.grid, p2), alive)
                           && Live(Get(s.grid, p3), alive);
            var r := Add(s, n, id, alive, maxEntries, memory).1;
            && (r.Again? <==> crowded && |s.grid| * n > maxEntries)
            && (r.NoMemory? <==> crowded && |s.grid| * n <= maxEntries && !memory)
  {
    var p1 := Forward(s.grid, s.cur);
    ForwardAt(s.grid, n, s.cur);
    var p2 := Forward(s.grid, p1);
    ForwardAt(s.grid, n, p1);
    ForwardAt(s.grid, n, p2);
    var p3 := Forward(s.grid, p2);
    ForwardAt(s.grid, n, p3);
    hide Split, Scatter, Forward, Get;
    var a1, a2, a3 := [s.cur], [s.cur, p1], [s.cur, p1, p2];
    assert [] + [s.cur] == a1 && a1 + [p1] == a2 && a2 + [p2] == a3;
    AddStep(s, n, [], id, alive, maxEntries, memory);
    AddStep(s.(cur := p1), n, a1, id, alive, maxEntries, memory);
    AddStep(s.(cur := p2), n, a2, id, alive, maxEntries, memory);
    AddStep(s.(cur := p3), n, a3, id, alive, maxEntries, memory);
  }

  lemma AddStep(s: State, n: nat, saved: seq<Pos>, id: int, alive: set<int>, maxEntries: nat, memory: bool)
    requires Blocks(s.grid, n) && At(s.grid, s.cur) && |saved| < 4 && (forall k :: 0 <= k < |saved| ==> At(s.grid, saved[k]))
    requires At(s.grid, Forward(s.grid, s.cur))
    ensures var more := saved + [s.cur];
            AddFrom(s, n, saved, id, alive, maxEntries, memory) ==
            if !Live(Get(s.grid, s.cur), alive) then (State(Put(s.grid, s.cur, id), Forward(s.grid, s.cur)), Added)
            else AddFrom(s.(cur := Forward(s.grid, s.cur)), n, more, id, alive, maxEntries, memory)
  {}

  // ------------------------------------------------------------ apply

  /** The ids of a row that are in use, in order. */
  function LiveOf(row: seq<int>, alive: set<int>): seq<int> {
    if row == [] then [] else (if Live(row[0], alive) then [row[0]] else []) + LiveOf(row[1..], alive)
  }

  /** What apply() hands to its function. */
  function Visited(g: Grid, alive: set<int>): seq<int> {
    if g == [] then [] else LiveOf(g[0], alive) + Visited(g[1..], alive)
  }

  lemma {:induction false} LiveOfCounts(row: seq<int>, alive: set<int>, x: int)
    ensures multiset(LiveOf(row, alive))[x] == if Live(x, alive) then multiset(row)[x] else 0
  {
    if row != [] {
      LiveOfCounts(row[1..], alive, x);
      assert row == [row[0]] + row[1..];
    }
  }

  /** Each live id is visited as often as it is held, and no other. */
  lemma {:induction false} VisitsEachLiveId(g: Grid, alive: set<int>, x: int)
    ensures multiset(Visited(g, alive))[x] == if Live(x, alive) then All(g)[x] else 0
  {
    if g != [] {
      LiveOfCounts(g[0], alive, x);
      VisitsEachLiveId(g[1..], alive, x);
    }
  }

  // ------------------------------------------------------------ blocks of fewer than four

  /** The next index of a block of n entries. */
  function Next(n: nat, i: nat): nat {
    if i + 1 < n then i + 1 else 0
  }

  /** The scan of a full single block passes four entries, lapping it if it has fewer. */
  lemma FullScan(row: seq<int>, c: nat, id: int, alive: set<int>, maxEntries: nat)
    requires c < |row| && (forall k :: 0 <= k < |row| ==> Live(row[k], alive))
    ensures var n := |row|; var c1 := Next(n, c); var c2 := Next(n, c1); var c3 := Next(n, c2);
            Add(State([row], Pos(0, c)), n, id, alive, maxEntries, true) ==
            AddCrowded(State([row], Pos(0, Next(n, c3))), n, [Pos(0, c), Pos(0, c1), Pos(0, c2), Pos(0, c3)], id, maxEntries, true)
  {
    var g, n := [row], |row|;
    var c1 := Next(n, c);
    var c2 := Next(n, c1);
    var c3 := Next(n, c2);
    var p0, p1, p2, p3 := Pos(0, c), Pos(0, c1), Pos(0, c2), Pos(0, c3);
    assert Forward(g, p0) == p1 && Forward(g, p1) == p2 && Forward(g, p2) == p3 && Forward(g, p3) == Pos(0, Next(n, c3));
    assert [] + [p0] == [p0] && [p0] + [p1] == [p0, p1] && [p0, p1] + [p2] == [p0, p1, p2] && [p0, p1, p2] + [p3] == [p0, p1, p2, p3];
    hide Forward, AddCrowded, AddFrom;
    AddStep(State(g, p0), n, [], id, alive, maxEntries, true);
    AddStep(State(g, p1), n, [p0], id, alive, maxEntries, true);
    AddStep(State(g, p2), n, [p0, p1], id, alive, maxEntries, true);
    AddStep(State(g, p3), n, [p0, p1, p2], id, alive, maxEntries, true);
    AddFour(State(g, Pos(0, Next(n, c3))), n, [p0, p1, p2, p3], id, alive, maxEntries, true);
  }

  lemma AddFour(s: State, n: nat, saved: seq<Pos>, id: int, alive: set<int>, maxEntries: nat, memory: bool)
    requires Blocks(s.grid, n) && At(s.grid, s.cur) && |saved| == 4 && forall k :: 0 <= k < 4 ==> At(s.grid, saved[k])
    ensures AddFrom(s, n, saved, id, alive, maxEntries, memory) == AddCrowded(s, n, saved, id, maxEntries, memory)
  {}

  /** x is in the grid at D at most. */
  ghost predicate OnlyAt(g: Grid, x: int, d: Pos) {
    forall p :: At(g, p) && Get(g, p) == x ==> p == d
  }

  ghost predicate Nowhere(g: Grid, x: int) {
    forall p :: At(g, p) ==> Get(g, p) != x
  }

  lemma PutOnly(g: Grid, x: int, d: Pos, p: Pos, v: int)
    requires At(g, p) && v != x && (OnlyAt(g, x, d) || Nowhere(g, x))
    ensures OnlyAt(g, x, d) ==> OnlyAt(Put(g, p, v), x, d)
    ensures (OnlyAt(g, x, d) && p == d) || Nowhere(g, x) ==> Nowhere(Put(g, p, v), x)
  {
    var h := Put(g, p, v);
    forall q | At(h, q) ensures At(g, q) && Get(h, q) == if q == p then v else Get(g, q) { PutGet(g, p, v, q); }
    hide Put, Get;
  }

  lemma {:induction false} NowhereCounts(g: Grid, x: int)
    requires Nowhere(g, x)
    ensures All(g)[x] == 0
  {
    if g != [] {
      forall i | 0 <= i < |g[0]| ensures g[0][i] != x { assert Get(g, Pos(0, i)) != x; }
      forall p | At(g[1..], p) ensures Get(g[1..], p) != x { assert Get(g, Pos(p.b + 1, p.i)) == Get(g[1..], p); }
      NowhereCounts(g[1..], x);
    }
  }

  /** No write reads x, and one of the last two overwrites it. */
  lemma WritesLose(g: Grid, cur: Pos, s1: Pos, s2: Pos, s3: Pos, d2: Pos, d3: Pos, id: int, x: int, d: Pos)
    requires At(g, cur) && At(g, s1) && At(g, s2) && At(g, s3) && At(g, d2) && At(g, d3)
    requires OnlyAt(g, x, d) && d != s1 && d != s2 && d != s3 && (d == d2 || d == d3) && x != id && x != ID_INIT
    ensures All(Writes(g, cur, s1, s2, s3, d2, d3, id))[x] == 0
  {
    var g1 := Put(g, cur, Get(g, s2));
    PutOnly(g, x, d, cur, Get(g, s2));
    var g2 := Put(g1, s2, Get(g1, s1));
    PutOnly(g1, x, d, s2, Get(g1, s1));
    var g3 := Put(g2, s1, ID_INIT);
    PutOnly(g2, x, d, s1, ID_INIT);
    var g4 := Put(g3, d2, Get(g3, s3));
    PutOnly(g3, x, d, d2, Get(g3, s3));
    var g5 := Put(g4, s3, ID_INIT);
    PutOnly(g4, x, d, s3, ID_INIT);
    PutOnly(g5, x, d, d3, id);
    NowhereCounts(Put(g5, d3, id), x);
    hide OnlyAt, Nowhere, All, Put, Get;
  }

  lemma SplitOnlyAt(row: seq<int>, e: nat)
    requires e < |row| && row[e] != ID_INIT && forall j, k :: 0 <= j < k < |row| ==> row[j] != row[k]
    ensures OnlyAt(Split([row], Pos(0, e)), row[e], Pos(1, e)) && |Split([row], Pos(0, e))| == 2
  {
    var h := Split([row], Pos(0, e));
    assert h == [row[..e] + Unused(|row| - e), Unused(e) + row[e..]];
  }

  lemma CrowdedLoses(row: seq<int>, e: nat, p: Pos, s1: Pos, s2: Pos, s3: Pos, id: int, maxEntries: nat)
    requires e < |row| < 4 && |row| <= maxEntries && row[e] != ID_INIT && row[e] != id
    requires p.b == s1.b == s2.b == s3.b == 0 && p.i < |row| && s1.i < |row| && s2.i < |row| && s3.i < |row|
    requires var h := Split([row], Pos(0, e)); Blocks(h, |row|) && |h| == 2 && OnlyAt(h, row[e], Pos(1, e))
    ensures var (s', r) := AddCrowded(State([row], Pos(0, e)), |row|, [p, s1, s2, s3], id, maxEntries, true);
            r.Added? && All(s'.grid)[row[e]] == 0
  {
    var h, cur := Split([row], Pos(0, e)), Pos(0, e);
    SmallForward(h, |row|, e);
    var d2 := Forward(h, Forward(h, cur));
    ForwardAt(h, |row|, d2);
    hide OnlyAt, All, Split, Writes, Forward, Get, Put;
    WritesLose(h, cur, s1, s2, s3, d2, Forward(h, d2), id, row[e], Pos(1, e));
  }

  lemma SmallForward(h: Grid, n: nat, e: nat)
    requires Blocks(h, n) && |h| == 2 && e < n < 4
    ensures var d2 := Forward(h, Forward(h, Pos(0, e))); At(h, d2) && (Pos(1, e) == d2 || Pos(1, e) == Forward(h, d2))
  {}

  /** With fewer than four entries a block is lapped by the scan, and a write of the crowded path
      lands on an id that the split has just moved: adding to a full single block always loses
      the id at the entry where the scan ends. */
  lemma SmallBlockLosesId(row: seq<int>, c: nat, id: int, alive: set<int>, maxEntries: nat)
    requires c < |row| < 4 && |row| <= maxEntries && (forall k :: 0 <= k < |row| ==> Live(row[k], alive))
    requires (forall j, k :: 0 <= j < k < |row| ==> row[j] != row[k]) && id !in row
    ensures var n := |row|; var e := Next(n, Next(n, Next(n, Next(n, c))));
            var (s', r) := Add(State([row], Pos(0, c)), n, id, alive, maxEntries, true);
            r.Added? && row[e] in All([row]) && row[e] !in All(s'.grid)
  {
    var n := |row|;
    var c1 := Next(n, c);
    var c2 := Next(n, c1);
    var c3 := Next(n, c2);
    var e := Next(n, c3);
    var g, cur := [row], Pos(0, e);
    FullScan(row, c, id, alive, maxEntries);
    SplitBlocks(g, n, cur);
    SplitOnlyAt(row, e);
    SmallForward(Split(g, cur), n, e);
    AllOne(row);
    hide OnlyAt, All, Split, Writes, AddFrom, Forward, Get, Put, Add;
    assert At(g, Pos(0, c1)) && At(g, Pos(0, c2)) && At(g, Pos(0, c3));
    CrowdedLoses(row, e, Pos(0, c), Pos(0, c1), Pos(0, c2), Pos(0, c3), id, maxEntries);
  }

  /** What AddKeepsLiveIds says, of one call and one id. */
  ghost predicate KeepsId(s: State, n: nat, id: int, alive: set<int>, maxEntries: nat, memory: bool, x: int) {
    Blocks(s.grid, n) && At(s.grid, s.cur) && Live(x, alive) ==>
      var (s', r) := Add(s, n, id, alive, maxEntries, memory);
      && (r.Added? ==> All(s'.grid)[x] == All(s.grid)[x] + One(x == id))
      && (!r.Added? ==> s'.grid == s.grid)
  }

  /** A full block of the ids 1 to n. */
  function Full(n: nat): (r: seq<int>)
    ensures |r| == n && forall i :: 0 <= i < n ==> r[i] == i + 1
  {
    seq(n, i => i + 1)
  }

  function UpTo(n: nat): (r: set<int>)
    ensures forall x :: x in r ==> 1 <= x <= n
    ensures forall i :: 0 <= i < n ==> Full(n)[i] in r
  {
    set x | x in Full(n)
  }

  /** add() keeps the live ids of every list exactly when a block has at least four entries. */
  lemma FourEntriesNeeded(n: nat)
    requires n > 0
    ensures (forall s, id, alive, maxEntries, memory, x :: KeepsId(s, n, id, alive, maxEntries, memory, x)) <==> n >= 4
  {
    if n >= 4 {
      forall s, id, alive, maxEntries, memory, x
        ensures KeepsId(s, n, id, alive, maxEntries, memory, x)
      {
        if Blocks(s.grid, n) && At(s.grid, s.cur) && Live(x, alive) {
          AddKeepsLiveIds(s, n, id, alive, maxEntries, memory, x);
        }
        hide Add, All, Blocks, At, Live;
      }
    } else {
      var row, alive := Full(n), UpTo(n);
      SmallBlockLosesId(row, 0, n + 1, alive, n);
      SmallLoss(n, row, alive);
      hide KeepsId;
    }
  }

  lemma SmallLoss(n: nat, row: seq<int>, alive: set<int>)
    requires 0 < n < 4 && row == Full(n) && alive == UpTo(n)
    requires var e := Next(n, Next(n, Next(n, Next(n, 0))));
             var (s', r) := Add(State([row], Pos(0, 0)), n, n + 1, alive, n, true);
             r.Added? && row[e] in All([row]) && row[e] !in All(s'.grid)
    ensures !KeepsId(State([row], Pos(0, 0)), n, n + 1, alive, n, true, row[Next(n, Next(n, Next(n, Next(n, 0))))])
  {
    hide Add, All;
  }
}
