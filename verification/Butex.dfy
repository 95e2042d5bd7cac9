/** Sequences of waiters without repetition: filtering, reversing and removing. */
module WaiterLists {

  ghost predicate Distinct<T(!new)>(q: seq<T>) {
    forall i, j :: 0 <= i < j < |q| ==> q[i] != q[j]
  }

  function Elements(q: seq<nat>): (s: set<nat>)
    ensures forall t :: t in s <==> t in q
  {
    set t | t in q
  }

  function Keep(q: seq<nat>, s: set<nat>): seq<nat> {
    if q == [] then [] else (if q[0] in s then [q[0]] else []) + Keep(q[1..], s)
  }

  function Drop(q: seq<nat>, s: set<nat>): seq<nat> {
    if q == [] then [] else (if q[0] in s then [] else [q[0]]) + Drop(q[1..], s)
  }

  function Reverse(q: seq<nat>): seq<nat> {
    if q == [] then [] else Reverse(q[1..]) + [q[0]]
  }

  lemma {:induction false} KeepMembers(q: seq<nat>, s: set<nat>)
    ensures forall t :: t in Keep(q, s) <==> t in q && t in s
    ensures forall t :: t in Drop(q, s) <==> t in q && t !in s
    ensures |Keep(q, s)| + |Drop(q, s)| == |q|
  {
    if q != [] { KeepMembers(q[1..], s); }
  }

  lemma {:induction false} KeepDistinct(q: seq<nat>, s: set<nat>)
    requires Distinct(q)
    ensures Distinct(Keep(q, s)) && Distinct(Drop(q, s))
  {
    if q != [] {
      KeepDistinct(q[1..], s);
      KeepMembers(q[1..], s);
      assert q[0] !in q[1..];
    }
  }

  lemma {:induction false} ReverseMembers(q: seq<nat>)
    ensures |Reverse(q)| == |q|
    ensures forall t :: t in Reverse(q) <==> t in q
    ensures Distinct(q) ==> Distinct(Reverse(q))
  {
    if q != [] {
      ReverseMembers(q[1..]);
      if Distinct(q) { DistinctConcat(Reverse(q[1..]), [q[0]]); }
    }
  }

  lemma {:induction false} KeepSnoc(q: seq<nat>, t: nat, s: set<nat>)
    ensures Keep(q + [t], s) == if t in s then Keep(q, s) + [t] else Keep(q, s)
    ensures Drop(q + [t], s) == if t in s then Drop(q, s) else Drop(q, s) + [t]
  {
    if q != [] {
      assert (q + [t])[1..] == q[1..] + [t];
      KeepSnoc(q[1..], t, s);
    }
  }

  lemma DistinctConcat(a: seq<nat>, b: seq<nat>)
    requires Distinct(a) && Distinct(b) && forall t :: t in a ==> t !in b
    ensures Distinct(a + b)
  {
    forall i, j | 0 <= i < j < |a + b|
      ensures (a + b)[i] != (a + b)[j]
    {
      if i < |a| <= j {
        assert a[i] in a && b[j - |a|] in b;
      }
    }
  }

  lemma {:induction false} ReverseTail(q: seq<nat>)
    requires q != []
    ensures Reverse(q) == [q[|q| - 1]] + Reverse(q[..|q| - 1])
  {
    if |q| > 1 {
      ReverseTail(q[1..]);
      assert q[1..][..|q| - 2] == q[..|q| - 1][1..];
    }
  }

  /** Dropping one element of a list without repetition shortens it by one. */
  lemma {:induction false} DropOne(q: seq<nat>, t: nat)
    requires Distinct(q) && t in q
    ensures |Drop(q, {t})| == |q| - 1
  {
    if q[0] == t {
      DropNone(q[1..], {t});
    } else {
      DropOne(q[1..], t);
    }
  }

  lemma {:induction false} DropNone(q: seq<nat>, s: set<nat>)
    requires forall t :: t in q ==> t !in s
    ensures Drop(q, s) == q
  {
    if q != [] {
      assert q[0] in q;
      DropNone(q[1..], s);
    }
  }
}

/** The wait queues of eabase/fiber/butex.cc.

    `Lists` is what the per-butex locks protect: every queue and every waiter's `container`
    pointer (a waiter missing from `container` has a NULL one). Each `...Section` function is
    one critical section; it also yields the waiters it unlinked, in the order in which they
    are made runnable after the lock is released. */
module Butex {
  import opened WaiterLists

  type Tid = nat
  type ButexId = nat

  datatype Lists = Lists(waiters: map<ButexId, seq<Tid>>, container: map<Tid, ButexId>)

  function Queue(l: Lists, b: ButexId): seq<Tid> {
    if b in l.waiters then l.waiters[b] else []
  }

  /** wait_for_butex, once the value has been found to match. */
  function EnqueueSection(l: Lists, b: ButexId, t: Tid): Lists {
    Lists(l.waiters[b := Queue(l, b) + [t]], l.container[t := b])
  }

  function WakeSection(l: Lists, b: ButexId): (Lists, seq<Tid>) {
    var q := Queue(l, b);
    if q == [] then (l, []) else (Lists(l.waiters[b := q[1..]], l.container - {q[0]}), [q[0]])
  }

  /** Pthreads first, then the fibers after the first one backwards, then the first fiber. */
  function WakeAllOrder(q: seq<Tid>, pthreads: set<Tid>): seq<Tid> {
    var fibers := Drop(q, pthreads);
    if fibers == [] then Keep(q, pthreads)
    else Keep(q, pthreads) + Reverse(fibers[1..]) + [fibers[0]]
  }

  function WakeAllSection(l: Lists, b: ButexId, pthreads: set<Tid>): (Lists, seq<Tid>) {
    var q := Queue(l, b);
    (Lists(l.waiters[b := []], l.container - Elements(q)), WakeAllOrder(q, pthreads))
  }

  /** Everyone but one fiber; a pthread is never excluded. */
  function Excluded(q: seq<Tid>, pthreads: set<Tid>, excluded: Tid): seq<Tid> {
    if excluded in q && excluded !in pthreads then [excluded] else []
  }

  function WakeExceptOrder(q: seq<Tid>, pthreads: set<Tid>, excluded: Tid): seq<Tid> {
    Keep(q, pthreads) + Reverse(Drop(Drop(q, pthreads), {excluded}))
  }

  /** The waiters that leave the queue when all but `excluded` are woken. */
  function Leaving(q: seq<Tid>, pthreads: set<Tid>, excluded: Tid): set<Tid> {
    Elements(q) - Elements(Excluded(q, pthreads, excluded))
  }

  function WakeExceptSection(l: Lists, b: ButexId, pthreads: set<Tid>, excluded: Tid): (Lists, seq<Tid>) {
    var q := Queue(l, b);
    (Lists(l.waiters[b := Excluded(q, pthreads, excluded)], l.container - Leaving(q, pthreads, excluded)),
     WakeExceptOrder(q, pthreads, excluded))
  }

  /** Wake the first waiter of `b` and move the others behind those of `m`. */
  function RequeueSection(l: Lists, b: ButexId, m: ButexId): (Lists, seq<Tid>) {
    var q := Queue(l, b);
    if q == [] then (l, [])
    else
      var moved := q[1..];
      (Lists(l.waiters[b := []][m := Queue(l, m) + moved],
             map t | t in l.container && t != q[0] :: if t in moved then m else l.container[t]),
       [q[0]])
  }

  /** The locked part of erase_from_butex, entered with a `container` read before. */
  function EraseSection(l: Lists, b: ButexId, t: Tid): (Lists, seq<Tid>) {
    if t in l.container && l.container[t] == b
    then (Lists(l.waiters[b := Drop(Queue(l, b), {t})], l.container - {t}), [t])
    else (l, [])
  }

  // ------------------------------------------------------------ what every section keeps

  /** A waiter's container is non-NULL exactly while it is linked, and names its queue. */
  ghost predicate ListsOk(l: Lists) {
    && (forall b :: b in l.waiters ==> Distinct(l.waiters[b]))
    && (forall b, t :: t in Queue(l, b) <==> t in l.container && l.container[t] == b)
  }

  /** `order` lists, once each, exactly the waiters a section has unlinked. */
  ghost predicate Unlinks(l: Lists, l': Lists, order: seq<Tid>) {
    && ListsOk(l')
    && Distinct(order)
    && (forall t :: t in order ==> t in l.container && t !in l'.container)
    && (forall t :: t in l.container && t !in order ==> t in l'.container)
    && (forall t :: t in l'.container ==> t in l.container)
  }

  lemma EnqueueKeepsLists(l: Lists, b: ButexId, t: Tid)
    requires ListsOk(l) && t !in l.container
    ensures ListsOk(EnqueueSection(l, b, t))
  {
    var l' := EnqueueSection(l, b, t);
    assert t !in Queue(l, b);
    forall c, u
      ensures u in Queue(l', c) <==> u in l'.container && l'.container[u] == c
    {
      assert u in Queue(l, c) <==> u in l.container && l.container[u] == c;
    }
  }

  lemma WakeUnlinks(l: Lists, b: ButexId)
    requires ListsOk(l)
    ensures var (l', order) := WakeSection(l, b); var q := Queue(l, b);
            && Unlinks(l, l', order)
            && (if q == [] then order == [] else order == [q[0]] && Queue(l', b) == q[1..])
  {
    var (l', order) := WakeSection(l, b);
    var q := Queue(l, b);
    if q != [] {
      assert q[0] in Queue(l, b);
      forall c, u
        ensures u in Queue(l', c) <==> u in l'.container && l'.container[u] == c
      {
        assert u in Queue(l, c) <==> u in l.container && l.container[u] == c;
        if c == b { assert u in q <==> u == q[0] || u in q[1..]; assert q[0] !in q[1..]; }
      }
    }
  }

  lemma WakeAllOrderOk(q: seq<Tid>, pthreads: set<Tid>)
    requires Distinct(q)
    ensures var o := WakeAllOrder(q, pthreads); Distinct(o) && |o| == |q| && forall t :: t in o <==> t in q
  {
    var p, f := Keep(q, pthreads), Drop(q, pthreads);
    KeepMembers(q, pthreads);
    KeepDistinct(q, pthreads);
    if f != [] {
      assert f == [f[0]] + f[1..];
      var r := Reverse(f[1..]);
      ReverseMembers(f[1..]);
      DistinctConcat(p, r);
      DistinctConcat(p + r, [f[0]]);
    }
  }

  lemma WakeAllUnlinks(l: Lists, b: ButexId, pthreads: set<Tid>)
    requires ListsOk(l)
    ensures var (l', order) := WakeAllSection(l, b, pthreads);
            && Unlinks(l, l', order) && |order| == |Queue(l, b)| && Queue(l', b) == []
            && forall t :: t in order <==> t in Queue(l, b)
  {
    var (l', order) := WakeAllSection(l, b, pthreads);
    WakeAllOrderOk(Queue(l, b), pthreads);
    forall c, u
      ensures u in Queue(l', c) <==> u in l'.container && l'.container[u] == c
    {
      assert u in Queue(l, c) <==> u in l.container && l.container[u] == c;
      assert u in Queue(l, b) <==> u in l.container && l.container[u] == b;
    }
  }

  lemma ExcludedOk(q: seq<Tid>, pthreads: set<Tid>, excluded: Tid)
    ensures var kept := Excluded(q, pthreads, excluded);
            && Distinct(kept) && (forall t :: t in kept ==> t in q)
            && kept == if excluded in q && excluded !in pthreads then [excluded] else []
  {}

  lemma LeavingSnoc(q: seq<Tid>, t: Tid, pthreads: set<Tid>, excluded: Tid)
    requires t !in q
    ensures Excluded(q + [t], pthreads, excluded)
         == if t == excluded && t !in pthreads then [t] else Excluded(q, pthreads, excluded)
    ensures Leaving(q + [t], pthreads, excluded)
         == if t == excluded && t !in pthreads then Leaving(q, pthreads, excluded) else Leaving(q, pthreads, excluded) + {t}
  {}

  lemma WakeExceptOrderOk(q: seq<Tid>, pthreads: set<Tid>, excluded: Tid)
    requires Distinct(q)
    ensures var o := WakeExceptOrder(q, pthreads, excluded); var kept := Excluded(q, pthreads, excluded);
            Distinct(o) && |o| == |q| - |kept| && forall t :: t in o <==> t in q && t !in kept
  {
    var p, f := Keep(q, pthreads), Drop(q, pthreads);
    KeepMembers(q, pthreads);
    KeepMembers(f, {excluded});
    KeepDistinct(q, pthreads);
    KeepDistinct(f, {excluded});
    ReverseMembers(Drop(f, {excluded}));
    if excluded in f { DropOne(f, excluded); } else { DropNone(f, {excluded}); }
    DistinctConcat(p, Reverse(Drop(f, {excluded})));
  }

  lemma WakeExceptUnlinks(l: Lists, b: ButexId, pthreads: set<Tid>, excluded: Tid)
    requires ListsOk(l)
    ensures var (l', order) := WakeExceptSection(l, b, pthreads, excluded);
            && Unlinks(l, l', order) && |order| == |Queue(l, b)| - |Queue(l', b)|
            && Queue(l', b) == (if excluded in Queue(l, b) && excluded !in pthreads then [excluded] else [])
            && forall t :: t in order <==> t in Queue(l, b) && t !in Queue(l', b)
  {
    var (l', order) := WakeExceptSection(l, b, pthreads, excluded);
    var q := Queue(l, b);
    ExcludedOk(q, pthreads, excluded);
    WakeExceptOrderOk(q, pthreads, excluded);
    WakeExceptLists(l, b, pthreads, excluded);
    hide Keep, Drop, WakeExceptOrder, Excluded, ListsOk, Leaving;
    assert forall t :: t in q ==> t in l.container by { LinkedHave(l, b); }
  }

  lemma LinkedHave(l: Lists, b: ButexId)
    requires ListsOk(l)
    ensures Distinct(Queue(l, b)) && forall t :: t in Queue(l, b) <==> t in l.container && l.container[t] == b
  {}

  lemma WakeExceptLists(l: Lists, b: ButexId, pthreads: set<Tid>, excluded: Tid)
    requires ListsOk(l)
    ensures ListsOk(WakeExceptSection(l, b, pthreads, excluded).0)
  {
    var (l', order) := WakeExceptSection(l, b, pthreads, excluded);
    var q := Queue(l, b);
    ExcludedOk(q, pthreads, excluded);
    hide Keep, Drop, WakeExceptOrder, Excluded;
    forall c, u
      ensures u in Queue(l', c) <==> u in l'.container && l'.container[u] == c
    {
      assert u in Queue(l, c) <==> u in l.container && l.container[u] == c;
      assert u in Queue(l, b) <==> u in l.container && l.container[u] == b;
    }
  }

  lemma RequeueUnlinks(l: Lists, b: ButexId, m: ButexId)
    requires ListsOk(l) && b != m
    ensures var (l', order) := RequeueSection(l, b, m);
            var q := Queue(l, b);
            && Unlinks(l, l', order)
            && (if q == [] then order == [] && l' == l
                else order == [q[0]] && Queue(l', b) == [] && Queue(l', m) == Queue(l, m) + q[1..])
  {
    var (l', order) := RequeueSection(l, b, m);
    var q := Queue(l, b);
    if q != [] {
      var moved := q[1..];
      assert q[0] in q && q[0] !in moved;
      forall t | t in moved
        ensures t in l.container && l.container[t] == b && t !in Queue(l, m)
      {
        assert t in q;
        assert t in Queue(l, b) <==> t in l.container && l.container[t] == b;
        assert t in Queue(l, m) <==> t in l.container && l.container[t] == m;
      }
      assert Distinct(moved) && Distinct(Queue(l, m));
      DistinctConcat(Queue(l, m), moved);
      forall c, u
        ensures u in Queue(l', c) <==> u in l'.container && l'.container[u] == c
      {
        assert u in Queue(l, c) <==> u in l.container && l.container[u] == c;
        assert u in Queue(l, b) <==> u in l.container && l.container[u] == b;
        assert u in q <==> u == q[0] || u in moved;
      }
    }
  }

  lemma EraseUnlinks(l: Lists, b: ButexId, t: Tid)
    requires ListsOk(l)
    ensures var (l', order) := EraseSection(l, b, t);
            && Unlinks(l, l', order)
            && order == if t in Queue(l, b) then [t] else []
  {
    hide Drop;
    var (l', order) := EraseSection(l, b, t);
    assert t in Queue(l, b) <==> t in l.container && l.container[t] == b;
    if order != [] {
      KeepDistinct(Queue(l, b), {t});
      KeepMembers(Queue(l, b), {t});
      forall c, u
        ensures u in Queue(l', c) <==> u in l'.container && l'.container[u] == c
      {
        assert u in Queue(l, c) <==> u in l.container && l.container[u] == c;
      }
    }
  }

  // ------------------------------------------------------------ the step machine

  /** What a thread that has left a critical section still has to do: the waiters it must
      make runnable, how many it has made runnable so far, how many it unlinked. */
  datatype Hand = Hand(left: seq<Tid>, nwakeup: nat, taken: nat)

  /** A thread in the loop of erase_from_butex: about to read the container of w, or about to
      lock the butex it has read. */
  datatype Erasing = Loading(w: Tid) | Locking(w: Tid, b: ButexId)

  /** `hands` and `erasing` are threads' locals; `holder`, `queued` and `released` record, for
      each waiter, who unlinked it and how often it was queued and made runnable. */
  datatype State = State(
    lists: Lists, pthreads: set<Tid>,
    hands: map<Tid, Hand>, erasing: map<Tid, Erasing>,
    holder: map<Tid, Tid>, queued: map<Tid, nat>, released: map<Tid, nat>)

  datatype Step =
    | Enqueue(b: ButexId, w: Tid)
    | Wake(b: ButexId)
    | WakeAll(b: ButexId)
    | WakeExcept(b: ButexId, excluded: Tid)
    | Requeue(b: ButexId, m: ButexId)
    | EraseLoad(w: Tid)
    | EraseLock
    | Release
    | Finish

  function Count(m: map<Tid, nat>, t: Tid): nat {
    if t in m then m[t] else 0
  }

  /** Thread `a` leaves a critical section with the waiters in `order`. */
  function Take(s: State, a: Tid, r: (Lists, seq<Tid>)): State {
    s.(lists := r.0, hands := s.hands[a := Hand(r.1, 0, |r.1|)],
       holder := s.holder + (map t | t in r.1 :: a))
  }

  predicate Free(s: State, a: Tid) {
    a !in s.hands && a !in s.erasing
  }

  predicate Enabled(s: State, a: Tid, step: Step) {
    match step
    case Enqueue(_, w) => w !in s.lists.container && w !in s.holder
    case Requeue(b, m) => Free(s, a) && b != m
    case EraseLoad(w) => Free(s, a) || (a in s.erasing && s.erasing[a] == Loading(w) && a !in s.hands)
    case EraseLock => a in s.erasing && s.erasing[a].Locking? && a !in s.hands
    case Release => a in s.hands && s.hands[a].left != []
    case Finish => a in s.hands && s.hands[a].left == []
    case _ => Free(s, a)
  }

  /** One step of thread `a`. */
  function Apply(s: State, a: Tid, step: Step): State {
    if !Enabled(s, a, step) then s else
    match step
    case Enqueue(b, w) => s.(lists := EnqueueSection(s.lists, b, w), queued := s.queued[w := Count(s.queued, w) + 1])
    case Wake(b) => Take(s, a, WakeSection(s.lists, b))
    case WakeAll(b) => Take(s, a, WakeAllSection(s.lists, b, s.pthreads))
    case WakeExcept(b, x) => Take(s, a, WakeExceptSection(s.lists, b, s.pthreads, x))
    case Requeue(b, m) => Take(s, a, RequeueSection(s.lists, b, m))
    case EraseLoad(w) =>
      if w in s.lists.container then s.(erasing := s.erasing[a := Locking(w, s.lists.container[w])])
      else s.(erasing := s.erasing - {a})
    case EraseLock =>
      var (w, b) := (s.erasing[a].w, s.erasing[a].b);
      var r := EraseSection(s.lists, b, w);
      if r.1 == [] then s.(erasing := s.erasing[a := Loading(w)]) else Take(s.(erasing := s.erasing - {a}), a, r)
    case Release =>
      var h := s.hands[a];
      s.(hands := s.hands[a := Hand(h.left[1..], h.nwakeup + 1, h.taken)], holder := s.holder - {h.left[0]},
         released := s.released[h.left[0] := Count(s.released, h.left[0]) + 1])
    case Finish => s.(hands := s.hands - {a})
  }

  ghost predicate InHand(hands: map<Tid, Hand>, a: Tid, t: Tid) {
    a in hands && t in hands[a].left
  }

  ghost predicate HandOk(h: Hand) {
    Distinct(h.left) && h.nwakeup + |h.left| == h.taken
  }

  ghost predicate HandsOk(s: State) {
    && (forall a :: a in s.hands ==> HandOk(s.hands[a]))
    && (forall a, t :: InHand(s.hands, a, t) <==> t in s.holder && s.holder[t] == a)
    && (forall t :: t in s.holder ==> t !in s.lists.container)
  }

  /** Every queueing has been answered by exactly one release, except that of a waiter that
      is still linked or in the hands of the one thread that unlinked it. */
  ghost predicate OncePerWait(s: State) {
    forall t :: Count(s.queued, t) == Count(s.released, t) + (if t in s.lists.container || t in s.holder then 1 else 0)
  }

  ghost predicate Inv(s: State) {
    ListsOk(s.lists) && HandsOk(s) && OncePerWait(s)
  }

  lemma TakeKeepsHands(s: State, a: Tid, r: (Lists, seq<Tid>))
    requires Inv(s) && a !in s.hands && Unlinks(s.lists, r.0, r.1)
    ensures HandsOk(Take(s, a, r))
  {
    var s' := Take(s, a, r);
    assert HandOk(s'.hands[a]);
    forall c, t
      ensures InHand(s'.hands, c, t) <==> t in s'.holder && s'.holder[t] == c
    {
      assert InHand(s.hands, c, t) <==> t in s.holder && s.holder[t] == c;
      assert !InHand(s.hands, a, t);
    }
  }

  lemma TakeKeepsOnce(s: State, a: Tid, r: (Lists, seq<Tid>))
    requires Inv(s) && Unlinks(s.lists, r.0, r.1)
    ensures OncePerWait(Take(s, a, r))
  {
    var s' := Take(s, a, r);
    forall t
      ensures t in s'.lists.container || t in s'.holder <==> t in s.lists.container || t in s.holder
    {
    }
  }

  lemma TakeKeepsInv(s: State, a: Tid, r: (Lists, seq<Tid>))
    requires Inv(s) && a !in s.hands && Unlinks(s.lists, r.0, r.1)
    ensures Inv(Take(s, a, r))
  {
    TakeKeepsHands(s, a, r);
    TakeKeepsOnce(s, a, r);
  }

  lemma ReleaseKeepsHands(s: State, a: Tid)
    requires HandsOk(s) && Enabled(s, a, Release)
    ensures HandsOk(Apply(s, a, Release))
  {
    var s' := Apply(s, a, Release);
    var left := s.hands[a].left;
    assert HandOk(s.hands[a]);
    assert left == [left[0]] + left[1..];
    assert left[0] !in left[1..];
    assert HandOk(s'.hands[a]);
    assert InHand(s.hands, a, left[0]);
    forall c, t
      ensures InHand(s'.hands, c, t) <==> t in s'.holder && s'.holder[t] == c
    {
      assert InHand(s.hands, c, t) <==> t in s.holder && s.holder[t] == c;
      assert c == a ==> (t in left <==> t == left[0] || t in left[1..]);
    }
  }

  lemma ReleaseKeepsInv(s: State, a: Tid)
    requires Inv(s) && Enabled(s, a, Release)
    ensures Inv(Apply(s, a, Release))
  {
    ReleaseKeepsHands(s, a);
    var w := s.hands[a].left[0];
    assert InHand(s.hands, a, w);
    assert Count(s.queued, w) == Count(s.released, w) + 1;
  }

  lemma EnqueueKeepsInv(s: State, a: Tid, b: ButexId, w: Tid)
    requires Inv(s) && Enabled(s, a, Enqueue(b, w))
    ensures Inv(Apply(s, a, Enqueue(b, w)))
  {
    EnqueueKeepsLists(s.lists, b, w);
  }

  lemma FinishKeepsInv(s: State, a: Tid)
    requires Inv(s) && Enabled(s, a, Finish)
    ensures Inv(Apply(s, a, Finish))
  {
    var s' := Apply(s, a, Finish);
    forall c, t
      ensures InHand(s'.hands, c, t) <==> t in s'.holder && s'.holder[t] == c
    {
      assert InHand(s.hands, c, t) <==> t in s.holder && s.holder[t] == c;
    }
  }

  lemma EraseLockKeepsInv(s: State, a: Tid)
    requires Inv(s) && Enabled(s, a, EraseLock)
    ensures Inv(Apply(s, a, EraseLock))
  {
    var (w, b) := (s.erasing[a].w, s.erasing[a].b);
    var s0 := s.(erasing := s.erasing - {a});
    assert Inv(s0);
    EraseUnlinks(s.lists, b, w);
    TakeKeepsInv(s0, a, EraseSection(s.lists, b, w));
  }

  /** No interleaving of wake, wake_all, wake_except, requeue, timer erase and interrupt
      erase unlinks or releases a waiter twice, or forgets one. */
  lemma StepKeepsInv(s: State, a: Tid, step: Step)
    requires Inv(s)
    ensures Inv(Apply(s, a, step))
  {
    if Enabled(s, a, step) {
      hide ListsOk, HandsOk, OncePerWait, Unlinks;
      match step
      case Enqueue(b, w) => EnqueueKeepsInv(s, a, b, w);
      case Wake(b) => WakeUnlinks(s.lists, b); TakeKeepsInv(s, a, WakeSection(s.lists, b));
      case WakeAll(b) => WakeAllUnlinks(s.lists, b, s.pthreads); TakeKeepsInv(s, a, WakeAllSection(s.lists, b, s.pthreads));
      case WakeExcept(b, x) =>
        WakeExceptUnlinks(s.lists, b, s.pthreads, x);
        TakeKeepsInv(s, a, WakeExceptSection(s.lists, b, s.pthreads, x));
      case Requeue(b, m) => RequeueUnlinks(s.lists, b, m); TakeKeepsInv(s, a, RequeueSection(s.lists, b, m));
      case EraseLoad(w) => EraseLoadKeepsInv(s, a, w);
      case EraseLock => EraseLockKeepsInv(s, a);
      case Release => ReleaseKeepsInv(s, a);
      case Finish => FinishKeepsInv(s, a);
    }
  }

  lemma EraseLoadKeepsInv(s: State, a: Tid, w: Tid)
    requires Inv(s)
    ensures Inv(Apply(s, a, EraseLoad(w)))
  {}

  /** The loop of erase_from_butex ends only when it has unlinked its waiter, which is then the
      one in the thread's hand, or has read a NULL container. */
  lemma EraseEnds(s: State, a: Tid, step: Step)
    requires Inv(s) && a in s.erasing
    ensures var s', w := Apply(s, a, step), s.erasing[a].w;
            a !in s'.erasing ==>
              || (w in s.lists.container && w !in s'.lists.container && s'.holder == s.holder[w := a] && s'.hands[a] == Hand([w], 0, 1))
              || (w !in s.lists.container && s'.lists == s.lists && s'.hands == s.hands)
  {
    if step.EraseLock? {
      EraseLockEnds(s, a);
    } else if step.EraseLoad? {
      EraseLoadEnds(s, a, step.w);
    } else {
      OthersErase(s, a, step);
    }
    hide Apply, Inv;
  }

  lemma EraseLockEnds(s: State, a: Tid)
    requires a in s.erasing
    ensures var s', w := Apply(s, a, EraseLock), s.erasing[a].w;
            a !in s'.erasing ==>
              w in s.lists.container && w !in s'.lists.container && s'.holder == s.holder[w := a] && s'.hands[a] == Hand([w], 0, 1)
  {
    if Enabled(s, a, EraseLock) {
      var w := s.erasing[a].w;
      TakeOne(s.(erasing := s.erasing - {a}), a, EraseSection(s.lists, s.erasing[a].b, w).0, w);
    }
    hide Drop, Take;
  }

  lemma TakeOne(s: State, a: Tid, l: Lists, w: Tid)
    ensures var s' := Take(s, a, (l, [w]));
            s'.lists == l && s'.holder == s.holder[w := a] && s'.hands == s.hands[a := Hand([w], 0, 1)] && s'.erasing == s.erasing
  {
    assert (map t | t in [w] :: a) == map[w := a];
  }

  lemma EraseLoadEnds(s: State, a: Tid, w: Tid)
    requires a in s.erasing
    ensures var s' := Apply(s, a, EraseLoad(w));
            a !in s'.erasing ==> w == s.erasing[a].w && w !in s.lists.container && s'.lists == s.lists && s'.hands == s.hands
  {}

  lemma OthersErase(s: State, a: Tid, step: Step)
    requires a in s.erasing && !step.EraseLock? && !step.EraseLoad?
    ensures a in Apply(s, a, step).erasing
  {
    hide WakeAllSection, WakeExceptSection, RequeueSection, WakeSection;
  }

  function Init(pthreads: set<Tid>): State {
    State(Lists(map[], map[]), pthreads, map[], map[], map[], map[], map[])
  }

  function Run(s: State, steps: seq<(Tid, Step)>): State
    decreases |steps|
  {
    if steps == [] then s else Run(Apply(s, steps[0].0, steps[0].1), steps[1..])
  }

  lemma {:induction false} RunKeepsInv(s: State, steps: seq<(Tid, Step)>)
    requires Inv(s)
    ensures Inv(Run(s, steps))
    decreases |steps|
  {
    if steps != [] {
      StepKeepsInv(s, steps[0].0, steps[0].1);
      RunKeepsInv(Apply(s, steps[0].0, steps[0].1), steps[1..]);
    }
  }

  /** In every run: a waiter is in the queue its container names and in no other; nobody is
      released more often than queued; a waiter not waiting any more was released once per
      wait; and a call that is done reports as many wake-ups as it unlinked waiters. */
  lemma EveryRunReleasesOnce(pthreads: set<Tid>, steps: seq<(Tid, Step)>)
    ensures var s := Run(Init(pthreads), steps);
            && (forall b, t :: t in Queue(s.lists, b) <==> t in s.lists.container && s.lists.container[t] == b)
            && (forall t :: Count(s.released, t) <= Count(s.queued, t) <= Count(s.released, t) + 1)
            && (forall t :: t !in s.lists.container && t !in s.holder ==> Count(s.queued, t) == Count(s.released, t))
            && (forall a :: a in s.hands && s.hands[a].left == [] ==> s.hands[a].nwakeup == s.hands[a].taken)
  {
    RunKeepsInv(Init(pthreads), steps);
  }

  // ------------------------------------------------------------ the code of the sections

  /** Half-way through the loop of butex_wake_all: `done` has been unlinked from `l0`. */
  ghost predicate UnlinkingAll(l0: Lists, l: Lists, b: ButexId, done: seq<Tid>, pthreads: set<Tid>, fibers: seq<Tid>, others: seq<Tid>) {
    && b in l0.waiters && b in l.waiters
    && l.waiters == l0.waiters[b := l.waiters[b]] && done + l.waiters[b] == l0.waiters[b]
    && l.container == l0.container - Elements(done)
    && others == Keep(done, pthreads) && fibers == Drop(done, pthreads)
  }

  lemma UnlinkingAllStep(l0: Lists, l: Lists, b: ButexId, done: seq<Tid>, pthreads: set<Tid>, fibers: seq<Tid>, others: seq<Tid>)
    requires UnlinkingAll(l0, l, b, done, pthreads, fibers, others) && l.waiters[b] != []
    ensures var bw := l.waiters[b][0];
            UnlinkingAll(l0, Lists(l.waiters[b := l.waiters[b][1..]], l.container - {bw}), b, done + [bw], pthreads,
                         if bw in pthreads then fibers else fibers + [bw], if bw in pthreads then others + [bw] else others)
  {
    KeepSnoc(done, l.waiters[b][0], pthreads);
  }

  /** The same for butex_wake_except; `kept` is the excluded waiter once it has been met. */
  ghost predicate UnlinkingExcept(l0: Lists, l: Lists, b: ButexId, done: seq<Tid>, pthreads: set<Tid>, excluded: Tid,
                                  fibers: seq<Tid>, others: seq<Tid>, kept: seq<Tid>) {
    && b in l0.waiters && b in l.waiters
    && l.waiters == l0.waiters[b := l.waiters[b]] && done + l.waiters[b] == l0.waiters[b]
    && kept == Excluded(done, pthreads, excluded)
    && l.container == l0.container - Leaving(done, pthreads, excluded)
    && others == Keep(done, pthreads) && fibers == Drop(Drop(done, pthreads), {excluded})
  }

  lemma UnlinkingExceptStep(l0: Lists, l: Lists, b: ButexId, done: seq<Tid>, pthreads: set<Tid>, excluded: Tid,
                            fibers: seq<Tid>, others: seq<Tid>, kept: seq<Tid>)
    requires UnlinkingExcept(l0, l, b, done, pthreads, excluded, fibers, others, kept) && l.waiters[b] != []
    requires Distinct(l0.waiters[b])
    ensures var bw := l.waiters[b][0];
            var out := bw == excluded && bw !in pthreads;
            UnlinkingExcept(l0, Lists(l.waiters[b := l.waiters[b][1..]], if out then l.container else l.container - {bw}),
                            b, done + [bw], pthreads, excluded,
                            if bw in pthreads || out then fibers else fibers + [bw],
                            if bw in pthreads then others + [bw] else others, if out then [bw] else kept)
  {
    hide Keep, Drop, Excluded, Leaving;
    var q, bw := l0.waiters[b], l.waiters[b][0];
    assert bw !in done by {
      assert q[|done|] == bw && forall k :: 0 <= k < |done| ==> done[k] == q[k];
    }
    KeepSnoc(done, bw, pthreads);
    KeepSnoc(Drop(done, pthreads), bw, {excluded});
    LeavingSnoc(done, bw, pthreads, excluded);
  }

  /** The queues as butex.cc keeps them, with the loops of its functions. `runnable` lists the
      waiters in the order in which they have been made runnable. */
  class ButexTable {
    var waiters: map<ButexId, seq<Tid>>
    var container: map<Tid, ButexId>
    var runnable: seq<Tid>
    const pthreads: set<Tid>

    ghost function View(): Lists
      reads this
    {
      Lists(waiters, container)
    }

    constructor (pthreads: set<Tid>)
      ensures View() == Lists(map[], map[]) && runnable == [] && this.pthreads == pthreads
    {
      this.pthreads := pthreads;
      waiters, container, runnable := map[], map[], [];
    }

    method Create(b: ButexId)
      requires b !in waiters
      modifies this`waiters
      ensures waiters == old(waiters)[b := []]
    {
      waiters := waiters[b := []];
    }

    method Append(b: ButexId, t: Tid)
      requires b in waiters
      modifies this`waiters, this`container
      ensures View() == EnqueueSection(old(View()), b, t)
    {
      waiters := waiters[b := waiters[b] + [t]];
      container := container[t := b];
    }

    method Wake(b: ButexId) returns (n: nat)
      requires b in waiters
      modifies this
      ensures var (l, order) := WakeSection(old(View()), b);
              View() == l && runnable == old(runnable) + order && n == |order|
    {
      if waiters[b] == [] { return 0; }
      var front := waiters[b][0];
      waiters := waiters[b := waiters[b][1..]];
      container := container - {front};
      runnable := runnable + [front];
      n := 1;
    }

    /** The locked loop of butex_wake_all. */
    method UnlinkAll(b: ButexId) returns (fiberWaiters: seq<Tid>, pthreadWaiters: seq<Tid>)
      requires b in waiters
      modifies this`waiters, this`container
      ensures View() == WakeAllSection(old(View()), b, pthreads).0
      ensures fiberWaiters == Drop(old(waiters[b]), pthreads) && pthreadWaiters == Keep(old(waiters[b]), pthreads)
    {
      ghost var l0, done: seq<Tid> := View(), [];
      fiberWaiters, pthreadWaiters := [], [];
      while waiters[b] != []
        invariant UnlinkingAll(l0, View(), b, done, pthreads, fiberWaiters, pthreadWaiters)
        decreases |waiters[b]|
      {
        hide *;
        UnlinkingAllStep(l0, View(), b, done, pthreads, fiberWaiters, pthreadWaiters);
        var bw := waiters[b][0];
        done := done + [bw];
        waiters := waiters[b := waiters[b][1..]];
        container := container - {bw};
        if bw !in pthreads { fiberWaiters := fiberWaiters + [bw]; } else { pthreadWaiters := pthreadWaiters + [bw]; }
      }
      assert done == l0.waiters[b];
    }

    /** Make a private list of waiters runnable from its head. */
    method RunForwards(list: seq<Tid>) returns (n: nat)
      modifies this`runnable
      ensures runnable == old(runnable) + list && n == |list|
    {
      var left := list;
      n := 0;
      while left != []
        invariant runnable + left == old(runnable) + list && n + |left| == |list|
        decreases |left|
      {
        runnable := runnable + [left[0]];
        left := left[1..];
        n := n + 1;
      }
    }

    /** Make a private list of waiters runnable from its tail. */
    method RunBackwards(list: seq<Tid>) returns (n: nat)
      modifies this`runnable
      ensures runnable == old(runnable) + Reverse(list) && n == |list|
    {
      var left := list;
      n := 0;
      while left != []
        invariant runnable + Reverse(left) == old(runnable) + Reverse(list) && n + |left| == |list|
        decreases |left|
      {
        ReverseTail(left);
        runnable := runnable + [left[|left| - 1]];
        left := left[..|left| - 1];
        n := n + 1;
      }
    }

    method WakeAll(b: ButexId) returns (n: nat)
      requires b in waiters
      modifies this
      ensures var (l, order) := WakeAllSection(old(View()), b, pthreads);
              View() == l && runnable == old(runnable) + order && n == |order|
    {
      hide Keep, Drop, Reverse, Elements;
      var fiberWaiters, pthreadWaiters := UnlinkAll(b);
      n := RunForwards(pthreadWaiters);
      if fiberWaiters == [] { return n; }
      var next := fiberWaiters[0];
      n := n + 1;
      var more := RunBackwards(fiberWaiters[1..]);
      n := n + more;
      ReverseMembers(fiberWaiters[1..]);
      runnable := runnable + [next];
    }

    /** The locked loop of butex_wake_except. */
    method UnlinkExcept(b: ButexId, excluded: Tid) returns (fiberWaiters: seq<Tid>, pthreadWaiters: seq<Tid>)
      requires b in waiters && Distinct(waiters[b])
      modifies this`waiters, this`container
      ensures View() == WakeExceptSection(old(View()), b, pthreads, excluded).0
      ensures fiberWaiters == Drop(Drop(old(waiters[b]), pthreads), {excluded})
      ensures pthreadWaiters == Keep(old(waiters[b]), pthreads)
    {
      ghost var l0, done: seq<Tid> := View(), [];
      var excludedWaiter: seq<Tid> := [];
      fiberWaiters, pthreadWaiters := [], [];
      while waiters[b] != []
        invariant UnlinkingExcept(l0, View(), b, done, pthreads, excluded, fiberWaiters, pthreadWaiters, excludedWaiter)
        decreases |waiters[b]|
      {
        hide *;
        UnlinkingExceptStep(l0, View(), b, done, pthreads, excluded, fiberWaiters, pthreadWaiters, excludedWaiter);
        var bw := waiters[b][0];
        done := done + [bw];
        waiters := waiters[b := waiters[b][1..]];
        if bw !in pthreads {
          if bw != excluded {
            fiberWaiters := fiberWaiters + [bw];
            container := container - {bw};
          } else {
            excludedWaiter := [bw];
          }
        } else {
          container := container - {bw};
          pthreadWaiters := pthreadWaiters + [bw];
        }
      }
      assert done == l0.waiters[b];
      if excludedWaiter != [] { waiters := waiters[b := waiters[b] + excludedWaiter]; }
      assert waiters[b] == excludedWaiter;
    }

    method WakeExcept(b: ButexId, excluded: Tid) returns (n: nat)
      requires b in waiters && Distinct(waiters[b])
      modifies this
      ensures var (l, order) := WakeExceptSection(old(View()), b, pthreads, excluded);
              View() == l && runnable == old(runnable) + order && n == |order|
    {
      var fiberWaiters, pthreadWaiters := UnlinkExcept(b, excluded);
      n := RunForwards(pthreadWaiters);
      if fiberWaiters == [] { return n; }
      var more := RunBackwards(fiberWaiters);
      n := n + more;
      ReverseMembers(fiberWaiters);
    }

    /** The locked loop of butex_requeue. */
    method MoveAll(b: ButexId, m: ButexId)
      requires b in waiters && m in waiters && b != m
      requires forall t :: t in waiters[b] ==> t in container
      modifies this`waiters, this`container
      ensures waiters == old(waiters)[b := []][m := old(waiters[m]) + old(waiters[b])]
      ensures container == map t | t in old(container) :: if t in old(waiters[b]) then m else old(container)[t]
    {
      ghost var q, done: seq<Tid> := waiters[b], [];
      while waiters[b] != []
        invariant b in waiters && m in waiters && waiters == old(waiters)[b := waiters[b]][m := waiters[m]]
        invariant done + waiters[b] == q && waiters[m] == old(waiters[m]) + done
        invariant container == map t | t in old(container) :: if t in done then m else old(container)[t]
        decreases |waiters[b]|
      {
        var bw := waiters[b][0];
        assert bw == q[|done|];
        waiters := waiters[b := waiters[b][1..]];
        waiters := waiters[m := waiters[m] + [bw]];
        container := container[bw := m];
        done := done + [bw];
      }
      assert done == q;
    }

    method Requeue(b: ButexId, m: ButexId) returns (n: nat)
      requires b in waiters && m in waiters && b != m
      requires ListsOk(View())
      modifies this
      ensures var (l, order) := RequeueSection(old(View()), b, m);
              View() == l && runnable == old(runnable) + order && n == |order|
    {
      if waiters[b] == [] { return 0; }
      var front := waiters[b][0];
      assert forall t :: t in waiters[b][1..] ==> t in Queue(View(), b) && t in container && t != front;
      waiters := waiters[b := waiters[b][1..]];
      container := container - {front};
      MoveAll(b, m);
      runnable := runnable + [front];
      n := 1;
    }

    /** erase_from_butex from its locked re-check on; `b` is the container read without the lock. */
    method EraseLocked(b: ButexId, t: Tid) returns (erased: bool)
      requires b in waiters
      modifies this
      ensures var (l, order) := EraseSection(old(View()), b, t);
              View() == l && runnable == old(runnable) + order && erased == (order != [])
    {
      erased := t in container && container[t] == b;
      if erased {
        waiters := waiters[b := Drop(waiters[b], {t})];
        container := container - {t};
        runnable := runnable + [t];
      }
    }
  }
}
