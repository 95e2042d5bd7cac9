/** How an idle worker looks for work (eabase/fiber/task_control.cc, steal_task): it probes
    groups[s % ngroup] with s growing by an offset taken from a table of primes. */
module StealProbe {
  import BitMask

  const WIDTH: nat := 0x1_0000_0000_0000_0000

  predicate IsPrime(p: nat) {
    p >= 2 && forall d :: 1 < d < p ==> p % d != 0
  }

  /** The group looked at in the i-th probe, as long as the sum does not wrap. */
  function Probe(s: nat, p: nat, n: nat, i: nat): nat
    requires n > 0
  {
    (s + i * p) % n
  }

  predicate Divides(n: nat, x: int)
    requires n > 0
  {
    x % n == 0
  }

  lemma DividesIs(n: nat, x: int)
    requires n > 0
    ensures Divides(n, x) <==> x == n * (x / n)
  {}

  lemma MultipleDivides(n: nat, q: int)
    requires n > 0
    ensures Divides(n, n * q)
  {
    BitMask.RemainderUnique(n * q, n, q, 0);
  }

  /** The least number of steps of length p that is a multiple of n. */
  function Order(n: nat, p: nat, x: nat): (r: nat)
    requires n > 0 && 0 < x <= n && Divides(n, n * p)
    ensures x <= r <= n && Divides(n, r * p)
    ensures forall y :: x <= y < r ==> !Divides(n, y * p)
    decreases n - x
  {
    if x == n || Divides(n, x * p) then x else Order(n, p, x + 1)
  }

  /** A multiple less a multiple of a multiple is a multiple. */
  lemma RestDivides(n: nat, p: nat, x: nat, q: nat, r: nat)
    requires n > 0 && n == x * q + r && Divides(n, x * p)
    ensures Divides(n, r * p)
  {
    DividesIs(n, x * p);
    var k := (x * p) / n;
    Distribute(p, x * q, r);
    assert (x * q) * p == q * (x * p) by { Rearrange(x, q, p); }
    assert q * (n * k) == n * (q * k) by { Rearrange(n, k, q); }
    assert n * p - n * (q * k) == n * (p - q * k) by { Distribute(n, p - q * k, q * k); }
    MultipleDivides(n, p - q * k);
  }

  lemma Rearrange(a: int, b: int, c: int)
    ensures (a * b) * c == b * (a * c) && c * (a * b) == a * (c * b)
  {}

  lemma Distribute(a: int, b: int, c: int)
    ensures a * (b + c) == a * b + a * c && (b + c) * a == b * a + c * a
  {}

  /** The order divides n: the rest of the division would be a smaller order. */
  lemma OrderDivides(n: nat, p: nat)
    requires n > 0 && Divides(n, n * p)
    ensures Divides(Order(n, p, 1), n)
  {
    var x := Order(n, p, 1);
    RestDivides(n, p, x, n / x, n % x);
  }

  lemma AtLeastTwo(n: nat, x: nat, q: nat)
    requires n == x * q && 0 < x < n
    ensures 2 <= q <= n
  {
    BitMask.MulAtLeast(q, x);
  }

  lemma MulCancel(x: nat, a: int, b: int)
    requires x > 0 && x * a == x * b
    ensures a == b
  {
    Distribute(x, b - a, a);
    Distribute(x, a - b, b);
    if a < b { BitMask.MulAtLeast(x, b - a); }
    if b < a { BitMask.MulAtLeast(x, a - b); }
  }

  /** Fewer than n steps of length p that come back to the start give a common divisor. */
  lemma ReturnGivesDivisor(n: nat, p: nat, d: nat) returns (q: nat)
    requires 0 < d < n && p > 0 && Divides(n, d * p)
    ensures 2 <= q <= n && Divides(q, p) && Divides(q, n)
  {
    MultipleDivides(n, p);
    var x := Order(n, p, 1);
    OrderDivides(n, p);
    DividesIs(x, n);
    DividesIs(n, x * p);
    q := n / x;
    var k := (x * p) / n;
    AtLeastTwo(n, x, q);
    assert x * p == x * (q * k) by { assert (x * q) * k == x * (q * k); }
    MulCancel(x, p, q * k);
    MultipleDivides(q, k);
    MultipleDivides(q, x);
  }

  /** A prime that does not divide n generates all residues: fewer than n steps do not come back
      to the start. */
  lemma PrimeGenerates(n: nat, p: nat, d: nat)
    requires 0 < d < n && IsPrime(p) && !Divides(p, n)
    ensures !Divides(n, d * p)
  {
    if Divides(n, d * p) {
      var q := ReturnGivesDivisor(n, p, d);
    }
  }

  /** The offsets of the table are far above the number of groups. */
  lemma LargerDivides(n: nat, p: nat)
    requires 0 < n < p
    ensures !Divides(p, n)
  {
    BitMask.RemainderUnique(n, p, 0, n);
  }

  lemma SameRest(a: int, b: int, n: nat)
    requires n > 0 && a % n == b % n
    ensures Divides(n, b - a)
  {
    var qa, qb, r := a / n, b / n, a % n;
    assert a == n * qa + r && b == n * qb + r;
    Distribute(n, qb - qa, qa);
    assert b - a == n * (qb - qa);
    MultipleDivides(n, qb - qa);
  }

  lemma SameSet(seen: set<nat>, all: set<nat>)
    requires seen <= all && |seen| == |all|
    ensures seen == all
  {
    assert seen + (all - seen) == all && |seen + (all - seen)| == |seen| + |all - seen|;
  }

  lemma ProbesDiffer(s: nat, p: nat, n: nat, i: nat, j: nat)
    requires i < j < n && IsPrime(p) && !Divides(p, n)
    ensures Probe(s, p, n, i) != Probe(s, p, n, j)
  {
    var a, b := s + i * p, s + j * p;
    Distribute(p, j - i, i);
    if a % n == b % n {
      SameRest(a, b, n);
      PrimeGenerates(n, p, j - i);
    }
  }

  // ------------------------------------------------------------ the pigeonhole

  function Below(n: nat): (r: set<nat>)
    ensures |r| == n && forall x: nat :: x in r <==> x < n
  {
    if n == 0 then {} else Below(n - 1) + {n - 1}
  }

  /** The groups of the first k probes. */
  function Probed(s: nat, p: nat, n: nat, k: nat): (r: set<nat>)
    requires n > 0
    ensures forall g :: g in r ==> g < n && exists i: nat :: i < k && Probe(s, p, n, i) == g
    ensures forall i: nat :: i < k ==> Probe(s, p, n, i) in r
  {
    if k == 0 then {} else Probed(s, p, n, k - 1) + {Probe(s, p, n, k - 1)}
  }

  lemma {:induction false} ProbedCount(s: nat, p: nat, n: nat, k: nat)
    requires n > 0 && IsPrime(p) && !Divides(p, n) && k <= n
    ensures |Probed(s, p, n, k)| == k
  {
    hide Probe;
    if k > 0 {
      ProbedCount(s, p, n, k - 1);
      var last := Probe(s, p, n, k - 1);
      if last in Probed(s, p, n, k - 1) {
        var i: nat :| i < k - 1 && Probe(s, p, n, i) == last;
        ProbesDiffer(s, p, n, i, k - 1);
      }
    }
  }

  /** With a prime offset that does not divide the number of groups, the probes of one call look
      at every group exactly once, whatever the seed. */
  lemma ProbesVisitAll(s: nat, p: nat, n: nat, g: nat)
    requires g < n && IsPrime(p) && !Divides(p, n)
    ensures exists i :: 0 <= i < n && Probe(s, p, n, i) == g && forall j :: 0 <= j < n && Probe(s, p, n, j) == g ==> j == i
  {
    ProbedCount(s, p, n, n);
    var all, seen := Below(n), Probed(s, p, n, n);
    SameSet(seen, all);
    assert g in seen;
    var i: nat :| i < n && Probe(s, p, n, i) == g;
    forall j: nat | j < n && Probe(s, p, n, j) == g ensures j == i {
      if j < i { ProbesDiffer(s, p, n, j, i); } else if i < j { ProbesDiffer(s, p, n, i, j); }
    }
  }

  /** The probes look at every group from every seed exactly when the prime offset does not
      divide the number of groups. */
  lemma OffsetsVisitAll(p: nat, n: nat)
    requires n > 0 && IsPrime(p)
    ensures (forall s: nat, g: nat :: g < n ==> Visited(s, p, n, g)) <==> !Divides(p, n)
  {
    if Divides(p, n) {
      DividesIs(p, n);
      BitMask.MulAtLeast(p, n / p);
      if Visited(0, p, n, 1) {
        var i: nat :| i < n && Probe(0, p, n, i) == 1;
        OneIsNoMultiple(p, n, i);
      }
    } else {
      forall s: nat, g: nat | g < n
        ensures Visited(s, p, n, g)
      {
        ProbesVisitAll(s, p, n, g);
      }
    }
  }

  ghost predicate Visited(s: nat, p: nat, n: nat, g: nat)
    requires n > 0
  {
    exists i: nat :: i < n && Probe(s, p, n, i) == g
  }

  lemma OneIsNoMultiple(p: nat, n: nat, i: nat)
    requires p >= 2 && n > 0 && Divides(p, n)
    ensures Probe(0, p, n, i) != 1
  {
    DividesIs(p, n);
    var m, q := n / p, (i * p) / n;
    if (i * p) % n == 1 {
      assert i * p == n * q + 1;
      assert n * q == p * (m * q) by { Rearrange(p, m, q); }
      Distribute(p, i - m * q, m * q);
      assert p * (i - m * q) == 1;
      BitMask.RemainderUnique(1, p, i - m * q, 0);
      BitMask.RemainderUnique(1, p, 0, 1);
    }
  }

  // ------------------------------------------------------------ size_t

  /** The group looked at in the i-th probe, with the sum kept in 64 bits. */
  function ProbeWrapped(s: nat, p: nat, n: nat, i: nat): nat
    requires n > 0
  {
    ((s + i * p) % WIDTH) % n
  }

  /** A wrap within the probes shifts the later ones: here three probes miss group 2. */
  lemma WrapMissesGroup()
    ensures IsPrime(5) && ProbeWrapped(WIDTH - 1, 5, 3, 0) == 0 && ProbeWrapped(WIDTH - 1, 5, 3, 1) == 1 && ProbeWrapped(WIDTH - 1, 5, 3, 2) == 0
  {
    assert 5 % 2 != 0 && 5 % 3 != 0 && 5 % 4 != 0;
  }

  ghost predicate Reached(s: nat, p: nat, n: nat, g: nat)
    requires n > 0
  {
    exists i: nat :: i < n && ProbeWrapped(s, p, n, i) == g
  }

  /** Without a wrap within the n probes, or when n divides 2^64, every group is looked at. */
  lemma WrappedProbesVisitAll(s: nat, p: nat, n: nat, g: nat)
    requires g < n && IsPrime(p) && !Divides(p, n) && (s + (n - 1) * p < WIDTH || WIDTH % n == 0)
    ensures Reached(s, p, n, g)
  {
    ProbesVisitAll(s, p, n, g);
    hide Divides, IsPrime;
    var i: nat :| i < n && Probe(s, p, n, i) == g;
    if WIDTH % n == 0 { RestOfRest(s + i * p, n); } else { StaysBelow(s, p, n, i); }
    assert ProbeWrapped(s, p, n, i) == g;
  }

  /** And otherwise two probes look at the same group, so that one is missed. */
  lemma WrappedProbesExactly(s: nat, p: nat, n: nat)
    requires n > 0 && IsPrime(p) && !Divides(p, n) && s < WIDTH && (n - 1) * p < WIDTH
    ensures (forall g: nat :: g < n ==> Reached(s, p, n, g)) <==> s + (n - 1) * p < WIDTH || WIDTH % n == 0
  {
    if s + (n - 1) * p < WIDTH || WIDTH % n == 0 {
      forall g: nat | g < n
        ensures Reached(s, p, n, g)
      {
        WrappedProbesVisitAll(s, p, n, g);
      }
    } else {
      var i, j := WrapCollides(s, p, n);
      var g := CollisionMisses(s, p, n, i, j);
    }
  }

  lemma SameAdd(a: int, b: int, c: int, n: nat)
    requires n > 0 && a % n == b % n
    ensures (a + c) % n == (b + c) % n
  {
    SameRest(a, b, n);
    DividesIs(n, b - a);
    var q, k := (a + c) / n, (b - a) / n;
    Distribute(n, q, k);
    BitMask.RemainderUnique(b + c, n, q + k, (a + c) % n);
  }

  /** The first probe behind the wrap. */
  lemma FirstWrap(s: nat, p: nat, n: nat) returns (w: nat)
    requires n > 0 && p > 0 && s < WIDTH <= s + (n - 1) * p
    ensures 0 < w < n && s + (w - 1) * p < WIDTH <= s + w * p
  {
    w := n - 1;
    while s + (w - 1) * p >= WIDTH
      invariant 0 < w < n && WIDTH <= s + w * p
    {
      w := w - 1;
    }
  }

  lemma MulMono(a: nat, b: nat, p: nat)
    requires a <= b
    ensures a * p <= b * p
  {
    Distribute(p, b - a, a);
  }

  lemma BeforeWrap(s: nat, p: nat, n: nat, w: nat, i: nat)
    requires n > 0 && i < w && s + (w - 1) * p < WIDTH
    ensures ProbeWrapped(s, p, n, i) == Probe(s, p, n, i)
  {
    MulMono(i, w - 1, p);
    BitMask.RemainderUnique(s + i * p, WIDTH, 0, s + i * p);
  }

  lemma BehindWrap(s: nat, p: nat, n: nat, w: nat, j: nat)
    requires w <= j < n && s < WIDTH <= s + w * p && (n - 1) * p < WIDTH
    ensures ProbeWrapped(s, p, n, j) == (s + j * p - WIDTH) % n
  {
    MulMono(w, j, p);
    MulMono(j, n - 1, p);
    BitMask.RemainderUnique(s + j * p, WIDTH, 1, s + j * p - WIDTH);
  }

  lemma WrapCollides(s: nat, p: nat, n: nat) returns (i: nat, j: nat)
    requires n > 0 && IsPrime(p) && !Divides(p, n) && s < WIDTH <= s + (n - 1) * p && (n - 1) * p < WIDTH && WIDTH % n != 0
    ensures i < j < n && ProbeWrapped(s, p, n, i) == ProbeWrapped(s, p, n, j)
  {
    var w := FirstWrap(s, p, n);
    var there := s + w * p - WIDTH;
    ProbesVisitAll(s, p, n, there % n);
    hide Divides, IsPrime;
    var m: nat :| m < n && Probe(s, p, n, m) == there % n;
    if m < w {
      i, j := m, w;
      BeforeWrap(s, p, n, w, m);
      BehindWrap(s, p, n, w, w);
    } else if m == w {
      NotTheSame(s + w * p, n);
      assert false;
    } else {
      i, j := 0, w + (n - m);
      BeforeWrap(s, p, n, w, 0);
      BehindWrap(s, p, n, w, j);
      AroundOnce(s, p, n, m, w);
    }
  }

  lemma NotTheSame(x: nat, n: nat)
    requires n > 0 && x >= WIDTH && WIDTH % n != 0
    ensures x % n != (x - WIDTH) % n
  {
    if x % n == (x - WIDTH) % n { SameRest(x - WIDTH, x, n); }
  }

  /** n - m steps from where step m of the start leads are n steps from the start. */
  lemma AroundOnce(s: nat, p: nat, n: nat, m: nat, w: nat)
    requires w < m < n && s + w * p >= WIDTH && (s + m * p) % n == (s + w * p - WIDTH) % n
    ensures Probe(s, p, n, 0) == (s + (w + (n - m)) * p - WIDTH) % n
  {
    SameAdd(s + m * p, s + w * p - WIDTH, (n - m) * p, n);
    Distribute(p, m, n - m);
    Distribute(p, w, n - m);
    MultipleDivides(n, p);
    BitMask.RemainderUnique(0, n, 0, 0);
    SameAdd(0, n * p, s, n);
  }

  /** The groups of the first k probes. */
  function Hit(s: nat, p: nat, n: nat, k: nat): (r: set<nat>)
    requires n > 0
    ensures |r| <= k && forall i: nat :: i < k ==> ProbeWrapped(s, p, n, i) in r
    ensures forall g :: g in r ==> exists i: nat :: i < k && ProbeWrapped(s, p, n, i) == g
  {
    if k == 0 then {} else Hit(s, p, n, k - 1) + {ProbeWrapped(s, p, n, k - 1)}
  }

  lemma {:induction false} CollisionCount(s: nat, p: nat, n: nat, i: nat, j: nat, k: nat)
    requires n > 0 && i < j < k && ProbeWrapped(s, p, n, i) == ProbeWrapped(s, p, n, j)
    ensures |Hit(s, p, n, k)| < k
  {
    hide *;
    HitNext(s, p, n, k - 1);
    var before, last := Hit(s, p, n, k - 1), ProbeWrapped(s, p, n, k - 1);
    AddSize(before, last);
    if k == j + 1 {
      assert ProbeWrapped(s, p, n, i) in Hit(s, p, n, j);
    } else {
      CollisionCount(s, p, n, i, j, k - 1);
    }
  }

  lemma AddSize(a: set<nat>, x: nat)
    ensures |a + {x}| <= |a| + 1 && (x in a ==> |a + {x}| == |a|)
  {
    if x in a { assert a + {x} == a; }
  }

  lemma HitNext(s: nat, p: nat, n: nat, k: nat)
    requires n > 0
    ensures Hit(s, p, n, k + 1) == Hit(s, p, n, k) + {ProbeWrapped(s, p, n, k)}
  {
    hide ProbeWrapped;
  }

  lemma SubsetSize(a: set<nat>, b: set<nat>)
    requires a <= b
    ensures |a| <= |b|
  {
    assert b == a + (b - a);
  }

  lemma CollisionMisses(s: nat, p: nat, n: nat, i: nat, j: nat) returns (g: nat)
    requires i < j < n && ProbeWrapped(s, p, n, i) == ProbeWrapped(s, p, n, j)
    ensures g < n && !Reached(s, p, n, g)
  {
    var seen, all := Hit(s, p, n, n), Below(n);
    CollisionCount(s, p, n, i, j, n);
    if all <= seen {
      SubsetSize(all, seen);
      assert false;
    }
    hide ProbeWrapped, Hit, Below;
    g :| g in all && g !in seen;
  }

  lemma StaysBelow(s: nat, p: nat, n: nat, i: nat)
    requires i < n && s + (n - 1) * p < WIDTH
    ensures (s + i * p) % WIDTH == s + i * p
  {
    Distribute(p, n - 1 - i, i);
    assert (n - 1 - i) * p >= 0;
    BitMask.RemainderUnique(s + i * p, WIDTH, 0, s + i * p);
  }

  lemma RestOfRest(x: nat, n: nat)
    requires n > 0 && WIDTH % n == 0
    ensures (x % WIDTH) % n == x % n
  {
    var y, q, w := x % WIDTH, x / WIDTH, WIDTH / n;
    assert x == WIDTH * q + y && WIDTH == n * w;
    Rearrange(n, w, q);
    var yq, r := y / n, y % n;
    assert y == n * yq + r;
    Distribute(n, q * w, yq);
    assert (n * w) * q == n * (q * w);
    BitMask.RemainderUnique(x, n, q * w + yq, r);
  }

  // ------------------------------------------------------------ the probe loop

  /** The two queues of a worker: its own, and the one other threads put tasks into. */
  class TaskGroup {
    var rq: seq<int>
    var remoteRq: seq<int>

    constructor ()
      ensures rq == [] && remoteRq == []
    {
      rq, remoteRq := [], [];
    }

    predicate Idle()
      reads this
    {
      rq == [] && remoteRq == []
    }

    /** Either queue gives its oldest task. */
    method Steal() returns (ok: bool, task: int)
      modifies this
      ensures ok <==> !old(Idle())
      ensures ok && old(rq) != [] ==> [task] + rq == old(rq) && remoteRq == old(remoteRq)
      ensures ok && old(rq) == [] ==> [task] + remoteRq == old(remoteRq) && rq == []
      ensures !ok ==> rq == old(rq) && remoteRq == old(remoteRq)
    {
      if rq != [] {
        task, rq := rq[0], rq[1..];
        return true, task;
      }
      if remoteRq != [] {
        task, remoteRq := remoteRq[0], remoteRq[1..];
        return true, task;
      }
      return false, 0;
    }
  }

  predicate Empty(groups: seq<TaskGroup?>, k: nat)
    reads set g | g in groups && g != null
  {
    k < |groups| && (groups[k] == null || groups[k].Idle())
  }

  /** steal_task over groups that do not change meanwhile, with `_steal_seed` and its offset. It
      takes one task from the group `from`, or finds nothing in all the groups it has looked at;
      these are all the groups unless the sum wraps on the way. */
  method StealTask(groups: seq<TaskGroup?>, seed: nat, offset: nat) returns (stolen: bool, task: int, seed': nat, ghost from: nat)
    requires seed < WIDTH && |groups| < offset && IsPrime(offset)
    modifies set g | g in groups && g != null
    ensures !stolen ==> seed' == (seed + |groups| * offset) % WIDTH
    ensures !stolen ==> forall g :: g in groups && g != null ==> g.rq == old(g.rq) && g.remoteRq == old(g.remoteRq)
    ensures !stolen ==> forall i: nat :: i < |groups| ==> old(Empty(groups, ProbeWrapped(seed, offset, |groups|, i)))
    ensures stolen ==> from < |groups| && groups[from] != null && !old(Empty(groups, from))
    ensures stolen ==> forall g :: g in groups && g != null && g != groups[from] ==> g.rq == old(g.rq) && g.remoteRq == old(g.remoteRq)
    ensures stolen ==> var g := groups[from]; old(g.rq) + old(g.remoteRq) == [task] + g.rq + g.remoteRq
    ensures |groups| > 0 && (seed + (|groups| - 1) * offset < WIDTH || WIDTH % |groups| == 0) ==>
              (stolen <==> exists k: nat :: k < |groups| && !old(Empty(groups, k)))
  {
    var n := |groups|;
    stolen, task, from := false, 0, 0;
    var s := seed;
    var i := 0;
    while i < n
      invariant i <= n && s == (seed + i * offset) % WIDTH && !stolen
      invariant forall g :: g in groups && g != null ==> g.rq == old(g.rq) && g.remoteRq == old(g.remoteRq)
      invariant forall j: nat :: j < i ==> old(Empty(groups, ProbeWrapped(seed, offset, n, j)))
    {
      from := s % n;
      var g := groups[s % n];
      if g != null {
        stolen, task := g.Steal();
        if stolen {
          assert !old(Empty(groups, from));
          break;
        }
      }
      NextSum(seed, offset, i);
      i := i + 1;
      s := (s + offset) % WIDTH;
    }
    if !stolen && n > 0 && (seed + (n - 1) * offset < WIDTH || WIDTH % n == 0) {
      LargerDivides(n, offset);
      forall k: nat | k < n ensures old(Empty(groups, k)) { WrappedProbesVisitAll(seed, offset, n, k); }
    }
    seed' := s;
  }

  lemma NextSum(seed: nat, offset: nat, i: nat)
    ensures ((seed + i * offset) % WIDTH + offset) % WIDTH == (seed + (i + 1) * offset) % WIDTH
  {
    var x := seed + i * offset;
    BitMask.RemainderUnique(x % WIDTH, WIDTH, 0, x % WIDTH);
    SameAdd(x % WIDTH, x, offset, WIDTH);
    Distribute(offset, i, 1);
  }
}
