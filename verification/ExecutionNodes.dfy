/** The nodes of the task list (struct TaskNode of eabase/fiber/execution_queue_inl.h) and the
    loops that run over them, for the consumer of module ExecutionQueue. */
module ExecutionNodes {
  import opened ExecutionQueue

  class TaskNode {
    var next: TaskNode?
    var version: int
    var status: Status
    var stopTask: bool
    var iterated: bool
    var highPriority: bool

    constructor (highPriority: bool, stopTask: bool)
      ensures next == null && version == 0 && status == Unexecuted && !iterated
      ensures this.highPriority == highPriority && this.stopTask == stopTask
    {
      next, version, status, iterated := null, 0, Unexecuted, false;
      this.highPriority, this.stopTask := highPriority, stopTask;
    }

    /** The node of task j, pushed with version v: its version moves on when it is returned. */
    ghost predicate Is(s: State, j: nat, v: int)
      reads this
    {
      && j < |s.tasks|
      && if s.tasks[j].returned then version > v else version == v && status == s.tasks[j].status
    }

    /** A handle keeps the version that its task was pushed with. */
    method Cancel(expectedVersion: int, ghost s: State, ghost j: nat) returns (rc: int)
      requires Is(s, j, expectedVersion) && !s.tasks[j].stop
      modifies this`status
      ensures var s' := Apply(s, Step.Cancel(j));
              && Is(s', j, expectedVersion)
              && (rc == 0 ==> j in s'.cancelled && s'.tasks[j].status == Executed)
              && (rc != 0 ==> s' == s)
              && (rc == 1 <==> !s.tasks[j].returned && s.tasks[j].status == Executing)
    {
      if version != expectedVersion {
        return -1;
      }
      if status == Unexecuted {
        status := Executed;
        return 0;
      }
      rc := if status == Executed then -1 else 1;
    }

    method PeekToExecute() returns (peeked: bool)
      modifies this`status
      ensures peeked <==> old(status) == Unexecuted
      ensures status == if peeked then Executing else old(status)
    {
      if status == Unexecuted {
        status := Executing;
        return true;
      }
      return false;
    }
  }

  ghost predicate DistinctNodes(order: seq<TaskNode>) {
    forall i, j :: 0 <= i < j < |order| ==> order[i] != order[j]
  }

  function NodeAt(order: seq<TaskNode>, i: nat): TaskNode? {
    if i < |order| then order[i] else null
  }

  ghost predicate Linked(order: seq<TaskNode>)
    reads order
  {
    DistinctNodes(order) && forall i :: 0 <= i < |order| ==> order[i].next == NodeAt(order, i + 1)
  }

  /** Node i is task h + i. */
  ghost predicate Row(order: seq<TaskNode>, tasks: seq<Task>, h: nat)
    reads order
  {
    Linked(order) && h + |order| <= |tasks| && forall i :: 0 <= i < |order| ==> IsTask(order[i], tasks[h + i])
  }

  /** The consumer's part of the list. */
  ghost predicate Holds(order: seq<TaskNode>, s: State)
    reads order
  {
    && !s.consumer.Off? && s.consumer.h <= s.consumer.t < |s.tasks|
    && |order| == s.consumer.t + 1 - s.consumer.h && Row(order, s.tasks, s.consumer.h)
  }

  predicate IsTask(node: TaskNode, task: Task)
    reads node
  {
    node.highPriority == task.high && node.stopTask == task.stop && node.iterated == task.iterated && node.status == task.status
  }

  // ------------------------------------------------------------ the iterator

  /** The loop of operator++, undisturbed. */
  function ScanAll(s: State): State
    requires s.consumer.Scan? && s.consumer.h <= s.consumer.cur <= s.consumer.t + 1 && s.consumer.t < |s.tasks|
    decreases s.consumer.t + 1 - s.consumer.cur
  {
    var s1 := ScanNode(s);
    if s1.consumer.Scan? then ScanAll(s1) else s1
  }

  /** What a round makes of a task, and whether it takes it. */
  function Scanned(task: Task, high: bool): Task {
    if task.high != high || task.iterated then task
    else task.(iterated := true, status := if task.status == Unexecuted then Executing else task.status)
  }

  predicate Takes(task: Task, high: bool) {
    task.high == high && !task.iterated && task.status == Unexecuted
  }

  predicate Counts(task: Task, high: bool) {
    task.high == high && !task.iterated
  }

  lemma ScanIs(s: State)
    requires s.consumer.Scan? && s.consumer.h <= s.consumer.cur <= s.consumer.t < |s.tasks| && !s.tasks[s.consumer.cur].stop
    ensures var c, s' := s.consumer, ScanNode(s); var task := s.tasks[c.cur];
            && s'.tasks == s.tasks[c.cur := Scanned(task, c.high)]
            && s'.consumer == if Takes(task, c.high) then User(c.h, c.t, c.high, c.cur, c.n + 1, c.inPlace)
                 else Scan(c.h, c.t, c.high, c.cur + 1, c.n + (if Counts(task, c.high) then 1 else 0), c.inPlace)
  {}

  /** One round: the node at hand is left alone, passed over or taken. */
  method ScanRound(cur: TaskNode, high: bool, ghost order: seq<TaskNode>, ghost s: State) returns (taken: bool, counted: bool)
    requires Holds(order, s) && s.consumer.Scan? && s.consumer.high == high
    requires s.consumer.h <= s.consumer.cur <= s.consumer.t && cur == order[s.consumer.cur - s.consumer.h] && !cur.stopTask
    modifies cur`iterated, cur`status
    ensures Holds(order, ScanNode(s)) && cur.next == NodeAt(order, s.consumer.cur - s.consumer.h + 1)
    ensures taken <==> ScanNode(s).consumer.User?
    ensures ScanNode(s).consumer == if taken then User(s.consumer.h, s.consumer.t, high, s.consumer.cur, s.consumer.n + 1, s.consumer.inPlace)
              else Scan(s.consumer.h, s.consumer.t, high, s.consumer.cur + 1, s.consumer.n + (if counted then 1 else 0), s.consumer.inPlace)
  {
    hide ScanNode, Scanned, Takes, Counts, Row;
    ghost var h, k := s.consumer.h, s.consumer.cur - s.consumer.h;
    RowAt(order, s.tasks, h, k);
    ScanIs(s);
    hide IsTask;
    taken, counted := ScanHere(cur, high, order, s.tasks, h, k);
  }

  lemma RowAt(order: seq<TaskNode>, tasks: seq<Task>, h: nat, k: nat)
    requires Row(order, tasks, h) && k < |order|
    ensures IsTask(order[k], tasks[h + k]) && order[k].next == NodeAt(order, k + 1)
  {}

  method ScanHere(cur: TaskNode, high: bool, ghost order: seq<TaskNode>, ghost tasks: seq<Task>, ghost h: nat, ghost k: nat)
    returns (taken: bool, counted: bool)
    requires Row(order, tasks, h) && k < |order| && cur == order[k]
    modifies cur`iterated, cur`status
    ensures Row(order, tasks[h + k := Scanned(tasks[h + k], high)], h)
    ensures (taken <==> Takes(tasks[h + k], high)) && (counted <==> Counts(tasks[h + k], high))
    ensures cur.next == old(cur.next)
  {
    assert IsTask(cur, tasks[h + k]);
    taken, counted := false, false;
    if high == cur.highPriority {
      if !cur.iterated {
        taken := cur.PeekToExecute();
        counted := true;
      }
      cur.iterated := true;
    }
    assert forall i :: 0 <= i < |order| && i != k ==> order[i] != cur;
  }

  /** Where the loop of operator++ stands. */
  ghost predicate Scanning(order: seq<TaskNode>, r: State, s: State, cur: TaskNode?, high: bool, num: nat)
    reads order
  {
    && ScanStart(s) && ScanStart(r) && Holds(order, r) && r.consumer.high == high && r.consumer.n == num
    && s.consumer.h == r.consumer.h && cur == NodeAt(order, r.consumer.cur - r.consumer.h)
    && ScanAll(s) == ScanAll(r)
  }

  predicate ScanStart(s: State) {
    s.consumer.Scan? && s.consumer.h <= s.consumer.cur <= s.consumer.t + 1 && s.consumer.t < |s.tasks|
  }

  /** The loop has ended: the iterator is at the next task to run or at the end of the pass. */
  ghost predicate Stands(order: seq<TaskNode>, s: State, cur: TaskNode?, num: nat)
    requires ScanStart(s)
    reads order
  {
    var s' := ScanAll(s);
    && Holds(order, s') && (s'.consumer.User? || s'.consumer.Leave?)
    && s'.consumer.h == s.consumer.h <= s'.consumer.cur && cur == NodeAt(order, s'.consumer.cur - s'.consumer.h)
    && num == s'.consumer.n
  }

  function ToScan(r: State): int {
    if r.consumer.Scan? then r.consumer.t + 1 - r.consumer.cur else 0
  }

  /** operator++ from its loop on: the next task to run, or the end of the pass. */
  method NextTask(start: TaskNode?, high: bool, numIterated: nat, ghost order: seq<TaskNode>, ghost s: State)
    returns (cur: TaskNode?, num: nat)
    requires ScanStart(s) && Holds(order, s) && s.consumer.high == high && s.consumer.n == numIterated
    requires start == NodeAt(order, s.consumer.cur - s.consumer.h)
    modifies order`iterated, order`status
    ensures Stands(order, s, cur, num)
  {
    cur, num := start, numIterated;
    ghost var r := s;
    assert Scanning(order, r, s, cur, high, num);
    hide *;
    while cur != null && !cur.stopTask
      invariant Scanning(order, r, s, cur, high, num)
      decreases ToScan(r)
    {
      var taken;
      taken, cur, num, r := ScanNext(cur, high, num, order, r, s);
      if taken {
        return;
      }
    }
    ScanStops(order, r, s, cur, high, num);
  }

  method ScanNext(cur: TaskNode, high: bool, num: nat, ghost order: seq<TaskNode>, ghost r: State, ghost s: State)
    returns (taken: bool, next: TaskNode?, num': nat, ghost r': State)
    requires Scanning(order, r, s, cur, high, num) && !cur.stopTask && ScanStart(s)
    modifies order`iterated, order`status
    ensures taken ==> Stands(order, s, next, num')
    ensures !taken ==> Scanning(order, r', s, next, high, num') && 0 <= ToScan(r') < ToScan(r)
  {
    hide ScanNode, Holds, ScanAll, Linked, Row;
    assert cur in order && r.consumer.cur <= r.consumer.t by { HoldsSize(order, r); }
    ScanAllStep(r);
    ScanMoves(r);
    var counted;
    taken, counted := ScanRound(cur, high, order, r);
    r' := ScanNode(r);
    if taken {
      return true, cur, num + 1, r';
    }
    num' := num + (if counted then 1 else 0);
    next := cur.next;
  }

  lemma ScanMoves(r: State)
    requires ScanStart(r) && r.consumer.cur <= r.consumer.t
    ensures var c, d := r.consumer, ScanNode(r).consumer;
            d.Scan? ==> d.h == c.h && d.t == c.t && d.high == c.high && d.cur == c.cur + 1 && |ScanNode(r).tasks| == |r.tasks|
  {}

  lemma HoldsSize(order: seq<TaskNode>, s: State)
    requires Holds(order, s)
    ensures !s.consumer.Off? && s.consumer.h <= s.consumer.t < |s.tasks| && |order| == s.consumer.t + 1 - s.consumer.h
  {}

  lemma ScanAllStep(r: State)
    requires ScanStart(r)
    ensures ScanNode(r).consumer.Scan? ==> ScanAll(r) == ScanAll(ScanNode(r))
    ensures !ScanNode(r).consumer.Scan? ==> ScanAll(r) == ScanNode(r)
  {
    hide ScanNode;
  }

  lemma ScanStops(order: seq<TaskNode>, r: State, s: State, cur: TaskNode?, high: bool, num: nat)
    requires Scanning(order, r, s, cur, high, num) && (cur == null || cur.stopTask) && ScanStart(s)
    ensures Stands(order, s, cur, num)
  {
    ScanAllStep(r);
    var k := r.consumer.cur - r.consumer.h;
    if k < |order| { RowAt(order, r.tasks, r.consumer.h, k); }
    hide ScanAll, Row;
  }

  function Marked(task: Task, high: bool): Task {
    if task.iterated && task.high == high then task.(status := Executed) else task
  }

  lemma MarkNext(tasks: seq<Task>, lo: nat, hi: nat, high: bool)
    requires lo <= hi < |tasks|
    ensures MarkExecuted(tasks, lo, hi + 1, high) == MarkExecuted(tasks, lo, hi, high)[hi := Marked(tasks[hi], high)]
    ensures MarkExecuted(tasks, lo, hi, high)[hi] == tasks[hi]
  {
    assert MarkExecuted(tasks, lo, hi + 1, high)[hi] == Marked(tasks[hi], high);
  }

  method MarkNode(p: TaskNode, high: bool, ghost order: seq<TaskNode>, ghost tasks: seq<Task>, ghost h: nat, ghost k: nat)
    requires Row(order, tasks, h) && k < |order| && p == order[k]
    modifies p`status
    ensures Row(order, tasks[h + k := Marked(tasks[h + k], high)], h) && p.next == NodeAt(order, k + 1)
  {
    assert IsTask(p, tasks[h + k]);
    if p.iterated && p.highPriority == high {
      p.status := Executed;
    }
    assert forall i :: 0 <= i < |order| && i != k ==> order[i] != p;
  }

  /** The loop of the iterator's destructor, over the first n nodes. */
  method MarkUpTo(head: TaskNode, stop: TaskNode?, high: bool, ghost order: seq<TaskNode>, ghost tasks: seq<Task>, ghost h: nat, ghost n: nat)
    requires n <= |order| && h + |order| <= |tasks| && Row(order, MarkExecuted(tasks, h, h, high), h)
    requires head == NodeAt(order, 0) && stop == NodeAt(order, n)
    modifies order`status
    ensures Row(order, MarkExecuted(tasks, h, h + n, high), h)
  {
    hide Row, MarkExecuted, Marked;
    var p: TaskNode? := head;
    ghost var k := 0;
    while p != stop
      invariant 0 <= k <= n && p == NodeAt(order, k) && Row(order, MarkExecuted(tasks, h, h + k, high), h)
      decreases n - k
    {
      MarkNext(tasks, h, h + k, high);
      MarkNode(p, high, order, MarkExecuted(tasks, h, h + k, high), h, k);
      p := p.next;
      k := k + 1;
    }
    NodesApart(order, MarkExecuted(tasks, h, h + k, high), h, k, n);
  }

  /** The iterator's destructor: what the pass has gone over is marked EXECUTED. `stop` is the
      node the iterator stands at, `broke` says that it gave way to urgent tasks. */
  method MarkPass(head: TaskNode, stop: TaskNode?, high: bool, broke: bool, ghost order: seq<TaskNode>, ghost s: State)
    requires Holds(order, s) && head == order[0] && s.consumer.Leave? && s.consumer.high == high && s.consumer.broke == broke
    requires s.consumer.h <= s.consumer.cur <= s.consumer.t + 1 && stop == NodeAt(order, s.consumer.cur - s.consumer.h)
    modifies order`status
    ensures var c := s.consumer; var hi := if broke && c.cur <= c.t then c.cur + 1 else c.cur;
            Holds(order, s.(tasks := MarkExecuted(s.tasks, c.h, hi, high)))
  {
    hide Row, Holds, MarkExecuted, Marked;
    ghost var h, n := s.consumer.h, s.consumer.cur - s.consumer.h;
    MarkStarts(order, s, high);
    MarkUpTo(head, stop, high, order, s.tasks, h, n);
    if broke && stop != null {
      MarkLast(stop, high, order, s.tasks, h, n);
      HoldsWith(order, s, MarkExecuted(s.tasks, h, h + n + 1, high));
    } else {
      HoldsWith(order, s, MarkExecuted(s.tasks, h, h + n, high));
    }
  }

  /** The node that the iterator gave way at. */
  method MarkLast(stop: TaskNode, high: bool, ghost order: seq<TaskNode>, ghost tasks: seq<Task>, ghost h: nat, ghost n: nat)
    requires n < |order| && h + |order| <= |tasks| && stop == order[n] && Row(order, MarkExecuted(tasks, h, h + n, high), h)
    modifies stop`status
    ensures Row(order, MarkExecuted(tasks, h, h + n + 1, high), h)
  {
    hide Row, MarkExecuted, Marked;
    MarkNext(tasks, h, h + n, high);
    MarkNode(stop, high, order, MarkExecuted(tasks, h, h + n, high), h, n);
  }

  lemma MarkStarts(order: seq<TaskNode>, s: State, high: bool)
    requires Holds(order, s)
    ensures var h := s.consumer.h;
            && h <= s.consumer.t < |s.tasks| && |order| == s.consumer.t + 1 - h && Row(order, MarkExecuted(s.tasks, h, h, high), h)
  {}

  lemma HoldsWith(order: seq<TaskNode>, s: State, tasks: seq<Task>)
    requires !s.consumer.Off? && s.consumer.h <= s.consumer.t < |tasks| && |order| == s.consumer.t + 1 - s.consumer.h
    requires Row(order, tasks, s.consumer.h)
    ensures Holds(order, s.(tasks := tasks))
  {
    hide Row;
  }

  lemma NodesApart(order: seq<TaskNode>, tasks: seq<Task>, h: nat, k: nat, n: nat)
    requires Row(order, tasks, h) && k <= n <= |order| && NodeAt(order, k) == NodeAt(order, n)
    ensures k == n
  {}

  // ------------------------------------------------------------ the list

  /** The reversal loop of _more_tasks, every `next` being connected: `order` is the exchange
      order from the old tail to the new head. */
  method ReverseNewer(oldHead: TaskNode, newHead: TaskNode, ghost order: seq<TaskNode>)
    requires |order| >= 2 && order[0] == oldHead && order[|order| - 1] == newHead && DistinctNodes(order)
    requires forall i :: 1 <= i < |order| ==> order[i].next == order[i - 1]
    modifies (set i | 0 <= i < |order| :: order[i])`next
    ensures forall i :: 0 <= i < |order| - 1 ==> order[i].next == order[i + 1]
    ensures newHead.next == null
  {
    var tail: TaskNode? := null;
    var p := newHead;
    ghost var j := |order| - 1;
    while p != oldHead
      invariant 0 <= j < |order| && p == order[j]
      invariant tail == if j == |order| - 1 then null else order[j + 1]
      invariant forall i :: 1 <= i <= j ==> order[i].next == order[i - 1]
      invariant forall i :: j < i < |order| - 1 ==> order[i].next == order[i + 1]
      invariant j < |order| - 1 ==> newHead.next == null
      decreases j
    {
      var savedNext := p.next;
      p.next := tail;
      tail := p;
      p := savedNext;
      j := j - 1;
    }
    oldHead.next := tail;
  }

  /** The walk to the last node when the consumer does not know its tail yet. */
  method FindTail(head: TaskNode, ghost order: seq<TaskNode>) returns (tail: TaskNode)
    requires order != [] && order[0] == head
    requires forall i :: 0 <= i < |order| - 1 ==> order[i].next == order[i + 1]
    requires order[|order| - 1].next == null
    ensures tail == order[|order| - 1]
  {
    tail := head;
    ghost var j := 0;
    while tail.next != null
      invariant 0 <= j < |order| && tail == order[j]
      invariant j < |order| - 1 ==> tail.next == order[j + 1]
      decreases |order| - j
    {
      tail := tail.next;
      j := j + 1;
    }
  }

  /** The release of the executed prefix: stops at the first node not iterated or the last. */
  method ReleaseIterated(head: TaskNode, ghost order: seq<TaskNode>) returns (kept: TaskNode, ghost k: nat)
    requires order != [] && order[0] == head
    requires forall i :: 0 <= i < |order| - 1 ==> order[i].next == order[i + 1]
    requires order[|order| - 1].next == null
    ensures k < |order| && kept == order[k] && (kept.iterated ==> k == |order| - 1)
    ensures forall i :: 0 <= i < k ==> order[i].iterated
  {
    kept, k := head, 0;
    while kept.next != null && kept.iterated
      invariant 0 <= k < |order| && kept == order[k]
      invariant k < |order| - 1 ==> kept.next == order[k + 1]
      invariant forall i :: 0 <= i < k ==> order[i].iterated
      decreases |order| - k
    {
      kept := kept.next;
      k := k + 1;
    }
  }
}
