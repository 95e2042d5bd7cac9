/** The multi-producer, single-consumer task list of eabase/fiber/execution_queue.cc and
    execution_queue_inl.h.

    A node is named by its place in the order of the exchanges on `_head`: pushing node n makes
    `tasks[n]`. Producers are anonymous: `pendingHigh` counts those between the increment of the
    high-priority counter and the exchange, `linking` maps each node whose `next` is still
    UNCONNECTED to the previous head its producer is about to store there. `Consume` runs one
    atomic access of the consuming thread. */
module ExecutionQueue {

  datatype Link = Unconnected | Null | To(n: nat)

  datatype Status = Unexecuted | Executing | Executed

  datatype Task = Task(high: bool, stop: bool, next: Link, iterated: bool, status: Status, returned: bool)

  /** Where the consuming thread is. `h` and `t` are the first node it still owns and the last
      one it has linked; `cur` is the iterator's node, t + 1 standing for NULL; `n` is
      `_num_iterated`; `inPlace` marks the pass run inside the pushing call. */
  datatype Consumer =
    | Off
    | Top(h: nat, t: nat)
    | Advance(h: nat, t: nat, high: bool, cur: nat, n: nat, inPlace: bool)
    | Scan(h: nat, t: nat, high: bool, cur: nat, n: nat, inPlace: bool)
    | User(h: nat, t: nat, high: bool, cur: nat, n: nat, inPlace: bool)
    | Leave(h: nat, t: nat, high: bool, cur: nat, n: nat, inPlace: bool, broke: bool)
    | More(h: nat, t: nat)
    | Reversing(h: nat, t: nat, newHead: nat, p: nat, tail: Link)

  /** `ran` lists the nodes handed to the user function, `cancelled` those cancelled in time;
      `consumers` counts the running consumers; `destroyed` is set by the consumer of the stop
      task on its way out. */
  datatype State = State(
    tasks: seq<Task>, head: int, hp: int, pendingHigh: nat, linking: map<nat, int>,
    consumer: Consumer, consumers: nat, ran: seq<nat>, cancelled: set<nat>, destroyed: bool)

  datatype Step =
    | CountHigh
    | Push(high: bool, inPlace: bool)
    | PushStop
    | Connect(i: nat)
    | Cancel(j: nat)
    | Consume(early: bool)

  predicate Closed(s: State) {
    s.tasks != [] && s.tasks[|s.tasks| - 1].stop
  }

  /** The exchange on `_head`, and for the first node the start of a consumer. */
  function Exchange(s: State, high: bool, stop: bool, inPlace: bool): State {
    var i := |s.tasks|;
    var first := s.head == -1;
    s.(tasks := s.tasks + [Task(high, stop, if first then Null else Unconnected, false, Unexecuted, false)],
       head := i,
       linking := if first then s.linking else s.linking[i := s.head],
       consumer := if !first then s.consumer else if inPlace then Advance(i, i, high, i, 0, true) else Top(i, i),
       consumers := if first then s.consumers + 1 else s.consumers)
  }

  function Set(s: State, i: nat, task: Task): State
    requires i < |s.tasks|
  {
    s.(tasks := s.tasks[i := task])
  }

  /** return_task_node for the nodes before `h`. */
  function ReturnUpTo(tasks: seq<Task>, h: nat): (r: seq<Task>)
    requires h <= |tasks|
    ensures |r| == |tasks|
    ensures forall i :: 0 <= i < h ==> r[i] == tasks[i].(returned := true)
    ensures forall i :: h <= i < |tasks| ==> r[i] == tasks[i]
  {
    if h == 0 then tasks
    else var r := ReturnUpTo(tasks, h - 1); r[h - 1 := r[h - 1].(returned := true)]
  }

  /** The first node from `h` on that is not iterated, or the last one. */
  function FirstKept(tasks: seq<Task>, h: nat, t: nat): (k: nat)
    requires h <= t < |tasks|
    ensures h <= k <= t && (tasks[k].iterated ==> k == t)
    ensures forall i :: h <= i < k ==> tasks[i].iterated
    decreases t - h
  {
    if h < t && tasks[h].iterated then FirstKept(tasks, h + 1, t) else h
  }

  /** The iterator's destructor: what it went over is marked EXECUTED. */
  function MarkExecuted(tasks: seq<Task>, lo: nat, hi: nat, high: bool): (r: seq<Task>)
    requires lo <= hi <= |tasks|
    ensures |r| == |tasks|
    ensures forall i :: 0 <= i < |tasks| ==>
              r[i] == if lo <= i < hi && tasks[i].iterated && tasks[i].high == high then tasks[i].(status := Executed) else tasks[i]
    decreases hi - lo
  {
    if lo == hi then tasks
    else
      var r := MarkExecuted(tasks, lo + 1, hi, high);
      if tasks[lo].iterated && tasks[lo].high == high then r[lo := r[lo].(status := Executed)] else r
  }

  /** The loop head of _execute_tasks: drop an iterated head, choose the kind of pass. */
  function StartPass(s: State): State
    requires s.consumer.Top? && s.consumer.h <= s.consumer.t < |s.tasks|
  {
    var c := s.consumer;
    var h := if s.tasks[c.h].iterated && c.h < c.t then c.h + 1 else c.h;
    var s1 := s.(tasks := ReturnUpTo(s.tasks, h));
    if s.tasks[h].stop then
      Set(s1, h, s1.tasks[h].(iterated := true, status := Executed))
        .(consumer := More(h, c.t), hp := if s.hp > 0 then s.hp - 1 else s.hp)
    else s1.(consumer := Advance(h, c.t, s.hp > 0, h, 0, false))
  }

  /** TaskIteratorBase::operator++ up to its loop. */
  function AdvanceIterator(s: State): State
    requires s.consumer.Advance? && s.consumer.cur <= s.consumer.t + 1 && s.consumer.t < |s.tasks|
  {
    var c := s.consumer;
    var cur := if c.cur <= c.t && s.tasks[c.cur].iterated then c.cur + 1 else c.cur;
    if !c.high && s.hp > 0 then s.(consumer := Leave(c.h, c.t, c.high, cur, c.n, c.inPlace, true))
    else s.(consumer := Scan(c.h, c.t, c.high, cur, c.n, c.inPlace))
  }

  /** One round of the loop of operator++. */
  function ScanNode(s: State): State
    requires s.consumer.Scan? && s.consumer.cur <= s.consumer.t + 1 && s.consumer.t < |s.tasks|
  {
    var c := s.consumer;
    if c.cur > c.t || s.tasks[c.cur].stop then s.(consumer := Leave(c.h, c.t, c.high, c.cur, c.n, c.inPlace, false))
    else
      var task := s.tasks[c.cur];
      if task.high == c.high && !task.iterated then
        if task.status == Unexecuted then
          Set(s, c.cur, task.(iterated := true, status := Executing))
            .(consumer := User(c.h, c.t, c.high, c.cur, c.n + 1, c.inPlace), ran := s.ran + [c.cur])
        else
          Set(s, c.cur, task.(iterated := true)).(consumer := Scan(c.h, c.t, c.high, c.cur + 1, c.n + 1, c.inPlace))
      else s.(consumer := Scan(c.h, c.t, c.high, c.cur + 1, c.n, c.inPlace))
  }

  /** The end of a pass: the destructor, the counter, and the release of the executed prefix. */
  function EndPass(s: State): State
    requires s.consumer.Leave? && s.consumer.h <= s.consumer.cur <= s.consumer.t + 1 && s.consumer.h <= s.consumer.t < |s.tasks|
  {
    var c := s.consumer;
    var hi := if c.broke && c.cur <= c.t then c.cur + 1 else c.cur;
    var tasks := MarkExecuted(s.tasks, c.h, hi, c.high);
    var h := if c.inPlace then c.h else FirstKept(tasks, c.h, c.t);
    s.(tasks := ReturnUpTo(tasks, h), hp := if c.high then s.hp - c.n else s.hp, consumer := More(h, c.t))
  }

  /** The compare-exchange of _more_tasks. */
  function TryFinish(s: State): State
    requires s.consumer.More? && s.consumer.h <= s.consumer.t < |s.tasks|
  {
    var c := s.consumer;
    if s.head == c.t then
      if !s.tasks[c.h].iterated then s.(consumer := Top(c.h, c.t))
      else s.(head := -1, tasks := ReturnUpTo(s.tasks, c.h + 1), consumer := Off,
              consumers := if s.consumers > 0 then s.consumers - 1 else 0,
              destroyed := s.destroyed || s.tasks[c.h].stop)
    else if s.head >= 0 then s.(consumer := Reversing(c.h, c.t, s.head, s.head, Null))
    else s
  }

  /** One round of the reversal of _more_tasks; an unconnected node is waited for. */
  function ReverseNode(s: State): State
    requires s.consumer.Reversing? && s.consumer.p < |s.tasks| && s.consumer.t < |s.tasks|
  {
    var c := s.consumer;
    match s.tasks[c.p].next
    case Unconnected => s
    case Null => s
    case To(saved) =>
      var s1 := Set(s, c.p, s.tasks[c.p].(next := c.tail));
      if saved == c.t
      then Set(s1, c.t, s1.tasks[c.t].(next := To(c.p))).(consumer := Top(c.h, c.newHead))
      else s1.(consumer := Reversing(c.h, c.t, c.newHead, saved, To(c.p)))
  }

  /** `early`: the user function returns before its iterator has reached the end. */
  function ConsumerNext(s: State, early: bool): State
    requires Shape(s)
  {
    var c := s.consumer;
    match c
    case Off => s
    case Top(_, _) => StartPass(s)
    case Advance(_, _, _, _, _, _) => AdvanceIterator(s)
    case Scan(_, _, _, _, _, _) => ScanNode(s)
    case User(h, t, high, cur, n, inPlace) =>
      if early then s.(consumer := Leave(h, t, high, cur, n, inPlace, false))
      else s.(consumer := Advance(h, t, high, cur, n, inPlace))
    case Leave(_, _, _, _, _, _, _) => EndPass(s)
    case More(_, _) => TryFinish(s)
    case Reversing(_, _, _, _, _) => ReverseNode(s)
  }

  predicate HasIterator(c: Consumer) {
    c.Advance? || c.Scan? || c.User? || c.Leave?
  }

  predicate Shape(s: State) {
    var c := s.consumer;
    && (!c.Off? ==> c.h <= c.t < |s.tasks|)
    && (HasIterator(c) ==> c.h <= c.cur <= c.t + 1)
    && (c.Reversing? ==> c.p < |s.tasks|)
  }

  /** No node follows the stop task, and the stop task is pushed when nobody is on the way to
      push: ExecutionQueueRef shows that the reference counts guarantee it. */
  predicate Enabled(s: State, step: Step) {
    match step
    case CountHigh => !Closed(s)
    case Push(high, _) => !Closed(s) && (high ==> s.pendingHigh > 0)
    case PushStop => !Closed(s) && s.pendingHigh == 0
    case Connect(i) => i in s.linking && i < |s.tasks|
    case Cancel(j) => j < |s.tasks| && !s.tasks[j].stop
    case Consume(_) => Shape(s)
  }

  function Apply(s: State, step: Step): State {
    if !Enabled(s, step) then s else
    match step
    case CountHigh => s.(hp := s.hp + 1, pendingHigh := s.pendingHigh + 1)
    case Push(high, inPlace) =>
      Exchange(s.(pendingHigh := if high then s.pendingHigh - 1 else s.pendingHigh), high, false, inPlace)
    case PushStop => Exchange(s, false, true, false)
    case Connect(i) =>
      var prev := s.linking[i];
      Set(s, i, s.tasks[i].(next := if prev >= 0 then To(prev) else Null)).(linking := s.linking - {i})
    case Cancel(j) =>
      if s.tasks[j].returned || s.tasks[j].status != Unexecuted then s
      else Set(s, j, s.tasks[j].(status := Executed)).(cancelled := s.cancelled + {j})
    case Consume(early) => ConsumerNext(s, early)
  }

  // ------------------------------------------------------------ the list

  /** Newer nodes still hang together backwards: each names its predecessor, or its producer
      is about to store it. */
  predicate Fresh(next: Link, linking: map<nat, int>, i: nat) {
    if i in linking then linking[i] == i - 1 && next == Unconnected else i > 0 && next == To(i - 1)
  }

  /** The consumer's part of the list runs forwards from `h` to `t`. */
  ghost predicate Chain(s: State, h: nat, t: nat)
    requires t < |s.tasks|
  {
    && (forall i :: h <= i < t ==> s.tasks[i].next == To(i + 1))
    && s.tasks[t].next == Null
  }

  /** Half-way through a reversal: the nodes after `p` up to `newHead` run forwards already. */
  ghost predicate HalfReversed(s: State, c: Consumer)
    requires c.Reversing? && c.t < |s.tasks|
  {
    && c.t < c.p <= c.newHead < |s.tasks|
    && c.tail == (if c.p == c.newHead then Null else To(c.p + 1))
    && (forall i :: c.p < i < c.newHead ==> s.tasks[i].next == To(i + 1))
    && (c.p < c.newHead ==> s.tasks[c.newHead].next == Null)
    && (forall i :: c.t < i <= c.p ==> Fresh(s.tasks[i].next, s.linking, i))
    && (forall i :: c.newHead < i < |s.tasks| ==> Fresh(s.tasks[i].next, s.linking, i))
    && (forall i :: i in s.linking ==> c.t < i <= c.p || c.newHead < i)
  }

  ghost predicate ListOk(s: State)
    requires Shape(s)
  {
    var c := s.consumer;
    if c.Off? then s.head == -1 && s.linking == map[]
    else
      && s.head == |s.tasks| - 1
      && Chain(s, c.h, c.t)
      && (forall i :: i in s.linking ==> c.t < i < |s.tasks|)
      && if c.Reversing? then HalfReversed(s, c)
         else forall i :: c.t < i < |s.tasks| ==> Fresh(s.tasks[i].next, s.linking, i)
  }

  ghost predicate OneConsumer(s: State) {
    s.consumers == (if s.consumer.Off? then 0 else 1) && (s.head == -1 <==> s.consumer.Off?)
  }

  // ------------------------------------------------------------ the tasks

  /** A node is returned only once iterated, and iterated only once run or cancelled. */
  predicate TaskOk(x: Task, last: bool, ran: bool, cancelled: bool) {
    && (x.returned ==> x.iterated)
    && (x.iterated ==> x.status != Unexecuted)
    && (x.stop ==> last && !x.high && !ran && !cancelled)
    && (ran ==> x.iterated && !cancelled)
    && (!x.stop ==> (x.status == Unexecuted <==> !ran && !cancelled))
  }

  ghost predicate TasksOk(s: State) {
    && (forall i :: 0 <= i < |s.tasks| ==> TaskOk(s.tasks[i], i == |s.tasks| - 1, i in s.ran, i in s.cancelled))
    && (forall k :: 0 <= k < |s.ran| ==> s.ran[k] < |s.tasks|)
    && (forall i :: i in s.cancelled ==> i < |s.tasks|)
  }

  /** Exactly the nodes before `h` have been returned; those after `t` are untouched. */
  ghost predicate WindowOk(s: State)
    requires Shape(s)
  {
    var c := s.consumer;
    if c.Off? then forall i :: 0 <= i < |s.tasks| ==> s.tasks[i].returned
    else
      && (forall i :: 0 <= i < |s.tasks| ==> (s.tasks[i].returned <==> i < c.h))
      && (forall i :: c.t < i < |s.tasks| ==> !s.tasks[i].iterated)
      && (c.Top? && s.tasks[c.h].iterated ==> c.h < c.t)
      && ((c.More? || c.Reversing?) && s.tasks[c.h].iterated ==> c.h == c.t)
      && (HasIterator(c) && c.inPlace ==> c.h == c.t)
  }

  // ------------------------------------------------------------ the order

  /** Within one priority the iterated nodes come first. */
  ghost predicate PrefixIterated(s: State) {
    forall i, j :: 0 <= i < j < |s.tasks| && s.tasks[j].iterated && !s.tasks[j].stop && s.tasks[i].high == s.tasks[j].high
                   ==> s.tasks[i].iterated
  }

  ghost predicate PassedOver(s: State)
    requires Shape(s)
  {
    var c := s.consumer;
    HasIterator(c) ==>
      && (forall i :: 0 <= i < c.cur && s.tasks[i].high == c.high ==> s.tasks[i].iterated)
      && (c.User? ==> c.cur <= c.t && s.tasks[c.cur].iterated && s.tasks[c.cur].high == c.high)
  }

  /** Tasks of one priority are run in the order of the exchanges. */
  ghost predicate RanInOrder(s: State)
    requires forall k :: 0 <= k < |s.ran| ==> s.ran[k] < |s.tasks|
  {
    forall a, b :: 0 <= a < b < |s.ran| && s.tasks[s.ran[a]].high == s.tasks[s.ran[b]].high ==> s.ran[a] < s.ran[b]
  }

  // ------------------------------------------------------------ the counter

  function Waiting(tasks: seq<Task>): nat {
    if tasks == [] then 0
    else Waiting(tasks[..|tasks| - 1]) + (if tasks[|tasks| - 1].high && !tasks[|tasks| - 1].iterated then 1 else 0)
  }

  /** The high-priority counter covers the producers on the way, the nodes not yet iterated,
      and those iterated in the pass that has not been accounted for. */
  ghost predicate CounterOk(s: State) {
    && s.hp == s.pendingHigh + Waiting(s.tasks) + (if HasIterator(s.consumer) && s.consumer.high then s.consumer.n else 0)
    && (Closed(s) ==> s.pendingHigh == 0)
  }

  ghost predicate Inv(s: State) {
    LinksOk(s) && NodesOk(s) && OrderOk(s) && CounterOk(s) && DestroyedOk(s)
  }

  ghost predicate DestroyedOk(s: State) {
    s.destroyed ==> Closed(s) && s.consumer.Off?
  }

  ghost predicate LinksOk(s: State) {
    Shape(s) && ListOk(s) && OneConsumer(s)
  }

  ghost predicate NodesOk(s: State) {
    Shape(s) && TasksOk(s) && WindowOk(s)
  }

  ghost predicate OrderOk(s: State) {
    Shape(s) && TasksOk(s) && PrefixIterated(s) && PassedOver(s) && RanInOrder(s)
  }

  // ------------------------------------------------------------ every step keeps them

  lemma {:induction false} WaitingUpdate(tasks: seq<Task>, i: nat, x: Task)
    requires i < |tasks|
    ensures Waiting(tasks[i := x]) == Waiting(tasks)
              - (if tasks[i].high && !tasks[i].iterated then 1 else 0) + (if x.high && !x.iterated then 1 else 0)
  {
    var n := |tasks| - 1;
    if i < n {
      WaitingUpdate(tasks[..n], i, x);
      assert tasks[i := x][..n] == tasks[..n][i := x];
    } else {
      assert tasks[i := x][..n] == tasks[..n];
    }
  }

  lemma {:induction false} WaitingSame(a: seq<Task>, b: seq<Task>)
    requires |a| == |b| && forall i :: 0 <= i < |a| ==> a[i].high == b[i].high && a[i].iterated == b[i].iterated
    ensures Waiting(a) == Waiting(b)
  {
    if a != [] { WaitingSame(a[..|a| - 1], b[..|b| - 1]); }
  }

  lemma {:induction false} WaitingNone(tasks: seq<Task>)
    requires forall i :: 0 <= i < |tasks| && tasks[i].high ==> tasks[i].iterated
    ensures Waiting(tasks) == 0
  {
    if tasks != [] { WaitingNone(tasks[..|tasks| - 1]); }
  }

  /** The fields that the order depends on are the same. */
  ghost predicate SameOrder(s: State, s': State) {
    && |s'.tasks| == |s.tasks| && s'.ran == s.ran
    && (forall i :: 0 <= i < |s.tasks| ==>
          s'.tasks[i].high == s.tasks[i].high && s'.tasks[i].stop == s.tasks[i].stop && s'.tasks[i].iterated == s.tasks[i].iterated)
  }

  lemma OrderSame(s: State, s': State)
    requires OrderOk(s) && SameOrder(s, s') && NodesOk(s') && (s'.consumer == s.consumer || !HasIterator(s'.consumer))
    ensures OrderOk(s')
  {}

  /** The list and the consumer's part of it are as they were. */
  ghost predicate SameLinks(s: State, s': State) {
    && |s'.tasks| == |s.tasks| && (forall i :: 0 <= i < |s.tasks| ==> s'.tasks[i].next == s.tasks[i].next)
    && s'.head == s.head && s'.linking == s.linking && s'.consumers == s.consumers
    && (s'.consumer == s.consumer
        || (!s.consumer.Off? && !s.consumer.Reversing? && !s'.consumer.Off? && !s'.consumer.Reversing?
            && s'.consumer.h == s.consumer.h && s'.consumer.t == s.consumer.t))
  }

  lemma LinksSame(s: State, s': State)
    requires LinksOk(s) && SameLinks(s, s') && Shape(s')
    ensures LinksOk(s')
  {}

  lemma CounterSame(s: State, s': State)
    requires CounterOk(s) && SameOrder(s, s') && s'.hp == s.hp && s'.pendingHigh == s.pendingHigh
    requires s'.consumer == s.consumer || (!HasIterator(s.consumer) && !HasIterator(s'.consumer))
    ensures CounterOk(s')
  {
    WaitingSame(s.tasks, s'.tasks);
  }

  /** Storing a link and cancelling leave alone what the order and the counter depend on. */
  lemma UserStepEffect(s: State, step: Step)
    requires Enabled(s, step) && (step.Connect? || step.Cancel?)
    ensures var s' := Apply(s, step);
            SameOrder(s, s') && s'.consumer == s.consumer && s'.hp == s.hp && s'.pendingHigh == s.pendingHigh
  {}

  lemma CountHighKeeps(s: State)
    requires Inv(s) && !Closed(s)
    ensures Inv(Apply(s, CountHigh))
  {
    CountHighParts(s);
    hide LinksOk, NodesOk, OrderOk, CounterOk, Apply;
  }

  lemma CountHighParts(s: State)
    requires !Closed(s)
    ensures var s' := Apply(s, CountHigh);
            && s'.destroyed == s.destroyed && s'.tasks == s.tasks && s'.consumer == s.consumer
            && (LinksOk(s) ==> LinksOk(s')) && (NodesOk(s) ==> NodesOk(s')) && (OrderOk(s) ==> OrderOk(s'))
            && (CounterOk(s) ==> CounterOk(s'))
  {}

  lemma ExchangeLinks(s: State, high: bool, stop: bool, inPlace: bool)
    requires LinksOk(s) && !Closed(s) && (stop ==> !high && s.pendingHigh == 0) && (high ==> s.pendingHigh > 0)
    ensures LinksOk(Exchange(s.(pendingHigh := if high then s.pendingHigh - 1 else s.pendingHigh), high, stop, inPlace))
  {
    var s1 := s.(pendingHigh := if high then s.pendingHigh - 1 else s.pendingHigh);
    if s.head == -1 { ExchangeFirst(s1, high, stop, inPlace); } else { ExchangeBehind(s1, high, stop, inPlace); }
    hide Exchange, Closed;
  }

  lemma ExchangeFirst(s: State, high: bool, stop: bool, inPlace: bool)
    requires LinksOk(s) && s.head == -1
    ensures LinksOk(Exchange(s, high, stop, inPlace))
  {}

  lemma ExchangeBehind(s: State, high: bool, stop: bool, inPlace: bool)
    requires LinksOk(s) && s.head != -1
    ensures LinksOk(Exchange(s, high, stop, inPlace))
  {}

  lemma ExchangeNodes(s: State, high: bool, stop: bool, inPlace: bool)
    requires NodesOk(s) && LinksOk(s) && !Closed(s) && (stop ==> !high && s.pendingHigh == 0) && (high ==> s.pendingHigh > 0)
    ensures NodesOk(Exchange(s.(pendingHigh := if high then s.pendingHigh - 1 else s.pendingHigh), high, stop, inPlace))
  {}

  lemma ExchangeOrder(s: State, high: bool, stop: bool, inPlace: bool)
    requires LinksOk(s) && OrderOk(s) && NodesOk(s) && !Closed(s) && (stop ==> !high && s.pendingHigh == 0) && (high ==> s.pendingHigh > 0)
    ensures OrderOk(Exchange(s.(pendingHigh := if high then s.pendingHigh - 1 else s.pendingHigh), high, stop, inPlace))
  {}

  lemma ExchangeCounter(s: State, high: bool, stop: bool, inPlace: bool)
    requires CounterOk(s) && NodesOk(s) && LinksOk(s) && !Closed(s) && (stop ==> !high && s.pendingHigh == 0) && (high ==> s.pendingHigh > 0)
    ensures CounterOk(Exchange(s.(pendingHigh := if high then s.pendingHigh - 1 else s.pendingHigh), high, stop, inPlace))
  {
    var s' := Exchange(s.(pendingHigh := if high then s.pendingHigh - 1 else s.pendingHigh), high, stop, inPlace);
    assert s'.tasks[..|s.tasks|] == s.tasks;
  }

  lemma ExchangeKeeps(s: State, high: bool, stop: bool, inPlace: bool)
    requires Inv(s) && !Closed(s) && (stop ==> !high && s.pendingHigh == 0) && (high ==> s.pendingHigh > 0)
    ensures Inv(Exchange(s.(pendingHigh := if high then s.pendingHigh - 1 else s.pendingHigh), high, stop, inPlace))
  {
    ExchangeLinks(s, high, stop, inPlace);
    ExchangeNodes(s, high, stop, inPlace);
    ExchangeOrder(s, high, stop, inPlace);
    ExchangeCounter(s, high, stop, inPlace);
  }

  lemma ConnectLinks(s: State, i: nat)
    requires LinksOk(s) && Enabled(s, Connect(i))
    ensures LinksOk(Apply(s, Connect(i)))
  {
    if s.consumer.Reversing? { ConnectReversing(s, i); }
  }

  lemma ConnectReversing(s: State, i: nat)
    requires LinksOk(s) && Enabled(s, Connect(i)) && s.consumer.Reversing?
    ensures LinksOk(Apply(s, Connect(i)))
  {}

  lemma ConnectNodes(s: State, i: nat)
    requires NodesOk(s) && Enabled(s, Connect(i))
    ensures NodesOk(Apply(s, Connect(i)))
  {}

  lemma ConnectOrder(s: State, i: nat)
    requires OrderOk(s) && NodesOk(s) && Enabled(s, Connect(i))
    ensures OrderOk(Apply(s, Connect(i)))
  {
    ConnectNodes(s, i);
    UserStepEffect(s, Connect(i));
    hide *;
    OrderSame(s, Apply(s, Connect(i)));
  }

  lemma ConnectCounter(s: State, i: nat)
    requires CounterOk(s) && Enabled(s, Connect(i))
    ensures CounterOk(Apply(s, Connect(i)))
  {
    UserStepEffect(s, Connect(i));
    hide *;
    CounterSame(s, Apply(s, Connect(i)));
  }

  lemma ConnectKeeps(s: State, i: nat)
    requires Inv(s) && Enabled(s, Connect(i))
    ensures Inv(Apply(s, Connect(i)))
  {
    ConnectLinks(s, i);
    ConnectNodes(s, i);
    ConnectOrder(s, i);
    ConnectCounter(s, i);
  }

  lemma CancelLinks(s: State, j: nat)
    requires LinksOk(s) && Enabled(s, Cancel(j))
    ensures LinksOk(Apply(s, Cancel(j)))
  {
    CancelSameLinks(s, j);
    hide Apply, LinksOk, SameLinks, Enabled;
    LinksSame(s, Apply(s, Cancel(j)));
  }

  lemma CancelSameLinks(s: State, j: nat)
    requires Shape(s) && Enabled(s, Cancel(j))
    ensures SameLinks(s, Apply(s, Cancel(j))) && Shape(Apply(s, Cancel(j)))
  {}

  lemma CancelNodes(s: State, j: nat)
    requires NodesOk(s) && Enabled(s, Cancel(j))
    ensures NodesOk(Apply(s, Cancel(j)))
  {}

  lemma CancelOrder(s: State, j: nat)
    requires OrderOk(s) && NodesOk(s) && Enabled(s, Cancel(j))
    ensures OrderOk(Apply(s, Cancel(j)))
  {
    CancelNodes(s, j);
    UserStepEffect(s, Cancel(j));
    hide *;
    OrderSame(s, Apply(s, Cancel(j)));
  }

  lemma CancelCounter(s: State, j: nat)
    requires CounterOk(s) && Enabled(s, Cancel(j))
    ensures CounterOk(Apply(s, Cancel(j)))
  {
    UserStepEffect(s, Cancel(j));
    hide *;
    CounterSame(s, Apply(s, Cancel(j)));
  }

  lemma CancelKeeps(s: State, j: nat)
    requires Inv(s) && Enabled(s, Cancel(j))
    ensures Inv(Apply(s, Cancel(j)))
  {
    CancelLinks(s, j);
    CancelNodes(s, j);
    CancelOrder(s, j);
    CancelCounter(s, j);
  }

  lemma StartPassLinks(s: State)
    requires LinksOk(s) && s.consumer.Top?
    ensures LinksOk(StartPass(s))
  {}

  lemma StartPassNodes(s: State)
    requires NodesOk(s) && s.consumer.Top?
    ensures NodesOk(StartPass(s))
  {}

  lemma StartPassOrder(s: State)
    requires OrderOk(s) && NodesOk(s) && s.consumer.Top?
    ensures OrderOk(StartPass(s))
  {
    StartPassNodes(s);
    StartPassEffect(s);
    StartPassPassed(s);
    NodesParts(StartPass(s));
    hide StartPass, NodesOk;
    StartPassPrefix(s, StartPass(s));
  }

  lemma StartPassCounter(s: State)
    requires CounterOk(s) && NodesOk(s) && s.consumer.Top?
    ensures CounterOk(StartPass(s))
  {
    NodesParts(s);
    hide StartPass, NodesOk, TasksOk, WindowOk, ReturnUpTo, Waiting;
    var c := s.consumer;
    var h := if s.tasks[c.h].iterated && c.h < c.t then c.h + 1 else c.h;
    var tasks := ReturnUpTo(s.tasks, h);
    WaitingSame(s.tasks, tasks);
    if s.tasks[h].stop {
      StopIsAlone(s, h);
      WaitingUpdate(tasks, h, tasks[h].(iterated := true, status := Executed));
      StopPassHead(s, h);
    } else {
      StartPassHead(s, h);
    }
  }

  lemma StopPassHead(s: State, h: nat)
    requires Shape(s) && s.consumer.Top? && h < |s.tasks| && s.tasks[h].stop && s.hp == 0 && Closed(s) && h == |s.tasks| - 1
    requires h == if s.tasks[s.consumer.h].iterated && s.consumer.h < s.consumer.t then s.consumer.h + 1 else s.consumer.h
    ensures var s' := StartPass(s); var tasks := ReturnUpTo(s.tasks, h);
            && s'.tasks == tasks[h := tasks[h].(iterated := true, status := Executed)]
            && s'.hp == 0 && s'.pendingHigh == s.pendingHigh && s'.consumer.More?
  {}

  lemma StartPassHead(s: State, h: nat)
    requires Shape(s) && s.consumer.Top? && h < |s.tasks| && !s.tasks[h].stop
    requires h == if s.tasks[s.consumer.h].iterated && s.consumer.h < s.consumer.t then s.consumer.h + 1 else s.consumer.h
    ensures var s' := StartPass(s);
            && s'.tasks == ReturnUpTo(s.tasks, h) && s'.hp == s.hp && s'.pendingHigh == s.pendingHigh
            && s'.consumer.Advance? && s'.consumer.n == 0
            && (Closed(s') ==> Closed(s))
  {}

  lemma StartPassKeeps(s: State)
    requires Inv(s) && s.consumer.Top?
    ensures Inv(StartPass(s))
  {
    StartPassLinks(s);
    StartPassNodes(s);
    StartPassOrder(s);
    StartPassCounter(s);
  }

  lemma AdvanceLinks(s: State)
    requires LinksOk(s) && s.consumer.Advance?
    ensures LinksOk(AdvanceIterator(s))
  {}

  lemma AdvanceNodes(s: State)
    requires NodesOk(s) && s.consumer.Advance?
    ensures NodesOk(AdvanceIterator(s))
  {}

  lemma AdvanceOrder(s: State)
    requires OrderOk(s) && NodesOk(s) && s.consumer.Advance?
    ensures OrderOk(AdvanceIterator(s))
  {}

  lemma AdvanceCounter(s: State)
    requires CounterOk(s) && NodesOk(s) && s.consumer.Advance?
    ensures CounterOk(AdvanceIterator(s))
  {}

  lemma AdvanceKeeps(s: State)
    requires Inv(s) && s.consumer.Advance?
    ensures Inv(AdvanceIterator(s))
  {
    AdvanceLinks(s);
    AdvanceNodes(s);
    AdvanceOrder(s);
    AdvanceCounter(s);
  }

  lemma ScanLinks(s: State)
    requires LinksOk(s) && s.consumer.Scan?
    ensures LinksOk(ScanNode(s))
  {
    ScanShape(s);
    ScanSameLinks(s);
    hide ScanNode, LinksOk;
    LinksSame(s, ScanNode(s));
  }

  lemma ScanSameLinks(s: State)
    requires Shape(s) && s.consumer.Scan?
    ensures SameLinks(s, ScanNode(s))
  {}

  lemma ScanNodes(s: State)
    requires NodesOk(s) && s.consumer.Scan?
    ensures NodesOk(ScanNode(s))
  {
    ScanShape(s);
    ScanTasks(s);
    ScanWindow(s);
    hide *;
    NodesParts(ScanNode(s));
  }

  lemma ScanOrder(s: State)
    requires OrderOk(s) && NodesOk(s) && s.consumer.Scan?
    ensures OrderOk(ScanNode(s))
  {
    ScanNodes(s);
    ScanPrefix(s);
    ScanPassed(s);
    hide ScanNode;
    ScanRan(s);
  }

  lemma ScanCounter(s: State)
    requires CounterOk(s) && NodesOk(s) && s.consumer.Scan?
    ensures CounterOk(ScanNode(s))
  {
    ScanEffect(s);
    var c := s.consumer;
    if c.cur <= c.t { WaitingUpdate(s.tasks, c.cur, ScanNode(s).tasks[c.cur]); }
    hide ScanNode, NodesOk, Waiting;
  }

  lemma ScanKeeps(s: State)
    requires Inv(s) && s.consumer.Scan?
    ensures Inv(ScanNode(s))
  {
    ScanLinks(s);
    ScanNodes(s);
    ScanOrder(s);
    ScanCounter(s);
  }

  lemma EndPassLinks(s: State)
    requires LinksOk(s) && s.consumer.Leave?
    ensures LinksOk(EndPass(s))
  {}

  lemma EndPassNodes(s: State)
    requires NodesOk(s) && s.consumer.Leave?
    ensures NodesOk(EndPass(s))
  {}

  lemma EndPassOrder(s: State)
    requires OrderOk(s) && NodesOk(s) && s.consumer.Leave?
    ensures OrderOk(EndPass(s))
  {
    EndPassTasks(s);
    EndPassHead(s);
    EndPassShape(s);
    hide EndPass;
    OrderSame(s, EndPass(s));
  }

  lemma EndPassCounter(s: State)
    requires CounterOk(s) && NodesOk(s) && s.consumer.Leave?
    ensures CounterOk(EndPass(s))
  {
    EndPassTasks(s);
    WaitingSame(s.tasks, EndPass(s).tasks);
    hide Waiting, NodesOk, EndPass;
    EndPassHead(s);
  }

  lemma EndPassKeeps(s: State)
    requires Inv(s) && s.consumer.Leave?
    ensures Inv(EndPass(s))
  {
    EndPassLinks(s);
    EndPassNodes(s);
    EndPassOrder(s);
    EndPassCounter(s);
  }

  lemma FinishLinks(s: State)
    requires LinksOk(s) && s.consumer.More?
    ensures LinksOk(TryFinish(s))
  {}

  lemma FinishNodes(s: State)
    requires LinksOk(s) && NodesOk(s) && s.consumer.More?
    ensures NodesOk(TryFinish(s))
  {}

  lemma FinishOrder(s: State)
    requires LinksOk(s) && OrderOk(s) && NodesOk(s) && s.consumer.More?
    ensures OrderOk(TryFinish(s))
  {}

  lemma FinishCounter(s: State)
    requires LinksOk(s) && CounterOk(s) && NodesOk(s) && s.consumer.More?
    ensures CounterOk(TryFinish(s))
  {
    FinishKeepsTasks(s);
    WaitingSame(s.tasks, TryFinish(s).tasks);
    hide LinksOk, NodesOk, Waiting, TryFinish;
  }

  lemma FinishKeepsTasks(s: State)
    requires Shape(s) && s.consumer.More?
    ensures var s' := TryFinish(s);
            && |s'.tasks| == |s.tasks| && s'.hp == s.hp && s'.pendingHigh == s.pendingHigh
            && (forall i :: 0 <= i < |s.tasks| ==> s'.tasks[i] == s.tasks[i].(returned := s'.tasks[i].returned))
            && !HasIterator(s'.consumer) && !HasIterator(s.consumer)
  {}

  lemma FinishKeeps(s: State)
    requires Inv(s) && s.consumer.More?
    ensures Inv(TryFinish(s))
  {
    FinishLinks(s);
    FinishNodes(s);
    FinishOrder(s);
    FinishCounter(s);
  }

  lemma ReverseLinks(s: State)
    requires LinksOk(s) && s.consumer.Reversing?
    ensures LinksOk(ReverseNode(s))
  {
    var c := s.consumer;
    ReverseShape(s);
    if s.tasks[c.p].next == To(c.t) { ReverseLast(s); } else { ReverseOn(s); }
  }

  lemma ReverseNodes(s: State)
    requires LinksOk(s) && NodesOk(s) && s.consumer.Reversing?
    ensures NodesOk(ReverseNode(s))
  {
    ReverseShape(s);
    ReverseKeepsTasks(s);
    hide LinksOk, ReverseNode;
  }

  lemma ReverseKeepsTasks(s: State)
    requires Shape(s) && s.consumer.Reversing?
    ensures var s' := ReverseNode(s); var c := s.consumer;
            && |s'.tasks| == |s.tasks| && s'.ran == s.ran && s'.cancelled == s.cancelled
            && (forall i :: 0 <= i < |s.tasks| ==> s'.tasks[i] == s.tasks[i].(next := s'.tasks[i].next))
            && (s'.consumer == Top(c.h, c.newHead) || s'.consumer == c
                || s'.consumer == Reversing(c.h, c.t, c.newHead, s'.consumer.p, s'.consumer.tail))
  {}

  lemma ReverseOrder(s: State)
    requires LinksOk(s) && OrderOk(s) && NodesOk(s) && s.consumer.Reversing?
    ensures OrderOk(ReverseNode(s))
  {
    ReverseTasks(s);
    ReverseNodes(s);
    hide ReverseNode, LinksOk;
    OrderSame(s, ReverseNode(s));
  }

  lemma ReverseCounter(s: State)
    requires LinksOk(s) && CounterOk(s) && s.consumer.Reversing?
    ensures CounterOk(ReverseNode(s))
  {
    ReverseTasks(s);
    hide *;
    CounterSame(s, ReverseNode(s));
  }

  lemma ReverseKeeps(s: State)
    requires Inv(s) && s.consumer.Reversing?
    ensures Inv(ReverseNode(s))
  {
    ReverseLinks(s);
    ReverseNodes(s);
    ReverseOrder(s);
    ReverseCounter(s);
  }

  lemma EndPassTasks(s: State)
    requires Shape(s) && s.consumer.Leave?
    ensures SameOrder(s, EndPass(s))
  {}

  lemma EndPassHead(s: State)
    requires Shape(s) && s.consumer.Leave?
    ensures var s' := EndPass(s); var c := s.consumer;
            s'.consumer.More? && s'.hp == (if c.high then s.hp - c.n else s.hp) && s'.pendingHigh == s.pendingHigh
  {}

  lemma EndPassShape(s: State)
    requires NodesOk(s) && s.consumer.Leave?
    ensures NodesOk(EndPass(s))
  {
    EndPassNodes(s);
  }

  lemma ReverseTasks(s: State)
    requires Shape(s) && s.consumer.Reversing?
    ensures var s' := ReverseNode(s); SameOrder(s, s') && !HasIterator(s'.consumer) && s'.hp == s.hp && s'.pendingHigh == s.pendingHigh
  {}

  lemma ScanPrefix(s: State)
    requires OrderOk(s) && s.consumer.Scan?
    ensures PrefixIterated(ScanNode(s))
  {}

  lemma ScanPassed(s: State)
    requires OrderOk(s) && s.consumer.Scan?
    ensures Shape(ScanNode(s)) && PassedOver(ScanNode(s))
  {}

  lemma ScanRan(s: State)
    requires OrderOk(s) && s.consumer.Scan? && TasksOk(ScanNode(s))
    ensures RanInOrder(ScanNode(s))
  {
    ScanEffect(s);
    var c, s' := s.consumer, ScanNode(s);
    hide ScanNode;
    if s'.ran != s.ran {
      forall a, b | 0 <= a < b < |s'.ran| && s'.tasks[s'.ran[a]].high == s'.tasks[s'.ran[b]].high
        ensures s'.ran[a] < s'.ran[b]
      {
        if b == |s.ran| { assert s.ran[a] in s.ran; }
      }
    }
  }

  /** What one round of the loop of operator++ changes. */
  lemma ScanEffect(s: State)
    requires Shape(s) && s.consumer.Scan?
    ensures var s' := ScanNode(s); var c := s.consumer;
            && |s'.tasks| == |s.tasks| && s'.hp == s.hp && s'.pendingHigh == s.pendingHigh
            && (s'.tasks == s.tasks || (c.cur <= c.t && s'.tasks == s.tasks[c.cur := s'.tasks[c.cur]]))
            && (c.cur <= c.t ==> s'.tasks[c.cur].high == s.tasks[c.cur].high && s'.tasks[c.cur].stop == s.tasks[c.cur].stop)
            && (s'.ran == s.ran || (c.cur <= c.t && s'.ran == s.ran + [c.cur] && !s.tasks[c.cur].iterated && !s.tasks[c.cur].stop))
            && HasIterator(s'.consumer) && s'.consumer.high == c.high
            && s'.consumer.n == (if c.cur <= c.t && !s.tasks[c.cur].iterated && s'.tasks[c.cur].iterated then c.n + 1 else c.n)
            && (s'.tasks != s.tasks ==> s.tasks[c.cur].high == c.high && s'.tasks[c.cur].iterated && !s.tasks[c.cur].iterated)
  {}

  lemma NodesParts(s: State)
    ensures NodesOk(s) <==> Shape(s) && TasksOk(s) && WindowOk(s)
  {}

  lemma ScanShape(s: State)
    requires Shape(s) && s.consumer.Scan?
    ensures Shape(ScanNode(s))
  {}

  lemma ScanTasks(s: State)
    requires TasksOk(s) && Shape(s) && s.consumer.Scan?
    ensures TasksOk(ScanNode(s))
  {}

  lemma ScanWindow(s: State)
    requires Shape(s) && WindowOk(s) && s.consumer.Scan?
    ensures Shape(ScanNode(s)) && WindowOk(ScanNode(s))
  {}

  lemma ReverseShape(s: State)
    requires LinksOk(s) && s.consumer.Reversing?
    ensures Shape(ReverseNode(s)) && OneConsumer(ReverseNode(s))
    ensures s.tasks[s.consumer.p].next in {Unconnected, To(s.consumer.p - 1)}
  {
    var c := s.consumer;
    assert Fresh(s.tasks[c.p].next, s.linking, c.p);
  }

  lemma ReverseLast(s: State)
    requires LinksOk(s) && s.consumer.Reversing? && s.tasks[s.consumer.p].next == To(s.consumer.t)
    ensures Shape(ReverseNode(s)) && ListOk(ReverseNode(s))
  {
    var c := s.consumer;
    assert Fresh(s.tasks[c.p].next, s.linking, c.p) && c.p == c.t + 1;
  }

  lemma ReverseOn(s: State)
    requires LinksOk(s) && s.consumer.Reversing? && s.tasks[s.consumer.p].next != To(s.consumer.t)
    ensures Shape(ReverseNode(s)) && ListOk(ReverseNode(s))
  {
    var c := s.consumer;
    assert Fresh(s.tasks[c.p].next, s.linking, c.p);
  }

  lemma StartPassEffect(s: State)
    requires Shape(s) && s.consumer.Top?
    ensures var s' := StartPass(s);
            && |s'.tasks| == |s.tasks| && s'.ran == s.ran
            && (forall i :: 0 <= i < |s.tasks| ==> StopMayDiffer(s.tasks[i], s'.tasks[i]))
  {}

  predicate StopMayDiffer(x: Task, y: Task) {
    y.high == x.high && y.stop == x.stop && (!x.stop ==> y.iterated == x.iterated)
  }

  lemma StartPassPassed(s: State)
    requires NodesOk(s) && s.consumer.Top?
    ensures Shape(StartPass(s)) && PassedOver(StartPass(s))
  {}

  lemma StartPassPrefix(s: State, s': State)
    requires OrderOk(s) && TasksOk(s') && |s'.tasks| == |s.tasks| && s'.ran == s.ran
    requires TasksOk(s)
    requires forall i :: 0 <= i < |s.tasks| ==> StopMayDiffer(s.tasks[i], s'.tasks[i])
    ensures PrefixIterated(s') && RanInOrder(s')
  {}

  /** The stop task is alone when the consumer reaches it, and the counter is down to 0. */
  lemma StopIsAlone(s: State, h: nat)
    requires NodesOk(s) && CounterOk(s) && s.consumer.Top? && h < |s.tasks| && s.tasks[h].stop
    requires h == s.consumer.h || (h == s.consumer.h + 1 && s.tasks[s.consumer.h].iterated)
    ensures h == |s.tasks| - 1 && Closed(s) && s.hp == 0 && Waiting(s.tasks) == 0
  {
    forall i | 0 <= i < |s.tasks| && s.tasks[i].high
      ensures s.tasks[i].iterated
    {
      assert i != h;
    }
    WaitingNone(s.tasks);
  }

  // ------------------------------------------------------------ whole runs

  lemma ConsumeKeeps(s: State, early: bool)
    requires Inv(s)
    ensures Inv(ConsumerNext(s, early))
  {
    match s.consumer
    case Off =>
    case Top(_, _) => StartPassKeeps(s);
    case Advance(_, _, _, _, _, _) => AdvanceKeeps(s);
    case Scan(_, _, _, _, _, _) => ScanKeeps(s);
    case User(_, _, _, _, _, _) => UserKeeps(s, early);
    case Leave(_, _, _, _, _, _, _) => EndPassKeeps(s);
    case More(_, _) => FinishKeeps(s);
    case Reversing(_, _, _, _, _) => ReverseKeeps(s);
  }

  lemma UserLinks(s: State, early: bool)
    requires LinksOk(s) && s.consumer.User?
    ensures LinksOk(ConsumerNext(s, early))
  {}

  lemma UserOthers(s: State, early: bool)
    requires Inv(s) && s.consumer.User?
    ensures var s' := ConsumerNext(s, early); NodesOk(s') && OrderOk(s') && CounterOk(s')
  {
    UserNodes(s, early);
    UserOrder(s, early);
    hide LinksOk, NodesOk, OrderOk, Closed;
  }

  lemma UserNodes(s: State, early: bool)
    requires NodesOk(s) && s.consumer.User?
    ensures NodesOk(ConsumerNext(s, early))
  {}

  lemma UserOrder(s: State, early: bool)
    requires OrderOk(s) && s.consumer.User?
    ensures OrderOk(ConsumerNext(s, early))
  {}

  lemma UserKeeps(s: State, early: bool)
    requires Inv(s) && s.consumer.User?
    ensures Inv(ConsumerNext(s, early))
  {
    UserLinks(s, early);
    UserOthers(s, early);
    hide LinksOk, NodesOk, OrderOk, CounterOk;
  }

  lemma PushIsExchange(s: State, high: bool, inPlace: bool)
    requires Enabled(s, Push(high, inPlace))
    ensures Apply(s, Push(high, inPlace))
         == Exchange(s.(pendingHigh := if high then s.pendingHigh - 1 else s.pendingHigh), high, false, inPlace)
  {}

  lemma PushKeeps(s: State, high: bool, inPlace: bool)
    requires Inv(s) && Enabled(s, Push(high, inPlace))
    ensures Inv(Apply(s, Push(high, inPlace)))
  {
    PushIsExchange(s, high, inPlace);
    hide Inv, Exchange, Apply;
    ExchangeKeeps(s, high, false, inPlace);
  }

  lemma PushStopKeeps(s: State)
    requires Inv(s) && Enabled(s, PushStop)
    ensures Inv(Apply(s, PushStop))
  {
    ExchangeKeeps(s, false, true, false);
    hide Inv, Exchange;
  }

  /** The inductive step: any producer, canceller or the consumer. */
  lemma StepKeepsInv(s: State, step: Step)
    requires Inv(s)
    ensures Inv(Apply(s, step))
  {
    if Enabled(s, step) {
      match step
      case CountHigh => CountHighKeeps(s);
      case Push(high, inPlace) => PushKeeps(s, high, inPlace);
      case PushStop => PushStopKeeps(s);
      case Connect(i) => ConnectKeeps(s, i);
      case Cancel(j) => CancelKeeps(s, j);
      case Consume(early) => ConsumeKeeps(s, early);
    }
  }

  function Init(): State {
    State([], -1, 0, 0, map[], Off, 0, [], {}, false)
  }

  function Run(s: State, steps: seq<Step>): State
    decreases |steps|
  {
    if steps == [] then s else Run(Apply(s, steps[0]), steps[1..])
  }

  lemma {:induction false} RunKeepsInv(s: State, steps: seq<Step>)
    requires Inv(s)
    ensures Inv(Run(s, steps))
    decreases |steps|
  {
    if steps != [] {
      StepKeepsInv(s, steps[0]);
      RunKeepsInv(Apply(s, steps[0]), steps[1..]);
    }
  }

  lemma RunFromInit(steps: seq<Step>)
    ensures Inv(Run(Init(), steps))
  {
    RunKeepsInv(Init(), steps);
  }

  /** In every run: at most one consumer, nothing is run twice or both run and cancelled, a
      node is given back only after one of the two, tasks of a priority run in the order of
      their exchanges, and when no consumer is left everything pushed has been run or
      cancelled. */
  lemma EveryTaskOnce(steps: seq<Step>)
    ensures var s := Run(Init(), steps);
            && s.consumers <= 1 && (s.consumers == 0 <==> s.head == -1)
            && (forall a, b :: 0 <= a < b < |s.ran| ==> s.ran[a] != s.ran[b])
            && (forall i :: i in s.ran ==> i !in s.cancelled && i < |s.tasks| && !s.tasks[i].stop)
            && (forall i :: 0 <= i < |s.tasks| && s.tasks[i].returned && !s.tasks[i].stop ==> (i in s.ran) != (i in s.cancelled))
            && (s.head == -1 ==> forall i :: 0 <= i < |s.tasks| && !s.tasks[i].stop ==> (i in s.ran) != (i in s.cancelled))
  {
    RunFromInit(steps);
  }

  lemma EachPriorityInOrder(steps: seq<Step>)
    ensures var s := Run(Init(), steps);
            && (forall k :: 0 <= k < |s.ran| ==> s.ran[k] < |s.tasks|)
            && (forall a, b :: 0 <= a < b < |s.ran| && s.tasks[s.ran[a]].high == s.tasks[s.ran[b]].high ==> s.ran[a] < s.ran[b])
  {
    RunFromInit(steps);
  }

  /** When the consumer of the stop task gives the queue back, the head is NULL, the
      high-priority counter is 0, no producer is left and every task is settled. */
  lemma DestroyedIsEmpty(steps: seq<Step>)
    ensures var s := Run(Init(), steps);
            && (s.destroyed ==> s.head == -1 && s.hp == 0 && s.linking == map[] && Closed(s))
            && (s.destroyed ==> forall i :: 0 <= i < |s.tasks| ==> s.tasks[i].returned)
  {
    var s := Run(Init(), steps);
    RunFromInit(steps);
    if s.destroyed { WaitingNone(s.tasks); }
  }

  /** The checks the code makes on its way hold: an iterated head has a successor, the stop
      task has none, the last task is the only one left when the consumer quits, and the
      reversal meets the old tail before the end of the list; a node it waits for has a
      producer about to connect it. */
  lemma ChecksHold(steps: seq<Step>)
    ensures var s := Run(Init(), steps); var c := s.consumer;
            Shape(s)
            && (c.Top? && s.tasks[c.h].iterated ==> s.tasks[c.h].next == To(c.h + 1))
            && (c.Top? && s.tasks[c.h].stop ==> s.tasks[c.h].next == Null)
            && (c.More? ==> s.tasks[c.t].next == Null && (s.tasks[c.h].iterated ==> c.h == c.t))
            && (c.Reversing? ==> c.t < c.p)
            && (c.Reversing? ==> s.tasks[c.p].next == To(c.p - 1) || (s.tasks[c.p].next == Unconnected && c.p in s.linking))
  {
    RunFromInit(steps);
    var s := Run(Init(), steps);
    if s.consumer.Reversing? { ReverseShape(s); }
  }

  /** _more_tasks reverses exactly the nodes pushed since the old tail: when the last of them
      is turned, the consumer's list runs from its first node through all of them in the order
      of their exchanges. */
  lemma ReversalLinksNewer(s: State)
    requires Inv(s) && s.consumer.Reversing? && ReverseNode(s).consumer.Top?
    ensures var c, s' := s.consumer, ReverseNode(s);
            && s'.consumer == Top(c.h, c.newHead)
            && (forall i :: c.h <= i < c.newHead ==> s'.tasks[i].next == To(i + 1))
            && s'.tasks[c.newHead].next == Null
            && (forall i :: c.newHead < i < |s.tasks| ==> s'.tasks[i] == s.tasks[i])
  {
    ReverseKeeps(s);
    ReverseKeepsTasks(s);
    ReverseTouches(s);
    ForwardList(s);
    ForwardList(ReverseNode(s));
    hide ReverseNode, Inv;
  }

  lemma ReverseTouches(s: State)
    requires Shape(s) && s.consumer.Reversing?
    ensures forall i :: 0 <= i < |s.tasks| && i != s.consumer.p && i != s.consumer.t ==> ReverseNode(s).tasks[i] == s.tasks[i]
  {}

  lemma ForwardList(s: State)
    requires Inv(s)
    ensures Shape(s) && (s.consumer.Top? ==> Chain(s, s.consumer.h, s.consumer.t))
    ensures s.consumer.Reversing? ==> s.consumer.t < s.consumer.p <= s.consumer.newHead < |s.tasks|
  {}
}
