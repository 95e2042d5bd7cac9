/** The life of an ExecutionQueue slot: the versioned reference count of
    eabase/fiber/execution_queue.cc and execution_queue_inl.h above the task list of module
    ExecutionQueue.

    One atomic access is one step. Threads are anonymous: `strays` lists, for each address() that
    holds a count on a version it did not want, the version it saw; `idle` counts the holders of
    a reference, `checked` those that have found the queue not stopped, `counted` those that have
    also raised the high-priority counter, `stopping` and `stored` those whose stop() has won,
    before and after the store to `_stopped`; `recyclers` lists the compare-exchanges about to be
    tried by threads that saw the count fall to 0. */
module ExecutionQueueRef {
  import opened Shared
  import Q = ExecutionQueue

  datatype Phase = Free | Taken | Live | Joined

  /** A pending compare-exchange of (expected, 0) to (desired, 0). */
  datatype Swap = Swap(expected: nat, desired: nat)

  /** `extra` says whether the reference added at creation is still there; `owed` counts the
      threads that won the compare-exchange and have yet to push the stop task; `recycled` lists
      the ids whose recycling has begun; `fault` is raised where the code logs a failed check. */
  datatype State = State(
    phase: Phase, ver: nat, nref: int, id: nat, stopped: bool, extra: bool, join: nat, issued: set<nat>,
    strays: seq<nat>, idle: nat, checked: nat, counted: nat, stopping: nat, stored: nat, recyclers: seq<Swap>,
    owed: nat, recycled: seq<nat>, fault: bool, q: Q.State)

  datatype Step =
    | Take
    | Create
    | Address(v: nat)
    | StrayLeaves(k: nat)
    | Dereference
    | TryRecycle(k: nat)
    | CheckStopped
    | CountHigh
    | Push(high: bool, inPlace: bool)
    | StopSwap
    | StopStore
    | StopRelease
    | PushStop
    | Queue(step: Q.Step)
    | WakeJoiners
    | Return

  // ------------------------------------------------------------ the packed word

  const REFS: nat := 0x1_0000_0000

  function MakeVref(version: nat, ref: nat): (vref: nat)
    requires ref < REFS
  {
    version * REFS + ref
  }

  function VersionOf(vref: nat): nat {
    vref / REFS
  }

  function RefOf(vref: nat): nat {
    vref % REFS
  }

  /** Packing loses nothing, and one fetch_add or fetch_sub moves the count alone. */
  lemma PackedWord(version: nat, ref: nat)
    requires ref < REFS
    ensures VersionOf(MakeVref(version, ref)) == version && RefOf(MakeVref(version, ref)) == ref
    ensures ref + 1 < REFS ==> MakeVref(version, ref) + 1 == MakeVref(version, ref + 1)
    ensures ref > 0 ==> MakeVref(version, ref) - 1 == MakeVref(version, ref - 1)
    ensures forall vref: nat :: MakeVref(VersionOf(vref), RefOf(vref)) == vref
  {}

  // ------------------------------------------------------------ the steps

  /** What the caller is entitled to do: somebody is where the step starts, ids come from
      create, and slots are taken when free. The guards of the task list are not among these
      conditions: GuardsHold proves them. */
  predicate Enabled(s: State, step: Step) {
    match step
    case Take => s.phase.Free?
    case Create => s.phase.Taken?
    case Address(v) => v in s.issued
    case StrayLeaves(k) => k < |s.strays|
    case Dereference => s.idle > 0
    case TryRecycle(k) => k < |s.recyclers|
    case CheckStopped => s.idle > 0
    case CountHigh => s.checked > 0
    case Push(high, _) => if high then s.counted > 0 else s.checked > 0
    case StopSwap => s.idle > 0
    case StopStore => s.stopping > 0
    case StopRelease => s.stored > 0
    case PushStop => s.owed > 0
    case Queue(step) => step.Connect? || step.Cancel? || step.Consume?
    case WakeJoiners => s.phase.Live? && s.q.destroyed
    case Return => s.phase.Joined?
  }

  /** The same list with an empty history, as the next user of the slot finds it. */
  function NewHistory(q: Q.State): Q.State {
    q.(tasks := [], ran := [], cancelled := {}, destroyed := false)
  }

  /** dereference() up to the compare-exchange. */
  function Deref(s: State): State {
    var s1 := s.(nref := s.nref - 1);
    if s.nref > 1 then s1
    else if s.nref == 1 && (s.ver == s.id || s.ver == s.id + 1) then s1.(recyclers := s.recyclers + [Swap(s.ver, s.id + 2)])
    else s1.(fault := true)
  }

  /** The fetch_sub of an address() whose version did not match, up to its compare-exchange. */
  function LeaveStray(s: State, k: nat): State
    requires k < |s.strays|
  {
    var ver1 := s.strays[k];
    var s1 := s.(nref := s.nref - 1, strays := Without(s.strays, k));
    if s.nref > 1 then s1
    else if s.nref == 1 then
      if s.ver % 2 == 1 then
        if ver1 == s.ver || ver1 + 1 == s.ver then s1.(recyclers := s.recyclers + [Swap(s.ver, s.ver + 1)])
        else s1.(fault := true)
      else s1.(fault := s.fault || ver1 != s.ver)
    else s1.(fault := true)
  }

  function Recycle(s: State, k: nat): State
    requires k < |s.recyclers|
  {
    var swap := s.recyclers[k];
    var s1 := s.(recyclers := Without(s.recyclers, k));
    if s.ver == swap.expected && s.nref == 0 then
      s1.(ver := swap.desired, owed := s.owed + 1, recycled := s.recycled + [s.id])
    else s1
  }

  function Apply(s: State, step: Step): State {
    if !Enabled(s, step) then s else
    match step
    case Take => s.(phase := Taken, stopped := false, q := NewHistory(s.q))
    case Create =>
      s.(phase := Live, nref := s.nref + 1, id := s.ver, extra := true, issued := s.issued + {s.ver})
    case Address(v) =>
      if s.ver == v then s.(nref := s.nref + 1, idle := s.idle + 1)
      else s.(nref := s.nref + 1, strays := s.strays + [s.ver])
    case StrayLeaves(k) => LeaveStray(s, k)
    case Dereference => Deref(s.(idle := s.idle - 1))
    case TryRecycle(k) => Recycle(s, k)
    case CheckStopped => if s.stopped then s else s.(idle := s.idle - 1, checked := s.checked + 1)
    case CountHigh => s.(checked := s.checked - 1, counted := s.counted + 1, q := Q.Apply(s.q, Q.CountHigh))
    case Push(high, inPlace) =>
      s.(checked := if high then s.checked else s.checked - 1, counted := if high then s.counted - 1 else s.counted,
         idle := s.idle + 1, q := Q.Apply(s.q, Q.Push(high, inPlace)))
    case StopSwap =>
      if s.ver != s.id then s
      else s.(ver := s.id + 1, idle := s.idle - 1, stopping := s.stopping + 1)
    case StopStore => s.(stopped := true, stopping := s.stopping - 1, stored := s.stored + 1)
    case StopRelease => Deref(s.(extra := false, stored := s.stored - 1, idle := s.idle + 1))
    case PushStop => s.(owed := s.owed - 1, q := Q.Apply(s.q, Q.PushStop))
    case Queue(step) => s.(q := Q.Apply(s.q, step))
    case WakeJoiners => s.(phase := Joined, join := s.join + 2)
    case Return => s.(phase := Free)
  }

  // ------------------------------------------------------------ what every step keeps

  /** The count is exact. */
  predicate CountOk(s: State) {
    s.nref == |s.strays| + s.idle + s.checked + s.counted + s.stopping + s.stored + One(s.extra)
  }

  predicate NoHolders(s: State) {
    s.idle == 0 && s.checked == 0 && s.counted == 0 && s.stopping == 0 && s.stored == 0 && !s.extra
  }

  /** The version runs through id (in use), id + 1 (stopped) and id + 2 (recycled, then free). */
  predicate VersionOk(s: State) {
    && s.id % 2 == 0
    && match s.phase
       case Free => s.ver % 2 == 0 && NoHolders(s) && s.owed == 0 && s.join == s.ver
       case Taken => s.ver % 2 == 0 && NoHolders(s) && s.owed == 0 && s.join == s.ver && !s.stopped
       case Joined => s.ver == s.id + 2 && NoHolders(s) && s.owed == 0 && s.join == s.ver
       case Live =>
         && s.join == s.id
         && (s.ver == s.id || s.ver == s.id + 1 || s.ver == s.id + 2)
         && (s.ver == s.id ==> s.extra && s.stopping == 0 && s.stored == 0 && !s.stopped && s.owed == 0)
         && (s.ver == s.id + 1 ==> s.owed == 0 && s.stopping + s.stored == One(s.extra))
         && (s.ver == s.id + 2 ==> NoHolders(s) && s.owed <= 1)
  }

  /** Every id handed out is even and names this use of the slot or an earlier one. */
  ghost predicate IdsOk(issued: set<nat>, live: bool, id: nat, ver: nat) {
    forall v :: v in issued ==> v % 2 == 0 && (if live then v <= id else v < ver)
  }

  predicate OneBack(s: State) {
    s.phase.Live? && s.ver == s.id + 1
  }

  /** The version a stray has read is still the version, up to one stop(). */
  ghost predicate StraysOk(strays: seq<nat>, ver: nat, oneBack: bool) {
    forall k :: 0 <= k < |strays| ==> strays[k] == ver || (oneBack && strays[k] + 1 == ver)
  }

  /** Only a compare-exchange that expects the odd version of a stopped queue can succeed. */
  ghost predicate SwapsOk(recyclers: seq<Swap>, ver: nat, odd: bool) {
    forall k :: 0 <= k < |recyclers| ==>
                  && recyclers[k].desired == recyclers[k].expected + 1
                  && (if odd then recyclers[k].expected <= ver else recyclers[k].expected < ver)
  }

  ghost predicate HasSwap(recyclers: seq<Swap>, ver: nat) {
    exists k :: 0 <= k < |recyclers| && recyclers[k].expected == ver
  }

  /** A stopped queue without references has a thread that is about to recycle it. */
  ghost predicate SomebodyRecycles(s: State) {
    OneBack(s) && s.nref == 0 ==> HasSwap(s.recyclers, s.ver)
  }

  /** An id is recycled once, in the order of the ids; a slot past its id has been. */
  ghost predicate RecycledOk(recycled: seq<nat>, ver: nat, past: bool, id: nat) {
    && (past ==> id in recycled)
    && (forall i, j :: 0 <= i < j < |recycled| ==> recycled[i] < recycled[j])
    && (forall i :: 0 <= i < |recycled| ==> recycled[i] + 2 <= ver)
  }

  ghost predicate RefOk(s: State) {
    && CountOk(s) && VersionOk(s) && IdsOk(s.issued, s.phase.Live?, s.id, s.ver)
    && StraysOk(s.strays, s.ver, OneBack(s)) && SwapsOk(s.recyclers, s.ver, OneBack(s)) && SomebodyRecycles(s)
    && RecycledOk(s.recycled, s.ver, s.phase.Live? && s.ver == s.id + 2, s.id) && !s.fault
  }

  /** Nothing is left in the list: with a new history it is a new list. */
  predicate Drained(q: Q.State) {
    NewHistory(q) == Q.Init()
  }

  /** The task list is closed by the stop task exactly when recycling has gone that far. */
  predicate QueueOk(s: State) {
    && s.q.pendingHigh == s.counted
    && match s.phase
       case Free => Drained(s.q)
       case Taken => s.q == Q.Init()
       case Joined => Drained(s.q)
       case Live => Q.Closed(s.q) <==> s.ver == s.id + 2 && s.owed == 0
  }

  ghost predicate Inv(s: State) {
    RefOk(s) && QueueOk(s) && Q.Inv(s.q)
  }

  lemma SwapAdded(recyclers: seq<Swap>, swap: Swap)
    ensures HasSwap(recyclers + [swap], swap.expected)
  {
    assert (recyclers + [swap])[|recyclers|] == swap;
  }

  lemma SwapStays(recyclers: seq<Swap>, k: nat, ver: nat)
    requires k < |recyclers| && HasSwap(recyclers, ver) && recyclers[k].expected != ver
    ensures HasSwap(Without(recyclers, k), ver)
  {
    var j :| 0 <= j < |recyclers| && recyclers[j].expected == ver;
    assert Without(recyclers, k)[if j < k then j else j - 1] == recyclers[j];
  }

  /** A destroyed list was closed by its stop task and holds nothing any more. */
  lemma DestroyedList(q: Q.State)
    requires Q.Inv(q) && q.destroyed
    ensures Q.Closed(q) && Drained(q)
  {
    Q.WaitingNone(q.tasks);
    assert q.linking == map[];
  }

  // ------------------------------------------------------------ the reference count

  lemma TakeRef(s: State)
    requires RefOk(s) && QueueOk(s) && Enabled(s, Take)
    ensures RefOk(Apply(s, Take))
  {
    hide Q.Apply, Q.Inv, Q.Closed;
  }

  lemma CreateRef(s: State)
    requires RefOk(s) && QueueOk(s) && Enabled(s, Create)
    ensures RefOk(Apply(s, Create))
  {
    hide Q.Apply, Q.Inv, Q.Closed;
  }

  lemma AddressRef(s: State, v: nat)
    requires RefOk(s) && QueueOk(s) && Enabled(s, Address(v))
    ensures RefOk(Apply(s, Address(v)))
  {
    hide Q.Apply, Q.Inv, Q.Closed;
  }

  lemma StrayLeavesRef(s: State, k: nat)
    requires RefOk(s) && QueueOk(s) && Enabled(s, StrayLeaves(k))
    ensures RefOk(Apply(s, StrayLeaves(k)))
  {
    StrayLeavesIs(s, k);
    hide *;
    StrayLeavesKeeps(s, k);
  }

  lemma StrayLeavesKeeps(s: State, k: nat)
    requires RefOk(s) && k < |s.strays|
    ensures RefOk(s.(nref := s.nref - 1, strays := Without(s.strays, k),
                     recyclers := if s.nref == 1 && s.ver % 2 == 1 then s.recyclers + [Swap(s.ver, s.ver + 1)] else s.recyclers))
  {
    hide IdsOk, RecycledOk, StraysOk, HasSwap, Without, SwapsOk;
    SwapAdded(s.recyclers, Swap(s.ver, s.ver + 1));
    StraysFewer(s.strays, s.ver, OneBack(s), k);
    if OneBack(s) { SwapsMore(s.recyclers, s.ver); }
  }

  lemma SwapsMore(recyclers: seq<Swap>, ver: nat)
    requires SwapsOk(recyclers, ver, true)
    ensures SwapsOk(recyclers + [Swap(ver, ver + 1)], ver, true)
  {}

  lemma StrayLeavesIs(s: State, k: nat)
    requires RefOk(s) && Enabled(s, StrayLeaves(k))
    ensures k < |s.strays|
    ensures Apply(s, StrayLeaves(k)) ==
            s.(nref := s.nref - 1, strays := Without(s.strays, k),
               recyclers := if s.nref == 1 && s.ver % 2 == 1 then s.recyclers + [Swap(s.ver, s.ver + 1)] else s.recyclers)
  {
    assert s.strays[k] == s.ver || (OneBack(s) && s.strays[k] + 1 == s.ver);
    hide IdsOk, SwapsOk, HasSwap, RecycledOk, QueueOk, Q.Apply, Q.Inv, Q.Closed;
  }

  lemma StraysFewer(strays: seq<nat>, ver: nat, oneBack: bool, k: nat)
    requires k < |strays| && StraysOk(strays, ver, oneBack)
    ensures StraysOk(Without(strays, k), ver, oneBack) && |Without(strays, k)| == |strays| - 1
  {}

  lemma DereferenceRef(s: State)
    requires RefOk(s) && QueueOk(s) && Enabled(s, Dereference)
    ensures RefOk(Apply(s, Dereference))
  {
    SwapAdded(s.recyclers, Swap(s.ver, s.id + 2));
    hide Q.Apply, Q.Inv, Q.Closed;
  }

  lemma TryRecycleRef(s: State, k: nat)
    requires RefOk(s) && QueueOk(s) && Enabled(s, TryRecycle(k))
    ensures RefOk(Apply(s, TryRecycle(k)))
  {
    if OneBack(s) && s.nref == 0 && s.recyclers[k].expected != s.ver { SwapStays(s.recyclers, k, s.ver); }
    hide Q.Apply, Q.Inv, Q.Closed;
  }

  lemma CheckStoppedRef(s: State)
    requires RefOk(s) && QueueOk(s) && Enabled(s, CheckStopped)
    ensures RefOk(Apply(s, CheckStopped))
  {
    hide Q.Apply, Q.Inv, Q.Closed;
  }

  lemma CountHighRef(s: State)
    requires RefOk(s) && QueueOk(s) && Enabled(s, CountHigh)
    ensures RefOk(Apply(s, CountHigh))
  {
    hide Q.Apply, Q.Inv, Q.Closed;
  }

  lemma PushRef(s: State, high: bool, inPlace: bool)
    requires RefOk(s) && QueueOk(s) && Enabled(s, Push(high, inPlace))
    ensures RefOk(Apply(s, Push(high, inPlace)))
  {
    hide Q.Apply, Q.Inv, Q.Closed;
  }

  lemma StopSwapRef(s: State)
    requires RefOk(s) && QueueOk(s) && Enabled(s, StopSwap)
    ensures RefOk(Apply(s, StopSwap))
  {
    hide Q.Apply, Q.Inv, Q.Closed;
  }

  lemma StopStoreRef(s: State)
    requires RefOk(s) && QueueOk(s) && Enabled(s, StopStore)
    ensures RefOk(Apply(s, StopStore))
  {
    hide Q.Apply, Q.Inv, Q.Closed;
  }

  lemma StopReleaseRef(s: State)
    requires RefOk(s) && QueueOk(s) && Enabled(s, StopRelease)
    ensures RefOk(Apply(s, StopRelease))
  {
    hide Q.Apply, Q.Inv, Q.Closed;
  }

  lemma PushStopRef(s: State)
    requires RefOk(s) && QueueOk(s) && Enabled(s, PushStop)
    ensures RefOk(Apply(s, PushStop))
  {
    hide Q.Apply, Q.Inv, Q.Closed;
  }

  lemma QueueRef(s: State, step: Q.Step)
    requires RefOk(s) && QueueOk(s) && Enabled(s, Queue(step))
    ensures RefOk(Apply(s, Queue(step)))
  {
    hide Q.Apply, Q.Inv, Q.Closed;
  }

  lemma WakeJoinersRef(s: State)
    requires RefOk(s) && QueueOk(s) && Q.Inv(s.q) && Enabled(s, WakeJoiners)
    ensures RefOk(Apply(s, WakeJoiners))
  {
    DestroyedList(s.q);
    hide Q.Apply, Q.Inv, Q.Closed;
  }

  lemma ReturnRef(s: State)
    requires RefOk(s) && QueueOk(s) && Enabled(s, Return)
    ensures RefOk(Apply(s, Return))
  {
    hide Q.Apply, Q.Inv, Q.Closed;
  }

  lemma StepKeepsRef(s: State, step: Step)
    requires Inv(s) && Enabled(s, step)
    ensures RefOk(Apply(s, step))
  {
    hide Apply, RefOk, QueueOk, Q.Inv, Enabled;
    match step
    case Take => TakeRef(s);
    case Create => CreateRef(s);
    case Address(v) => AddressRef(s, v);
    case StrayLeaves(k) => StrayLeavesRef(s, k);
    case Dereference => DereferenceRef(s);
    case TryRecycle(k) => TryRecycleRef(s, k);
    case CheckStopped => CheckStoppedRef(s);
    case CountHigh => CountHighRef(s);
    case Push(high, inPlace) => PushRef(s, high, inPlace);
    case StopSwap => StopSwapRef(s);
    case StopStore => StopStoreRef(s);
    case StopRelease => StopReleaseRef(s);
    case PushStop => PushStopRef(s);
    case Queue(q) => QueueRef(s, q);
    case WakeJoiners => WakeJoinersRef(s);
    case Return => ReturnRef(s);
  }

  // ------------------------------------------------------------ the task list

  /** The reference counts justify the guards of the task list: a producer that has got as far
      as counting or pushing finds the list open and, if its task is urgent, counted; and the
      stop task is pushed when no producer is on the way. So no step below skips its push. */
  lemma GuardsHold(s: State, inPlace: bool)
    requires Inv(s)
    ensures s.checked > 0 ==> Q.Enabled(s.q, Q.CountHigh) && Q.Enabled(s.q, Q.Push(false, inPlace))
    ensures s.counted > 0 ==> Q.Enabled(s.q, Q.Push(true, inPlace))
    ensures s.owed > 0 ==> Q.Enabled(s.q, Q.PushStop)
  {
    hide Q.Inv, Q.Closed;
  }

  predicate SameEnd(q: Q.State, q': Q.State) {
    q'.pendingHigh == q.pendingHigh && (Q.Closed(q') <==> Q.Closed(q))
  }

  lemma PassKeepsEnd(q: Q.State)
    requires Q.Shape(q)
    ensures q.consumer.Top? ==> SameEnd(q, Q.StartPass(q))
    ensures q.consumer.Leave? ==> SameEnd(q, Q.EndPass(q))
    ensures q.consumer.More? ==> SameEnd(q, Q.TryFinish(q))
  {}

  lemma NodeKeepsEnd(q: Q.State)
    requires Q.Shape(q)
    ensures q.consumer.Advance? ==> SameEnd(q, Q.AdvanceIterator(q))
    ensures q.consumer.Scan? ==> SameEnd(q, Q.ScanNode(q))
    ensures q.consumer.Reversing? ==> SameEnd(q, Q.ReverseNode(q))
  {}

  lemma ConsumerKeepsEnd(q: Q.State, early: bool)
    requires Q.Shape(q)
    ensures SameEnd(q, Q.Apply(q, Q.Consume(early)))
  {
    PassKeepsEnd(q);
    NodeKeepsEnd(q);
    hide Q.StartPass, Q.EndPass, Q.TryFinish, Q.AdvanceIterator, Q.ScanNode, Q.ReverseNode, Q.Shape;
  }

  lemma ListStep(q: Q.State, step: Q.Step)
    requires Q.Inv(q) && Q.Enabled(q, step)
    ensures var q' := Q.Apply(q, step);
            && q'.pendingHigh == q.pendingHigh + (if step.CountHigh? then 1 else if step.Push? && step.high then -1 else 0)
            && (Q.Closed(q') <==> step.PushStop? || (!step.Push? && Q.Closed(q)))
  {
    match step
    case Consume(early) => ConsumerKeepsEnd(q, early);
    case _ =>
  }

  lemma NothingInDrained(q: Q.State, step: Q.Step)
    requires Q.Inv(q) && Drained(q) && (step.Connect? || step.Cancel? || step.Consume?)
    ensures Q.Apply(q, step) == q
  {}

  lemma StepKeepsList(s: State, step: Step)
    requires Inv(s) && Enabled(s, step)
    ensures Q.Inv(Apply(s, step).q)
  {
    match step
    case Take => InitList();
    case CountHigh => Q.StepKeepsInv(s.q, Q.CountHigh);
    case Push(high, inPlace) => Q.StepKeepsInv(s.q, Q.Push(high, inPlace));
    case PushStop => Q.StepKeepsInv(s.q, Q.PushStop);
    case Queue(q) => Q.StepKeepsInv(s.q, q);
    case _ => hide Q.Inv;
  }

  lemma InitList()
    ensures Q.Inv(Q.Init())
  {}

  predicate OnList(step: Step) {
    step.Take? || step.CountHigh? || step.Push? || step.PushStop? || step.Queue? || step.WakeJoiners?
  }

  lemma OffListKeepsQueue(s: State, step: Step)
    requires RefOk(s) && QueueOk(s) && Enabled(s, step) && !OnList(step)
    ensures QueueOk(Apply(s, step))
  {
    assert !Q.Closed(Q.Init());
    hide Q.Inv, Q.Apply, Q.Closed, Q.Enabled, Drained;
  }

  lemma OnListKeepsQueue(s: State, step: Step)
    requires Inv(s) && Enabled(s, step) && OnList(step)
    ensures QueueOk(Apply(s, step))
  {
    GuardsHold(s, step.Push? && step.inPlace);
    hide Q.Inv, Q.Apply, Q.Closed, Q.Enabled;
    match step {
      case CountHigh => ListStep(s.q, Q.CountHigh);
      case Push(high, inPlace) => ListStep(s.q, Q.Push(high, inPlace));
      case PushStop => ListStep(s.q, Q.PushStop);
      case Queue(q) => ListKeepsQueue(s, q);
      case WakeJoiners => DestroyedList(s.q);
      case _ =>
    }
  }

  lemma ListKeepsQueue(s: State, q: Q.Step)
    requires Inv(s) && Enabled(s, Queue(q))
    ensures QueueOk(Apply(s, Queue(q)))
  {
    if Drained(s.q) {
      NothingInDrained(s.q, q);
    } else if Q.Enabled(s.q, q) {
      ListStep(s.q, q);
    } else {
      assert Q.Apply(s.q, q) == s.q;
    }
    hide Q.Inv, Q.Apply, Q.Closed, Q.Enabled, RefOk;
  }

  lemma StepKeepsInv(s: State, step: Step)
    requires Inv(s)
    ensures Inv(Apply(s, step))
  {
    if Enabled(s, step) {
      StepKeepsRef(s, step);
      StepKeepsList(s, step);
      if OnList(step) { OnListKeepsQueue(s, step); } else { OffListKeepsQueue(s, step); }
    }
    hide RefOk, QueueOk, Q.Inv, Enabled;
  }

  // ------------------------------------------------------------ whole runs

  /** A slot as the resource pool constructs it. */
  function Init(): State {
    State(Free, 0, 0, 0, false, false, 0, {}, [], 0, 0, 0, 0, 0, [], 0, [], false, Q.Init())
  }

  function Run(s: State, steps: seq<Step>): State
    decreases |steps|
  {
    if steps == [] then s else Run(Apply(s, steps[0]), steps[1..])
  }

  lemma {:induction false} RunKeepsInv(s: State, steps: seq<Step>)
    requires Inv(s)
    ensures Inv(Run(s, steps))
    decreases |steps|
  {
    if steps != [] {
      StepKeepsInv(s, steps[0]);
      hide Inv, Apply;
      RunKeepsInv(Apply(s, steps[0]), steps[1..]);
    }
  }

  lemma RunFromInit(steps: seq<Step>)
    ensures Inv(Run(Init(), steps))
  {
    InitList();
    RunKeepsInv(Init(), steps);
  }

  /** However address, dereference and stop interleave, no id is recycled twice, the count is
      never dropped below 0, and none of the code's version checks fails. */
  lemma RecycledAtMostOnce(steps: seq<Step>)
    ensures var s := Run(Init(), steps);
            && (forall i, j :: 0 <= i < j < |s.recycled| ==> s.recycled[i] != s.recycled[j])
            && s.nref >= 0 && !s.fault
  {
    RunFromInit(steps);
    hide Q.Inv, Run;
  }

  /** When a stopped queue has no reference left and no thread is inside address() or
      dereference(), its recycling has happened. */
  lemma QuiescentIsRecycled(steps: seq<Step>)
    ensures var s := Run(Init(), steps);
            s.phase.Live? && s.ver != s.id && s.nref == 0 && s.recyclers == [] ==> s.ver == s.id + 2 && s.id in s.recycled
  {
    RunFromInit(steps);
    hide Q.Inv, Run;
  }

  /** A queue that somebody still refers to, or that nobody has stopped, is not recycled. */
  lemma ReferencesHold(steps: seq<Step>)
    ensures var s := Run(Init(), steps);
            s.extra || s.idle + s.checked + s.counted > 0 ==>
              s.phase.Live? && s.ver <= s.id + 1 && s.owed == 0 && !Q.Closed(s.q) && s.id !in s.recycled
  {
    RunFromInit(steps);
    hide Q.Inv, Run;
  }

  /** address() gives a reference exactly for the id of a queue that is in use and not stopped. */
  lemma AddressFindsLive(steps: seq<Step>, v: nat)
    ensures var s := Run(Init(), steps);
            v in s.issued ==> (s.ver == v <==> s.phase.Live? && s.id == v && s.ver == s.id)
  {
    RunFromInit(steps);
    hide Q.Inv, Run;
  }

  /** join() sleeps exactly while the queue of its id has not been given back. */
  lemma JoinWaitsForLive(steps: seq<Step>, v: nat)
    ensures var s := Run(Init(), steps); v in s.issued ==> (s.join == v <==> s.phase.Live? && s.id == v)
  {
    RunFromInit(steps);
    hide Q.Inv, Run;
  }

  /** Once the stop task is in the list nothing is pushed behind it, and nothing in front of
      the next user of the slot. */
  lemma StopTaskIsLast(steps: seq<Step>, step: Step)
    ensures var s := Run(Init(), steps);
            s.phase.Live? && Q.Closed(s.q) && !step.Take? ==>
              && s.checked + s.counted + s.owed == 0
              && |Apply(s, step).q.tasks| == |s.q.tasks| && Q.Closed(Apply(s, step).q)
  {
    RunFromInit(steps);
    var s := Run(Init(), steps);
    if s.phase.Live? && Q.Closed(s.q) && !step.Take? && Enabled(s, step) {
      match step
      case Queue(q) => ClosedListKeepsLength(s.q, q);
      case _ => hide Q.Inv, Q.Closed, Run;
    }
  }

  lemma ClosedListKeepsLength(q: Q.State, step: Q.Step)
    requires Q.Inv(q) && Q.Closed(q)
    ensures |Q.Apply(q, step).tasks| == |q.tasks| && Q.Closed(Q.Apply(q, step))
  {
    if Q.Enabled(q, step) { ListStep(q, step); }
    match step {
      case Consume(early) => PassKeepsLength(q); NodeKeepsLength(q);
      case _ =>
    }
  }

  lemma PassKeepsLength(q: Q.State)
    requires Q.Shape(q)
    ensures q.consumer.Top? ==> |Q.StartPass(q).tasks| == |q.tasks|
    ensures q.consumer.Leave? ==> |Q.EndPass(q).tasks| == |q.tasks|
    ensures q.consumer.More? ==> |Q.TryFinish(q).tasks| == |q.tasks|
  {}

  lemma NodeKeepsLength(q: Q.State)
    requires Q.Shape(q)
    ensures q.consumer.Advance? ==> |Q.AdvanceIterator(q).tasks| == |q.tasks|
    ensures q.consumer.Scan? ==> |Q.ScanNode(q).tasks| == |q.tasks|
    ensures q.consumer.Reversing? ==> |Q.ReverseNode(q).tasks| == |q.tasks|
  {}

  /** create() finds what it checks for: an empty list and a high-priority counter of 0. */
  lemma SlotComesBackEmpty(steps: seq<Step>)
    ensures var s := Run(Init(), steps); s.phase.Free? || s.phase.Taken? ==> s.q.head == -1 && s.q.hp == 0 && s.q.consumers == 0
  {
    RunFromInit(steps);
    hide Q.Inv, Run;
  }

  // ------------------------------------------------------------ the word in memory

  /** The atomic word of a slot. The methods are the accesses of address(), dereference() and
      stop(); `s` is the state they are a step of. */
  class VersionedRef {
    var versionedRef: nat
    var thisId: nat

    predicate Holds(s: State)
      reads this
    {
      0 <= s.nref < REFS && versionedRef == MakeVref(s.ver, s.nref) && thisId == s.id
    }

    constructor ()
      ensures Holds(Init())
    {
      versionedRef, thisId := 0, 0;
    }

    method Create(ghost s: State) returns (id: nat)
      requires Holds(s) && s.phase.Taken? && s.nref + 1 < REFS
      modifies this
      ensures Holds(Apply(s, Step.Create)) && id == s.ver
    {
      PackedWord(s.ver, s.nref);
      id := VersionOf(versionedRef);
      versionedRef := versionedRef + 1;
      thisId := id;
    }

    method Address(ghost s: State, v: nat) returns (found: bool, ver1: nat)
      requires Holds(s) && v in s.issued && s.nref + 1 < REFS
      modifies this
      ensures Holds(Apply(s, Step.Address(v)))
      ensures ver1 == s.ver && (found <==> Apply(s, Step.Address(v)).idle == s.idle + 1)
    {
      PackedWord(s.ver, s.nref);
      ver1 := VersionOf(versionedRef);
      versionedRef := versionedRef + 1;
      found := ver1 == v;
    }

    method LeaveStray(ghost s: State, ghost k: nat, ver1: nat) returns (swaps: seq<Swap>)
      requires Holds(s) && k < |s.strays| && s.strays[k] == ver1 && RefOk(s) && QueueOk(s)
      modifies this
      ensures Holds(Apply(s, StrayLeaves(k))) && Apply(s, StrayLeaves(k)).recyclers == s.recyclers + swaps
    {
      PackedWord(s.ver, s.nref);
      StrayLeavesRef(s, k);
      var nref, ver2 := RefOf(versionedRef), VersionOf(versionedRef);
      versionedRef := versionedRef - 1;
      swaps := [];
      if nref == 1 && ver2 % 2 == 1 && (ver1 == ver2 || ver1 + 1 == ver2) {
        swaps := [Swap(ver2, ver2 + 1)];
      }
    }

    method Dereference(ghost s: State) returns (swaps: seq<Swap>)
      requires Holds(s) && s.idle > 0 && RefOk(s) && QueueOk(s)
      modifies this
      ensures Holds(Apply(s, Step.Dereference)) && Apply(s, Step.Dereference).recyclers == s.recyclers + swaps
    {
      PackedWord(s.ver, s.nref);
      DereferenceRef(s);
      var nref, ver, id := RefOf(versionedRef), VersionOf(versionedRef), thisId;
      versionedRef := versionedRef - 1;
      swaps := [];
      if nref == 1 && (ver == id || ver == id + 1) {
        swaps := [Swap(ver, id + 2)];
      }
    }

    method TryRecycle(ghost s: State, ghost k: nat, swap: Swap) returns (won: bool)
      requires Holds(s) && k < |s.recyclers| && s.recyclers[k] == swap
      modifies this
      ensures Holds(Apply(s, Step.TryRecycle(k))) && (won <==> Apply(s, Step.TryRecycle(k)).owed == s.owed + 1)
    {
      PackedWord(s.ver, s.nref);
      PackedWord(swap.expected, 0);
      PackedWord(swap.desired, 0);
      won := versionedRef == MakeVref(swap.expected, 0);
      if won {
        versionedRef := MakeVref(swap.desired, 0);
      }
    }

    method Stop(ghost s: State) returns (won: bool)
      requires Holds(s) && s.idle > 0
      modifies this
      ensures Holds(Apply(s, StopSwap)) && (won <==> Apply(s, StopSwap).stopping == s.stopping + 1)
    {
      PackedWord(s.ver, s.nref);
      var vref := versionedRef;
      won := VersionOf(vref) == thisId;
      if won {
        versionedRef := MakeVref(thisId + 1, RefOf(vref));
      }
    }
  }
}
