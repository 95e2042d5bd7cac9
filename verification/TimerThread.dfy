/** The timer thread of eabase/fiber/timer_thread.cc: callers insert tasks into buckets, one
    thread pulls them into a heap, runs the ones that are due and sleeps on `_nsignals`.

    One locked section or one atomic access is one step. The heap and the bucket lists are sets
    of slots here; class Bucket of module TimerBucket walks the real lists. Times are
    microseconds, MAX stands for "no task". A task id is a slot of the pool and the version the
    slot had when the task was made. */
module TimerThread {
  import opened Shared

  const MAX: int := 0x7fff_ffff_ffff_ffff

  datatype Id = Id(slot: nat, version: nat)

  /** Where a slot is. */
  datatype Where = Pool | Filling | InBucket(b: nat) | Pulled | InHeap | Popped

  /** `idVersion` is the version inside `task_id`. */
  datatype Slot = Slot(runTime: int, idVersion: nat, version: nat, place: Where)

  datatype Bucket = Bucket(nearest: int, tasks: set<nat>)

  /** A schedule() between its bucket section and its global section. */
  datatype Pending = Pending(id: Id, b: nat, runTime: int)

  datatype Timer =
    | Top
    | Pull(i: nat)
    | Walk(i: nat, pulled: set<nat>)
    | Look
    | Due(x: nat)
    | RunTask(x: nat)
    | Running(x: nat)
    | Ran(x: nat)
    | Plan
    | BeforeSleep(deadline: int, expected: nat)
    | Asleep(deadline: int, expected: nat)
    | Ended

  /** `owing` counts the futex wakes still to be made. `ran`, `unscheduled` and `returned` count,
      for each task, its callbacks, the calls of unschedule() that returned 0, and the times its
      slot went back to the pool; `signalled` is set by the locked section of stop_and_join. */
  datatype State = State(
    slots: seq<Slot>, buckets: seq<Bucket>, nearest: int, nsignals: nat, heap: set<nat>, timer: Timer,
    pending: seq<Pending>, owing: nat, stop: bool, signalled: bool,
    ran: multiset<Id>, unscheduled: multiset<Id>, returned: multiset<Id>)

  datatype Step =
    | NewSlot
    | TakeSlot(x: nat, runTime: int)
    | Insert(x: nat, b: nat)
    | Tell(k: nat)
    | Wake
    | Unschedule(id: Id)
    | Stop
    | SignalStop
    | Time(now: int, x: nat)

  function Move(s: State, x: nat, place: Where): State
    requires x < |s.slots|
  {
    s.(slots := s.slots[x := s.slots[x].(place := place)])
  }

  function IdOf(slots: seq<Slot>, x: nat): Id
    requires x < |slots|
  {
    Id(x, slots[x].idVersion)
  }

  /** return_resource. */
  function GiveBack(s: State, x: nat): State
    requires x < |s.slots|
  {
    Move(s, x, Pool).(returned := s.returned + multiset{IdOf(s.slots, x)})
  }

  /** An id that a finished schedule() may have handed out. */
  predicate Issued(slots: seq<Slot>, id: Id) {
    && id.slot < |slots| && id.version >= 2 && id.version % 2 == 0
    && (if slots[id.slot].place.Filling? then id.version < slots[id.slot].idVersion else id.version <= slots[id.slot].idVersion)
  }

  predicate Earliest(s: State, x: nat) {
    x in s.heap && x < |s.slots| && forall y :: y in s.heap && y < |s.slots| ==> s.slots[x].runTime <= s.slots[y].runTime
  }

  /** A slot the timer thread works on exists, and the one it takes from the heap is the first. */
  predicate TimerEnabled(s: State, x: nat) {
    match s.timer
    case Walk(_, pulled) => pulled != {} ==> x in pulled && x < |s.slots|
    case Look => s.heap != {} ==> Earliest(s, x)
    case Plan => s.heap != {} ==> Earliest(s, x)
    case Due(y) => y < |s.slots|
    case RunTask(y) => y < |s.slots|
    case Running(y) => y < |s.slots|
    case Ran(y) => y < |s.slots|
    case Ended => false
    case _ => true
  }

  predicate Enabled(s: State, step: Step) {
    match step
    case NewSlot => true
    case TakeSlot(x, runTime) => x < |s.slots| && s.slots[x].place.Pool? && runTime <= MAX && !s.stop
    case Insert(x, b) => x < |s.slots| && s.slots[x].place.Filling? && b < |s.buckets|
    case Tell(k) => k < |s.pending|
    case Wake => s.owing > 0
    case Unschedule(id) => Issued(s.slots, id)
    case Stop => true
    case SignalStop => s.stop
    case Time(_, x) => TimerEnabled(s, x)
  }

  /** The locked section of Bucket::schedule. */
  function InsertTask(s: State, x: nat, b: nat): State
    requires x < |s.slots| && b < |s.buckets|
  {
    var bucket, runTime := s.buckets[b], s.slots[x].runTime;
    var earlier := runTime < bucket.nearest;
    Move(s, x, InBucket(b)).(
      buckets := s.buckets[b := Bucket(if earlier then runTime else bucket.nearest, bucket.tasks + {x})],
      pending := if earlier then s.pending + [Pending(IdOf(s.slots, x), b, runTime)] else s.pending)
  }

  /** The locked section of TimerThread::schedule. */
  function TellGlobal(s: State, k: nat): State
    requires k < |s.pending|
  {
    var runTime := s.pending[k].runTime;
    var s1 := s.(pending := Without(s.pending, k));
    if runTime < s.nearest then s1.(nearest := runTime, nsignals := s.nsignals + 1, owing := s.owing + 1) else s1
  }

  /** What unschedule() returns. */
  function UnscheduleResult(s: State, id: Id): int
    requires id.slot < |s.slots|
  {
    var version := s.slots[id.slot].version;
    if version == id.version then 0 else if version == id.version + 1 then 1 else -1
  }

  /** Bucket::consume_tasks for bucket i. */
  function Consume(s: State, i: nat): State
    requires i < |s.buckets|
  {
    var tasks := s.buckets[i].tasks;
    if tasks == {} then s.(timer := Walk(i, {}))
    else
      s.(timer := Walk(i, tasks), buckets := s.buckets[i := Bucket(MAX, {})],
         slots := seq(|s.slots|, x requires 0 <= x < |s.slots| => if x in tasks then s.slots[x].(place := Pulled) else s.slots[x]))
  }

  /** try_delete for one of the pulled tasks; what is not deleted goes into the heap. */
  function WalkTask(s: State, x: nat): State
    requires s.timer.Walk? && x < |s.slots|
  {
    var timer := Walk(s.timer.i, s.timer.pulled - {x});
    if s.slots[x].version != s.slots[x].idVersion then GiveBack(s, x).(timer := timer)
    else Move(s, x, InHeap).(timer := timer, heap := s.heap + {x})
  }

  /** The compare-exchange of run_and_delete. */
  function StartTask(s: State, x: nat): State
    requires x < |s.slots|
  {
    var slot := s.slots[x];
    if slot.version == slot.idVersion then
      s.(slots := s.slots[x := slot.(version := slot.idVersion + 1)], ran := s.ran + multiset{IdOf(s.slots, x)}, timer := Running(x))
    else if slot.version == slot.idVersion + 2 then GiveBack(s, x).(timer := Look)
    else s.(timer := Look)
  }

  /** One step of TimerThread::run. */
  function TimerNext(s: State, now: int, x: nat): State
    requires TimerEnabled(s, x)
  {
    match s.timer
    case Top => if s.stop then s.(timer := Ended) else s.(nearest := MAX, timer := Pull(0))
    case Pull(i) => if i < |s.buckets| then Consume(s, i) else s.(timer := Look)
    case Walk(i, pulled) => if pulled == {} then s.(timer := Pull(i + 1)) else WalkTask(s, x)
    case Look => s.(timer := if s.heap == {} || now < s.slots[x].runTime then Plan else Due(x))
    case Due(y) =>
      if s.slots[y].runTime > s.nearest then s.(timer := Top)
      else Move(s, y, Popped).(heap := s.heap - {y}, timer := RunTask(y))
    case RunTask(y) => StartTask(s, y)
    case Running(y) => s.(slots := s.slots[y := s.slots[y].(version := s.slots[y].idVersion + 2)], timer := Ran(y))
    case Ran(y) => GiveBack(s, y).(timer := Look)
    case Plan =>
      var next := if s.heap == {} then MAX else s.slots[x].runTime;
      if next > s.nearest then s.(timer := Top) else s.(nearest := next, timer := BeforeSleep(next, s.nsignals))
    case BeforeSleep(deadline, expected) => s.(timer := if s.nsignals != expected then Top else Asleep(deadline, expected))
    case Asleep(_, _) => s.(timer := Top)
    case Ended => s
  }

  function Apply(s: State, step: Step): State {
    if !Enabled(s, step) then s else
    match step
    case NewSlot => s.(slots := s.slots + [Slot(0, 0, 2, Pool)])
    case TakeSlot(x, runTime) =>
      var version := if s.slots[x].version == 0 then 2 else s.slots[x].version;
      s.(slots := s.slots[x := Slot(runTime, version, version, Filling)])
    case Insert(x, b) => InsertTask(s, x, b)
    case Tell(k) => TellGlobal(s, k)
    case Wake => s.(owing := s.owing - 1, timer := if s.timer.Asleep? then Top else s.timer)
    case Unschedule(id) =>
      if UnscheduleResult(s, id) != 0 then s
      else s.(slots := s.slots[id.slot := s.slots[id.slot].(version := id.version + 2)], unscheduled := s.unscheduled + multiset{id})
    case Stop => s.(stop := true)
    case SignalStop => s.(nearest := 0, nsignals := s.nsignals + 1, owing := s.owing + 1, signalled := true)
    case Time(now, x) => TimerNext(s, now, x)
  }

  // ------------------------------------------------------------ where the slots are

  function PulledBy(timer: Timer): set<nat> {
    if timer.Walk? then timer.pulled else {}
  }

  function HeldBy(timer: Timer): set<nat> {
    if timer.RunTask? || timer.Running? || timer.Ran? then {timer.x} else {}
  }

  ghost predicate Holds(slots: seq<Slot>, xs: set<nat>, place: Where) {
    forall x: nat :: x in xs <==> x < |slots| && slots[x].place == place
  }

  ghost predicate BucketsHold(slots: seq<Slot>, buckets: seq<Bucket>) {
    && (forall b :: 0 <= b < |buckets| ==> Holds(slots, buckets[b].tasks, InBucket(b)))
    && (forall x :: 0 <= x < |slots| && slots[x].place.InBucket? ==> slots[x].place.b < |buckets|)
  }

  ghost predicate PlacesOk(s: State) {
    && Holds(s.slots, s.heap, InHeap) && Holds(s.slots, PulledBy(s.timer), Pulled) && Holds(s.slots, HeldBy(s.timer), Popped)
    && BucketsHold(s.slots, s.buckets) && (s.timer.Due? ==> s.timer.x in s.heap && Earliest(s, s.timer.x))
  }

  lemma Entered(slots: seq<Slot>, x: nat, slot: Slot, xs: set<nat>, place: Where)
    requires x < |slots| && Holds(slots, xs, place) && slot.place == place
    ensures Holds(slots[x := slot], xs + {x}, place)
  {}

  lemma Left(slots: seq<Slot>, x: nat, slot: Slot, xs: set<nat>, place: Where)
    requires x < |slots| && Holds(slots, xs, place) && slot.place != place
    ensures Holds(slots[x := slot], xs - {x}, place)
  {}

  lemma Kept(slots: seq<Slot>, x: nat, slot: Slot, xs: set<nat>, place: Where)
    requires x < |slots| && Holds(slots, xs, place) && (slots[x].place == place <==> slot.place == place)
    ensures Holds(slots[x := slot], xs, place)
  {}

  lemma BucketsKept(slots: seq<Slot>, x: nat, slot: Slot, buckets: seq<Bucket>)
    requires x < |slots| && BucketsHold(slots, buckets) && !slot.place.InBucket? && !slots[x].place.InBucket?
    ensures BucketsHold(slots[x := slot], buckets)
  {}

  lemma BucketsSame(slots: seq<Slot>, slots': seq<Slot>, buckets: seq<Bucket>)
    requires BucketsHold(slots, buckets) && |slots| == |slots'|
    requires forall x :: 0 <= x < |slots| ==> slots'[x].place == slots[x].place || (!slots[x].place.InBucket? && !slots'[x].place.InBucket?)
    ensures BucketsHold(slots', buckets)
  {}

  lemma OneSlotKeepsPlaces(s: State, x: nat, slot: Slot)
    requires PlacesOk(s) && x < |s.slots|
    requires slot.place == s.slots[x].place || (s.slots[x].place.Pool? && slot.place.Filling?)
    requires slot.runTime == s.slots[x].runTime || s.slots[x].place.Pool?
    ensures PlacesOk(s.(slots := s.slots[x := slot]))
  {
    Kept(s.slots, x, slot, s.heap, InHeap);
    Kept(s.slots, x, slot, PulledBy(s.timer), Pulled);
    Kept(s.slots, x, slot, HeldBy(s.timer), Popped);
    BucketsSame(s.slots, s.slots[x := slot], s.buckets);
    hide BucketsHold;
  }

  lemma SlotsKeepPlaces(s: State, step: Step)
    requires PlacesOk(s) && Enabled(s, step) && (step.NewSlot? || step.TakeSlot? || step.Unschedule?)
    ensures PlacesOk(Apply(s, step))
  {
    match step
    case TakeSlot(x, _) => OneSlotKeepsPlaces(s, x, Apply(s, step).slots[x]);
    case Unschedule(id) => OneSlotKeepsPlaces(s, id.slot, Apply(s, step).slots[id.slot]);
    case _ =>
  }

  lemma CallerKeepsPlaces(s: State, step: Step)
    requires PlacesOk(s) && Enabled(s, step)
    requires step.Tell? || step.Wake? || step.Stop? || step.SignalStop?
    ensures PlacesOk(Apply(s, step))
  {
    hide Holds;
  }

  lemma InsertKeepsPlaces(s: State, x: nat, b: nat)
    requires PlacesOk(s) && Enabled(s, Insert(x, b))
    ensures PlacesOk(Apply(s, Insert(x, b)))
  {}

  predicate Pulling(slots: seq<Slot>, slots': seq<Slot>, tasks: set<nat>) {
    |slots'| == |slots| &&
    forall y: nat :: y < |slots| ==> slots'[y] == if y in tasks then slots[y].(place := Pulled) else slots[y]
  }

  lemma ConsumeSlots(s: State, i: nat)
    requires i < |s.buckets|
    ensures Pulling(s.slots, Consume(s, i).slots, s.buckets[i].tasks)
  {}

  lemma PullingHolds(slots: seq<Slot>, slots': seq<Slot>, tasks: set<nat>, i: nat, xs: set<nat>, place: Where)
    requires Pulling(slots, slots', tasks) && Holds(slots, tasks, InBucket(i)) && Holds(slots, xs, place)
    ensures place != Pulled && place != InBucket(i) ==> Holds(slots', xs, place)
    ensures place == Pulled ==> Holds(slots', xs + tasks, Pulled)
    ensures Holds(slots', {}, InBucket(i))
  {}

  lemma PullingBuckets(slots: seq<Slot>, slots': seq<Slot>, buckets: seq<Bucket>, i: nat, bucket: Bucket)
    requires i < |buckets| && Pulling(slots, slots', buckets[i].tasks) && BucketsHold(slots, buckets) && bucket.tasks == {}
    ensures BucketsHold(slots', buckets[i := bucket])
  {
    hide Holds;
    forall b | 0 <= b < |buckets| ensures Holds(slots', buckets[i := bucket][b].tasks, InBucket(b)) {
      PullingHolds(slots, slots', buckets[i].tasks, i, buckets[b].tasks, InBucket(b));
    }
  }

  lemma PullKeepsPlaces(s: State)
    requires PlacesOk(s) && s.timer.Pull?
    ensures PlacesOk(TimerNext(s, 0, 0))
  {
    hide Holds, Earliest;
    if s.timer.i < |s.buckets| {
      var i, s' := s.timer.i, Consume(s, s.timer.i);
      var tasks := s.buckets[i].tasks;
      ConsumeSlots(s, i);
      PullingHolds(s.slots, s'.slots, tasks, i, s.heap, InHeap);
      PullingHolds(s.slots, s'.slots, tasks, i, {}, Popped);
      PullingHolds(s.slots, s'.slots, tasks, i, {}, Pulled);
      assert {} + tasks == tasks;
      PullingBuckets(s.slots, s'.slots, s.buckets, i, s'.buckets[i]);
      assert s'.buckets == s.buckets[i := s'.buckets[i]];
    }
    hide BucketsHold, Pulling;
  }

  lemma WalkKeepsPlaces(s: State, now: int, x: nat)
    requires PlacesOk(s) && TimerEnabled(s, x) && s.timer.Walk?
    ensures PlacesOk(TimerNext(s, now, x))
  {
    if s.timer.pulled != {} {
      var slot := TimerNext(s, now, x).slots[x];
      assert s.slots[x].place == Pulled;
      Left(s.slots, x, slot, PulledBy(s.timer), Pulled);
      if slot.place == InHeap { Entered(s.slots, x, slot, s.heap, InHeap); } else { Kept(s.slots, x, slot, s.heap, InHeap); }
      Kept(s.slots, x, slot, {}, Popped);
      BucketsKept(s.slots, x, slot, s.buckets);
    }
    hide Holds, BucketsHold;
  }

  lemma DueKeepsPlaces(s: State, now: int, x: nat)
    requires PlacesOk(s) && TimerEnabled(s, x) && s.timer.Due?
    ensures PlacesOk(TimerNext(s, now, x))
  {
    var y := s.timer.x;
    var s' := TimerNext(s, now, x);
    if !s'.timer.Top? {
      assert s.slots[y].place == InHeap;
      Left(s.slots, y, s'.slots[y], s.heap, InHeap);
      Entered(s.slots, y, s'.slots[y], {}, Popped);
      assert {} + {y} == {y};
      Kept(s.slots, y, s'.slots[y], {}, Pulled);
      BucketsKept(s.slots, y, s'.slots[y], s.buckets);
    }
    hide Holds, BucketsHold;
  }

  lemma RunTaskKeepsPlaces(s: State, now: int, x: nat)
    requires PlacesOk(s) && TimerEnabled(s, x) && s.timer.RunTask? && SlotOk(s.slots[s.timer.x], s.timer)
    ensures PlacesOk(TimerNext(s, now, x))
  {
    var y := s.timer.x;
    var slot := TimerNext(s, now, x).slots[y];
    assert s.slots[y].place == Popped;
    Kept(s.slots, y, slot, s.heap, InHeap);
    Kept(s.slots, y, slot, {}, Pulled);
    if slot.place == Popped { Kept(s.slots, y, slot, {y}, Popped); }
    else {
      Left(s.slots, y, slot, {y}, Popped);
      assert {y} - {y} == {};
    }
    BucketsKept(s.slots, y, slot, s.buckets);
    hide Holds, BucketsHold;
  }

  lemma RunningKeepsPlaces(s: State, now: int, x: nat)
    requires PlacesOk(s) && TimerEnabled(s, x) && (s.timer.Running? || s.timer.Ran?)
    ensures PlacesOk(TimerNext(s, now, x))
  {}

  lemma TimerKeepsPlaces(s: State, now: int, x: nat)
    requires PlacesOk(s) && TimerEnabled(s, x)
    requires s.timer.Top? || s.timer.Look? || s.timer.Plan? || s.timer.BeforeSleep? || s.timer.Asleep?
    ensures PlacesOk(TimerNext(s, now, x))
  {
    hide Holds;
  }

  // ------------------------------------------------------------ versions and history

  /** The version of a slot is that of its task id, one more while the callback runs, two more
      once the task is over. */
  predicate SlotOk(slot: Slot, timer: Timer) {
    && slot.idVersion % 2 == 0 && slot.version >= 2 && slot.runTime <= MAX && (slot.place.Pool? || slot.idVersion >= 2)
    && match slot.place
       case Pool => slot.version == slot.idVersion + 2
       case Filling => slot.version == slot.idVersion
       case Popped =>
         if timer.Running? then slot.version == slot.idVersion + 1
         else if timer.Ran? then slot.version == slot.idVersion + 2
         else slot.version == slot.idVersion || slot.version == slot.idVersion + 2
       case _ => slot.version == slot.idVersion || slot.version == slot.idVersion + 2
  }
  ghost predicate SlotsOk(slots: seq<Slot>, timer: Timer) {
    forall x :: 0 <= x < |slots| ==> SlotOk(slots[x], timer)
  }

  lemma CallerKeepsSlots(s: State, step: Step)
    requires PlacesOk(s) && SlotsOk(s.slots, s.timer) && Enabled(s, step) && !step.Time?
    ensures SlotsOk(Apply(s, step).slots, Apply(s, step).timer)
  {
    hide BucketsHold;
  }

  lemma PullKeepsSlots(s: State)
    requires PlacesOk(s) && SlotsOk(s.slots, s.timer) && s.timer.Pull?
    ensures SlotsOk(TimerNext(s, 0, 0).slots, TimerNext(s, 0, 0).timer)
  {
    if s.timer.i < |s.buckets| {
      ConsumeSlots(s, s.timer.i);
      assert forall y: nat :: y < |s.slots| && y in s.buckets[s.timer.i].tasks ==> s.slots[y].place.InBucket?;
    }
    hide BucketsHold, Holds;
  }

  lemma TaskKeepsSlots(s: State, now: int, x: nat)
    requires PlacesOk(s) && SlotsOk(s.slots, s.timer) && TimerEnabled(s, x)
    requires s.timer.RunTask? || s.timer.Running? || s.timer.Ran?
    ensures SlotsOk(TimerNext(s, now, x).slots, TimerNext(s, now, x).timer)
  {
    assert s.slots[s.timer.x].place == Popped;
    assert forall y :: 0 <= y < |s.slots| && s.slots[y].place == Popped ==> y == s.timer.x;
    hide BucketsHold, Earliest, Holds;
  }

  lemma WalkKeepsSlots(s: State, now: int, x: nat)
    requires PlacesOk(s) && SlotsOk(s.slots, s.timer) && TimerEnabled(s, x) && s.timer.Walk?
    ensures SlotsOk(TimerNext(s, now, x).slots, TimerNext(s, now, x).timer)
  {
    assert forall y :: 0 <= y < |s.slots| ==> s.slots[y].place != Popped;
    if s.timer.pulled != {} { assert s.slots[x].place == Pulled; }
    hide PlacesOk;
  }

  lemma TimerKeepsSlots(s: State, now: int, x: nat)
    requires PlacesOk(s) && SlotsOk(s.slots, s.timer) && TimerEnabled(s, x)
    requires !s.timer.Pull? && !s.timer.Walk? && !s.timer.RunTask? && !s.timer.Running? && !s.timer.Ran?
    ensures SlotsOk(TimerNext(s, now, x).slots, TimerNext(s, now, x).timer)
  {
    NobodyPopped(s);
    if s.timer.Due? {
      DueKeepsSlots(s, now, x);
    } else {
      RestKeepsSlots(s, now, x);
      SlotsOkLater(s.slots, s.timer, TimerNext(s, now, x).timer);
    }
    hide PlacesOk, Earliest, TimerNext, TimerEnabled, SlotsOk;
  }

  ghost predicate NonePopped(slots: seq<Slot>) {
    forall y :: 0 <= y < |slots| ==> slots[y].place != Popped
  }

  lemma NobodyPopped(s: State)
    requires PlacesOk(s) && HeldBy(s.timer) == {}
    ensures NonePopped(s.slots) && (s.timer.Due? && s.timer.x < |s.slots| ==> s.slots[s.timer.x].place == InHeap)
  {}

  /** Without popped slots the timer thread's place does not matter. */
  lemma SlotsOkLater(slots: seq<Slot>, timer: Timer, timer': Timer)
    requires SlotsOk(slots, timer) && NonePopped(slots)
    ensures SlotsOk(slots, timer')
  {}

  lemma RestKeepsSlots(s: State, now: int, x: nat)
    requires TimerEnabled(s, x)
    requires s.timer.Top? || s.timer.Look? || s.timer.Plan? || s.timer.BeforeSleep? || s.timer.Asleep?
    ensures TimerNext(s, now, x).slots == s.slots
  {
    hide Earliest;
  }

  lemma DueKeepsSlots(s: State, now: int, x: nat)
    requires SlotsOk(s.slots, s.timer) && NonePopped(s.slots) && s.timer.Due? && TimerEnabled(s, x)
    requires s.slots[s.timer.x].place == InHeap
    ensures SlotsOk(TimerNext(s, now, x).slots, TimerNext(s, now, x).timer)
  {
    assert SlotOk(s.slots[s.timer.x], s.timer);
  }

  // ------------------------------------------------------------ what became of each task

  /** The task of this id has been started or unscheduled. */
  predicate Settled(slots: seq<Slot>, id: Id) {
    && id.slot < |slots| && id.version >= 2 && id.version % 2 == 0
    && id.version <= slots[id.slot].idVersion && id.version < slots[id.slot].version
  }

  /** The slot of this id's task has gone back to the pool. */
  predicate Gone(slots: seq<Slot>, id: Id) {
    && id.slot < |slots| && id.version >= 2 && id.version % 2 == 0
    && (id.version < slots[id.slot].idVersion || (id.version == slots[id.slot].idVersion && slots[id.slot].place.Pool?))
  }

  ghost predicate SettledOk(slots: seq<Slot>, ran: multiset<Id>, unscheduled: multiset<Id>) {
    forall id: Id :: ran[id] + unscheduled[id] == One(Settled(slots, id))
  }

  ghost predicate RunningOk(slots: seq<Slot>, ran: multiset<Id>) {
    forall x: nat :: x < |slots| && slots[x].version == slots[x].idVersion + 1 ==> ran[Id(x, slots[x].idVersion)] == 1
  }

  ghost predicate GoneOk(slots: seq<Slot>, returned: multiset<Id>) {
    forall id: Id :: returned[id] == One(Gone(slots, id))
  }

  ghost predicate HistoryOk(s: State) {
    SettledOk(s.slots, s.ran, s.unscheduled) && RunningOk(s.slots, s.ran) && GoneOk(s.slots, s.returned)
  }

  /** Nothing that the counts depend on has changed. */
  lemma HistorySame(s: State, s': State)
    requires HistoryOk(s) && |s'.slots| == |s.slots| && s'.ran == s.ran && s'.unscheduled == s.unscheduled && s'.returned == s.returned
    requires forall x :: 0 <= x < |s.slots| ==>
                           && s'.slots[x].idVersion == s.slots[x].idVersion && s'.slots[x].version == s.slots[x].version
                           && s'.slots[x].place.Pool? == s.slots[x].place.Pool?
    ensures HistoryOk(s')
  {}

  lemma OneSame(s: State, s': State, x: nat, slot: Slot)
    requires HistoryOk(s) && x < |s.slots| && s'.slots == s.slots[x := slot]
    requires s'.ran == s.ran && s'.unscheduled == s.unscheduled && s'.returned == s.returned
    requires slot.idVersion == s.slots[x].idVersion && slot.version == s.slots[x].version && slot.place.Pool? == s.slots[x].place.Pool?
    ensures HistoryOk(s')
  {
    HistorySame(s, s');
  }

  lemma NewSlotHistory(s: State, timer: Timer)
    requires HistoryOk(s) && SlotsOk(s.slots, timer)
    ensures HistoryOk(s.(slots := s.slots + [Slot(0, 0, 2, Pool)]))
  {}

  lemma TakenHistory(s: State, x: nat, slot: Slot, timer: Timer)
    requires HistoryOk(s) && x < |s.slots| && SlotOk(s.slots[x], timer) && s.slots[x].place.Pool?
    requires slot.idVersion == slot.version == s.slots[x].version && slot.place.Filling?
    ensures HistoryOk(s.(slots := s.slots[x := slot]))
  {}

  lemma UnscheduledHistory(s: State, id: Id, timer: Timer)
    requires HistoryOk(s) && Issued(s.slots, id) && SlotOk(s.slots[id.slot], timer) && id.version == s.slots[id.slot].version
    ensures HistoryOk(s.(slots := s.slots[id.slot := s.slots[id.slot].(version := id.version + 2)], unscheduled := s.unscheduled + multiset{id}))
  {}

  lemma StartedHistory(s: State, x: nat, timer: Timer)
    requires HistoryOk(s) && x < |s.slots| && SlotOk(s.slots[x], timer) && s.slots[x].version == s.slots[x].idVersion
    ensures HistoryOk(s.(slots := s.slots[x := s.slots[x].(version := s.slots[x].idVersion + 1)], ran := s.ran + multiset{IdOf(s.slots, x)}))
  {}

  lemma FinishedHistory(s: State, x: nat, timer: Timer)
    requires HistoryOk(s) && x < |s.slots| && SlotOk(s.slots[x], timer) && s.slots[x].version == s.slots[x].idVersion + 1
    ensures HistoryOk(s.(slots := s.slots[x := s.slots[x].(version := s.slots[x].idVersion + 2)]))
  {}

  lemma GivenBackHistory(s: State, x: nat, timer: Timer)
    requires HistoryOk(s) && x < |s.slots| && SlotOk(s.slots[x], timer) && s.slots[x].version == s.slots[x].idVersion + 2
    requires !s.slots[x].place.Pool? && s.slots[x].idVersion >= 2
    ensures HistoryOk(GiveBack(s, x))
  {}

  lemma CallerKeepsHistory(s: State, step: Step)
    requires SlotsOk(s.slots, s.timer) && HistoryOk(s) && Enabled(s, step) && !step.Time?
    ensures HistoryOk(Apply(s, step))
  {
    hide SettledOk, GoneOk, RunningOk;
    match step {
      case NewSlot => NewSlotHistory(s, s.timer);
      case TakeSlot(x, runTime) => TakenHistory(s, x, Slot(runTime, s.slots[x].version, s.slots[x].version, Filling), s.timer);
      case Insert(x, b) => OneSame(s, Apply(s, step), x, s.slots[x].(place := InBucket(b)));
      case Unschedule(id) => if UnscheduleResult(s, id) == 0 { UnscheduledHistory(s, id, s.timer); }
      case _ => HistorySame(s, Apply(s, step));
    }
  }

  lemma PullKeepsHistory(s: State)
    requires PlacesOk(s) && HistoryOk(s) && s.timer.Pull?
    ensures HistoryOk(TimerNext(s, 0, 0))
  {
    hide SettledOk, GoneOk, RunningOk;
    HistorySame(s, TimerNext(s, 0, 0));
  }

  lemma WalkKeepsHistory(s: State, now: int, x: nat)
    requires PlacesOk(s) && SlotsOk(s.slots, s.timer) && HistoryOk(s) && TimerEnabled(s, x) && s.timer.Walk?
    ensures HistoryOk(TimerNext(s, now, x))
  {
    hide SettledOk, GoneOk, RunningOk, BucketsHold;
    var s' := TimerNext(s, now, x);
    if s.timer.pulled == {} { HistorySame(s, s'); } else {
      assert s.slots[x].place == Pulled;
      if s.slots[x].version == s.slots[x].idVersion { OneSame(s, s', x, s'.slots[x]); } else { GivenBackHistory(s, x, s.timer); }
    }
  }

  lemma TaskKeepsHistory(s: State, now: int, x: nat)
    requires PlacesOk(s) && SlotsOk(s.slots, s.timer) && HistoryOk(s) && TimerEnabled(s, x)
    requires s.timer.RunTask? || s.timer.Running? || s.timer.Ran?
    ensures HistoryOk(TimerNext(s, now, x))
  {
    hide SettledOk, GoneOk, RunningOk, BucketsHold, Earliest;
    var y := s.timer.x;
    assert s.slots[y].place == Popped && SlotOk(s.slots[y], s.timer);
    hide PlacesOk, SlotsOk;
    if s.timer.Running? { FinishedHistory(s, y, s.timer); }
    else if s.slots[y].version == s.slots[y].idVersion { StartedHistory(s, y, s.timer); }
    else { GivenBackHistory(s, y, s.timer); }
  }

  lemma TimerKeepsHistory(s: State, now: int, x: nat)
    requires PlacesOk(s) && HistoryOk(s) && TimerEnabled(s, x)
    requires !s.timer.Pull? && !s.timer.Walk? && !s.timer.RunTask? && !s.timer.Running? && !s.timer.Ran?
    ensures HistoryOk(TimerNext(s, now, x))
  {
    hide SettledOk, GoneOk, RunningOk, BucketsHold;
    if s.timer.Due? { assert s.slots[s.timer.x].place == InHeap; }
    hide PlacesOk, Earliest;
    HistorySame(s, TimerNext(s, now, x));
  }

  // ------------------------------------------------------------ the nearest times

  /** A bucket knows a time no later than that of any task in it. */
  ghost predicate BucketOk(slots: seq<Slot>, bucket: Bucket) {
    && bucket.nearest <= MAX && (bucket.tasks == {} ==> bucket.nearest == MAX)
    && (forall x :: x in bucket.tasks && x < |slots| ==> bucket.nearest <= slots[x].runTime)
  }

  ghost predicate BucketsOk(slots: seq<Slot>, buckets: seq<Bucket>) {
    forall b :: 0 <= b < |buckets| ==> BucketOk(slots, buckets[b])
  }

  /** The task of this schedule() is still in its bucket. */
  predicate Waiting(slots: seq<Slot>, tasks: set<nat>, p: Pending) {
    p.id.slot in tasks && p.id.slot < |slots| && slots[p.id.slot].idVersion == p.id.version && slots[p.id.slot].runTime == p.runTime
  }

  /** The time of bucket b is that of a task whose schedule() has yet to announce it. */
  ghost predicate Unannounced(slots: seq<Slot>, pending: seq<Pending>, b: nat, bucket: Bucket) {
    exists k :: 0 <= k < |pending| && pending[k].b == b && Waiting(slots, bucket.tasks, pending[k]) && pending[k].runTime == bucket.nearest
  }

  /** The global time is no later than that of the buckets below n, but for those whose time is
      still to be announced. */
  ghost predicate Told(slots: seq<Slot>, buckets: seq<Bucket>, n: nat, nearest: int, pending: seq<Pending>) {
    forall b :: 0 <= b < n && b < |buckets| ==> nearest <= buckets[b].nearest || Unannounced(slots, pending, b, buckets[b])
  }

  /** The buckets pulled since `_nearest_run_time` was cleared; all of them outside a round. */
  function PulledTo(s: State): nat {
    match s.timer
    case Pull(i) => i
    case Walk(i, _) => i + 1
    case _ => |s.buckets|
  }

  /** While `_nsignals` has not moved since the timer thread read it, the global time is its
      deadline; and when it has moved, somebody still owes the wake. */
  ghost predicate SleepOk(s: State) {
    s.timer.BeforeSleep? || s.timer.Asleep? ==>
      && s.timer.expected <= s.nsignals && (s.nsignals == s.timer.expected ==> s.nearest == s.timer.deadline)
      && (forall x :: x in s.heap && x < |s.slots| ==> s.timer.deadline <= s.slots[x].runTime)
      && (s.timer.Asleep? && s.nsignals != s.timer.expected ==> s.owing > 0)
  }

  ghost predicate TimesOk(s: State) {
    && BucketsOk(s.slots, s.buckets) && s.nearest <= MAX && SleepOk(s)
    && (!s.signalled ==> Told(s.slots, s.buckets, PulledTo(s), s.nearest, s.pending))
  }

  ghost predicate Inv(s: State) {
    PlacesOk(s) && SlotsOk(s.slots, s.timer) && HistoryOk(s) && TimesOk(s)
  }

  /** What is in a bucket keeps its id and its time. */
  predicate SameWaiting(slots: seq<Slot>, slots': seq<Slot>) {
    |slots| <= |slots'| &&
    forall x :: 0 <= x < |slots| && slots[x].place.InBucket? ==>
                  slots'[x].idVersion == slots[x].idVersion && slots'[x].runTime == slots[x].runTime
  }

  lemma StillUnannounced(slots: seq<Slot>, slots': seq<Slot>, pending: seq<Pending>, pending': seq<Pending>, b: nat, bucket: Bucket, tasks: set<nat>)
    requires Unannounced(slots, pending, b, bucket) && SameWaiting(slots, slots') && Holds(slots, bucket.tasks, InBucket(b))
    requires pending <= pending' && bucket.tasks <= tasks
    ensures Unannounced(slots', pending', b, Bucket(bucket.nearest, tasks))
  {
    var k :| 0 <= k < |pending| && pending[k].b == b && Waiting(slots, bucket.tasks, pending[k]) && pending[k].runTime == bucket.nearest;
    assert pending'[k] == pending[k];
  }

  lemma SlotsKeepTold(slots: seq<Slot>, slots': seq<Slot>, buckets: seq<Bucket>, n: nat, nearest: int, pending: seq<Pending>)
    requires Told(slots, buckets, n, nearest, pending) && SameWaiting(slots, slots') && BucketsHold(slots, buckets)
    ensures Told(slots', buckets, n, nearest, pending)
  {
    hide Holds, SameWaiting;
    forall b: nat | b < n && b < |buckets| && !(nearest <= buckets[b].nearest)
      ensures Unannounced(slots', pending, b, buckets[b])
    {
      hide Unannounced;
      StillUnannounced(slots, slots', pending, pending, b, buckets[b], buckets[b].tasks);
    }
  }

  lemma InsertKeepsTold(s: State, x: nat, b: nat, n: nat)
    requires Told(s.slots, s.buckets, n, s.nearest, s.pending) && BucketsHold(s.slots, s.buckets) && Enabled(s, Insert(x, b))
    ensures var s' := InsertTask(s, x, b); Told(s'.slots, s'.buckets, n, s'.nearest, s'.pending)
  {
    var s' := InsertTask(s, x, b);
    hide Holds;
    assert SameWaiting(s.slots, s'.slots);
    forall c: nat | c < n && c < |s'.buckets| && !(s'.nearest <= s'.buckets[c].nearest)
      ensures Unannounced(s'.slots, s'.pending, c, s'.buckets[c])
    {
      if c == b && s'.pending != s.pending {
        assert s'.pending[|s.pending|] == Pending(IdOf(s.slots, x), b, s.slots[x].runTime);
        assert Waiting(s'.slots, s'.buckets[b].tasks, s'.pending[|s.pending|]);
      } else {
        hide Unannounced;
        StillUnannounced(s.slots, s'.slots, s.pending, s'.pending, c, s.buckets[c], s'.buckets[c].tasks);
      }
    }
  }

  lemma TellKeepsTold(s: State, k: nat, n: nat)
    requires Told(s.slots, s.buckets, n, s.nearest, s.pending) && k < |s.pending|
    ensures var s' := TellGlobal(s, k); Told(s'.slots, s'.buckets, n, s'.nearest, s'.pending)
  {
    var s' := TellGlobal(s, k);
    forall c: nat | c < n && c < |s'.buckets| && !(s'.nearest <= s'.buckets[c].nearest)
      ensures Unannounced(s'.slots, s'.pending, c, s'.buckets[c])
    {
      var bucket := s.buckets[c];
      var j :| 0 <= j < |s.pending| && s.pending[j].b == c && Waiting(s.slots, bucket.tasks, s.pending[j]) && s.pending[j].runTime == bucket.nearest;
      assert j != k && s'.pending[if j < k then j else j - 1] == s.pending[j];
    }
  }

  lemma CallerKeepsTimes(s: State, step: Step)
    requires PlacesOk(s) && SlotsOk(s.slots, s.timer) && TimesOk(s) && Enabled(s, step) && !step.Time? && !step.Insert? && !step.Tell?
    ensures TimesOk(Apply(s, step))
  {
    hide Told, Earliest;
    assert SameWaiting(s.slots, Apply(s, step).slots);
    if !s.signalled { SlotsKeepTold(s.slots, Apply(s, step).slots, s.buckets, PulledTo(s), s.nearest, s.pending); }
    hide SameWaiting;
  }

  lemma InsertKeepsTimes(s: State, x: nat, b: nat)
    requires PlacesOk(s) && SlotsOk(s.slots, s.timer) && TimesOk(s) && Enabled(s, Insert(x, b))
    ensures TimesOk(Apply(s, Insert(x, b)))
  {
    if !s.signalled { InsertKeepsTold(s, x, b, PulledTo(s)); }
    hide Told;
  }

  lemma TellKeepsTimes(s: State, k: nat)
    requires PlacesOk(s) && SlotsOk(s.slots, s.timer) && TimesOk(s) && Enabled(s, Tell(k))
    ensures TimesOk(Apply(s, Tell(k)))
  {
    if !s.signalled { TellKeepsTold(s, k, PulledTo(s)); }
    hide Told;
  }

  lemma PullKeepsTold(s: State)
    requires PlacesOk(s) && TimesOk(s) && s.timer.Pull? && s.timer.i < |s.buckets| && !s.signalled
    ensures var s' := Consume(s, s.timer.i); Told(s'.slots, s'.buckets, s.timer.i + 1, s'.nearest, s'.pending)
  {
    var i, s' := s.timer.i, Consume(s, s.timer.i);
    ConsumeSlots(s, i);
    forall b: nat | b < i && !(s'.nearest <= s'.buckets[b].nearest) ensures Unannounced(s'.slots, s'.pending, b, s'.buckets[b]) {
      assert s'.buckets[b] == s.buckets[b] && BucketsHold(s.slots, s.buckets);
      hide Unannounced, Holds;
      assert SameWaiting(s.slots, s'.slots);
      StillUnannounced(s.slots, s'.slots, s.pending, s'.pending, b, s.buckets[b], s.buckets[b].tasks);
    }
  }

  lemma PullKeepsTimes(s: State)
    requires PlacesOk(s) && TimesOk(s) && s.timer.Pull?
    ensures TimesOk(TimerNext(s, 0, 0))
  {
    if s.timer.i < |s.buckets| {
      ConsumeSlots(s, s.timer.i);
      if !s.signalled { PullKeepsTold(s); }
    }
    hide PlacesOk, Unannounced;
  }

  lemma WalkKeepsTimes(s: State, now: int, x: nat)
    requires PlacesOk(s) && TimesOk(s) && TimerEnabled(s, x) && s.timer.Walk?
    ensures TimesOk(TimerNext(s, now, x))
  {
    var s' := TimerNext(s, now, x);
    assert |s'.slots| == |s.slots| && forall y :: 0 <= y < |s.slots| ==> s'.slots[y].runTime == s.slots[y].runTime;
    hide Earliest;
    SameTimes(s, s');
  }

  predicate SameTimers(s: State, s': State) {
    && |s'.slots| == |s.slots| && (forall x :: 0 <= x < |s.slots| ==> s'.slots[x].runTime == s.slots[x].runTime)
    && (forall x :: 0 <= x < |s.slots| ==> s'.slots[x].idVersion == s.slots[x].idVersion)
    && s'.buckets == s.buckets && s'.nearest == s.nearest && s'.pending == s.pending && s'.signalled == s.signalled
    && PulledTo(s') == PulledTo(s) && !s'.timer.BeforeSleep? && !s'.timer.Asleep?
  }

  lemma SameTimes(s: State, s': State)
    requires TimesOk(s) && SameTimers(s, s') && BucketsHold(s.slots, s.buckets)
    ensures TimesOk(s')
  {
    hide Told;
    assert SameWaiting(s.slots, s'.slots);
    if !s.signalled { SlotsKeepTold(s.slots, s'.slots, s.buckets, PulledTo(s), s.nearest, s.pending); }
  }

  lemma DueKeepsTimes(s: State, now: int, x: nat)
    requires PlacesOk(s) && TimesOk(s) && TimerEnabled(s, x) && s.timer.Due?
    ensures TimesOk(TimerNext(s, now, x))
  {
    SameTimes(s, TimerNext(s, now, x));
    hide *;
  }

  lemma OneSlotFrame(s: State, s': State, x: nat, slot: Slot)
    requires x < |s.slots| && s'.slots == s.slots[x := slot]
    requires slot.runTime == s.slots[x].runTime && slot.idVersion == s.slots[x].idVersion
    requires s'.buckets == s.buckets && s'.nearest == s.nearest && s'.pending == s.pending && s'.signalled == s.signalled
    requires PulledTo(s') == PulledTo(s) && !s'.timer.BeforeSleep? && !s'.timer.Asleep?
    ensures SameTimers(s, s')
  {}

  lemma TaskFrame(s: State, now: int, x: nat)
    requires TimerEnabled(s, x) && (s.timer.RunTask? || s.timer.Running? || s.timer.Ran?)
    ensures SameTimers(s, TimerNext(s, now, x))
  {
    if s.timer.RunTask? {
      StartFrame(s, now, x);
    } else {
      EndFrame(s, now, x);
    }
    hide TimerNext, TimerEnabled, SameTimers;
  }

  lemma StartFrame(s: State, now: int, x: nat)
    requires TimerEnabled(s, x) && s.timer.RunTask?
    ensures SameTimers(s, TimerNext(s, now, x))
  {
    hide SameTimers;
    var y, s' := s.timer.x, TimerNext(s, now, x);
    OneSlotFrame(s, s', y, s'.slots[y]);
  }

  lemma EndFrame(s: State, now: int, x: nat)
    requires TimerEnabled(s, x) && (s.timer.Running? || s.timer.Ran?)
    ensures SameTimers(s, TimerNext(s, now, x))
  {
    hide SameTimers;
    var y, s' := s.timer.x, TimerNext(s, now, x);
    OneSlotFrame(s, s', y, s'.slots[y]);
  }

  lemma TaskKeepsTimes(s: State, now: int, x: nat)
    requires PlacesOk(s) && TimesOk(s) && TimerEnabled(s, x) && (s.timer.RunTask? || s.timer.Running? || s.timer.Ran?)
    ensures TimesOk(TimerNext(s, now, x))
  {
    TaskFrame(s, now, x);
    assert BucketsHold(s.slots, s.buckets);
    hide *;
    SameTimes(s, TimerNext(s, now, x));
  }

  lemma PlanKeepsTimes(s: State, now: int, x: nat)
    requires PlacesOk(s) && SlotsOk(s.slots, s.timer) && TimesOk(s) && TimerEnabled(s, x) && s.timer.Plan?
    ensures TimesOk(TimerNext(s, now, x))
  {
    hide Unannounced, BucketsHold;
  }

  lemma OtherKeepsTimes(s: State, now: int, x: nat)
    requires TimesOk(s) && TimerEnabled(s, x)
    requires s.timer.Top? || s.timer.Look? || s.timer.BeforeSleep? || s.timer.Asleep?
    ensures TimesOk(TimerNext(s, now, x))
  {
    hide Unannounced;
  }

  // ------------------------------------------------------------ every step, every run

  lemma CallerKeepsInv(s: State, step: Step)
    requires Inv(s) && Enabled(s, step) && !step.Time?
    ensures Inv(Apply(s, step))
  {
    hide PlacesOk, SlotsOk, HistoryOk, TimesOk, Apply;
    CallerKeepsSlots(s, step);
    CallerKeepsHistory(s, step);
    match step {
      case Insert(x, b) => InsertKeepsPlaces(s, x, b); InsertKeepsTimes(s, x, b);
      case Tell(k) => CallerKeepsPlaces(s, step); TellKeepsTimes(s, k);
      case NewSlot => SlotsKeepPlaces(s, step); CallerKeepsTimes(s, step);
      case TakeSlot(_, _) => SlotsKeepPlaces(s, step); CallerKeepsTimes(s, step);
      case Unschedule(_) => SlotsKeepPlaces(s, step); CallerKeepsTimes(s, step);
      case _ => CallerKeepsPlaces(s, step); CallerKeepsTimes(s, step);
    }
  }

  lemma TimerKeepsInv(s: State, now: int, x: nat)
    requires Inv(s) && TimerEnabled(s, x)
    ensures Inv(TimerNext(s, now, x))
  {
    hide PlacesOk, HistoryOk, TimesOk, Earliest;
    match s.timer {
      case Pull(_) => PullKeepsPlaces(s); PullKeepsSlots(s); PullKeepsHistory(s); PullKeepsTimes(s); PullIgnores(s, now, x);
      case Walk(_, _) => WalkKeepsPlaces(s, now, x); WalkKeepsSlots(s, now, x); WalkKeepsHistory(s, now, x); WalkKeepsTimes(s, now, x);
      case Due(_) => DueKeepsPlaces(s, now, x); TimerKeepsSlots(s, now, x); TimerKeepsHistory(s, now, x); DueKeepsTimes(s, now, x);
      case RunTask(_) => RunTaskKeepsPlaces(s, now, x); TaskKeepsSlots(s, now, x); TaskKeepsHistory(s, now, x); TaskKeepsTimes(s, now, x);
      case Running(_) => RunningKeepsPlaces(s, now, x); TaskKeepsSlots(s, now, x); TaskKeepsHistory(s, now, x); TaskKeepsTimes(s, now, x);
      case Ran(_) => RunningKeepsPlaces(s, now, x); TaskKeepsSlots(s, now, x); TaskKeepsHistory(s, now, x); TaskKeepsTimes(s, now, x);
      case Plan => TimerKeepsPlaces(s, now, x); TimerKeepsSlots(s, now, x); TimerKeepsHistory(s, now, x); PlanKeepsTimes(s, now, x);
      case _ => TimerKeepsPlaces(s, now, x); TimerKeepsSlots(s, now, x); TimerKeepsHistory(s, now, x); OtherKeepsTimes(s, now, x);
    }
    hide SlotsOk, TimerNext;
  }

  lemma PullIgnores(s: State, now: int, x: nat)
    requires s.timer.Pull?
    ensures TimerNext(s, now, x) == TimerNext(s, 0, 0)
  {}

  lemma StepKeepsInv(s: State, step: Step)
    requires Inv(s)
    ensures Inv(Apply(s, step))
  {
    hide Inv, TimerEnabled;
    if Enabled(s, step) {
      if step.Time? { TimerKeepsInv(s, step.now, step.x); } else { CallerKeepsInv(s, step); }
    }
  }

  function Init(nbuckets: nat): State {
    State([], seq(nbuckets, _ => Bucket(MAX, {})), MAX, 0, {}, Top, [], 0, false, false, multiset{}, multiset{}, multiset{})
  }

  function Run(s: State, steps: seq<Step>): State
    decreases |steps|
  {
    if steps == [] then s else Run(Apply(s, steps[0]), steps[1..])
  }

  lemma {:induction false} RunKeepsInv(s: State, steps: seq<Step>)
    requires Inv(s)
    ensures Inv(Run(s, steps))
    decreases |steps|
  {
    hide Inv, Apply;
    if steps != [] {
      StepKeepsInv(s, steps[0]);
      RunKeepsInv(Apply(s, steps[0]), steps[1..]);
    }
  }

  lemma RunFromInit(nbuckets: nat, steps: seq<Step>)
    ensures Inv(Run(Init(nbuckets), steps))
  {
    assert Inv(Init(nbuckets));
    RunKeepsInv(Init(nbuckets), steps);
  }

  // ------------------------------------------------------------ what it is for

  /** The timer thread never oversleeps: while it sleeps, `_nsignals` has not moved and no
      schedule() is between its two sections, no task it has or could pull is due before its
      deadline. */
  lemma SleepsUntilFirstTask(nbuckets: nat, steps: seq<Step>)
    ensures var s := Run(Init(nbuckets), steps);
            s.timer.Asleep? && s.nsignals == s.timer.expected && s.pending == [] && !s.signalled ==>
              && (forall x, b :: 0 <= b < |s.buckets| && x in s.buckets[b].tasks && x < |s.slots| ==> s.timer.deadline <= s.slots[x].runTime)
              && (forall x :: x in s.heap && x < |s.slots| ==> s.timer.deadline <= s.slots[x].runTime)
  {
    RunFromInit(nbuckets, steps);
    hide Run, PlacesOk, SlotsOk, HistoryOk;
  }

  /** And when `_nsignals` has moved under it, a futex wake is on the way. */
  lemma SleeperIsWoken(nbuckets: nat, steps: seq<Step>)
    ensures var s := Run(Init(nbuckets), steps); s.timer.Asleep? && s.nsignals != s.timer.expected ==> s.owing > 0
  {
    RunFromInit(nbuckets, steps);
    hide Run, PlacesOk, SlotsOk, HistoryOk, BucketsOk, Told;
  }

  predicate PassesCheck(s: State) {
    s.timer.Due? && s.timer.x < |s.slots| && s.slots[s.timer.x].runTime <= s.nearest && !s.signalled
  }

  ghost predicate EarlierInHeap(s: State, runTime: int) {
    exists y :: y in s.heap && y < |s.slots| && s.slots[y].runTime < runTime
  }

  ghost predicate EarlierInBucket(s: State, runTime: int) {
    exists y, b :: 0 <= b < |s.buckets| && y in s.buckets[b].tasks && y < |s.slots| && s.slots[y].runTime < runTime
  }

  ghost predicate EarlierUnannounced(s: State, runTime: int) {
    exists k :: 0 <= k < |s.pending| && s.pending[k].b < |s.buckets|
                && Waiting(s.slots, s.buckets[s.pending[k].b].tasks, s.pending[k]) && s.pending[k].runTime < runTime
  }

  /** When a task passes the check and is about to run, no task in the heap is earlier; and an
      earlier one is waiting in a bucket exactly when some schedule() has inserted an earlier
      task, still there, and has not yet announced it. */
  lemma EarlierIsUnannounced(nbuckets: nat, steps: seq<Step>)
    ensures var s := Run(Init(nbuckets), steps);
            PassesCheck(s) ==> var runTime := s.slots[s.timer.x].runTime;
              !EarlierInHeap(s, runTime) && (EarlierInBucket(s, runTime) <==> EarlierUnannounced(s, runTime))
  {
    RunFromInit(nbuckets, steps);
    hide Run, SlotsOk, HistoryOk, BucketsHold;
    var s := Run(Init(nbuckets), steps);
    if PassesCheck(s) {
      var runTime := s.slots[s.timer.x].runTime;
      if EarlierInBucket(s, runTime) {
        var y, b :| 0 <= b < |s.buckets| && y in s.buckets[b].tasks && y < |s.slots| && s.slots[y].runTime < runTime;
        assert BucketOk(s.slots, s.buckets[b]);
        var k :| 0 <= k < |s.pending| && s.pending[k].b == b && Waiting(s.slots, s.buckets[b].tasks, s.pending[k])
                 && s.pending[k].runTime == s.buckets[b].nearest;
      }
      if EarlierUnannounced(s, runTime) {
        var k :| 0 <= k < |s.pending| && s.pending[k].b < |s.buckets|
                 && Waiting(s.slots, s.buckets[s.pending[k].b].tasks, s.pending[k]) && s.pending[k].runTime < runTime;
        assert s.pending[k].id.slot in s.buckets[s.pending[k].b].tasks;
      }
    }
  }

  /** Each task is run at most once and unscheduled at most once and not both; a task whose slot
      went back was one of the two, and its slot went back once. */
  lemma TaskEndsOnce(nbuckets: nat, steps: seq<Step>, id: Id)
    ensures var s := Run(Init(nbuckets), steps);
            && s.ran[id] + s.unscheduled[id] <= 1 && s.returned[id] <= 1
            && (s.returned[id] == 1 ==> s.ran[id] + s.unscheduled[id] == 1)
  {
    RunFromInit(nbuckets, steps);
    hide Run, PlacesOk, TimesOk;
    var s := Run(Init(nbuckets), steps);
    assert s.returned[id] == One(Gone(s.slots, id)) && s.ran[id] + s.unscheduled[id] == One(Settled(s.slots, id));
    if Gone(s.slots, id) { assert SlotOk(s.slots[id.slot], s.timer); }
  }

  /** unschedule() returns 0 when it is the one that ends the task, 1 exactly while the callback
      runs, and -1 otherwise; a stale id changes nothing. */
  lemma UnscheduleTells(nbuckets: nat, steps: seq<Step>, id: Id)
    ensures var s := Run(Init(nbuckets), steps);
            Issued(s.slots, id) ==>
              var r := UnscheduleResult(s, id); var s' := Apply(s, Unschedule(id));
              && (r == 0 <==> s.ran[id] + s.unscheduled[id] == 0)
              && (r == 0 ==> s'.unscheduled[id] == 1 && s'.ran[id] == 0)
              && (r == 1 <==> s.timer == Running(id.slot) && s.slots[id.slot].idVersion == id.version)
              && (r == 1 ==> s.ran[id] == 1)
              && (r != 0 ==> s' == s)
              && (id.version < s.slots[id.slot].idVersion ==> r == -1)
  {
    RunFromInit(nbuckets, steps);
    hide Run, TimesOk, Earliest, BucketsHold, GoneOk;
    var s := Run(Init(nbuckets), steps);
    if Issued(s.slots, id) {
      assert s.ran[id] + s.unscheduled[id] == One(Settled(s.slots, id));
      assert SlotOk(s.slots[id.slot], s.timer);
    }
  }

  /** A slot in the pool is in no bucket, not in the heap and not in the hands of the timer
      thread; a slot in use is in one place. */
  lemma PooledSlotIsNowhere(nbuckets: nat, steps: seq<Step>, x: nat)
    ensures var s := Run(Init(nbuckets), steps);
            x < |s.slots| && s.slots[x].place.Pool? ==>
              && x !in s.heap && x !in PulledBy(s.timer) && x !in HeldBy(s.timer)
              && (forall b :: 0 <= b < |s.buckets| ==> x !in s.buckets[b].tasks)
  {
    RunFromInit(nbuckets, steps);
    hide Run, TimesOk, SlotsOk, HistoryOk, Earliest;
    var s := Run(Init(nbuckets), steps);
    if x < |s.slots| && s.slots[x].place.Pool? {
      forall b | 0 <= b < |s.buckets| ensures x !in s.buckets[b].tasks {
        assert Holds(s.slots, s.buckets[b].tasks, InBucket(b));
      }
    }
  }
}
