/** When the timer thread of module TimerThread runs a task before an earlier one whose
    schedule() has returned: a task that is hidden in its bucket by another schedule() that has
    inserted a still earlier one and is held up before it announces it. */
module TimerMissed {
  import opened Shared
  import opened TimerThread

  /** Task y is in the bucket and its schedule() has nothing left to do. */
  ghost predicate Completed(slots: seq<Slot>, tasks: set<nat>, pending: seq<Pending>, y: nat) {
    y in tasks && y < |slots| && forall k :: 0 <= k < |pending| ==> pending[k].id != IdOf(slots, y)
  }

  ghost predicate EarlierCompleted(s: State, runTime: int) {
    exists b, y: nat :: 0 <= b < |s.buckets| && Completed(s.slots, s.buckets[b].tasks, s.pending, y) && s.slots[y].runTime < runTime
  }

  /** The schedule() of index k hides an earlier, completed task of its bucket. */
  ghost predicate Hides(s: State, k: nat, runTime: int) {
    && k < |s.pending| && s.pending[k].b < |s.buckets|
    && exists y: nat :: Completed(s.slots, s.buckets[s.pending[k].b].tasks, s.pending, y)
                   && s.pending[k].runTime <= s.slots[y].runTime < runTime
  }

  /** At the check an earlier, completed task is missed exactly when some schedule() that has yet
      to announce its own task hides it. */
  lemma MissedIsHidden(nbuckets: nat, steps: seq<Step>)
    ensures var s := Run(Init(nbuckets), steps);
            PassesCheck(s) ==> var runTime := s.slots[s.timer.x].runTime;
              EarlierCompleted(s, runTime) <==> exists k :: Hides(s, k, runTime)
  {
    RunFromInit(nbuckets, steps);
    hide Run, PlacesOk, SlotsOk, HistoryOk;
    var s := Run(Init(nbuckets), steps);
    if PassesCheck(s) {
      var runTime := s.slots[s.timer.x].runTime;
      if EarlierCompleted(s, runTime) {
        var b, y: nat :| 0 <= b < |s.buckets| && Completed(s.slots, s.buckets[b].tasks, s.pending, y) && s.slots[y].runTime < runTime;
        assert BucketOk(s.slots, s.buckets[b]);
        var k :| 0 <= k < |s.pending| && s.pending[k].b == b && Waiting(s.slots, s.buckets[b].tasks, s.pending[k])
                 && s.pending[k].runTime == s.buckets[b].nearest;
        assert Hides(s, k, runTime);
      }
    }
  }

  // ------------------------------------------------------------ a schedule() and its task

  /** A schedule() between its sections knows the time of its task. */
  predicate PendingOk(slots: seq<Slot>, p: Pending) {
    && p.id.slot < |slots| && p.id.version <= slots[p.id.slot].idVersion
    && (p.id.version == slots[p.id.slot].idVersion ==> !slots[p.id.slot].place.Filling? && slots[p.id.slot].runTime == p.runTime)
  }

  ghost predicate AllPending(slots: seq<Slot>, pending: seq<Pending>) {
    forall k :: 0 <= k < |pending| ==> PendingOk(slots, pending[k])
  }

  /** Ids and times stay, but for the slot that schedule() takes from the pool. */
  predicate SameIds(slots: seq<Slot>, slots': seq<Slot>) {
    |slots| <= |slots'| && forall x :: 0 <= x < |slots| ==> SameId(slots[x], slots'[x])
  }

  predicate SameId(slot: Slot, slot': Slot) {
    || (slot'.idVersion == slot.idVersion && slot'.runTime == slot.runTime && (slot'.place.Filling? ==> slot.place.Filling?))
    || (slot.place.Pool? && slot.idVersion < slot'.idVersion)
  }

  lemma StepKeepsIds(s: State, step: Step)
    requires PlacesOk(s) && SlotsOk(s.slots, s.timer)
    ensures SameIds(s.slots, Apply(s, step).slots)
  {
    hide Earliest, BucketsHold, PlacesOk;
    match step
    case TakeSlot(x, _) => if x < |s.slots| { assert SlotOk(s.slots[x], s.timer); }
    case Time(now, x) => if Enabled(s, step) { TimerKeepsTasks(s, now, x); }
    case _ =>
  }

  /** A step of the timer thread leaves times and ids alone. */
  predicate SameTasks(slots: seq<Slot>, slots': seq<Slot>) {
    |slots'| == |slots| && forall x :: 0 <= x < |slots| ==> SameTask(slots[x], slots'[x])
  }

  predicate SameTask(slot: Slot, slot': Slot) {
    slot'.runTime == slot.runTime && slot'.idVersion == slot.idVersion && (slot'.place.Filling? ==> slot.place.Filling?)
  }

  lemma OneTask(slots: seq<Slot>, slots': seq<Slot>, x: nat, slot: Slot)
    requires x < |slots| && slots' == slots[x := slot] && SameTask(slots[x], slot)
    ensures SameTasks(slots, slots')
  {}

  lemma TimerKeepsTasks(s: State, now: int, x: nat)
    requires TimerEnabled(s, x)
    ensures SameTasks(s.slots, TimerNext(s, now, x).slots)
  {
    if s.timer.Pull? {
      PullKeepsTasks(s, now, x);
    } else if s.timer.Walk? {
      WalkKeepsTasks(s, now, x);
    } else if s.timer.Due? {
      DueKeepsTasks(s, now, x);
    } else if s.timer.RunTask? || s.timer.Running? || s.timer.Ran? {
      RunKeepsTasks(s, now, x);
    }
    hide Earliest, StartTask, WalkTask, Consume;
  }

  lemma PullKeepsTasks(s: State, now: int, x: nat)
    requires s.timer.Pull?
    ensures SameTasks(s.slots, TimerNext(s, now, x).slots)
  {
    if s.timer.i < |s.buckets| { ConsumeSlots(s, s.timer.i); }
  }

  lemma WalkKeepsTasks(s: State, now: int, x: nat)
    requires s.timer.Walk? && TimerEnabled(s, x)
    ensures SameTasks(s.slots, TimerNext(s, now, x).slots)
  {
    hide SameTasks;
    if s.timer.pulled != {} {
      OneTask(s.slots, WalkTask(s, x).slots, x, WalkTask(s, x).slots[x]);
    } else {
      AllSame(s.slots);
    }
  }

  lemma DueKeepsTasks(s: State, now: int, x: nat)
    requires s.timer.Due? && TimerEnabled(s, x)
    ensures SameTasks(s.slots, TimerNext(s, now, x).slots)
  {
    hide SameTasks;
    var y, s' := s.timer.x, TimerNext(s, now, x);
    OneTask(s.slots, s'.slots, y, s'.slots[y]);
  }

  lemma RunKeepsTasks(s: State, now: int, x: nat)
    requires (s.timer.RunTask? || s.timer.Running? || s.timer.Ran?) && TimerEnabled(s, x)
    ensures SameTasks(s.slots, TimerNext(s, now, x).slots)
  {
    hide SameTasks, Earliest;
    var y, s' := s.timer.x, TimerNext(s, now, x);
    OneTask(s.slots, s'.slots, y, s'.slots[y]);
  }

  lemma AllSame(slots: seq<Slot>)
    ensures SameTasks(slots, slots)
  {}

  lemma StepKeepsPending(s: State, step: Step)
    requires Inv(s) && AllPending(s.slots, s.pending)
    ensures AllPending(Apply(s, step).slots, Apply(s, step).pending)
  {
    StepKeepsIds(s, step);
    var s' := Apply(s, step);
    PendingGrows(s, step);
    hide Inv, Apply, Enabled;
    forall k | 0 <= k < |s'.pending|
      ensures PendingOk(s'.slots, s'.pending[k])
    {
      if s'.pending[k] in s.pending {
        var j :| 0 <= j < |s.pending| && s.pending[j] == s'.pending[k];
        assert PendingOk(s.slots, s.pending[j]);
        assert SameId(s.slots[s.pending[j].id.slot], s'.slots[s.pending[j].id.slot]);
      }
    }
  }

  /** Only the section of Bucket::schedule adds to the pending ones. */
  lemma PendingGrows(s: State, step: Step)
    ensures var s' := Apply(s, step);
            forall k :: 0 <= k < |s'.pending| ==> s'.pending[k] in s.pending || PendingOk(s'.slots, s'.pending[k])
  {
    if step.Time? && Enabled(s, step) { TimerKeepsPending(s, step.now, step.x); }
    hide Earliest, TimerNext, TimerEnabled;
  }

  lemma TimerKeepsPending(s: State, now: int, x: nat)
    requires TimerEnabled(s, x)
    ensures TimerNext(s, now, x).pending == s.pending
  {
    if s.timer.Top? || s.timer.Pull? {
      hide WalkTask, StartTask, Earliest;
    } else {
      TimerKeepsOthers(s, now, x);
      hide TimerNext, TimerEnabled;
    }
  }

  // ------------------------------------------------------------ a bucket without overlaps

  /** The global time is no later than that of any completed task of bucket b. */
  ghost predicate Covered(s: State, b: nat) {
    !s.signalled && b < PulledTo(s) && b < |s.buckets| ==>
      forall y: nat :: Completed(s.slots, s.buckets[b].tasks, s.pending, y) ==> s.nearest <= s.slots[y].runTime
  }

  /** The step inserts a task while another schedule() of the bucket is between its sections. */
  predicate Overlaps(s: State, step: Step) {
    step.Insert? && exists k :: 0 <= k < |s.pending| && s.pending[k].b == step.b
  }

  /** What concerns bucket b is as it was, and the global time has not grown. */
  ghost predicate SameBucket(s: State, s': State, b: nat) {
    && |s'.buckets| == |s.buckets| && (b < |s.buckets| ==> s'.buckets[b].tasks == s.buckets[b].tasks)
    && s'.pending == s.pending && s'.nearest <= s.nearest && s'.signalled == s.signalled
    && (b < PulledTo(s') && b < |s.buckets| ==> b < PulledTo(s)) && SameWaiting(s.slots, s'.slots)
  }

  lemma SameBucketCovered(s: State, s': State, b: nat)
    requires Covered(s, b) && SameBucket(s, s', b) && BucketsHold(s.slots, s.buckets)
    ensures Covered(s', b)
  {
    if !s'.signalled && b < PulledTo(s') && b < |s'.buckets| {
      assert Holds(s.slots, s.buckets[b].tasks, InBucket(b));
      forall y: nat | Completed(s'.slots, s'.buckets[b].tasks, s'.pending, y)
        ensures s'.nearest <= s'.slots[y].runTime
      {
        assert s.slots[y].place == InBucket(b);
        assert Completed(s.slots, s.buckets[b].tasks, s.pending, y);
      }
    }
  }

  lemma CallerSameBucket(s: State, step: Step, b: nat)
    requires PlacesOk(s) && SlotsOk(s.slots, s.timer) && (step.NewSlot? || step.TakeSlot? || step.Wake? || step.Unschedule? || step.Stop?)
    ensures SameBucket(s, Apply(s, step), b)
  {
    hide PlacesOk, SlotsOk, Earliest;
  }

  lemma TimerSameBucket(s: State, now: int, x: nat, b: nat)
    requires TimerEnabled(s, x) && !s.timer.Top? && !s.timer.Pull?
    ensures SameBucket(s, TimerNext(s, now, x), b)
  {
    TimerKeepsTasks(s, now, x);
    TimerKeepsOthers(s, now, x);
    hide Earliest, TimerNext, TimerEnabled, PulledTo;
  }

  lemma TimerKeepsOthers(s: State, now: int, x: nat)
    requires TimerEnabled(s, x) && !s.timer.Top? && !s.timer.Pull?
    ensures OnlyLater(s, TimerNext(s, now, x)) && PulledTo(TimerNext(s, now, x)) == PulledTo(s)
  {
    if s.timer.Walk? {
      if s.timer.pulled != {} { WalkTaskIs(s, x); }
    } else if s.timer.RunTask? {
      StartTaskIs(s, s.timer.x);
    } else if s.timer.Due? {
      MoveIs(s, s.timer.x, Popped);
    } else if s.timer.Ran? {
      MoveIs(s, s.timer.x, Pool);
    }
    hide Earliest, WalkTask, StartTask, Move;
  }

  lemma MoveIs(s: State, x: nat, place: Where)
    requires x < |s.slots|
    ensures OnlyLater(s, Move(s, x, place))
  {}

  /** What a step of the timer thread outside its pull may do to the shared words. */
  ghost predicate OnlyLater(s: State, s': State) {
    s'.buckets == s.buckets && s'.pending == s.pending && s'.nearest <= s.nearest && s'.signalled == s.signalled
  }

  lemma WalkTaskIs(s: State, x: nat)
    requires s.timer.Walk? && x < |s.slots|
    ensures OnlyLater(s, WalkTask(s, x)) && WalkTask(s, x).timer == Walk(s.timer.i, s.timer.pulled - {x})
  {}

  lemma StartTaskIs(s: State, x: nat)
    requires x < |s.slots|
    ensures OnlyLater(s, StartTask(s, x)) && (StartTask(s, x).timer.Running? || StartTask(s, x).timer.Look?)
    ensures |StartTask(s, x).buckets| == |s.buckets|
  {}

  lemma TimerKeepsCovered(s: State, now: int, x: nat, b: nat)
    requires PlacesOk(s) && SlotsOk(s.slots, s.timer) && TimerEnabled(s, x) && Covered(s, b)
    ensures Covered(TimerNext(s, now, x), b)
  {
    var s' := TimerNext(s, now, x);
    if s.timer.Pull? {
      PullKeepsCovered(s, b);
      PullIgnores(s, now, x);
    } else if s.timer.Top? {
      if s.stop {
        assert SameBucket(s, s', b);
        SameBucketCovered(s, s', b);
      }
    } else {
      TimerSameBucket(s, now, x, b);
      assert BucketsHold(s.slots, s.buckets);
      hide *;
      SameBucketCovered(s, s', b);
    }
  }

  lemma PullKeepsCovered(s: State, b: nat)
    requires PlacesOk(s) && s.timer.Pull? && Covered(s, b)
    ensures Covered(TimerNext(s, 0, 0), b)
  {
    var s' := TimerNext(s, 0, 0);
    if b != s.timer.i || s.timer.i >= |s.buckets| {
      PullSameBucket(s, b);
      assert BucketsHold(s.slots, s.buckets);
      hide *;
      SameBucketCovered(s, s', b);
    } else {
      assert s'.buckets[b].tasks == {};
      hide PlacesOk;
    }
  }

  lemma PullSameBucket(s: State, b: nat)
    requires s.timer.Pull? && (b != s.timer.i || s.timer.i >= |s.buckets|)
    ensures SameBucket(s, TimerNext(s, 0, 0), b)
  {
    if s.timer.i < |s.buckets| { ConsumeSlots(s, s.timer.i); }
  }

  lemma TellKeepsCovered(s: State, k: nat, b: nat)
    requires AllPending(s.slots, s.pending) && k < |s.pending| && Covered(s, b)
    ensures Covered(TellGlobal(s, k), b)
  {
    var s' := TellGlobal(s, k);
    if !s'.signalled && b < PulledTo(s') && b < |s'.buckets| {
      forall y: nat | Completed(s'.slots, s'.buckets[b].tasks, s'.pending, y)
        ensures s'.nearest <= s'.slots[y].runTime
      {
        if s.pending[k].id == IdOf(s.slots, y) {
          assert PendingOk(s.slots, s.pending[k]);
        } else {
          forall j | 0 <= j < |s.pending|
            ensures s.pending[j].id != IdOf(s.slots, y)
          {
            if j < k { assert s'.pending[j] == s.pending[j]; }
            if j > k { assert s'.pending[j - 1] == s.pending[j]; }
          }
          assert Completed(s.slots, s.buckets[b].tasks, s.pending, y);
        }
      }
    }
  }

  lemma InsertKeepsCovered(s: State, x: nat, c: nat, b: nat)
    requires PlacesOk(s) && TimesOk(s) && Enabled(s, Insert(x, c)) && Covered(s, b) && (c == b ==> !Overlaps(s, Insert(x, c)))
    ensures Covered(InsertTask(s, x, c), b)
  {
    var s' := InsertTask(s, x, c);
    if s.slots[x].runTime < s.buckets[c].nearest && b < |s'.buckets| { EarlierIsPending(s, x, c, s'.buckets[b].tasks); }
    if !s'.signalled && b < PulledTo(s') && b < |s'.buckets| {
      assert Holds(s.slots, s.buckets[b].tasks, InBucket(b));
      assert c == b ==> s.nearest <= s.buckets[b].nearest;
      hide PlacesOk, TimesOk;
      forall y: nat | Completed(s'.slots, s'.buckets[b].tasks, s'.pending, y)
        ensures s'.nearest <= s'.slots[y].runTime
      {
        if y != x {
          forall j | 0 <= j < |s.pending|
            ensures s.pending[j].id != IdOf(s.slots, y)
          {
            assert s'.pending[j] == s.pending[j];
          }
          assert Completed(s.slots, s.buckets[b].tasks, s.pending, y);
        } else {
          assert c == b;
        }
      }
    }
  }

  /** A task that is earlier than its bucket has yet to be announced. */
  lemma EarlierIsPending(s: State, x: nat, c: nat, tasks: set<nat>)
    requires Enabled(s, Insert(x, c)) && s.slots[x].runTime < s.buckets[c].nearest
    ensures !Completed(InsertTask(s, x, c).slots, tasks, InsertTask(s, x, c).pending, x)
  {
    var s' := InsertTask(s, x, c);
    assert s'.pending[|s.pending|].id == IdOf(s'.slots, x);
  }

  lemma StepKeepsCovered(s: State, step: Step, b: nat)
    requires Inv(s) && AllPending(s.slots, s.pending) && Covered(s, b) && (Overlaps(s, step) ==> step.b != b)
    ensures Covered(Apply(s, step), b)
  {
    if Enabled(s, step) {
      match step
      case Insert(x, c) => InsertKeepsCovered(s, x, c, b);
      case Tell(k) => TellKeepsCovered(s, k, b);
      case Time(now, x) => TimerKeepsCovered(s, now, x, b);
      case SignalStop =>
      case _ =>
        CallerSameBucket(s, step, b);
        assert BucketsHold(s.slots, s.buckets);
        SameBucketCovered(s, Apply(s, step), b);
      hide Inv, Covered, Overlaps;
    }
  }

  // ------------------------------------------------------------ whole runs

  /** Only buckets in `shared` see a task inserted while another schedule() of the same bucket is
      between its two sections. */
  ghost predicate OverlapsIn(shared: set<nat>, s: State, steps: seq<Step>)
    decreases |steps|
  {
    steps == [] || ((Overlaps(s, steps[0]) ==> steps[0].b in shared) && OverlapsIn(shared, Apply(s, steps[0]), steps[1..]))
  }

  lemma {:induction false} RunKeepsCovered(shared: set<nat>, s: State, steps: seq<Step>, b: nat)
    requires Inv(s) && AllPending(s.slots, s.pending) && Covered(s, b) && b !in shared && OverlapsIn(shared, s, steps)
    ensures Covered(Run(s, steps), b)
    decreases |steps|
  {
    hide Inv, AllPending, Covered, Apply, Overlaps;
    if steps != [] {
      StepKeepsInv(s, steps[0]);
      StepKeepsPending(s, steps[0]);
      StepKeepsCovered(s, steps[0], b);
      RunKeepsCovered(shared, Apply(s, steps[0]), steps[1..], b);
    }
  }

  /** A task passes the check although an earlier one waits whose schedule() has returned. */
  ghost predicate Misses(s: State) {
    PassesCheck(s) && EarlierCompleted(s, s.slots[s.timer.x].runTime)
  }

  /** Without overlaps in the same bucket nothing is missed. */
  lemma NothingMissed(nbuckets: nat, shared: set<nat>, steps: seq<Step>)
    requires (forall b: nat :: b < nbuckets ==> b !in shared) && OverlapsIn(shared, Init(nbuckets), steps)
    ensures !Misses(Run(Init(nbuckets), steps))
  {
    var s0 := Init(nbuckets);
    var s := Run(s0, steps);
    assert Inv(s0) && AllPending(s0.slots, s0.pending);
    RunKeepsBuckets(s0, steps);
    hide Inv, Run, Init;
    if Misses(s) {
      var b, y: nat :| 0 <= b < |s.buckets| && Completed(s.slots, s.buckets[b].tasks, s.pending, y)
                  && s.slots[y].runTime < s.slots[s.timer.x].runTime;
      assert Covered(s0, b) by { EmptyCovered(nbuckets, b); }
      RunKeepsCovered(shared, s0, steps, b);
    }
  }

  lemma EmptyCovered(nbuckets: nat, b: nat)
    ensures Covered(Init(nbuckets), b) && |Init(nbuckets).buckets| == nbuckets
  {}

  lemma {:induction false} RunKeepsBuckets(s: State, steps: seq<Step>)
    ensures |Run(s, steps).buckets| == |s.buckets|
    decreases |steps|
  {
    if steps != [] {
      StepKeepsBuckets(s, steps[0]);
      hide Apply;
      RunKeepsBuckets(Apply(s, steps[0]), steps[1..]);
    }
  }

  lemma StepKeepsBuckets(s: State, step: Step)
    ensures |Apply(s, step).buckets| == |s.buckets|
  {
    hide Earliest;
  }

  // ------------------------------------------------------------ with an overlap one is missed

  ghost predicate Reaches(shared: set<nat>, s: State, s': State) {
    exists steps :: Leads(shared, s, steps, s')
  }

  ghost predicate Leads(shared: set<nat>, s: State, steps: seq<Step>, s': State) {
    OverlapsIn(shared, s, steps) && Run(s, steps) == s'
  }

  lemma {:induction false} LeadsThen(shared: set<nat>, s: State, a: seq<Step>, m: State, b: seq<Step>, s': State)
    requires Leads(shared, s, a, m) && Leads(shared, m, b, s')
    ensures Leads(shared, s, a + b, s')
    decreases |a|
  {
    hide Apply, Overlaps;
    if a == [] {
      assert a + b == b;
    } else {
      assert (a + b)[1..] == a[1..] + b;
      LeadsThen(shared, Apply(s, a[0]), a[1..], m, b, s');
    }
  }

  lemma ReachesThen(shared: set<nat>, s: State, m: State, s': State)
    requires Reaches(shared, s, m) && Reaches(shared, m, s')
    ensures Reaches(shared, s, s')
  {
    hide Leads;
    var a :| Leads(shared, s, a, m);
    var b :| Leads(shared, m, b, s');
    LeadsThen(shared, s, a, m, b, s');
  }

  lemma ReachesBy(shared: set<nat>, s: State, m: State, step: Step)
    requires Reaches(shared, s, m) && (Overlaps(m, step) ==> step.b in shared)
    ensures Reaches(shared, s, Apply(m, step))
  {
    assert Leads(shared, m, [step], Apply(m, step)) by {
      hide Apply, Overlaps;
      var rest: seq<Step> := [step][1..];
      assert OverlapsIn(shared, Apply(m, step), rest) && Run(Apply(m, step), rest) == Apply(m, step);
    }
    hide Apply, Overlaps, Leads;
    ReachesThen(shared, s, m, Apply(m, step));
  }

  lemma ReachesSelf(shared: set<nat>, s: State)
    ensures Reaches(shared, s, s)
  {
    assert Leads(shared, s, [], s);
  }

  const FRESH: Slot := Slot(0, 0, 2, Pool)

  /** Task 0, due at 30, lies announced in the last bucket, and the timer thread pulls bucket i. */
  function PullingState(n: nat, i: nat): State
    requires n > 0
  {
    Init(n).(slots := [Slot(30, 2, 2, InBucket(n - 1)), FRESH, FRESH], buckets := Init(n).buckets[n - 1 := Bucket(30, {0})],
             nsignals := 1, owing := 1, timer := Pull(i))
  }

  /** It is in the heap and about to be checked. */
  function DueState(n: nat): State {
    Init(n).(slots := [Slot(30, 2, 2, InHeap), FRESH, FRESH], nsignals := 1, owing := 1, heap := {0}, timer := Due(0))
  }

  /** One schedule() has inserted a task due at 10 and is held up before it announces it, and a
      second one has inserted a task due at 20 into the same bucket and returned. */
  function MissState(n: nat, b: nat): State
    requires b < n
  {
    DueState(n).(slots := [Slot(30, 2, 2, InHeap), Slot(10, 2, 2, InBucket(b)), Slot(20, 2, 2, InBucket(b))],
                 buckets := Init(n).buckets[b := Bucket(10, {1, 2})], pending := [Pending(Id(1, 2), b, 10)])
  }

  lemma InsertFirst(n: nat, shared: set<nat>)
    requires n > 0
    ensures Reaches(shared, Init(n), PullingState(n, 0))
  {
    var s0, task, c := Init(n), Slot(30, 2, 2, Filling), n - 1;
    var s3 := s0.(slots := [FRESH, FRESH, FRESH]);
    var s4 := s0.(slots := [task, FRESH, FRESH]);
    var s5 := s4.(slots := [task.(place := InBucket(c)), FRESH, FRESH], buckets := s0.buckets[c := Bucket(30, {0})],
                  pending := [Pending(Id(0, 2), c, 30)]);
    var s6 := s5.(pending := [], nearest := 30, nsignals := 1, owing := 1);
    var s1, s2 := s0.(slots := [FRESH]), s0.(slots := [FRESH, FRESH]);
    assert Apply(s0, NewSlot) == s1 && Apply(s1, NewSlot) == s2 && Apply(s2, NewSlot) == s3;
    assert Apply(s3, TakeSlot(0, 30)) == s4;
    assert Apply(s4, Insert(0, c)) == s5 by { assert {} + {0} == {0}; }
    assert Apply(s5, Tell(0)) == s6 by { assert Without([Pending(Id(0, 2), c, 30)], 0) == []; }
    assert Apply(s6, Time(0, 0)) == PullingState(n, 0);
    assert !Overlaps(s4, Insert(0, c));
    hide Apply, Reaches, PullingState, Init;
    ReachesSelf(shared, s0);
    ReachesBy(shared, s0, s0, NewSlot);
    ReachesBy(shared, s0, s1, NewSlot);
    ReachesBy(shared, s0, s2, NewSlot);
    ReachesBy(shared, s0, s3, TakeSlot(0, 30));
    ReachesBy(shared, s0, s4, Insert(0, c));
    ReachesBy(shared, s0, s5, Tell(0));
    ReachesBy(shared, s0, s6, Time(0, 0));
  }

  /** The empty buckets before the last one are pulled in two steps each. */
  lemma {:induction false} PullEmpty(n: nat, i: nat, shared: set<nat>)
    requires i < n
    ensures Reaches(shared, Init(n), PullingState(n, i))
  {
    if i == 0 {
      InsertFirst(n, shared);
    } else {
      PullEmpty(n, i - 1, shared);
      var s1 := PullingState(n, i - 1);
      PullOne(n, i - 1);
      hide Apply, Reaches, Overlaps, PullingState;
      ReachesBy(shared, Init(n), s1, Time(0, 0));
      ReachesBy(shared, Init(n), Apply(s1, Time(0, 0)), Time(0, 0));
    }
  }

  lemma PullOne(n: nat, i: nat)
    requires i + 1 < n
    ensures var s := PullingState(n, i);
            Apply(Apply(s, Time(0, 0)), Time(0, 0)) == PullingState(n, i + 1)
            && !Overlaps(s, Time(0, 0)) && !Overlaps(Apply(s, Time(0, 0)), Time(0, 0))
  {
    var s := PullingState(n, i);
    assert s.buckets[i] == Bucket(MAX, {});
    assert Apply(s, Time(0, 0)) == s.(timer := Walk(i, {}));
  }

  lemma PullTask(n: nat)
    requires n > 0
    ensures Apply(PullingState(n, n - 1), Time(0, 0)) ==
            PullingState(n, n - 1).(timer := Walk(n - 1, {0}), buckets := Init(n).buckets, slots := [Slot(30, 2, 2, Pulled), FRESH, FRESH])
  {
    var s1, c := PullingState(n, n - 1), n - 1;
    assert s1.buckets[c := Bucket(MAX, {})] == Init(n).buckets;
    assert Consume(s1, c).slots == [Slot(30, 2, 2, Pulled), FRESH, FRESH];
  }

  lemma WalkToHeap(n: nat)
    requires n > 0
    ensures var s := PullingState(n, n - 1).(timer := Walk(n - 1, {0}), buckets := Init(n).buckets, slots := [Slot(30, 2, 2, Pulled), FRESH, FRESH]);
            Apply(s, Time(0, 0)) == s.(timer := Walk(n - 1, {}), heap := {0}, slots := [Slot(30, 2, 2, InHeap), FRESH, FRESH])
  {
    var s := PullingState(n, n - 1).(timer := Walk(n - 1, {0}), buckets := Init(n).buckets, slots := [Slot(30, 2, 2, Pulled), FRESH, FRESH]);
    assert {0} - {0} == {} && {} + {0} == {0};
    assert Apply(s, Time(0, 0)) == WalkTask(s, 0);
  }

  lemma LookAtTask(n: nat)
    requires n > 0
    ensures var s := DueState(n);
            && Apply(s.(timer := Walk(n - 1, {})), Time(0, 0)) == s.(timer := Pull(n))
            && Apply(s.(timer := Pull(n)), Time(0, 0)) == s.(timer := Look)
            && Apply(s.(timer := Look), Time(40, 0)) == s
            && PullingState(n, n - 1).(timer := Walk(n - 1, {}), buckets := Init(n).buckets, heap := {0}, slots := s.slots) == s.(timer := Walk(n - 1, {}))
  {
    assert Earliest(DueState(n).(timer := Look), 0);
  }

  lemma PullLast(n: nat, shared: set<nat>)
    requires n > 0
    ensures Reaches(shared, Init(n), DueState(n))
  {
    var s0, c := Init(n), n - 1;
    var s1 := PullingState(n, c);
    var s2 := s1.(timer := Walk(c, {0}), buckets := s0.buckets, slots := [Slot(30, 2, 2, Pulled), FRESH, FRESH]);
    var s3 := s2.(timer := Walk(c, {}), heap := {0}, slots := [Slot(30, 2, 2, InHeap), FRESH, FRESH]);
    PullEmpty(n, c, shared);
    PullTask(n);
    WalkToHeap(n);
    LookAtTask(n);
    hide Apply, Reaches, Init, PullingState, DueState;
    ReachesBy(shared, s0, s1, Time(0, 0));
    ReachesBy(shared, s0, s2, Time(0, 0));
    ReachesBy(shared, s0, s3, Time(0, 0));
    ReachesBy(shared, s0, s3.(timer := Pull(n)), Time(0, 0));
    ReachesBy(shared, s0, s3.(timer := Look), Time(40, 0));
  }

  lemma InsertBoth(n: nat, b: nat, shared: set<nat>)
    requires b < n && b in shared
    ensures Reaches(shared, Init(n), MissState(n, b))
  {
    var s0, s1 := Init(n), DueState(n);
    var first, task := s1.slots[0], Slot(10, 2, 2, Filling);
    var s2 := s1.(slots := [first, task, FRESH]);
    var s3 := s1.(slots := [first, task.(place := InBucket(b)), FRESH], buckets := s0.buckets[b := Bucket(10, {1})],
                  pending := [Pending(Id(1, 2), b, 10)]);
    var s4 := s3.(slots := [first, task.(place := InBucket(b)), Slot(20, 2, 2, Filling)]);
    assert Apply(s1, TakeSlot(1, 10)) == s2;
    assert Apply(s2, Insert(1, b)) == s3 by { assert {} + {1} == {1}; }
    assert Apply(s3, TakeSlot(2, 20)) == s4;
    assert Apply(s4, Insert(2, b)) == MissState(n, b) by { assert {1} + {2} == {1, 2}; }
    PullLast(n, shared);
    hide Apply, Reaches, Init, MissState, DueState;
    ReachesBy(shared, s0, s1, TakeSlot(1, 10));
    ReachesBy(shared, s0, s2, Insert(1, b));
    ReachesBy(shared, s0, s3, TakeSlot(2, 20));
    ReachesBy(shared, s0, s4, Insert(2, b));
  }

  lemma MissStateMisses(n: nat, b: nat)
    requires b < n
    ensures Misses(MissState(n, b))
  {
    var s := MissState(n, b);
    assert Completed(s.slots, s.buckets[b].tasks, s.pending, 2);
    assert s.slots[2].runTime < s.slots[s.timer.x].runTime;
  }

  /** Where tasks may be inserted into a bucket while another schedule() of it is between its
      sections, there is a run that misses one. */
  lemma OverlapMisses(n: nat, b: nat, shared: set<nat>) returns (steps: seq<Step>)
    requires b < n && b in shared
    ensures OverlapsIn(shared, Init(n), steps) && Misses(Run(Init(n), steps))
  {
    InsertBoth(n, b, shared);
    MissStateMisses(n, b);
    hide Misses, MissState, Init, OverlapsIn, Run;
    steps :| Leads(shared, Init(n), steps, MissState(n, b));
  }

  /** No run misses an earlier task whose schedule() has returned if and only if no bucket sees a
      task inserted while another schedule() of the same bucket has yet to announce its own. */
  lemma MissesOnlyShared(n: nat, shared: set<nat>)
    ensures (forall steps :: OverlapsIn(shared, Init(n), steps) ==> !Misses(Run(Init(n), steps)))
            <==> (forall b: nat :: b < n ==> b !in shared)
  {
    hide Misses, Init, OverlapsIn, Run;
    if forall b: nat :: b < n ==> b !in shared {
      forall steps | OverlapsIn(shared, Init(n), steps)
        ensures !Misses(Run(Init(n), steps))
      {
        NothingMissed(n, shared, steps);
      }
    } else {
      var b: nat :| b < n && b in shared;
      var steps := OverlapMisses(n, b, shared);
    }
  }
}
