/** The bounded deque of eabase/fiber/work_stealing_queue.h: one owner pushes and pops at
    the bottom, any number of thieves steal at the top.

    `State` is a snapshot of the shared words, the ring, every thread's registers and what
    has been handed in and out so far. `Apply` runs one atomic access of one thread (the
    owner's own loads of `_bottom`, which only it writes, ride along with its next access).
    The class runs the same accesses on the real fields. */
module WorkStealingQueue {
  import opened BitMask

  /** Where the owner is, with its registers. */
  datatype Owner<T> =
    | Idle
    | PushWrite(x: T)            // the queue was not full; the slot is to be written
    | PushPublish(x: T)          // the slot is written; `_bottom` is to be advanced
    | PopDecrement               // the queue looked non-empty; `_bottom` is to be lowered
    | PopReload                  // `_bottom` is lowered; `_top` is to be read again
    | PopCompete(val: T)         // one element left: compete with the thieves
    | PopRestore(popped: bool)   // `_bottom` is to be put back

  /** Where a thief is, with its registers. */
  datatype Thief<T> =
    | StealCheck(t: int)
    | StealBound(t: int)
    | StealRead(t: int)
    | StealCas(t: int, val: T)

  datatype State<T> = State(
    cap: int, bottom: int, top: int, ring: seq<T>,
    owner: Owner<T>, thieves: map<nat, Thief<T>>,
    pushed: seq<T>, popped: seq<T>, stolen: seq<T>)

  datatype Step<T> = Push(x: T) | Pop | OwnerStep | Steal(i: nat) | ThiefStep(j: nat)

  predicate Shape<T>(s: State<T>) {
    s.cap > 0 && |s.ring| == s.cap
  }

  function Slot<T>(s: State<T>, i: int): T
    requires Shape(s)
  {
    s.ring[i % s.cap]
  }

  /** One past the newest element: while a pop has lowered `_bottom` but not yet decided,
      the element it aims at still belongs to the queue. */
  function Limit<T>(s: State<T>): int {
    if s.owner.PopReload? || s.owner.PopCompete? || s.owner.PopRestore? then s.bottom + 1 else s.bottom
  }

  /** `n` consecutive elements of the ring from index `lo` on. */
  function Window<T>(ring: seq<T>, lo: int, n: nat): (w: seq<T>)
    requires |ring| > 0
    ensures |w| == n
  {
    if n == 0 then [] else Window(ring, lo, n - 1) + [ring[(lo + n - 1) % |ring|]]
  }

  lemma {:induction false} WindowCons<T>(ring: seq<T>, lo: int, n: nat)
    requires |ring| > 0 && n > 0
    ensures Window(ring, lo, n) == [ring[lo % |ring|]] + Window(ring, lo + 1, n - 1)
  {
    if n > 1 {
      WindowCons(ring, lo, n - 1);
      assert (lo + 1) + (n - 1) - 1 == lo + n - 1;
    }
  }

  lemma {:induction false} WindowUpdate<T>(ring: seq<T>, lo: int, n: nat, j: int, x: T)
    requires |ring| > 0 && lo + n <= j < lo + |ring|
    ensures Window(ring[j % |ring| := x], lo, n) == Window(ring, lo, n)
  {
    if n > 0 {
      WindowUpdate(ring, lo, n - 1, j, x);
      SlotsDiffer(lo + n - 1, j, |ring|);
    }
  }

  /** The elements in the queue, oldest first. */
  function Live<T>(s: State<T>): seq<T>
    requires Shape(s)
  {
    if s.top <= Limit(s) then Window(s.ring, s.top, Limit(s) - s.top) else []
  }

  function PushFirst<T>(s: State<T>, x: T): State<T> {
    if s.bottom >= s.top + s.cap then s else s.(owner := PushWrite(x))
  }

  function PopFirst<T>(s: State<T>): State<T> {
    if s.top >= s.bottom then s else s.(owner := PopDecrement)
  }

  function OwnerNext<T>(s: State<T>): State<T>
    requires Shape(s)
  {
    match s.owner
    case Idle => s
    case PushWrite(x) => s.(ring := s.ring[s.bottom % s.cap := x], owner := PushPublish(x))
    case PushPublish(x) => s.(bottom := s.bottom + 1, owner := Idle, pushed := s.pushed + [x])
    case PopDecrement => s.(bottom := s.bottom - 1, owner := PopReload)
    case PopReload =>
      if s.top > s.bottom then s.(owner := PopRestore(false))
      else if s.top != s.bottom then s.(owner := Idle, popped := s.popped + [Slot(s, s.bottom)])
      else s.(owner := PopCompete(Slot(s, s.bottom)))
    case PopCompete(v) =>
      if s.top == s.bottom then s.(top := s.top + 1, owner := PopRestore(true), popped := s.popped + [v])
      else s.(owner := PopRestore(false))
    case PopRestore(_) => s.(bottom := s.bottom + 1, owner := Idle)
  }

  function ThiefNext<T>(s: State<T>, i: nat): State<T>
    requires Shape(s) && i in s.thieves
  {
    match s.thieves[i]
    case StealCheck(t) =>
      if t >= s.bottom then s.(thieves := s.thieves - {i}) else s.(thieves := s.thieves[i := StealBound(t)])
    case StealBound(t) =>
      if t >= s.bottom then s.(thieves := s.thieves - {i}) else s.(thieves := s.thieves[i := StealRead(t)])
    case StealRead(t) => s.(thieves := s.thieves[i := StealCas(t, Slot(s, t))])
    case StealCas(t, v) =>
      if s.top == t then s.(top := t + 1, thieves := s.thieves - {i}, stolen := s.stolen + [v])
      else s.(thieves := s.thieves[i := StealBound(s.top)])
  }

  /** One atomic access; a step whose thread is not at that point does nothing. */
  function Apply<T>(s: State<T>, step: Step<T>): State<T>
    requires Shape(s)
  {
    match step
    case Push(x) => if s.owner.Idle? then PushFirst(s, x) else s
    case Pop => if s.owner.Idle? then PopFirst(s) else s
    case OwnerStep => OwnerNext(s)
    case Steal(i) => if i in s.thieves then s else s.(thieves := s.thieves[i := StealCheck(s.top)])
    case ThiefStep(j) => if j in s.thieves then ThiefNext(s, j) else s
  }

  // ---------------------------------------------------------------- the invariant

  ghost predicate OwnerOk<T>(s: State<T>)
    requires Shape(s)
  {
    match s.owner
    case Idle => true
    case PushWrite(_) => s.bottom < s.top + s.cap
    case PushPublish(x) => s.bottom < s.top + s.cap && Slot(s, s.bottom) == x
    case PopDecrement => s.bottom > 1
    case PopReload => s.bottom >= 1
    case PopCompete(v) => s.bottom >= 1 && s.bottom <= s.top && Slot(s, s.bottom) == v
    case PopRestore(_) => s.bottom >= 1 && s.top == s.bottom + 1
  }

  /** A thief whose copy of `_top` is still current aims at an element that is in the queue,
      and has read that very element. */
  ghost predicate ThiefOk<T>(s: State<T>, th: Thief<T>)
    requires Shape(s)
  {
    && 1 <= th.t <= s.top
    && (th.t == s.top && (th.StealRead? || th.StealCas?) ==> s.top < Limit(s))
    && (th.t == s.top && th.StealCas? ==> th.val == Slot(s, th.t))
  }

  ghost predicate Safe<T>(s: State<T>) {
    && Shape(s)
    && 1 <= s.top <= Limit(s) <= s.top + s.cap
    && OwnerOk(s)
    && (forall i :: i in s.thieves ==> ThiefOk(s, s.thieves[i]))
  }

  ghost predicate Conserved<T>(s: State<T>)
    requires Shape(s)
  {
    multiset(s.pushed) == multiset(s.popped) + multiset(s.stolen) + multiset(Live(s))
  }

  ghost predicate Inv<T>(s: State<T>) {
    Safe(s) && Conserved(s)
  }

  // What a step may do to the abstract deque.

  function Last<X>(q: seq<X>): X
    requires q != []
  {
    q[|q| - 1]
  }

  ghost predicate Stutter<T>(s: State<T>, s': State<T>)
    requires Shape(s) && Shape(s')
  {
    Live(s') == Live(s) && s'.pushed == s.pushed && s'.popped == s.popped && s'.stolen == s.stolen
  }

  ghost predicate Enqueue<T>(s: State<T>, s': State<T>)
    requires Shape(s) && Shape(s')
  {
    && s'.pushed != [] && s'.pushed == s.pushed + [Last(s'.pushed)]
    && Live(s') == Live(s) + [Last(s'.pushed)]
    && s'.popped == s.popped && s'.stolen == s.stolen
  }

  ghost predicate TakeNewest<T>(s: State<T>, s': State<T>)
    requires Shape(s) && Shape(s')
  {
    && s'.popped != [] && s'.popped == s.popped + [Last(s'.popped)]
    && Live(s) == Live(s') + [Last(s'.popped)]
    && s'.pushed == s.pushed && s'.stolen == s.stolen
  }

  ghost predicate TakeOldest<T>(s: State<T>, s': State<T>)
    requires Shape(s) && Shape(s')
  {
    && s'.stolen != [] && s'.stolen == s.stolen + [Last(s'.stolen)]
    && Live(s) == [Last(s'.stolen)] + Live(s')
    && s'.pushed == s.pushed && s'.popped == s.popped
  }

  ghost predicate DequeStep<T>(s: State<T>, s': State<T>)
    requires Shape(s) && Shape(s')
  {
    Stutter(s, s') || Enqueue(s, s') || TakeNewest(s, s') || TakeOldest(s, s')
  }

  lemma OwnerStepRefines<T>(s: State<T>)
    requires Safe(s)
    ensures if s.owner.PushPublish? then Enqueue(s, OwnerNext(s))
            else if s.owner.PopReload? && s.top < s.bottom then TakeNewest(s, OwnerNext(s))
            else if s.owner.PopCompete? && s.top == s.bottom then TakeNewest(s, OwnerNext(s)) && |Live(s)| == 1
            else Stutter(s, OwnerNext(s))
  {
    if s.owner.PushWrite? {
      WindowUpdate(s.ring, s.top, s.bottom - s.top, s.bottom, s.owner.x);
    }
  }

  lemma ThiefStepRefines<T>(s: State<T>, i: nat)
    requires Safe(s) && i in s.thieves
    ensures if s.thieves[i].StealCas? && s.top == s.thieves[i].t then TakeOldest(s, ThiefNext(s, i))
            else Stutter(s, ThiefNext(s, i))
  {
    var th := s.thieves[i];
    assert ThiefOk(s, th);
    if th.StealCas? && s.top == th.t {
      WindowCons(s.ring, s.top, Limit(s) - s.top);
    }
  }

  /** Every atomic access either leaves the deque alone, appends the pushed element, takes
      the newest one for the owner, or takes the oldest one for a thief. */
  lemma StepRefines<T>(s: State<T>, step: Step<T>)
    requires Safe(s)
    ensures DequeStep(s, Apply(s, step))
  {
    match step
    case OwnerStep => OwnerStepRefines(s);
    case ThiefStep(j) => if j in s.thieves { ThiefStepRefines(s, j); }
    case _ => assert Stutter(s, Apply(s, step));
  }

  lemma ConservedStep<T>(s: State<T>, s': State<T>)
    requires Shape(s) && Shape(s') && Conserved(s) && DequeStep(s, s')
    ensures Conserved(s')
  {}

  lemma OwnerKeepsSafe<T>(s: State<T>)
    requires Safe(s)
    ensures Safe(OwnerNext(s))
  {
    var s' := OwnerNext(s);
    forall i | i in s'.thieves
      ensures ThiefOk(s', s'.thieves[i])
    {
      assert ThiefOk(s, s.thieves[i]);
      if s.owner.PushWrite? && s.top < s.bottom { SlotsDiffer(s.top, s.bottom, s.cap); }
    }
  }

  lemma ThiefKeepsSafe<T>(s: State<T>, j: nat)
    requires Safe(s) && j in s.thieves
    ensures Safe(ThiefNext(s, j))
  {
    var s' := ThiefNext(s, j);
    assert ThiefOk(s, s.thieves[j]);
    forall i | i in s'.thieves
      ensures ThiefOk(s', s'.thieves[i])
    {
      assert ThiefOk(s, s.thieves[i]);
    }
  }

  lemma StepKeepsSafe<T>(s: State<T>, step: Step<T>)
    requires Safe(s)
    ensures Safe(Apply(s, step))
  {
    match step
    case OwnerStep => OwnerKeepsSafe(s);
    case ThiefStep(j) => if j in s.thieves { ThiefKeepsSafe(s, j); }
    case Steal(i) => assert forall j :: j in s.thieves ==> ThiefOk(s, s.thieves[j]);
    case _ =>
  }

  /** The inductive step: no element is lost, duplicated or overwritten. */
  lemma StepKeepsInv<T>(s: State<T>, step: Step<T>)
    requires Inv(s)
    ensures Inv(Apply(s, step))
  {
    hide *;
    InvParts(s);
    var s' := Apply(s, step);
    StepRefines(s, step);
    StepKeepsSafe(s, step);
    InvParts(s');
    ConservedStep(s, s');
  }

  lemma InvParts<T>(s: State<T>)
    ensures Safe(s) ==> Shape(s)
    ensures Inv(s) <==> Safe(s) && Conserved(s)
  {}

  // ---------------------------------------------------------------- whole runs

  function Init<T>(cap: nat, ring: seq<T>): State<T> {
    State(cap, 1, 1, ring, Idle, map[], [], [], [])
  }

  function Run<T>(s: State<T>, steps: seq<Step<T>>): (s': State<T>)
    requires Shape(s)
    ensures Shape(s')
    decreases |steps|
  {
    if steps == [] then s else Run(Apply(s, steps[0]), steps[1..])
  }

  lemma {:induction false} RunKeepsInv<T>(s: State<T>, steps: seq<Step<T>>)
    requires Inv(s)
    ensures Inv(Run(s, steps))
    decreases |steps|
  {
    if steps != [] {
      StepKeepsInv(s, steps[0]);
      RunKeepsInv(Apply(s, steps[0]), steps[1..]);
    }
  }

  /** In every run from an initialised queue: what was pushed is exactly what was popped,
      plus what was stolen, plus what is still between top and bottom; so no push is
      returned twice and none is lost, whatever the interleaving. */
  lemma EveryRunConserves<T>(ring: seq<T>, steps: seq<Step<T>>)
    requires |ring| > 0
    ensures var s := Run(Init(|ring|, ring), steps);
            && multiset(s.pushed) == multiset(s.popped) + multiset(s.stolen) + multiset(Live(s))
            && |Live(s)| <= s.cap
            && (s.owner.Idle? ==> s.top <= s.bottom)
  {
    var s0 := Init(|ring|, ring);
    assert Live(s0) == [];
    RunKeepsInv(s0, steps);
  }

  // ---------------------------------------------------------------- the accesses, one by one

  lemma Bounds<T>(s: State<T>)
    requires Inv(s)
    ensures Shape(s) && s.top >= 1 && (!s.owner.PopDecrement? || s.bottom > 1) && s.bottom >= 0
    ensures forall i :: i in s.thieves ==> s.thieves[i].t >= 1
    ensures |Live(s)| == Limit(s) - s.top
  {
    assert forall i :: i in s.thieves ==> ThiefOk(s, s.thieves[i]);
  }

  lemma WriteIs<T>(s: State<T>)
    requires Shape(s) && s.owner.PushWrite?
    ensures Apply(s, OwnerStep) == s.(ring := s.ring[s.bottom % s.cap := s.owner.x], owner := PushPublish(s.owner.x))
  {}

  lemma PublishIs<T>(s: State<T>)
    requires Shape(s) && s.owner.PushPublish?
    ensures Apply(s, OwnerStep) == s.(bottom := s.bottom + 1, owner := Idle, pushed := s.pushed + [s.owner.x])
  {}

  lemma LowerIs<T>(s: State<T>)
    requires Shape(s) && s.owner.PopDecrement?
    ensures Apply(s, OwnerStep) == s.(bottom := s.bottom - 1, owner := PopReload)
  {}

  lemma DecideIs<T>(s: State<T>)
    requires Inv(s) && s.owner.PopReload?
    ensures var v, s' := s.ring[s.bottom % s.cap], Apply(s, OwnerStep);
            && s' == (if s.top > s.bottom then s.(owner := PopRestore(false))
                      else if s.top != s.bottom then s.(owner := Idle, popped := s.popped + [v])
                      else s.(owner := PopCompete(v)))
            && (s.top < s.bottom ==> Live(s) == Live(s') + [v])
  {
    OwnerStepRefines(s);
    hide Live, Window;
  }

  lemma RaceIs<T>(s: State<T>)
    requires Inv(s) && s.owner.PopCompete?
    ensures var v, s' := s.owner.val, Apply(s, OwnerStep);
            && s' == (if s.top == s.bottom then s.(top := s.top + 1, owner := PopRestore(true), popped := s.popped + [v])
                      else s.(owner := PopRestore(false)))
            && (s.top == s.bottom ==> Live(s) == [v] && Live(s') == [])
  {
    OwnerStepRefines(s);
    hide Live, Window;
  }

  lemma PutBackIs<T>(s: State<T>)
    requires Shape(s) && s.owner.PopRestore?
    ensures Apply(s, OwnerStep) == s.(bottom := s.bottom + 1, owner := Idle)
  {}

  lemma ReadIs<T>(s: State<T>, i: nat)
    requires Shape(s) && i in s.thieves && s.thieves[i].StealRead?
    ensures var t := s.thieves[i].t; Apply(s, ThiefStep(i)) == s.(thieves := s.thieves[i := StealCas(t, s.ring[t % s.cap])])
  {}

  lemma StealRaceIs<T>(s: State<T>, i: nat)
    requires Inv(s) && i in s.thieves && s.thieves[i].StealCas?
    ensures var v, s' := s.thieves[i].val, Apply(s, ThiefStep(i));
            && s' == (if s.top == s.thieves[i].t then s.(top := s.top + 1, thieves := s.thieves - {i}, stolen := s.stolen + [v])
                      else s.(thieves := s.thieves[i := StealBound(s.top)]))
            && (s.top == s.thieves[i].t ==> Live(s) == [v] + Live(s'))
  {
    ThiefStepRefines(s, i);
    StealRaceNext(s, i);
    hide Live, Window, ThiefNext, Apply, Inv;
  }

  lemma StealRaceNext<T>(s: State<T>, i: nat)
    requires Inv(s) && i in s.thieves && s.thieves[i].StealCas?
    ensures Shape(s) && Safe(s) && Apply(s, ThiefStep(i)) == ThiefNext(s, i)
    ensures ThiefNext(s, i) == (if s.top == s.thieves[i].t
              then s.(top := s.top + 1, thieves := s.thieves - {i}, stolen := s.stolen + [s.thieves[i].val])
              else s.(thieves := s.thieves[i := StealBound(s.top)]))
  {
    hide Live, Window, OwnerOk, Conserved;
  }

  // ---------------------------------------------------------------- the class

  /** The queue itself. `owner` and `thieves` hold the registers of the running threads. */
  class WorkStealingQueue<T(0)> {
    var bottom: int
    var capacity: nat
    var buffer: array<T>
    var top: int
    var owner: Owner<T>
    var thieves: map<nat, Thief<T>>
    ghost var pushed: seq<T>
    ghost var popped: seq<T>
    ghost var stolen: seq<T>

    ghost function View(): State<T>
      reads this, buffer
    {
      State(capacity, bottom, top, buffer[..], owner, thieves, pushed, popped, stolen)
    }

    ghost predicate Ready()
      reads this, buffer
    {
      IsPowerOfTwo(capacity) && Inv(View())
    }

    constructor ()
      ensures capacity == 0 && fresh(buffer) && bottom == top == 1 && owner.Idle? && thieves == map[]
      ensures pushed == popped == stolen == []
    {
      bottom, capacity, top := 1, 0, 1;
      buffer := new T[0];
      owner, thieves := Idle, map[];
      pushed, popped, stolen := [], [], [];
    }

    method Initialize(cap: nat) returns (rc: int)
      requires bottom == top == 1 && owner.Idle? && thieves == map[] && pushed == popped == stolen == []
      modifies this`capacity, this`buffer
      ensures rc == 0 <==> old(capacity) == 0 && IsPowerOfTwo(cap)
      ensures rc == 0 ==> fresh(buffer) && View() == Init(cap, buffer[..]) && Ready()
      ensures rc != 0 ==> rc == -1 && capacity == old(capacity) && buffer == old(buffer)
    {
      if capacity != 0 { return -1; }
      if cap == 0 { return -1; }
      PowerOfTwoTest(cap);
      if And(cap, cap - 1) != 0 { return -1; }
      buffer := new T[cap];
      capacity := cap;
      assert Live(View()) == [];
      rc := 0;
    }

    method PushCheck(x: T) returns (full: bool)
      requires Ready() && owner.Idle?
      modifies this`owner
      ensures Ready() && View() == Apply(old(View()), Push(x))
      ensures full <==> |Live(View())| == capacity
    {
      StepKeepsInv(View(), Push(x));
      full := bottom >= top + capacity;
      if !full { owner := PushWrite(x); }
    }

    method PushWriteSlot()
      requires Ready() && owner.PushWrite?
      modifies this`owner, buffer
      ensures Ready() && View() == Apply(old(View()), OwnerStep)
    {
      hide IsPowerOfTwo, Inv;
      ghost var s := View();
      Bounds(s);
      StepKeepsInv(s, OwnerStep);
      WriteIs(s);
      MaskIsRemainder(bottom, capacity);
      hide Apply, And, Live;
      buffer[And(bottom, capacity - 1)] := owner.x;
      owner := PushPublish(owner.x);
    }

    method PushAdvance()
      requires Ready() && owner.PushPublish?
      modifies this`bottom, this`owner, this`pushed
      ensures Ready() && View() == Apply(old(View()), OwnerStep)
    {
      hide IsPowerOfTwo, Inv;
      ghost var s := View();
      Bounds(s);
      StepKeepsInv(s, OwnerStep);
      PublishIs(s);
      hide Apply, Live;
      pushed := pushed + [owner.x];
      bottom, owner := bottom + 1, Idle;
    }

    method PopCheck() returns (empty: bool)
      requires Ready() && owner.Idle?
      modifies this`owner
      ensures Ready() && View() == Apply(old(View()), Pop)
      ensures empty <==> Live(View()) == []
    {
      hide IsPowerOfTwo, Inv;
      Bounds(View());
      StepKeepsInv(View(), Pop);
      hide Window;
      empty := top >= bottom;
      if !empty { owner := PopDecrement; }
    }

    method PopLower()
      requires Ready() && owner.PopDecrement?
      modifies this`bottom, this`owner
      ensures Ready() && View() == Apply(old(View()), OwnerStep)
    {
      hide IsPowerOfTwo, Inv;
      Bounds(View());
      StepKeepsInv(View(), OwnerStep);
      LowerIs(View());
      hide Apply, Live;
      bottom, owner := bottom - 1, PopReload;
    }

    /** The second load of `_top`; `val` is returned at once unless one element is left. */
    method PopDecide() returns (done: bool, val: T)
      requires Ready() && owner.PopReload?
      modifies this`owner, this`popped
      ensures Ready() && View() == Apply(old(View()), OwnerStep)
      ensures done ==> popped == old(popped) + [val] && old(Live(View())) == Live(View()) + [val]
    {
      hide IsPowerOfTwo, Inv;
      ghost var s := View();
      Bounds(s);
      StepKeepsInv(s, OwnerStep);
      DecideIs(s);
      MaskIsRemainder(bottom, capacity);
      hide Apply, And, Live;
      done, val := top < bottom, buffer[And(bottom, capacity - 1)];
      if top > bottom {
        owner := PopRestore(false);
      } else if top != bottom {
        owner, popped := Idle, popped + [val];
      } else {
        owner := PopCompete(val);
      }
    }

    method PopRace() returns (won: bool)
      requires Ready() && owner.PopCompete?
      modifies this`top, this`owner, this`popped
      ensures Ready() && View() == Apply(old(View()), OwnerStep)
      ensures won ==> old(Live(View())) == [old(owner.val)] && Live(View()) == []
    {
      hide IsPowerOfTwo, Inv;
      ghost var s := View();
      Bounds(s);
      StepKeepsInv(s, OwnerStep);
      RaceIs(s);
      hide Apply, Live;
      var v := owner.val;
      won := top == bottom;
      if won { top, popped := top + 1, popped + [v]; }
      owner := PopRestore(won);
    }

    method PopPutBack() returns (popped: bool)
      requires Ready() && owner.PopRestore?
      modifies this`bottom, this`owner
      ensures Ready() && View() == Apply(old(View()), OwnerStep)
      ensures popped == old(owner.popped)
    {
      hide IsPowerOfTwo, Inv;
      Bounds(View());
      StepKeepsInv(View(), OwnerStep);
      PutBackIs(View());
      hide Apply, Live;
      popped := owner.popped;
      bottom, owner := bottom + 1, Idle;
    }

    method StealLoadTop(i: nat)
      requires Ready() && i !in thieves
      modifies this`thieves
      ensures Ready() && View() == Apply(old(View()), Steal(i))
    {
      hide IsPowerOfTwo, Inv;
      Bounds(View());
      StepKeepsInv(View(), Steal(i));
      hide Live;
      thieves := thieves[i := StealCheck(top)];
    }

    /** The test before the loop and the one at its head read `_bottom` the same way. */
    method StealLoadBottom(i: nat) returns (empty: bool)
      requires Ready() && i in thieves && (thieves[i].StealCheck? || thieves[i].StealBound?)
      modifies this`thieves
      ensures Ready() && View() == Apply(old(View()), ThiefStep(i))
      ensures empty <==> i !in thieves
    {
      hide IsPowerOfTwo, Inv;
      Bounds(View());
      StepKeepsInv(View(), ThiefStep(i));
      hide Live;
      var th := thieves[i];
      empty := th.t >= bottom;
      thieves := if empty then thieves - {i}
                 else thieves[i := if th.StealCheck? then StealBound(th.t) else StealRead(th.t)];
    }

    method StealReadSlot(i: nat)
      requires Ready() && i in thieves && thieves[i].StealRead?
      modifies this`thieves
      ensures Ready() && View() == Apply(old(View()), ThiefStep(i))
    {
      hide IsPowerOfTwo, Inv;
      ghost var s := View();
      Bounds(s);
      StepKeepsInv(s, ThiefStep(i));
      ReadIs(s, i);
      var t := thieves[i].t;
      MaskIsRemainder(t, capacity);
      hide Apply, And, Live;
      thieves := thieves[i := StealCas(t, buffer[And(t, capacity - 1)])];
    }

    method StealRace(i: nat) returns (won: bool, val: T)
      requires Ready() && i in thieves && thieves[i].StealCas?
      modifies this`top, this`thieves, this`stolen
      ensures Ready() && View() == Apply(old(View()), ThiefStep(i))
      ensures won ==> stolen == old(stolen) + [val] && old(Live(View())) == [val] + Live(View())
    {
      hide IsPowerOfTwo, Inv;
      ghost var s := View();
      Bounds(s);
      StepKeepsInv(s, ThiefStep(i));
      StealRaceIs(s, i);
      hide Apply, Live;
      var t := thieves[i].t;
      val := thieves[i].val;
      won := top == t;
      if won {
        top, thieves, stolen := t + 1, thieves - {i}, stolen + [val];
      } else {
        thieves := thieves[i := StealBound(top)];
      }
    }
  }
}
