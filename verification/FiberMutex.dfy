/** The fiber mutex of eabase/fiber/mutex.cc and any number of condition variables bound to it
    (eabase/fiber/condition_variable.cc), over the wait queues of Butex.

    One mutex, any number of threads. A step is one atomic access to the lock word or to a
    sequence counter, or one critical section of the butex code. */
module FiberMutex {
  import opened WaiterLists
  import opened Butex

  const MutexButex: ButexId := 0

  function CondButex(c: nat): ButexId { c + 1 }

  /** What a thread blocked in butex_wait is blocked for. */
  datatype Why = ForMutex(timed: bool) | ForCond(c: nat)

  /** What a thread does once it has made the waiters in its hand runnable. */
  datatype After = Return(holds: bool) | ThenWait(c: nat, e: nat)

  datatype Pc =
    | Idle
    | Contending(timed: bool)                    // about to exchange the word with CONTENDED
    | Waiting(why: Why, e: nat)                  // in butex_wait, before the unlocked test
    | Enqueuing(why: Why, e: nat)                // in butex_wait, before the locked test
    | Sleeping(why: Why)                         // queued, or unlinked but not runnable yet
    | Holding
    | Unlocking(c: nat, e: nat)                  // in cond_wait, about to exchange the word with 0
    | OwingWake(after: After)                    // the exchange returned CONTENDED
    | Notifying(c: nat, all: bool, holds: bool)  // the counter is bumped
    | Resuming(after: After)                     // out of a butex section, waiters in hand

  datatype Owner = Nobody | Thread(t: Tid)

  /** `owner` is a history variable; `timedOut` is the set of waiters whose waiter_state is
      WAITER_STATE_TIMEDOUT. */
  datatype State = State(
    locked: bool, contended: bool,
    seqs: map<nat, nat>, bound: set<nat>,
    b: Butex.State, pc: map<Tid, Pc>, timedOut: set<Tid>, owner: Owner)

  datatype Step =
    | LockFirst(timed: bool)
    | TryLock
    | Exchange
    | LoadValue(expired: bool)
    | Sleep(interrupted: bool)
    | Unlock
    | CondRead(c: nat)
    | CondUnlock
    | WakeOwed
    | Signal(c: nat)
    | Broadcast(c: nat)
    | Notify
    | LoadContainer(w: Tid)
    | Erase(timer: bool)
    | Resume(late: bool)
    | Done

  function At(pc: map<Tid, Pc>, t: Tid): Pc {
    if t in pc then pc[t] else Idle
  }

  function SeqOf(s: State, c: nat): nat {
    if c in s.seqs then s.seqs[c] else 0
  }

  function Goto(s: State, t: Tid, p: Pc): State {
    s.(pc := s.pc[t := p])
  }

  /** Does the butex still hold the value the waiter expects? */
  predicate Matches(s: State, why: Why, e: nat) {
    match why
    case ForMutex(_) => s.locked && s.contended
    case ForCond(c) => SeqOf(s, c) == e
  }

  /** Where butex_wait returns to: every caller goes on to lock the mutex, except a timed
      lock that has timed out. */
  function Resumed(why: Why, timedOut: bool): Pc {
    match why
    case ForMutex(timed) => if timed && timedOut then Idle else Contending(timed)
    case ForCond(_) => Contending(false)
  }

  function Acquire(s: State, t: Tid): State {
    Goto(s, t, Holding).(owner := Thread(t))
  }

  function ReleaseWord(s: State, a: Tid, uncontended: Pc, after: After): State {
    Goto(s, a, if s.contended then OwingWake(after) else uncontended).(locked := false, contended := false, owner := Nobody)
  }

  predicate Enabled(s: State, a: Tid, step: Step) {
    match step
    case LockFirst(_) => At(s.pc, a).Idle?
    case TryLock => At(s.pc, a).Idle?
    case Exchange => At(s.pc, a).Contending?
    case LoadValue(_) => At(s.pc, a).Waiting?
    case Sleep(_) => At(s.pc, a).Enqueuing?
    case Unlock => At(s.pc, a).Holding?
    case CondRead(_) => At(s.pc, a).Holding?
    case CondUnlock => At(s.pc, a).Unlocking?
    case WakeOwed => At(s.pc, a).OwingWake? && Free(s.b, a)
    case Signal(_) => At(s.pc, a).Idle? || At(s.pc, a).Holding?
    case Broadcast(_) => At(s.pc, a).Idle? || At(s.pc, a).Holding?
    case Notify => At(s.pc, a).Notifying? && Free(s.b, a)
    case LoadContainer(w) => Butex.Enabled(s.b, a, Butex.EraseLoad(w)) && !At(s.pc, a).Resuming?
    case Erase(_) => Butex.Enabled(s.b, a, Butex.EraseLock) && !At(s.pc, a).Resuming?
    case Resume(_) => a in s.b.hands && s.b.hands[a].left != []
    case Done => a in s.b.hands && s.b.hands[a].left == []
  }

  /** The waiter released by a plain pthread's futex may already have timed out: wait_pthread
      then reports ETIMEDOUT although the waiter was woken (`late`). */
  predicate GivesUpLate(s: State, w: Tid) {
    w in s.b.pthreads && At(s.pc, w).Sleeping? && At(s.pc, w).why == ForMutex(true)
  }

  function ApplyResume(s: State, a: Tid, late: bool): State
    requires Enabled(s, a, Resume(late))
  {
    var w := s.b.hands[a].left[0];
    var s1 := s.(b := Butex.Apply(s.b, a, Butex.Release));
    if At(s.pc, w).Sleeping?
    then Goto(s1, w, Resumed(At(s.pc, w).why, w in s.timedOut || (late && GivesUpLate(s, w))))
    else s1
  }

  function ApplyErase(s: State, a: Tid, timer: bool): State
    requires Enabled(s, a, Erase(timer))
  {
    var w := s.b.erasing[a].w;
    var s1 := s.(b := Butex.Apply(s.b, a, Butex.EraseLock));
    if timer && a in s1.b.hands && At(s.pc, w).Sleeping? && At(s.pc, w).why != ForMutex(false)
    then s1.(timedOut := s.timedOut + {w})
    else s1
  }

  function ApplyNotify(s: State, a: Tid): State
    requires Enabled(s, a, Notify)
  {
    var p := At(s.pc, a);
    var step := if p.all then Butex.Requeue(CondButex(p.c), MutexButex) else Butex.Wake(CondButex(p.c));
    Goto(s.(b := Butex.Apply(s.b, a, step)), a, Resuming(Return(p.holds)))
  }

  function ApplyDone(s: State, a: Tid): State
    requires Enabled(s, a, Done)
  {
    var s1 := s.(b := Butex.Apply(s.b, a, Butex.Finish));
    if At(s.pc, a).Resuming? then Goto(s1, a, Continue(At(s.pc, a).after)) else s1
  }

  /** Where a thread goes on once its hand is empty. */
  function Continue(after: After): Pc {
    match after
    case Return(holds) => if holds then Holding else Idle
    case ThenWait(c, e) => Waiting(ForCond(c), e)
  }

  function ApplySleep(s: State, a: Tid, interrupted: bool): State
    requires Enabled(s, a, Sleep(interrupted))
  {
    var p := At(s.pc, a);
    if !Matches(s, p.why, p.e) || interrupted then Goto(s, a, Resumed(p.why, false))
    else
      var q := if p.why.ForMutex? then MutexButex else CondButex(p.why.c);
      Goto(s.(b := Butex.Apply(s.b, a, Butex.Enqueue(q, a)), timedOut := s.timedOut - {a}), a, Sleeping(p.why))
  }

  function Apply(s: State, a: Tid, step: Step): State {
    if !Enabled(s, a, step) then s else
    var p := At(s.pc, a);
    match step
    case LockFirst(timed) => if s.locked then Goto(s, a, Contending(timed)) else Acquire(s, a).(locked := true)
    case TryLock => if s.locked then s else Acquire(s, a).(locked := true)
    case Exchange =>
      var s1 := if s.locked then Goto(s, a, Waiting(ForMutex(p.timed), 0)) else Acquire(s, a);
      s1.(locked := true, contended := true)
    case LoadValue(expired) =>
      if !Matches(s, p.why, p.e) then Goto(s, a, Resumed(p.why, false))
      else if expired && p.why != ForMutex(false) then Goto(s, a, Resumed(p.why, true))
      else Goto(s, a, Enqueuing(p.why, p.e))
    case Sleep(interrupted) => ApplySleep(s, a, interrupted)
    case Unlock => ReleaseWord(s, a, Idle, Return(false))
    case CondRead(c) => Goto(s, a, Unlocking(c, SeqOf(s, c))).(bound := s.bound + {c})
    case CondUnlock => ReleaseWord(s, a, Waiting(ForCond(p.c), p.e), ThenWait(p.c, p.e))
    case WakeOwed => Goto(s.(b := Butex.Apply(s.b, a, Butex.Wake(MutexButex))), a, Resuming(p.after))
    case Signal(c) => Goto(s, a, Notifying(c, false, p.Holding?)).(seqs := s.seqs[c := SeqOf(s, c) + 1])
    case Broadcast(c) =>
      if c !in s.bound then s
      else Goto(s, a, Notifying(c, true, p.Holding?)).(seqs := s.seqs[c := SeqOf(s, c) + 1])
    case Notify => ApplyNotify(s, a)
    case LoadContainer(w) => s.(b := Butex.Apply(s.b, a, Butex.EraseLoad(w)))
    case Erase(timer) => ApplyErase(s, a, timer)
    case Resume(late) => ApplyResume(s, a, late)
    case Done => ApplyDone(s, a)
  }

  // ------------------------------------------------------------ mutual exclusion

  predicate Holds(p: Pc) {
    p.Holding? || p.Unlocking? || (p.Notifying? && p.holds) || p == Resuming(Return(true))
  }

  ghost predicate WordOk(s: State) {
    && (s.locked <==> s.owner.Thread?)
    && (s.contended ==> s.locked)
    && (forall t :: Holds(At(s.pc, t)) <==> s.owner == Thread(t))
    && (forall t :: At(s.pc, t).OwingWake? ==> At(s.pc, t).after != Return(true))
  }

  // ------------------------------------------------------------ who sleeps where

  /** Exactly the sleeping threads are queued or in a hand; only condition waiters are in a
      condition's queue; a linked waiter has not timed out. */
  ghost predicate SleepersOk(s: State) {
    && (forall t :: At(s.pc, t).Sleeping? <==> t in s.b.lists.container || t in s.b.holder)
    && (forall t :: t in s.b.lists.container && s.b.lists.container[t] != MutexButex ==> At(s.pc, t) == Sleeping(ForCond(s.b.lists.container[t] - 1)))
    && (forall t :: t in s.b.lists.container ==> t !in s.timedOut)
    && (forall t :: At(s.pc, t).Resuming? ==> t in s.b.hands)
  }

  // ------------------------------------------------------------ no stranded sleeper

  /** `w` is out of the queue and its next access to the word is the exchange with CONTENDED,
      or `w` still has to wake somebody. */
  predicate Witness(s: State, w: Tid) {
    || At(s.pc, w).OwingWake?
    || At(s.pc, w).Contending?
    || (w in s.b.holder && At(s.pc, w).Sleeping? && !(At(s.pc, w).why == ForMutex(true) && w in s.timedOut))
  }

  ghost predicate NobodyStranded(s: State) {
    Queue(s.b.lists, MutexButex) != [] ==> s.contended || exists w :: Witness(s, w)
  }

  /** What every run keeps. */
  ghost predicate Safe(s: State) {
    Butex.Inv(s.b) && WordOk(s) && SleepersOk(s)
  }

  ghost predicate Inv(s: State) {
    Safe(s) && NobodyStranded(s)
  }

  ghost predicate Keeps(s: State, s': State) {
    Safe(s') && (NobodyStranded(s) ==> NobodyStranded(s'))
  }

  // ------------------------------------------------------------ every step keeps them

  /** Only thread `a` moves, to `p`, and neither sleeps nor leaves a butex section. */
  ghost predicate LocalMove(s: State, s': State, a: Tid, p: Pc) {
    && s'.b == s.b && s'.timedOut == s.timedOut && s'.pc == s.pc[a := p]
    && !At(s.pc, a).Sleeping? && !At(s.pc, a).Resuming? && !p.Sleeping? && !p.Resuming?
  }

  /** The word and its owner change as the move of `a` from its old point to `p` says. */
  ghost predicate WordMove(s: State, s': State, a: Tid, p: Pc) {
    && (s'.locked <==> s'.owner.Thread?) && (s'.contended ==> s'.locked)
    && s'.owner == (if Holds(p) then Thread(a) else if Holds(At(s.pc, a)) then Nobody else s.owner)
    && (Holds(p) ==> Holds(At(s.pc, a)) || s.owner == Nobody)
    && (p.OwingWake? ==> p.after != Return(true))
  }

  predicate Owes(p: Pc) {
    p.OwingWake? || p.Contending?
  }

  lemma WordMoveKeeps(s: State, s': State, a: Tid, p: Pc)
    requires WordOk(s) && WordMove(s, s', a, p) && s'.pc == s.pc[a := p]
    ensures WordOk(s')
  {
    forall t
      ensures Holds(At(s'.pc, t)) <==> s'.owner == Thread(t)
    {
      assert Holds(At(s.pc, t)) <==> s.owner == Thread(t);
      assert Holds(At(s.pc, a)) <==> s.owner == Thread(a);
    }
    forall t | At(s'.pc, t).OwingWake?
      ensures At(s'.pc, t).after != Return(true)
    {
      if t != a { assert At(s'.pc, t) == At(s.pc, t); }
    }
  }

  lemma LocalMoveKeeps(s: State, s': State, a: Tid, p: Pc)
    requires Safe(s) && LocalMove(s, s', a, p) && WordMove(s, s', a, p)
    requires Owes(At(s.pc, a)) ==> s'.contended || Owes(p)
    requires s.contended ==> s'.contended || Owes(p)
    ensures Keeps(s, s')
  {
    WordMoveKeeps(s, s', a, p);
    assert SleepersOk(s') by {
      hide Butex.Inv, WordOk, NobodyStranded;
      assert forall t :: t != a ==> At(s'.pc, t) == At(s.pc, t);
    }
    if NobodyStranded(s) && Queue(s'.b.lists, MutexButex) != [] && !s'.contended {
      hide Butex.Inv, WordOk, SleepersOk;
      if s.contended {
        assert Witness(s', a);
      } else {
        var w :| Witness(s, w);
        assert Witness(s', w);
      }
    }
  }

  predicate IsLocal(step: Step) {
    step.LockFirst? || step.TryLock? || step.Exchange? || step.LoadValue? || step.Unlock? || step.CondUnlock?
    || step.CondRead? || step.Signal? || step.Broadcast?
  }

  lemma LocalStepMoves(s: State, a: Tid, step: Step)
    requires WordOk(s) && Enabled(s, a, step) && IsLocal(step)
    ensures var s' := Apply(s, a, step); var p := At(s'.pc, a);
            s' != s ==> LocalMove(s, s', a, p) && WordMove(s, s', a, p)
                        && (Owes(At(s.pc, a)) ==> s'.contended || Owes(p)) && (s.contended ==> s'.contended || Owes(p))
  {
    if step.LockFirst? || step.TryLock? || step.Exchange? {
      TakingMoves(s, a, step);
    } else if step.Unlock? || step.CondUnlock? {
      LeavingMoves(s, a, step);
    } else {
      QuietMoves(s, a, step);
    }
    hide Apply, Enabled, WordOk;
  }

  ghost predicate MovesAlone(s: State, s': State, a: Tid) {
    var p := At(s'.pc, a);
    && LocalMove(s, s', a, p) && WordMove(s, s', a, p)
    && (Owes(At(s.pc, a)) ==> s'.contended || Owes(p)) && (s.contended ==> s'.contended || Owes(p))
  }

  lemma TakingMoves(s: State, a: Tid, step: Step)
    requires WordOk(s) && Enabled(s, a, step) && (step.LockFirst? || step.TryLock? || step.Exchange?)
    ensures Apply(s, a, step) == s || MovesAlone(s, Apply(s, a, step), a)
  {
    assert Holds(At(s.pc, a)) <==> s.owner == Thread(a);
  }

  lemma LeavingMoves(s: State, a: Tid, step: Step)
    requires WordOk(s) && Enabled(s, a, step) && (step.Unlock? || step.CondUnlock?)
    ensures MovesAlone(s, Apply(s, a, step), a)
  {
    assert Holds(At(s.pc, a)) <==> s.owner == Thread(a);
  }

  lemma QuietMoves(s: State, a: Tid, step: Step)
    requires WordOk(s) && Enabled(s, a, step) && (step.LoadValue? || step.CondRead? || step.Signal? || step.Broadcast?)
    ensures Apply(s, a, step) == s || MovesAlone(s, Apply(s, a, step), a)
  {
    assert Holds(At(s.pc, a)) <==> s.owner == Thread(a);
    hide Matches;
  }

  lemma LocalStepKeeps(s: State, a: Tid, step: Step)
    requires Safe(s) && Enabled(s, a, step) && IsLocal(step)
    ensures Keeps(s, Apply(s, a, step))
  {
    LocalStepMoves(s, a, step);
    hide Apply, Enabled, LocalMove, WordMove, WordOk, SleepersOk, NobodyStranded, Butex.Inv;
    var s' := Apply(s, a, step);
    if s' != s { LocalMoveKeeps(s, s', a, At(s'.pc, a)); }
  }

  /** A butex section moves waiters from queues to the hand of `a`, and never to a
      condition's queue. */
  ghost predicate Moves(b: Butex.State, b': Butex.State) {
    && (forall t :: t in b'.lists.container || t in b'.holder <==> t in b.lists.container || t in b.holder)
    && (forall t :: t in b.holder ==> t in b'.holder)
    && (forall t :: t in b'.lists.container ==>
          t in b.lists.container && (b'.lists.container[t] == b.lists.container[t] || b'.lists.container[t] == MutexButex))
    && b'.hands.Keys >= b.hands.Keys
  }

  lemma TakeMoves(b: Butex.State, a: Tid, r: (Lists, seq<Tid>))
    requires Butex.Inv(b) && a !in b.hands && Unlinks(b.lists, r.0, r.1)
    requires forall t :: t in r.0.container ==> r.0.container[t] == b.lists.container[t] || r.0.container[t] == MutexButex
    ensures Moves(b, Take(b, a, r)) && a in Take(b, a, r).hands && (forall t :: t in r.1 ==> t in Take(b, a, r).holder)
  {}

  lemma WakeMoves(b: Butex.State, a: Tid, q: ButexId)
    requires Butex.Inv(b) && Free(b, a)
    ensures var b' := Butex.Apply(b, a, Butex.Wake(q));
            && Butex.Inv(b') && Moves(b, b') && a in b'.hands
            && (q != MutexButex ==> Queue(b'.lists, MutexButex) == Queue(b.lists, MutexButex))
            && (Queue(b.lists, q) != [] ==> Queue(b.lists, q)[0] in b'.holder && Queue(b.lists, q)[0] in b.lists.container
                                            && b.lists.container[Queue(b.lists, q)[0]] == q)
            && (Queue(b.lists, q) == [] ==> Queue(b'.lists, q) == [])
  {
    WakeUnlinks(b.lists, q);
    TakeMoves(b, a, WakeSection(b.lists, q));
    Butex.StepKeepsInv(b, a, Butex.Wake(q));
    if Queue(b.lists, q) != [] { assert Queue(b.lists, q)[0] in Queue(b.lists, q); }
  }

  lemma RequeueMoves(b: Butex.State, a: Tid, q: ButexId)
    requires Butex.Inv(b) && Free(b, a) && q != MutexButex
    ensures var b' := Butex.Apply(b, a, Butex.Requeue(q, MutexButex));
            && Butex.Inv(b') && Moves(b, b') && a in b'.hands
            && (Queue(b.lists, q) != [] ==> Queue(b.lists, q)[0] in b'.holder && Queue(b.lists, q)[0] in b.lists.container
                                            && b.lists.container[Queue(b.lists, q)[0]] == q)
            && (Queue(b.lists, q) == [] ==> Queue(b'.lists, MutexButex) == Queue(b.lists, MutexButex))
  {
    RequeueUnlinks(b.lists, q, MutexButex);
    TakeMoves(b, a, RequeueSection(b.lists, q, MutexButex));
    Butex.StepKeepsInv(b, a, Butex.Requeue(q, MutexButex));
    if Queue(b.lists, q) != [] { assert Queue(b.lists, q)[0] in Queue(b.lists, q); }
  }

  lemma EraseMoves(b: Butex.State, a: Tid)
    requires Butex.Inv(b) && Butex.Enabled(b, a, Butex.EraseLock)
    ensures var b' := Butex.Apply(b, a, Butex.EraseLock);
            && Butex.Inv(b') && Moves(b, b')
            && (a in b'.hands ==> b.erasing[a].w in b'.holder && b.erasing[a].w !in b.holder && b.erasing[a].w !in b'.lists.container)
            && (Queue(b'.lists, MutexButex) != [] ==> Queue(b.lists, MutexButex) != [])
  {
    var (w, q) := (b.erasing[a].w, b.erasing[a].b);
    var b0 := b.(erasing := b.erasing - {a});
    var r := EraseSection(b.lists, q, w);
    InvOfErasing(b, b0.erasing);
    EraseApplies(b, a);
    EraseContainers(b.lists, q, w);
    hide *;
    EraseUnlinks(b.lists, q, w);
    Butex.StepKeepsInv(b, a, Butex.EraseLock);
    EraseLeaves(b.lists, q, w);
    if r.1 != [] {
      TakeMoves(b0, a, r);
      EraseTakes(b0, a, r, w);
      MovesSame(b, b0, Take(b0, a, r));
    } else {
      InvOfErasing(b, b.erasing[a := Loading(w)]);
    }
  }

  lemma InvOfErasing(b: Butex.State, erasing: map<Tid, Erasing>)
    requires Butex.Inv(b)
    ensures Butex.Inv(b.(erasing := erasing)) && ListsOk(b.lists) && Moves(b, b.(erasing := erasing))
    ensures forall t :: t in b.holder ==> t !in b.lists.container
  {}

  lemma EraseApplies(b: Butex.State, a: Tid)
    requires Butex.Enabled(b, a, Butex.EraseLock)
    ensures var (w, q) := (b.erasing[a].w, b.erasing[a].b); var r := EraseSection(b.lists, q, w);
            && a !in b.hands && (r.1 == [] || r.1 == [w])
            && Butex.Apply(b, a, Butex.EraseLock) ==
               if r.1 == [] then b.(erasing := b.erasing[a := Loading(w)]) else Take(b.(erasing := b.erasing - {a}), a, r)
  {
    hide Take;
  }

  lemma EraseContainers(l: Lists, q: ButexId, w: Tid)
    ensures var r := EraseSection(l, q, w);
            && (forall t :: t in r.0.container ==> t in l.container && r.0.container[t] == l.container[t])
            && (r.1 != [] ==> w in l.container && w !in r.0.container)
  {}

  lemma EraseTakes(b: Butex.State, a: Tid, r: (Lists, seq<Tid>), w: Tid)
    requires r.1 == [w]
    ensures var b' := Take(b, a, r); b'.lists == r.0 && w in b'.holder
  {}

  lemma MovesSame(b: Butex.State, b0: Butex.State, b': Butex.State)
    requires Moves(b0, b') && b0 == b.(erasing := b0.erasing)
    ensures Moves(b, b')
  {}

  lemma EraseLeaves(l: Lists, q: ButexId, w: Tid)
    ensures var r := EraseSection(l, q, w); Queue(r.0, MutexButex) != [] ==> Queue(l, MutexButex) != []
  {
    KeepMembers(Queue(l, q), {w});
    if Queue(l, MutexButex) == [] { assert Drop([], {w}) == []; }
  }

  /** After a section of thread `a`: the sleepers are still accounted for. */
  lemma SectionKeepsSleepers(s: State, s': State, a: Tid)
    requires SleepersOk(s) && Moves(s.b, s'.b) && a in s'.b.hands
    requires s'.pc == s.pc || (s'.pc == s.pc[a := At(s'.pc, a)] && At(s'.pc, a).Resuming? && !At(s.pc, a).Sleeping?)
    requires forall t :: t in s'.timedOut ==> t in s.timedOut || t !in s'.b.lists.container
    ensures SleepersOk(s')
  {
    assert forall t :: t != a ==> At(s'.pc, t) == At(s.pc, t);
  }

  /** A witness is not lost in a section: it stays one, or somebody just unlinked is one. */
  lemma SectionKeepsWitness(s: State, s': State, a: Tid)
    requires Moves(s.b, s'.b) && s'.contended == s.contended && NobodyStranded(s) && Queue(s.b.lists, MutexButex) != []
    requires s'.pc == s.pc || (s'.pc == s.pc[a := At(s'.pc, a)] && !Owes(At(s.pc, a)) && !At(s.pc, a).Sleeping?)
    requires forall t :: t in s'.timedOut ==> t in s.timedOut || t !in s.b.holder
    ensures NobodyStranded(s')
  {
    if !s.contended {
      var w :| Witness(s, w);
      assert Witness(s', w);
    }
  }

  lemma WakeOwedKeeps(s: State, a: Tid)
    requires Safe(s) && Enabled(s, a, WakeOwed)
    ensures Keeps(s, Apply(s, a, WakeOwed))
  {
    var q := Queue(s.b.lists, MutexButex);
    WakeMoves(s.b, a, MutexButex);
    WakeOwedWord(s, a);
    hide *;
    var s' := Apply(s, a, WakeOwed);
    SafeParts(s);
    SectionKeepsSleepers(s, s', a);
    WakeOwedWitness(s, s', a);
    KeepsParts(s, s');
  }

  lemma WakeOwedWord(s: State, a: Tid)
    requires WordOk(s) && Enabled(s, a, WakeOwed)
    ensures var s' := Apply(s, a, WakeOwed);
            && WordOk(s') && s'.b == Butex.Apply(s.b, a, Butex.Wake(MutexButex)) && s'.timedOut == s.timedOut
            && s'.pc == s.pc[a := At(s'.pc, a)] && At(s'.pc, a).Resuming? && At(s.pc, a).OwingWake? && Free(s.b, a)
  {
    var s' := Apply(s, a, WakeOwed);
    WordMoveKeeps(s, s', a, At(s'.pc, a));
  }

  lemma WakeOwedWitness(s: State, s': State, a: Tid)
    requires SleepersOk(s) && s'.timedOut == s.timedOut && At(s.pc, a).OwingWake? && s'.pc == s.pc[a := At(s'.pc, a)]
    requires var q := Queue(s.b.lists, MutexButex);
             && (q != [] ==> q[0] in s'.b.holder && q[0] in s.b.lists.container)
             && (q == [] ==> Queue(s'.b.lists, MutexButex) == [])
    ensures NobodyStranded(s')
  {
    var q := Queue(s.b.lists, MutexButex);
    if q != [] {
      hide NobodyStranded;
      assert At(s.pc, q[0]).Sleeping? && q[0] !in s.timedOut;
      assert Witness(s', q[0]);
      WitnessSuffices(s', q[0]);
    }
  }

  lemma NotifyWord(s: State, a: Tid)
    requires WordOk(s) && Enabled(s, a, Notify)
    ensures WordOk(Apply(s, a, Notify))
  {
    assert Holds(At(s.pc, a)) <==> s.owner == Thread(a);
    WordMoveKeeps(s, Apply(s, a, Notify), a, At(Apply(s, a, Notify).pc, a));
  }

  /** What a signal or broadcast does to the queues. */
  lemma NotifyMoves(s: State, a: Tid)
    requires Butex.Inv(s.b) && Enabled(s, a, Notify)
    ensures var s' := Apply(s, a, Notify); var c := CondButex(At(s.pc, a).c); var q := Queue(s.b.lists, c);
            && Butex.Inv(s'.b) && Moves(s.b, s'.b) && a in s'.b.hands
            && (q != [] ==> q[0] in s'.b.holder && q[0] in s.b.lists.container && s.b.lists.container[q[0]] == c)
            && (q == [] ==> Queue(s'.b.lists, MutexButex) == Queue(s.b.lists, MutexButex))
            && (!At(s.pc, a).all ==> Queue(s'.b.lists, MutexButex) == Queue(s.b.lists, MutexButex))
  {
    var p := At(s.pc, a);
    if p.all { RequeueMoves(s.b, a, CondButex(p.c)); } else { WakeMoves(s.b, a, CondButex(p.c)); }
  }

  lemma NotifyKeeps(s: State, a: Tid)
    requires Safe(s) && Enabled(s, a, Notify)
    ensures Keeps(s, Apply(s, a, Notify))
  {
    NotifyMoves(s, a);
    NotifyWord(s, a);
    NotifyLocals(s, a);
    hide *;
    var s' := Apply(s, a, Notify);
    SafeParts(s);
    SectionKeepsSleepers(s, s', a);
    if NobodyStranded(s) { NotifyWitness(s, s', a); }
    KeepsParts(s, s');
  }

  lemma SafeParts(s: State)
    ensures Safe(s) <==> Butex.Inv(s.b) && WordOk(s) && SleepersOk(s)
  {}

  lemma KeepsParts(s: State, s': State)
    ensures Keeps(s, s') <==> Butex.Inv(s'.b) && WordOk(s') && SleepersOk(s') && (NobodyStranded(s) ==> NobodyStranded(s'))
  {}

  lemma NotifyWitness(s: State, s': State, a: Tid)
    requires SleepersOk(s) && NobodyStranded(s) && At(s.pc, a).Notifying? && Moves(s.b, s'.b)
    requires s'.pc == s.pc[a := At(s'.pc, a)] && s'.timedOut == s.timedOut && s'.contended == s.contended
    requires var c := CondButex(At(s.pc, a).c); var q := Queue(s.b.lists, c);
             && (q != [] ==> q[0] in s'.b.holder && q[0] in s.b.lists.container && s.b.lists.container[q[0]] == c)
             && (q == [] ==> Queue(s'.b.lists, MutexButex) == Queue(s.b.lists, MutexButex))
    ensures NobodyStranded(s')
  {
    var q := Queue(s.b.lists, CondButex(At(s.pc, a).c));
    if q != [] {
      hide Moves, NobodyStranded;
      assert At(s.pc, q[0]) == Sleeping(ForCond(At(s.pc, a).c));
      assert Witness(s', q[0]);
      WitnessSuffices(s', q[0]);
    } else if Queue(s.b.lists, MutexButex) != [] {
      hide SleepersOk;
      SectionKeepsWitness(s, s', a);
    }
  }

  lemma WitnessSuffices(s: State, w: Tid)
    requires Witness(s, w)
    ensures NobodyStranded(s)
  {}

  lemma NotifyLocals(s: State, a: Tid)
    requires Enabled(s, a, Notify)
    ensures var s' := Apply(s, a, Notify); var p := At(s.pc, a);
            p.Notifying? && s'.pc == s.pc[a := Resuming(Return(p.holds))] && s'.timedOut == s.timedOut && s'.contended == s.contended
  {}

  lemma EraseKeeps(s: State, a: Tid, timer: bool)
    requires Safe(s) && Enabled(s, a, Erase(timer))
    ensures Keeps(s, Apply(s, a, Erase(timer)))
  {
    var s' := Apply(s, a, Erase(timer));
    EraseMoves(s.b, a);
    EraseLocals(s, a, timer);
    hide Butex.Inv, WordOk, Butex.Apply, Apply, Enabled;
    if a in s'.b.hands {
      hide NobodyStranded;
      SectionKeepsSleepers(s, s', a);
    }
    if NobodyStranded(s) && Queue(s'.b.lists, MutexButex) != [] {
      hide SleepersOk;
      SectionKeepsWitness(s, s', a);
    }
  }

  lemma EraseLocals(s: State, a: Tid, timer: bool)
    requires WordOk(s) && SleepersOk(s) && Enabled(s, a, Erase(timer))
    ensures var s' := Apply(s, a, Erase(timer));
            && WordOk(s') && s'.pc == s.pc && s'.contended == s.contended
            && s'.b == Butex.Apply(s.b, a, Butex.EraseLock)
            && (forall t :: t in s'.timedOut ==> t in s.timedOut || (t == s.b.erasing[a].w && a in s'.b.hands))
            && (a !in s'.b.hands ==> SleepersOk(s'))
  {
    EraseFields(s, a, timer);
    EraseMissed(s.b, a);
    hide Apply, Butex.Apply;
  }

  lemma EraseFields(s: State, a: Tid, timer: bool)
    requires Enabled(s, a, Erase(timer))
    ensures var s' := Apply(s, a, Erase(timer));
            && s'.pc == s.pc && s'.locked == s.locked && s'.contended == s.contended && s'.owner == s.owner
            && s'.b == Butex.Apply(s.b, a, Butex.EraseLock)
            && (s'.timedOut == s.timedOut || (a in s'.b.hands && s'.timedOut == s.timedOut + {s.b.erasing[a].w}))
  {
    hide Butex.Apply;
  }

  lemma EraseMissed(b: Butex.State, a: Tid)
    requires Butex.Enabled(b, a, Butex.EraseLock)
    ensures var b' := Butex.Apply(b, a, Butex.EraseLock);
            a !in b'.hands ==> b' == b.(erasing := b.erasing[a := Loading(b.erasing[a].w)])
  {}

  lemma SleepKeeps(s: State, a: Tid, interrupted: bool)
    requires Safe(s) && Enabled(s, a, Sleep(interrupted))
    ensures Keeps(s, Apply(s, a, Sleep(interrupted)))
  {
    var s' := Apply(s, a, Sleep(interrupted));
    var p := At(s.pc, a);
    if !Matches(s, p.why, p.e) || interrupted {
      LocalMoveKeeps(s, s', a, At(s'.pc, a));
    } else {
      var q := if p.why.ForMutex? then MutexButex else CondButex(p.why.c);
      Butex.StepKeepsInv(s.b, a, Butex.Enqueue(q, a));
      WordMoveKeeps(s, s', a, At(s'.pc, a));
      SleepSleepers(s, a, q);
      if NobodyStranded(s) { SleepWitness(s, a, q); }
    }
  }

  lemma SleepSleepers(s: State, a: Tid, q: ButexId)
    requires SleepersOk(s) && At(s.pc, a).Enqueuing? && Matches(s, At(s.pc, a).why, At(s.pc, a).e)
    requires q == if At(s.pc, a).why.ForMutex? then MutexButex else CondButex(At(s.pc, a).why.c)
    ensures SleepersOk(Apply(s, a, Sleep(false)))
  {
    var s' := Apply(s, a, Sleep(false));
    SleepEffect(s, a, q);
    hide Apply, Matches;
    assert forall t :: t != a ==> At(s'.pc, t) == At(s.pc, t);
  }

  lemma SleepEffect(s: State, a: Tid, q: ButexId)
    requires At(s.pc, a).Enqueuing? && Matches(s, At(s.pc, a).why, At(s.pc, a).e)
    requires q == if At(s.pc, a).why.ForMutex? then MutexButex else CondButex(At(s.pc, a).why.c)
    requires a !in s.b.lists.container && a !in s.b.holder
    ensures var s' := Apply(s, a, Sleep(false));
            && s'.b.lists.container == s.b.lists.container[a := q] && s'.b.holder == s.b.holder && s'.b.hands == s.b.hands
            && s'.pc == s.pc[a := Sleeping(At(s.pc, a).why)] && s'.timedOut == s.timedOut - {a}
  {}

  lemma SleepWitness(s: State, a: Tid, q: ButexId)
    requires NobodyStranded(s) && SleepersOk(s) && At(s.pc, a).Enqueuing? && Matches(s, At(s.pc, a).why, At(s.pc, a).e)
    requires q == if At(s.pc, a).why.ForMutex? then MutexButex else CondButex(At(s.pc, a).why.c)
    ensures NobodyStranded(Apply(s, a, Sleep(false)))
  {
    var s' := Apply(s, a, Sleep(false));
    if q != MutexButex && Queue(s.b.lists, MutexButex) != [] && !s.contended {
      var w :| Witness(s, w);
      assert Witness(s', w);
    }
  }

  lemma ResumeSleepers(s: State, a: Tid, late: bool)
    requires SleepersOk(s) && Enabled(s, a, Resume(late)) && s.b.hands[a].left[0] in s.b.holder
    requires s.b.hands[a].left[0] !in s.b.lists.container
    ensures SleepersOk(Apply(s, a, Resume(late)))
  {
    var s' := Apply(s, a, Resume(late));
    var x := s.b.hands[a].left[0];
    assert forall t :: t != x ==> At(s'.pc, t) == At(s.pc, t);
  }

  lemma ResumeWitness(s: State, a: Tid, late: bool)
    requires NobodyStranded(s) && Enabled(s, a, Resume(late)) && At(s.pc, s.b.hands[a].left[0]).Sleeping?
    requires !(late && GivesUpLate(s, s.b.hands[a].left[0]))
    ensures NobodyStranded(Apply(s, a, Resume(late)))
  {
    var s' := Apply(s, a, Resume(late));
    if Queue(s.b.lists, MutexButex) != [] && !s.contended {
      var w :| Witness(s, w);
      assert Witness(s', w);
    }
  }

  lemma ResumeWord(s: State, a: Tid, late: bool)
    requires WordOk(s) && Enabled(s, a, Resume(late)) && At(s.pc, s.b.hands[a].left[0]).Sleeping?
    ensures WordOk(Apply(s, a, Resume(late)))
  {
    var s' := Apply(s, a, Resume(late));
    var x := s.b.hands[a].left[0];
    assert !Holds(At(s.pc, x));
    WordMoveKeeps(s, s', x, At(s'.pc, x));
  }

  lemma ResumeKeeps(s: State, a: Tid, late: bool)
    requires Safe(s) && Enabled(s, a, Resume(late))
    ensures Safe(Apply(s, a, Resume(late)))
    ensures !(late && GivesUpLate(s, s.b.hands[a].left[0])) ==> Keeps(s, Apply(s, a, Resume(late)))
  {
    var x := s.b.hands[a].left[0];
    assert At(s.pc, x).Sleeping? && x in s.b.holder && x !in s.b.lists.container by { assert InHand(s.b.hands, a, x); }
    Butex.StepKeepsInv(s.b, a, Butex.Release);
    ResumeSleepers(s, a, late);
    if NobodyStranded(s) && !(late && GivesUpLate(s, x)) { ResumeWitness(s, a, late); }
    ResumeWord(s, a, late);
    hide Butex.Inv, SleepersOk, NobodyStranded, WordOk, Butex.Apply;
  }

  /** Thread `a` is through with its hand; only its own point may change. */
  ghost predicate HandDone(s: State, s': State, a: Tid) {
    && s'.b == s.b.(hands := s.b.hands - {a}) && s'.timedOut == s.timedOut
    && s'.locked == s.locked && s'.contended == s.contended && s'.owner == s.owner
    && s'.pc == (if At(s.pc, a).Resuming? then s.pc[a := At(s'.pc, a)] else s.pc)
    && (At(s.pc, a).Resuming? ==> var p := At(s'.pc, a);
          !p.Sleeping? && !p.Resuming? && !p.OwingWake? && Holds(p) == Holds(At(s.pc, a)))
  }

  lemma DoneIsHandDone(s: State, a: Tid)
    requires Enabled(s, a, Done)
    ensures HandDone(s, Apply(s, a, Done), a)
  {
    FinishIs(s.b, a);
    DoneIs(s, a);
    hide Butex.Apply, Apply, Enabled;
  }

  lemma DoneIs(s: State, a: Tid)
    requires Enabled(s, a, Done)
    ensures a in s.b.hands && s.b.hands[a].left == [] && Apply(s, a, Done) == ApplyDone(s, a)
  {
    hide Butex.Apply, ApplyDone;
  }

  lemma FinishIs(b: Butex.State, a: Tid)
    requires a in b.hands && b.hands[a].left == []
    ensures Butex.Apply(b, a, Butex.Finish) == b.(hands := b.hands - {a})
  {}

  lemma HandDoneWord(s: State, s': State, a: Tid)
    requires WordOk(s) && HandDone(s, s', a)
    ensures WordOk(s')
  {
    if At(s.pc, a).Resuming? {
      assert Holds(At(s.pc, a)) <==> s.owner == Thread(a);
      WordMoveKeeps(s, s', a, At(s'.pc, a));
    }
  }

  lemma HandDoneSleepers(s: State, s': State, a: Tid)
    requires SleepersOk(s) && HandDone(s, s', a)
    ensures SleepersOk(s')
  {
    assert forall t :: t != a ==> At(s'.pc, t) == At(s.pc, t);
    assert forall t :: At(s'.pc, t).Sleeping? <==> At(s.pc, t).Sleeping?;
  }

  lemma HandDoneWitness(s: State, s': State, a: Tid)
    requires NobodyStranded(s) && HandDone(s, s', a)
    ensures NobodyStranded(s')
  {
    if Queue(s'.b.lists, MutexButex) != [] && !s'.contended {
      var w :| Witness(s, w);
      assert Witness(s', w);
    }
  }

  lemma DoneKeeps(s: State, a: Tid)
    requires Safe(s) && Enabled(s, a, Done)
    ensures Keeps(s, Apply(s, a, Done))
  {
    Butex.StepKeepsInv(s.b, a, Butex.Finish);
    DoneIsHandDone(s, a);
    hide Butex.Inv, SleepersOk, NobodyStranded, WordOk, Butex.Apply, HandDone, Apply, Enabled;
    var s' := Apply(s, a, Done);
    HandDoneWord(s, s', a);
    HandDoneSleepers(s, s', a);
    if NobodyStranded(s) { HandDoneWitness(s, s', a); }
    assert s'.b == Butex.Apply(s.b, a, Butex.Finish) by { DoneButex(s, a); }
  }

  lemma DoneButex(s: State, a: Tid)
    requires Enabled(s, a, Done)
    ensures Apply(s, a, Done).b == Butex.Apply(s.b, a, Butex.Finish)
  {}

  lemma LoadChanges(s: State, a: Tid, w: Tid)
    requires Enabled(s, a, LoadContainer(w))
    ensures var b' := Butex.Apply(s.b, a, Butex.EraseLoad(w));
            && Apply(s, a, LoadContainer(w)) == s.(b := b')
            && b'.lists == s.b.lists && b'.hands == s.b.hands && b'.holder == s.b.holder
  {}

  lemma LoadContainerKeeps(s: State, a: Tid, w: Tid)
    requires Safe(s) && Enabled(s, a, LoadContainer(w))
    ensures Keeps(s, Apply(s, a, LoadContainer(w)))
  {
    var s' := Apply(s, a, LoadContainer(w));
    LoadChanges(s, a, w);
    Butex.StepKeepsInv(s.b, a, Butex.EraseLoad(w));
    hide Butex.Inv, Apply, Enabled, Butex.Apply;
    if NobodyStranded(s) && Queue(s'.b.lists, MutexButex) != [] && !s'.contended {
      var v :| Witness(s, v);
      assert Witness(s', v);
    }
  }

  // ------------------------------------------------------------ whole runs

  predicate Timed(p: Pc) {
    p == Contending(true) || ((p.Waiting? || p.Enqueuing? || p.Sleeping?) && p.why == ForMutex(true))
  }

  /** No plain pthread is in a timed lock. */
  ghost predicate Untimed(s: State) {
    forall t :: t in s.b.pthreads ==> !Timed(At(s.pc, t))
  }

  /** The caller's side of it: a plain pthread does not call fiber_mutex_timedlock. */
  predicate Polite(s: State, a: Tid, step: Step) {
    step == LockFirst(true) ==> a !in s.b.pthreads
  }

  /** The one thread whose point a step may change. */
  function Mover(s: State, a: Tid, step: Step): Tid {
    if step.Resume? && Enabled(s, a, step) then s.b.hands[a].left[0] else a
  }

  lemma OnlyMoverMoves(s: State, a: Tid, step: Step, t: Tid)
    requires t != Mover(s, a, step)
    ensures At(Apply(s, a, step).pc, t) == At(s.pc, t)
  {
    hide Butex.Apply;
    match step
    case Sleep(_) =>
    case Notify =>
    case Erase(_) =>
    case Resume(_) =>
    case Done =>
    case _ =>
  }

  lemma SamePthreads(b: Butex.State, a: Tid, step: Butex.Step)
    ensures Butex.Apply(b, a, step).pthreads == b.pthreads
  {}

  lemma SameThreads(s: State, a: Tid, step: Step)
    ensures Apply(s, a, step).b.pthreads == s.b.pthreads
  {
    forall bstep
      ensures Butex.Apply(s.b, a, bstep).pthreads == s.b.pthreads
    {
      SamePthreads(s.b, a, bstep);
    }
    hide Butex.Apply;
  }

  lemma MoverUntimed(s: State, a: Tid, step: Step)
    requires !Timed(At(s.pc, Mover(s, a, step))) && step != LockFirst(true)
    ensures !Timed(At(Apply(s, a, step).pc, Mover(s, a, step)))
  {
    if step.Resume? {
      ResumeUntimed(s, a, step.late);
    } else if IsLocal(step) {
      LocalUntimed(s, a, step);
    } else {
      OtherUntimed(s, a, step);
    }
    hide Apply, Enabled, Timed, Mover;
  }

  lemma LocalUntimed(s: State, a: Tid, step: Step)
    requires !Timed(At(s.pc, a)) && step != LockFirst(true) && IsLocal(step)
    ensures Mover(s, a, step) == a && !Timed(At(Apply(s, a, step).pc, a))
  {}

  lemma ResumeUntimed(s: State, a: Tid, late: bool)
    requires !Timed(At(s.pc, Mover(s, a, Resume(late))))
    ensures !Timed(At(Apply(s, a, Resume(late)).pc, Mover(s, a, Resume(late))))
  {
    hide Butex.Apply;
  }

  lemma OtherUntimed(s: State, a: Tid, step: Step)
    requires !Timed(At(s.pc, a)) && !step.Resume? && !IsLocal(step)
    ensures Mover(s, a, step) == a && !Timed(At(Apply(s, a, step).pc, a))
  {
    hide Butex.Apply;
  }

  lemma UntimedStep(s: State, a: Tid, step: Step)
    requires Untimed(s) && Polite(s, a, step)
    ensures Untimed(Apply(s, a, step)) && Apply(s, a, step).b.pthreads == s.b.pthreads
  {
    SameThreads(s, a, step);
    var s' := Apply(s, a, step);
    hide Apply, Enabled, Mover, Timed;
    forall t | t in s.b.pthreads
      ensures !Timed(At(s'.pc, t))
    {
      assert !Timed(At(s.pc, t));
      if t != Mover(s, a, step) {
        OnlyMoverMoves(s, a, step, t);
      } else if step == LockFirst(true) {
        MoverOfLock(s, a, step);
      } else {
        MoverUntimed(s, a, step);
      }
    }
  }

  lemma MoverOfLock(s: State, a: Tid, step: Step)
    requires step.LockFirst?
    ensures Mover(s, a, step) == a
  {}

  /** The inductive step, for any thread and any step: mutual exclusion and the bookkeeping of
      the queues; and unless a plain pthread gives up a wake too late, nobody is stranded. */
  lemma StepKeepsSafe(s: State, a: Tid, step: Step)
    requires Safe(s)
    ensures Safe(Apply(s, a, step))
    ensures !(step.Resume? && step.late && Enabled(s, a, step) && GivesUpLate(s, s.b.hands[a].left[0])) ==>
              Keeps(s, Apply(s, a, step))
  {
    if Enabled(s, a, step) {
      hide Safe, Apply;
      match step
      case Sleep(i) => SleepKeeps(s, a, i);
      case WakeOwed => WakeOwedKeeps(s, a);
      case Notify => NotifyKeeps(s, a);
      case LoadContainer(w) => LoadContainerKeeps(s, a, w);
      case Erase(timer) => EraseKeeps(s, a, timer);
      case Resume(late) => ResumeKeeps(s, a, late);
      case Done => DoneKeeps(s, a);
      case _ => LocalStepKeeps(s, a, step);
    }
  }

  lemma StepKeepsInv(s: State, a: Tid, step: Step)
    requires Inv(s) && Untimed(s) && Polite(s, a, step)
    ensures Inv(Apply(s, a, step)) && Untimed(Apply(s, a, step))
  {
    UntimedStep(s, a, step);
    StepKeepsSafe(s, a, step);
    hide Apply, Safe;
  }

  function Init(pthreads: set<Tid>): State {
    State.State(false, false, map[], {}, Butex.Init(pthreads), map[], {}, Nobody)
  }

  function Run(s: State, steps: seq<(Tid, Step)>): State
    decreases |steps|
  {
    if steps == [] then s else Run(Apply(s, steps[0].0, steps[0].1), steps[1..])
  }

  ghost predicate AllPolite(pthreads: set<Tid>, steps: seq<(Tid, Step)>) {
    forall i :: 0 <= i < |steps| && steps[i].1 == LockFirst(true) ==> steps[i].0 !in pthreads
  }

  lemma {:induction false} RunKeepsInv(s: State, steps: seq<(Tid, Step)>)
    requires Inv(s) && Untimed(s) && AllPolite(s.b.pthreads, steps)
    ensures Inv(Run(s, steps))
    decreases |steps|
  {
    if steps != [] {
      var (a, step) := steps[0];
      StepKeepsInv(s, a, step);
      UntimedStep(s, a, step);
      RunKeepsInv(Apply(s, a, step), steps[1..]);
    }
  }

  lemma {:induction false} RunKeepsSafe(s: State, steps: seq<(Tid, Step)>)
    requires Safe(s)
    ensures Safe(Run(s, steps))
    decreases |steps|
  {
    if steps != [] {
      var (a, step) := steps[0];
      hide Safe, Apply;
      StepKeepsSafe(s, a, step);
      RunKeepsSafe(Apply(s, a, step), steps[1..]);
    }
  }

  /** In every run at most one thread holds the mutex, and the locked byte is set exactly while
      one does. */
  lemma MutualExclusion(pthreads: set<Tid>, steps: seq<(Tid, Step)>)
    ensures var s := Run(Init(pthreads), steps);
            && (forall t, u :: Holds(At(s.pc, t)) && Holds(At(s.pc, u)) ==> t == u)
            && (s.locked <==> exists t :: Holds(At(s.pc, t)))
  {
    RunKeepsSafe(Init(pthreads), steps);
    var s := Run(Init(pthreads), steps);
    if s.locked { assert Holds(At(s.pc, s.owner.t)); }
  }

  /** While somebody sleeps on the mutex, moved there by a broadcast or not, the word is
      CONTENDED and held, or a wake is still owed, or somebody who has left the queue will
      exchange the word with CONTENDED; so once every thread is idle or asleep in a queue,
      nobody is asleep on the mutex. */
  lemma NoStrandedSleeper(pthreads: set<Tid>, steps: seq<(Tid, Step)>)
    requires AllPolite(pthreads, steps)
    ensures var s := Run(Init(pthreads), steps);
            && (Queue(s.b.lists, MutexButex) != [] ==> (s.contended && s.owner.Thread?) || exists w :: Witness(s, w))
            && ((forall t :: At(s.pc, t).Idle? || t in s.b.lists.container) ==> Queue(s.b.lists, MutexButex) == [])
  {
    var s := Run(Init(pthreads), steps);
    RunKeepsInv(Init(pthreads), steps);
    if forall t :: At(s.pc, t).Idle? || t in s.b.lists.container { QuietMeansEmpty(s); }
  }

  lemma QuietMeansEmpty(s: State)
    requires Inv(s) && forall t :: At(s.pc, t).Idle? || t in s.b.lists.container
    ensures Queue(s.b.lists, MutexButex) == []
  {
    assert forall w :: !Witness(s, w);
    assert s.owner.Thread? ==> Holds(At(s.pc, s.owner.t));
  }

  /** The unlock of a contended mutex owes a wake, and the wake takes the longest sleeper. */
  lemma ContendedUnlockWakes(s: State, a: Tid)
    requires Inv(s) && At(s.pc, a).Holding? && s.contended && Queue(s.b.lists, MutexButex) != [] && Free(s.b, a)
    ensures var s1 := Apply(s, a, Unlock); var s2 := Apply(s1, a, WakeOwed);
            && s1.pc[a] == OwingWake(Return(false)) && !s1.locked
            && s2.b.hands[a].left == [Queue(s.b.lists, MutexButex)[0]]
            && Queue(s2.b.lists, MutexButex) == Queue(s.b.lists, MutexButex)[1..]
  {}

  // ------------------------------------------------------------ signals are not missed

  datatype Read = NoRead | Read(c: nat, e: nat)

  /** The counter value a thread in cond_wait has read and will compare. */
  function PendingRead(p: Pc): Read {
    match p
    case Unlocking(c, e) => Read(c, e)
    case OwingWake(ThenWait(c, e)) => Read(c, e)
    case Resuming(ThenWait(c, e)) => Read(c, e)
    case Waiting(ForCond(c), e) => Read(c, e)
    case Enqueuing(ForCond(c), e) => Read(c, e)
    case _ => NoRead
  }

  ghost predicate ReadOk(s: State, r: Read) {
    r.Read? ==> r.e <= SeqOf(s, r.c) && r.c in s.bound
  }

  ghost predicate ReadsOk(s: State) {
    forall t :: ReadOk(s, PendingRead(At(s.pc, t)))
  }

  lemma CountersGrow(s: State, a: Tid, step: Step)
    ensures forall c :: SeqOf(s, c) <= SeqOf(Apply(s, a, step), c)
    ensures s.bound <= Apply(s, a, step).bound
  {
    hide Butex.Apply;
  }

  lemma MoverReads(s: State, a: Tid, step: Step)
    requires ReadOk(s, PendingRead(At(s.pc, Mover(s, a, step))))
    ensures ReadOk(Apply(s, a, step), PendingRead(At(Apply(s, a, step).pc, Mover(s, a, step))))
  {
    CountersGrow(s, a, step);
    MoverPending(s, a, step);
    hide Apply, Mover, Enabled, PendingRead;
  }

  /** What a step may do to the read of its mover. */
  predicate ReadMoves(s: State, s': State, step: Step, t: Tid) {
    var r := PendingRead(At(s'.pc, t));
    r == NoRead || r == PendingRead(At(s.pc, t)) || (step.CondRead? && r == Read(step.c, SeqOf(s, step.c)) && step.c in s'.bound)
  }

  lemma MoverPending(s: State, a: Tid, step: Step)
    ensures ReadMoves(s, Apply(s, a, step), step, Mover(s, a, step))
  {
    if step.Resume? {
      ResumePending(s, a, step.late);
    } else if IsLocal(step) {
      LocalPending(s, a, step);
    } else {
      OtherPending(s, a, step);
    }
    hide Apply, Enabled, ReadMoves, Mover;
  }

  lemma ResumePending(s: State, a: Tid, late: bool)
    ensures ReadMoves(s, Apply(s, a, Resume(late)), Resume(late), Mover(s, a, Resume(late)))
  {
    hide Butex.Apply;
  }

  lemma LocalPending(s: State, a: Tid, step: Step)
    requires IsLocal(step)
    ensures Mover(s, a, step) == a && ReadMoves(s, Apply(s, a, step), step, a)
  {
    hide Matches;
  }

  lemma OtherPending(s: State, a: Tid, step: Step)
    requires !step.Resume? && !IsLocal(step)
    ensures Mover(s, a, step) == a && ReadMoves(s, Apply(s, a, step), step, a)
  {
    hide Butex.Apply, Matches;
  }

  lemma ReadsStep(s: State, a: Tid, step: Step)
    requires ReadsOk(s)
    ensures ReadsOk(Apply(s, a, step))
  {
    var s' := Apply(s, a, step);
    CountersGrow(s, a, step);
    hide Apply, Enabled, Mover, PendingRead;
    forall t
      ensures ReadOk(s', PendingRead(At(s'.pc, t)))
    {
      assert ReadOk(s, PendingRead(At(s.pc, t)));
      if t != Mover(s, a, step) { OnlyMoverMoves(s, a, step, t); } else { MoverReads(s, a, step); }
    }
  }

  /** A signal or broadcast has come since this thread read the counter. */
  predicate Outdated(s: State, t: Tid) {
    var r := PendingRead(At(s.pc, t));
    r.Read? && r.e < SeqOf(s, r.c)
  }

  /** A signal, or a broadcast once a waiter has bound the mutex, outdates every read made
      before it; only the waiters already queued are left to be woken. */
  lemma SignalOutdates(s: State, a: Tid, step: Step, t: Tid)
    requires ReadsOk(s) && Enabled(s, a, step) && (step.Signal? || step.Broadcast?) && t != a
    requires PendingRead(At(s.pc, t)).Read? && PendingRead(At(s.pc, t)).c == step.c
    ensures Outdated(Apply(s, a, step), t)
  {
    assert ReadOk(s, PendingRead(At(s.pc, t)));
    OnlyMoverMoves(s, a, step, t);
  }

  /** A thread with an outdated read never falls asleep: it stays on its way through
      butex_wait or goes on to lock the mutex. */
  lemma OutdatedStaysAwake(s: State, a: Tid, step: Step, t: Tid)
    requires Inv(s) && Outdated(s, t)
    ensures Outdated(Apply(s, a, step), t) || At(Apply(s, a, step).pc, t) == Contending(false)
  {
    CountersGrow(s, a, step);
    if t != Mover(s, a, step) {
      OnlyMoverMoves(s, a, step, t);
    } else {
      if step.Resume? && Enabled(s, a, step) { assert InHand(s.b.hands, a, t); }
      OutdatedMoves(s, a, step, t);
    }
  }

  lemma OutdatedMoves(s: State, a: Tid, step: Step, t: Tid)
    requires Outdated(s, t) && t == Mover(s, a, step) && (step.Resume? && Enabled(s, a, step) ==> At(s.pc, t).Sleeping?)
    ensures Outdated(Apply(s, a, step), t) || At(Apply(s, a, step).pc, t) == Contending(false)
  {
    CountersGrow(s, a, step);
    hide Butex.Apply;
  }

  // ------------------------------------------------------------ timed locks of plain pthreads

  lemma {:induction false} RunConcat(s: State, a: seq<(Tid, Step)>, b: seq<(Tid, Step)>)
    ensures Run(s, a + b) == Run(Run(s, a), b)
    decreases |a|
  {
    if a == [] {
      assert a + b == b;
    } else {
      assert (a + b)[1..] == a[1..] + b;
      RunConcat(Apply(s, a[0].0, a[0].1), a[1..], b);
    }
  }

  lemma RunStep(s: State, t: Tid, step: Step, rest: seq<(Tid, Step)>)
    ensures Run(s, [(t, step)] + rest) == Run(Apply(s, t, step), rest)
  {
    hide Apply;
    assert ([(t, step)] + rest)[1..] == rest;
  }

  lemma RunFour(s: State, t: Tid, w: Step, x: Step, y: Step, z: Step)
    ensures Run(s, [(t, w), (t, x), (t, y), (t, z)]) == Apply(Apply(Apply(Apply(s, t, w), t, x), t, y), t, z)
  {
    RunStep(s, t, w, [(t, x), (t, y), (t, z)]);
    RunStep(Apply(s, t, w), t, x, [(t, y), (t, z)]);
    RunStep(Apply(Apply(s, t, w), t, x), t, y, [(t, z)]);
    var last := Apply(Apply(Apply(s, t, w), t, x), t, y);
    RunStep(last, t, z, []);
    assert Run(Apply(last, t, z), []) == Apply(last, t, z);
    hide Apply, Run;
    assert [(t, w)] + [(t, x), (t, y), (t, z)] == [(t, w), (t, x), (t, y), (t, z)];
    assert [(t, x)] + [(t, y), (t, z)] == [(t, x), (t, y), (t, z)];
    assert [(t, y)] + [(t, z)] == [(t, y), (t, z)];
    assert [(t, z)] + [] == [(t, z)];
  }

  function LockSteps(t: Tid, timed: bool): seq<(Tid, Step)> {
    [(t, LockFirst(timed)), (t, Exchange), (t, LoadValue(false)), (t, Sleep(false))]
  }

  /** Locking a held mutex, undisturbed, marks the word CONTENDED and queues the thread. */
  lemma LockOfHeldSleeps(s: State, t: Tid, timed: bool)
    requires s.locked && At(s.pc, t).Idle?
    ensures Run(s, LockSteps(t, timed))
         == s.(contended := true, b := Butex.Apply(s.b, t, Butex.Enqueue(MutexButex, t)),
               pc := s.pc[t := Sleeping(ForMutex(timed))], timedOut := s.timedOut - {t})
  {
    RunFour(s, t, LockFirst(timed), Exchange, LoadValue(false), Sleep(false));
    hide Butex.Apply;
    var s1 := Apply(s, t, LockFirst(timed));
    assert s1 == Goto(s, t, Contending(timed));
    var s2 := Apply(s1, t, Exchange);
    assert s2 == Goto(s, t, Waiting(ForMutex(timed), 0)).(contended := true);
    var s3 := Apply(s2, t, LoadValue(false));
    assert s3 == Goto(s, t, Enqueuing(ForMutex(timed), 0)).(contended := true);
  }

  /** Unlocking a contended mutex, undisturbed, takes the first sleeper out and resumes it. */
  lemma UnlockResumesFirst(s: State, t: Tid, late: bool)
    requires At(s.pc, t).Holding? && s.contended && Free(s.b, t) && Queue(s.b.lists, MutexButex) != []
    requires var q := Queue(s.b.lists, MutexButex)[0]; q != t && At(s.pc, q).Sleeping?
    ensures var s' := Run(s, [(t, Unlock), (t, WakeOwed), (t, Resume(late)), (t, Done)]);
            var q := Queue(s.b.lists, MutexButex)[0];
            && s'.pc == s.pc[t := Idle][q := Resumed(At(s.pc, q).why, q in s.timedOut || (late && GivesUpLate(s, q)))]
            && !s'.locked && !s'.contended
            && s'.b.lists == WakeSection(s.b.lists, MutexButex).0 && s'.b.hands == s.b.hands
  {
    RunFour(s, t, Unlock, WakeOwed, Resume(late), Done);
    var q := Queue(s.b.lists, MutexButex)[0];
    var s2 := Apply(Apply(s, t, Unlock), t, WakeOwed);
    UnlockThenWake(s, t);
    ResumeThenDone(s, s2, t, q, late);
  }

  lemma ResumeThenDone(s: State, s2: State, t: Tid, q: Tid, late: bool)
    requires q != t && At(s.pc, q).Sleeping? && t !in s.b.hands
    requires s2.pc == s.pc[t := Resuming(Return(false))] && s2.timedOut == s.timedOut && s2.b.pthreads == s.b.pthreads
    requires s2.b.hands == s.b.hands[t := Hand([q], 0, 1)]
    ensures var s' := Apply(Apply(s2, t, Resume(late)), t, Done);
            && s'.pc == s.pc[t := Idle][q := Resumed(At(s.pc, q).why, q in s.timedOut || (late && GivesUpLate(s, q)))]
            && s'.locked == s2.locked && s'.contended == s2.contended
            && s'.b.lists == s2.b.lists && s'.b.hands == s.b.hands
  {
    ResumeOne(s, s2, t, q, late);
    var s3 := Apply(s2, t, Resume(late));
    assert s.b.hands[t := Hand([q], 0, 1)][t := Hand([], 1, 1)] - {t} == s.b.hands;
    hide Resumed, GivesUpLate;
    assert Enabled(s3, t, Done) && At(s3.pc, t) == Resuming(Return(false));
    assert Apply(s3, t, Done) == ApplyDone(s3, t);
  }

  lemma ResumeOne(s: State, s2: State, t: Tid, q: Tid, late: bool)
    requires q != t && At(s.pc, q).Sleeping? && t !in s.b.hands
    requires s2.pc == s.pc[t := Resuming(Return(false))] && s2.timedOut == s.timedOut && s2.b.pthreads == s.b.pthreads
    requires s2.b.hands == s.b.hands[t := Hand([q], 0, 1)]
    ensures var s3 := Apply(s2, t, Resume(late));
            && s3.pc == s2.pc[q := Resumed(At(s.pc, q).why, q in s.timedOut || (late && GivesUpLate(s, q)))]
            && s3.b.hands == s2.b.hands[t := Hand([], 1, 1)] && s3.b.lists == s2.b.lists
            && s3.locked == s2.locked && s3.contended == s2.contended
  {
    assert [q][1..] == [];
    assert Apply(s2, t, Resume(late)) == ApplyResume(s2, t, late);
  }

  lemma UnlockThenWake(s: State, t: Tid)
    requires At(s.pc, t).Holding? && s.contended && Free(s.b, t) && Queue(s.b.lists, MutexButex) != []
    ensures var s2 := Apply(Apply(s, t, Unlock), t, WakeOwed); var q := Queue(s.b.lists, MutexButex)[0];
            && s2.pc == s.pc[t := Resuming(Return(false))] && !s2.locked && !s2.contended && s2.timedOut == s.timedOut
            && s2.b == Take(s.b, t, WakeSection(s.b.lists, MutexButex)) && s2.b.hands == s.b.hands[t := Hand([q], 0, 1)]
  {
    var s1 := Apply(s, t, Unlock);
    assert s1.b == s.b && s1.pc == s.pc[t := OwingWake(Return(false))];
  }

  /** A plain pthread p in a timed lock and the thread p + 1 queue up behind the holder p + 2; the
      wake of the holder's unlock goes to p, whose futex wait has just timed out. */
  function LateRun(p: Tid): seq<(Tid, Step)> {
    [(p + 2, LockFirst(false))] + LockSteps(p, true) + LockSteps(p + 1, false)
    + [(p + 2, Unlock), (p + 2, WakeOwed), (p + 2, Resume(true)), (p + 2, Done)]
  }

  /** Thread p + 1 then sleeps on a free mutex with nobody left to wake it: a timed lock taken
      by a plain pthread can lose the wake it was given. */
  lemma LateTimeoutStrands(pthreads: set<Tid>, p: Tid)
    requires p in pthreads
    ensures var s := Run(Init(pthreads), LateRun(p));
            && Queue(s.b.lists, MutexButex) == [p + 1] && !s.locked && !s.contended
            && (forall t :: At(s.pc, t).Idle? || (t == p + 1 && t in s.b.lists.container))
  {
    var h, s0 := p + 2, Init(pthreads);
    var first := [(h, LockFirst(false))];
    var last := [(h, Unlock), (h, WakeOwed), (h, Resume(true)), (h, Done)];
    var s1 := Apply(s0, h, LockFirst(false));
    assert Run(s0, first) == s1 by {
      RunStep(s0, h, LockFirst(false), []);
      assert first == first + [];
    }
    assert s1 == s0.(locked := true, owner := Thread(h), pc := map[h := Holding]);
    hide Apply, Run, LockSteps;
    RunConcat(s0, first + LockSteps(p, true) + LockSteps(p + 1, false), last);
    RunConcat(s0, first + LockSteps(p, true), LockSteps(p + 1, false));
    RunConcat(s0, first, LockSteps(p, true));
    LockOfHeldSleeps(s1, p, true);
    var s2 := Run(s1, LockSteps(p, true));
    LockOfHeldSleeps(s2, p + 1, false);
    var s3 := Run(s2, LockSteps(p + 1, false));
    LateQueues(s1.b, p);
    LateUnlock(s3, p);
  }

  lemma LateUnlock(s: State, p: Tid)
    requires s.pc == map[p + 2 := Holding, p := Sleeping(ForMutex(true)), p + 1 := Sleeping(ForMutex(false))] && s.contended
    requires s.b.lists == Lists(map[0 := [p, p + 1]], map[p := 0, p + 1 := 0]) && s.b.hands == map[] && s.b.erasing == map[]
    requires p in s.b.pthreads
    ensures var h := p + 2; var s' := Run(s, [(h, Unlock), (h, WakeOwed), (h, Resume(true)), (h, Done)]);
            && Queue(s'.b.lists, MutexButex) == [p + 1] && !s'.locked && !s'.contended
            && (forall t :: At(s'.pc, t).Idle? || (t == p + 1 && t in s'.b.lists.container))
  {
    hide Apply, Run;
    UnlockResumesFirst(s, p + 2, true);
    assert [p, p + 1][1..] == [p + 1];
  }

  lemma LateQueues(b: Butex.State, p: Tid)
    requires b.lists == Lists(map[], map[]) && b.hands == map[] && b.erasing == map[] && b.holder == map[]
    ensures var b2 := Butex.Apply(Butex.Apply(b, p, Butex.Enqueue(0, p)), p + 1, Butex.Enqueue(0, p + 1));
            && b2.lists == Lists(map[0 := [p, p + 1]], map[p := 0, p + 1 := 0]) && b2.hands == map[] && b2.erasing == map[]
            && b2.pthreads == b.pthreads
  {
    var b1 := Butex.Apply(b, p, Butex.Enqueue(0, p));
    assert b1.lists == Lists(map[0 := [p]], map[p := 0]) by { assert [] + [p] == [p]; }
    assert [p] + [p + 1] == [p, p + 1];
  }

  /** Everybody is through with the mutex or asleep, and somebody sleeps on it. */
  ghost predicate LeavesSleeper(s: State) {
    Queue(s.b.lists, MutexButex) != [] && forall t :: At(s.pc, t).Idle? || t in s.b.lists.container
  }

  /** Only these threads call fiber_mutex_timedlock. */
  ghost predicate OnlyTimed(timed: set<Tid>, steps: seq<(Tid, Step)>) {
    forall i :: 0 <= i < |steps| && steps[i].1 == LockFirst(true) ==> steps[i].0 in timed
  }

  /** No run leaves a sleeper behind exactly when no plain pthread is among the threads that
      make timed locks. */
  lemma TimedLocksAreSafe(pthreads: set<Tid>, timed: set<Tid>)
    ensures (forall steps :: OnlyTimed(timed, steps) ==> !LeavesSleeper(Run(Init(pthreads), steps))) <==> timed !! pthreads
  {
    if timed !! pthreads {
      forall steps | OnlyTimed(timed, steps)
        ensures !LeavesSleeper(Run(Init(pthreads), steps))
      {
        hide Init, Run;
        NoStrandedSleeper(pthreads, steps);
      }
    } else {
      var p :| p in timed && p in pthreads;
      hide Run, Init;
      LateTimeoutStrands(pthreads, p);
      assert OnlyTimed(timed, LateRun(p));
    }
  }
}
