/** The fields of fiber_mutex_t and fiber_cond_t that are changed in place, each atomic access a
    step of module FiberMutex: the lock word, read and written as two bytes and as a whole
    (eabase/fiber/mutex.cc), and the sequence counter with the bound mutex
    (eabase/fiber/condition_variable.cc). */
module FiberMutexWord {
  import opened Butex
  import M = FiberMutex
  import BitMask

  /** The bytes {1, 0, 0, 0} and {1, 1, 0, 0} as one little-endian number. */
  const LOCKED: nat := 0x1
  const CONTENDED: nat := 0x101

  function WordOf(locked: bool, contended: bool): nat {
    (if locked then 0x1 else 0) + (if contended then 0x100 else 0)
  }

  /** The test of the locked byte in the whole word. */
  lemma LockedBit(locked: bool, contended: bool)
    ensures BitMask.And(WordOf(locked, contended), LOCKED) != 0 <==> locked
    ensures WordOf(locked, contended) % 0x100 != 0 <==> locked
  {
    assert BitMask.IsPowerOfTwo(2) by { assert 2 % 2 == 0 && BitMask.IsPowerOfTwo(1); }
    BitMask.MaskIsRemainder(WordOf(locked, contended), 2);
  }

  class MutexInternal {
    var whole: nat

    ghost predicate Holds(s: M.State)
      reads this
    {
      whole == WordOf(s.locked, s.contended)
    }

    constructor ()
      ensures whole == 0
    {
      whole := 0;
    }

    method ExchangeLocked(v: nat) returns (prev: nat)
      requires v < 0x100
      modifies this
      ensures prev == old(whole) % 0x100 && whole == old(whole) - old(whole) % 0x100 + v
    {
      prev := whole % 0x100;
      whole := whole - prev + v;
    }

    method Exchange(v: nat) returns (prev: nat)
      modifies this
      ensures prev == old(whole) && whole == v
    {
      prev, whole := whole, v;
    }

    method TryLock(a: Tid, ghost s: M.State) returns (got: bool)
      requires Holds(s) && M.At(s.pc, a).Idle?
      modifies this
      ensures var s' := M.Apply(s, a, M.TryLock); Holds(s') && (got <==> M.At(s'.pc, a).Holding?)
    {
      LockedBit(s.locked, s.contended);
      var prev := ExchangeLocked(1);
      got := prev == 0;
    }

    /** What lock and timedlock try first. */
    method LockFirst(a: Tid, timed: bool, ghost s: M.State) returns (got: bool)
      requires Holds(s) && M.At(s.pc, a).Idle?
      modifies this
      ensures var s' := M.Apply(s, a, M.LockFirst(timed));
              Holds(s') && (got <==> M.At(s'.pc, a).Holding?) && (!got ==> M.At(s'.pc, a) == M.Contending(timed))
    {
      LockedBit(s.locked, s.contended);
      var prev := ExchangeLocked(1);
      got := prev == 0;
    }

    /** The condition of the loop of lock_contended. */
    method ExchangeContended(a: Tid, ghost s: M.State) returns (got: bool)
      requires Holds(s) && M.At(s.pc, a).Contending?
      modifies this
      ensures var s' := M.Apply(s, a, M.Exchange);
              Holds(s') && (got <==> M.At(s'.pc, a).Holding?) && (!got ==> M.At(s'.pc, a).Waiting?)
    {
      LockedBit(s.locked, s.contended);
      var prev := Exchange(CONTENDED);
      got := BitMask.And(prev, LOCKED) == 0;
    }

    /** The value test of butex_wait with CONTENDED expected. */
    method StillContended(ghost s: M.State, why: M.Why, e: nat) returns (same: bool)
      requires Holds(s) && why.ForMutex? && (s.contended ==> s.locked)
      ensures same <==> M.Matches(s, why, e)
    {
      same := whole == CONTENDED;
    }

    /** Returns whether a waiter has to be woken. */
    method Unlock(a: Tid, ghost s: M.State) returns (wake: bool)
      requires Holds(s) && M.WordOk(s) && M.At(s.pc, a).Holding?
      modifies this
      ensures var s' := M.Apply(s, a, M.Unlock); Holds(s') && (wake <==> M.At(s'.pc, a).OwingWake?)
    {
      assert M.Holds(M.At(s.pc, a));
      var prev := Exchange(0);
      wake := prev != LOCKED;
    }

    /** The unlock inside cond_wait. */
    method UnlockForWait(a: Tid, ghost s: M.State) returns (wake: bool)
      requires Holds(s) && M.WordOk(s) && M.At(s.pc, a).Unlocking?
      modifies this
      ensures var s' := M.Apply(s, a, M.CondUnlock); Holds(s') && (wake <==> M.At(s'.pc, a).OwingWake?)
    {
      assert M.Holds(M.At(s.pc, a));
      var prev := Exchange(0);
      wake := prev != LOCKED;
    }
  }

  /** Condition variable c. */
  class CondInternal {
    const c: nat
    var seqNumber: nat
    var bound: bool

    ghost predicate Holds(s: M.State)
      reads this
    {
      seqNumber == M.SeqOf(s, c) && (bound <==> c in s.bound)
    }

    constructor (c: nat)
      ensures this.c == c && seqNumber == 0 && !bound
    {
      this.c, seqNumber, bound := c, 0, false;
    }

    /** cond_wait up to the unlock of the mutex: the counter is read and the mutex bound. */
    method ReadAndBind(a: Tid, ghost s: M.State) returns (expected: nat)
      requires Holds(s) && M.At(s.pc, a).Holding?
      modifies this
      ensures var s' := M.Apply(s, a, M.CondRead(c)); Holds(s') && M.At(s'.pc, a) == M.Unlocking(c, expected)
    {
      expected := seqNumber;
      if !bound {
        bound := true;
      }
    }

    method Signal(a: Tid, ghost s: M.State)
      requires Holds(s) && (M.At(s.pc, a).Idle? || M.At(s.pc, a).Holding?)
      modifies this
      ensures Holds(M.Apply(s, a, M.Signal(c)))
    {
      seqNumber := seqNumber + 1;
    }

    /** Returns whether the waiters have to be requeued. */
    method Broadcast(a: Tid, ghost s: M.State) returns (requeue: bool)
      requires Holds(s) && (M.At(s.pc, a).Idle? || M.At(s.pc, a).Holding?)
      modifies this
      ensures var s' := M.Apply(s, a, M.Broadcast(c)); Holds(s') && (requeue <==> M.At(s'.pc, a).Notifying?)
    {
      if !bound {
        return false;
      }
      seqNumber := seqNumber + 1;
      requeue := true;
    }
  }
}
