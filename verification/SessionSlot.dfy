/** The record of a session slot (struct Id of eabase/fiber/session.cc) and the locked sections
    of the calls on it, each a step of module Session. */
module SessionSlot {
  import opened SessionVersion
  import Session
  import Queue = SmallQueue

  datatype UnlockResult = Unlocked(wake: bool) | CallOnError(e: nat) | NotLocked | NoSuchSession

  class Id {
    var firstVer: nat
    var lockedVer: nat
    var butex: nat
    var joinButex: nat
    const pendingQ: Queue.SmallQueue<nat>

    ghost predicate Valid()
      reads this, pendingQ, pendingQ.c
    {
      pendingQ.Valid()
    }

    function Words(): Meta
      reads this
    {
      Meta(butex, firstVer, lockedVer, joinButex)
    }

    ghost predicate Holds(s: Session.State)
      reads this, pendingQ, pendingQ.c
    {
      Valid() && Words() == s.m && pendingQ.Contents() == s.pending
    }

    constructor ()
      ensures Holds(Session.Init()) && fresh(pendingQ) && fresh(pendingQ.c)
    {
      firstVer, lockedVer, butex, joinButex := 0, 0, 0, 0;
      pendingQ := new Queue.SmallQueue<nat>(2);
    }

    method CreateRanged(range: int, ghost s: Session.State) returns (ok: bool, id: nat)
      requires Holds(s) && s.phase.Free?
      modifies this
      ensures Holds(Session.Apply(s, Session.CreateSession(range)))
      ensures (ok <==> 1 <= range <= MAX_RANGE) && (ok ==> id == firstVer)
    {
      ok, id := false, 0;
      if range < 1 || range > MAX_RANGE {
        return;
      }
      if butex == 0 || Wrap(butex + MAX_RANGE + 2) < butex {
        butex := 1;
      }
      joinButex := butex;
      firstVer := butex;
      lockedVer := Wrap(butex + range);
      ok, id := true, butex;
    }

    /** One round of the loop of lock; MustWait comes with the value to wait for. */
    method LockSection(v: nat, everContended: bool, ghost s: Session.State) returns (result: LockResult, expected: nat)
      requires Holds(s)
      modifies this
      ensures result == LockOutcome(s.m, v) && Holds(Session.LockRound(s, v, everContended))
      ensures result == MustWait ==> Session.LockRound(s, v, everContended).waiting == s.waiting + [Session.Wait(v, expected)]
    {
      result, expected := NoSuchId, 0;
      if firstVer <= v < lockedVer {
        if butex == firstVer {
          butex := if everContended then Wrap(lockedVer + 1) else lockedVer;
          result := Locked;
        } else if butex != Wrap(lockedVer + 2) {
          butex := Wrap(lockedVer + 1);
          result, expected := MustWait, butex;
        } else {
          result := AboutToEnd;
        }
      }
    }

    method TryLock(v: nat, ghost s: Session.State) returns (result: LockResult)
      requires Holds(s)
      modifies this
      ensures Holds(Session.Apply(s, Session.TryLockSection(v)))
      ensures result == if IsFree(s.m, v) then Locked else if HasVersion(s.m, v) then MustWait else NoSuchId
    {
      result := NoSuchId;
      if firstVer <= v < lockedVer {
        result := MustWait;
        if butex == firstVer {
          butex := lockedVer;
          result := Locked;
        }
      }
    }

    /** Returns whether the caller now owns the session and must call on_error itself. */
    method Error(v: nat, e: nat, ghost s: Session.State) returns (found: bool, callOnError: bool)
      requires Holds(s)
      modifies this, pendingQ, pendingQ.c
      ensures Holds(Session.Apply(s, Session.ErrorSection(v, e)))
      ensures (found <==> HasVersion(s.m, v)) && (callOnError <==> IsFree(s.m, v))
    {
      found, callOnError := firstVer <= v < lockedVer, false;
      if found {
        if butex == firstVer {
          butex := lockedVer;
          callOnError := true;
        } else {
          pendingQ.Push(e);
        }
      }
    }

    method Unlock(v: nat, ghost s: Session.State) returns (result: UnlockResult)
      requires Holds(s) && (IsTaken(s.m, v) ==> s.holders > 0)
      modifies this, pendingQ
      ensures Holds(Session.Apply(s, Session.UnlockSection(v)))
      ensures IsTaken(s.m, v) ==>
                result == (if s.pending != [] then CallOnError(s.pending[0]) else Unlocked(s.m.butex == ContendedVer(s.m)))
      ensures !IsTaken(s.m, v) ==> result == if HasVersion(s.m, v) then NotLocked else NoSuchSession
    {
      if !(firstVer <= v < lockedVer) {
        return NoSuchSession;
      }
      if butex == firstVer {
        return NotLocked;
      }
      var some, front := pendingQ.Pop();
      if some {
        assert s.pending[0] == front && s.pending[1..] == pendingQ.Contents();
        return CallOnError(front);
      }
      var contended := butex == Wrap(lockedVer + 1);
      butex := firstVer;
      return Unlocked(contended);
    }

    method UnlockAndDestroy(v: nat, ghost s: Session.State) returns (ok: bool)
      requires Holds(s) && (IsTaken(s.m, v) ==> s.holders > 0)
      modifies this, pendingQ
      ensures Holds(Session.Apply(s, Session.DestroySection(v))) && (ok <==> IsTaken(s.m, v))
    {
      ok := firstVer <= v < lockedVer && butex != firstVer;
      if ok {
        var nextVer := Wrap(Wrap(lockedVer + 2) + 1);
        butex, joinButex, firstVer, lockedVer := nextVer, nextVer, nextVer, nextVer;
        pendingQ.Clear();
      }
    }
  }
}
