/** The words of eabase/fiber/timer_thread.cc that are changed in place, each locked section or
    atomic access a step of module TimerThread: the version of a task, which decides between
    run_and_delete, try_delete and unschedule, and the fields that TimerThread._mutex guards. */
module TimerWords {
  import T = TimerThread

  /** The task in slot x. */
  class TaskWord {
    const x: nat
    var idVersion: nat
    var version: nat

    ghost predicate Holds(s: T.State)
      reads this
    {
      x < |s.slots| && idVersion == s.slots[x].idVersion && version == s.slots[x].version
    }

    constructor (x: nat)
      ensures this.x == x && idVersion == 0 && version == 2
    {
      this.x, idVersion, version := x, 0, 2;
    }

    /** The part of Bucket::schedule that makes the id. */
    method MakeId(runTime: int, ghost s: T.State) returns (id: nat)
      requires Holds(s) && T.Enabled(s, T.TakeSlot(x, runTime))
      modifies this
      ensures var s' := T.Apply(s, T.TakeSlot(x, runTime)); Holds(s') && id == s'.slots[x].idVersion && id != 0
    {
      if version == 0 {
        version := version + 2;
      }
      id := version;
      idVersion := id;
    }

    method Unschedule(id: nat, ghost s: T.State) returns (r: int)
      requires Holds(s) && T.Issued(s.slots, T.Id(x, id))
      modifies this
      ensures Holds(T.Apply(s, T.Unschedule(T.Id(x, id)))) && r == T.UnscheduleResult(s, T.Id(x, id))
    {
      var found := version;
      if found == id {
        version := id + 2;
        return 0;
      }
      r := if found == id + 1 then 1 else -1;
    }

    /** The compare-exchange of run_and_delete: whether the callback is to be called, and if not
        whether the slot is to be given back. */
    method Start(ghost s: T.State, now: int, ghost y: nat) returns (call: bool, giveBack: bool)
      requires Holds(s) && s.timer == T.RunTask(x)
      modifies this
      ensures var s' := T.Apply(s, T.Time(now, y));
              && Holds(s') && (call <==> s'.timer == T.Running(x))
              && (!call ==> (giveBack <==> s'.returned == s.returned + multiset{T.Id(x, idVersion)}))
    {
      var found := version;
      if found == idVersion {
        version := idVersion + 1;
        return true, false;
      }
      call, giveBack := false, found == idVersion + 2;
    }

    /** The store behind the callback. */
    method Finish(ghost s: T.State, now: int, ghost y: nat)
      requires Holds(s) && s.timer == T.Running(x)
      modifies this
      ensures Holds(T.Apply(s, T.Time(now, y)))
    {
      version := idVersion + 2;
    }

    method TryDelete(ghost s: T.State, now: int) returns (deleted: bool)
      requires Holds(s) && s.timer.Walk? && x in s.timer.pulled
      ensures var s' := T.Apply(s, T.Time(now, x));
              && Holds(s') && (deleted <==> s'.slots[x].place.Pool?) && (!deleted ==> x in s'.heap)
    {
      deleted := version != idVersion;
    }
  }

  /** What TimerThread._mutex guards. */
  class Global {
    var nearestRunTime: int
    var nsignals: nat

    ghost predicate Holds(s: T.State)
      reads this
    {
      nearestRunTime == s.nearest && nsignals == s.nsignals
    }

    constructor (ghost nbuckets: nat)
      ensures Holds(T.Init(nbuckets))
    {
      nearestRunTime, nsignals := T.MAX, 0;
    }

    /** The global section of schedule; returns whether the timer thread has to be woken. */
    method Announce(runTime: int, ghost k: nat, ghost s: T.State) returns (earlier: bool)
      requires Holds(s) && k < |s.pending| && s.pending[k].runTime == runTime
      modifies this
      ensures var s' := T.Apply(s, T.Tell(k)); Holds(s') && s'.owing == s.owing + (if earlier then 1 else 0)
    {
      earlier := false;
      if runTime < nearestRunTime {
        nearestRunTime := runTime;
        nsignals := nsignals + 1;
        earlier := true;
      }
    }

    /** The start of a round of run. */
    method ClearNearest(ghost s: T.State, now: int, ghost y: nat)
      requires Holds(s) && s.timer.Top? && !s.stop
      modifies this
      ensures var s' := T.Apply(s, T.Time(now, y)); Holds(s') && s'.timer == T.Pull(0)
    {
      nearestRunTime := T.MAX;
    }

    /** The check made before a task is run. */
    method PullAgain(runTime: int, ghost s: T.State, now: int, ghost y: nat) returns (again: bool)
      requires Holds(s) && s.timer.Due? && s.timer.x < |s.slots| && s.slots[s.timer.x].runTime == runTime
      ensures var s' := T.Apply(s, T.Time(now, y)); Holds(s') && (again <==> s'.timer.Top?)
    {
      again := runTime > nearestRunTime;
    }

    /** The section before the sleep; `again` when the buckets have to be pulled first. */
    method PlanSleep(next: int, ghost s: T.State, now: int, ghost x: nat) returns (again: bool, expected: nat)
      requires Holds(s) && s.timer.Plan? && (if s.heap == {} then next == T.MAX else T.Earliest(s, x) && next == s.slots[x].runTime)
      modifies this
      ensures var s' := T.Apply(s, T.Time(now, x));
              && Holds(s') && (again <==> s'.timer.Top?) && (!again ==> s'.timer == T.BeforeSleep(next, expected))
    {
      expected := nsignals;
      again := next > nearestRunTime;
      if !again {
        nearestRunTime := next;
      }
    }

    /** The section of stop_and_join. */
    method SignalStop(ghost s: T.State)
      requires Holds(s) && s.stop
      modifies this
      ensures Holds(T.Apply(s, T.SignalStop))
    {
      nearestRunTime := 0;
      nsignals := nsignals + 1;
    }
  }
}
