/** A bucket of eabase/fiber/timer_thread.cc on its real linked list: Bucket::schedule puts a
    task in front, consume_tasks takes the list away, and the pull of TimerThread::run walks it,
    giving back the tasks that were unscheduled. */
module TimerBucket {
  import TimerThread

  const MAX: int := TimerThread.MAX

  class Task {
    var next: Task?
    var runTime: int
    var idVersion: nat
    var version: nat
    var pooled: bool

    constructor (runTime: int, version: nat)
      ensures this.runTime == runTime && this.version == this.idVersion == version && !pooled && next == null
    {
      this.runTime, this.version, this.idVersion, this.pooled, this.next := runTime, version, version, false, null;
    }
  }

  /** From `head` the `next` fields run through the list and end. */
  ghost predicate Chain(head: Task?, list: seq<Task>)
    reads list
  {
    if list == [] then head == null else head == list[0] && Chain(list[0].next, list[1..])
  }

  ghost predicate NoRepeat(list: seq<Task>) {
    forall i, j :: 0 <= i < j < |list| ==> list[i] != list[j]
  }

  /** The tasks of the list that nobody has unscheduled, in order. */
  function Live(list: seq<Task>): seq<Task>
    reads list
  {
    if list == [] then []
    else (if list[0].version == list[0].idVersion then [list[0]] else []) + Live(list[1..])
  }

  function Earliest(list: seq<Task>): int
    reads list
  {
    if list == [] then MAX else if list[0].runTime < Earliest(list[1..]) then list[0].runTime else Earliest(list[1..])
  }

  /** Earliest is the least of the run times and MAX, and one of them. */
  lemma {:induction false} EarliestIsLeast(list: seq<Task>)
    ensures Earliest(list) <= MAX && (forall t :: t in list ==> Earliest(list) <= t.runTime)
    ensures Earliest(list) == MAX || exists t :: t in list && t.runTime == Earliest(list)
  {
    if list != [] {
      EarliestIsLeast(list[1..]);
      assert list == [list[0]] + list[1..];
    }
  }

  /** Live keeps exactly the tasks whose version is still that of their id. */
  lemma {:induction false} LiveIsFilter(list: seq<Task>)
    ensures forall t :: t in Live(list) <==> t in list && t.version == t.idVersion
  {
    if list != [] {
      LiveIsFilter(list[1..]);
      assert list == [list[0]] + list[1..];
    }
  }

  class Bucket {
    var nearestRunTime: int
    var taskHead: Task?
    ghost var list: seq<Task>

    ghost predicate Valid()
      reads this, list
    {
      Chain(taskHead, list) && NoRepeat(list) && nearestRunTime == Earliest(list)
    }

    constructor ()
      ensures Valid() && list == []
    {
      nearestRunTime, taskHead, list := MAX, null, [];
    }

    method Schedule(task: Task) returns (earlier: bool)
      requires Valid() && task !in list
      modifies this, task`next
      ensures Valid() && list == [task] + old(list)
      ensures earlier <==> task.runTime < MAX && forall t :: t in old(list) ==> task.runTime < t.runTime
      ensures nearestRunTime == if earlier then task.runTime else old(nearestRunTime)
    {
      EarliestIsLeast(list);
      ghost var before := list;
      ghost var head := taskHead;
      assert Chain(head, before) && Earliest(before) == nearestRunTime;
      task.next := taskHead;
      taskHead := task;
      list := [task] + list;
      assert list[1..] == before;
      earlier := false;
      if task.runTime < nearestRunTime {
        nearestRunTime := task.runTime;
        earlier := true;
      }
    }

    method ConsumeTasks() returns (head: Task?)
      requires Valid()
      modifies this
      ensures Valid() && list == [] && Chain(head, old(list))
    {
      head := null;
      if taskHead != null {
        head := taskHead;
        taskHead, nearestRunTime, list := null, MAX, [];
      }
    }
  }

  lemma ChainFrame(head: Task?, list: seq<Task>, k: nat)
    requires k < |list| && Chain(head, list[k..])
    ensures head == list[k] && Chain(list[k].next, list[k + 1..])
  {
    assert list[k..][1..] == list[k + 1..];
  }

  /** The walk over one bucket's tasks: what was unscheduled goes back to the pool, which may
      overwrite its `next`; the rest is pushed onto the heap, here in the order met. */
  method PullTasks(head: Task?, ghost list: seq<Task>) returns (kept: seq<Task>)
    requires Chain(head, list) && NoRepeat(list) && forall t :: t in list ==> !t.pooled
    modifies list`next, list`pooled
    ensures kept == old(Live(list))
    ensures forall t :: t in list ==> (t.pooled <==> t.version != t.idVersion)
  {
    kept := [];
    var p := head;
    ghost var k := 0;
    assert list[0..] == list;
    while p != null
      invariant k <= |list| && Chain(p, list[k..])
      invariant kept + old(Live(list[k..])) == old(Live(list))
      invariant forall i :: 0 <= i < k ==> (list[i].pooled <==> list[i].version != list[i].idVersion)
      invariant forall i :: k <= i < |list| ==> !list[i].pooled
      decreases |list| - k
    {
      ChainFrame(p, list, k);
      var next := p.next;
      assert list[k..][1..] == list[k + 1..] && p == list[k];
      assert p !in list[k + 1..];
      if p.version != p.idVersion {
        p.pooled := true;
        p.next := null;
      } else {
        kept := kept + [p];
      }
      p := next;
      k := k + 1;
    }
  }
}
