/** The session lock of eabase/fiber/session.cc: a versioned lock word on a butex, a queue of
    errors posted while it is locked, and a slot that is reused after destruction.

    One locked section, one butex call or one pool access is one step. Lock calls are anonymous
    and named by the version in their id: `entering` are those before their first section,
    `retrying` those that have been contended and are back at it, `waiting` those between their
    section and the wait, `queue` those asleep. The same three for join. Sessions are locked with
    range 0, and neither about_to_destroy nor cancel is called; the words are those of module
    SessionVersion. */
module Session {
  import opened Shared
  import opened SessionVersion

  datatype Phase = Free | Live | Ending | EndingJoins | Returning

  /** A wait to be made: the id's version and the value expected. */
  datatype Wait = Wait(v: nat, expected: nat)

  /** `holders` counts the lock owners, `owed` the wakes that unlockers still have to make.
      `accepted` are the errors taken by the running session, `handled` those given to on_error.
      `restarted` is set when create starts the counter of a used slot at 1 again. */
  datatype State = State(
    m: Meta, phase: Phase, used: bool, restarted: bool, holders: nat, owed: nat,
    entering: seq<nat>, retrying: seq<nat>, waiting: seq<Wait>, queue: seq<nat>,
    joining: seq<nat>, joinWaiting: seq<Wait>, joinQueue: seq<nat>,
    pending: seq<nat>, accepted: seq<nat>, handled: seq<nat>)

  datatype Step =
    | CreateSession(range: int)
    | CallLock(v: nat)
    | FirstSection(k: nat)
    | RetrySection(k: nat)
    | Sleep(k: nat)
    | Interrupt(k: nat)
    | TryLockSection(v: nat)
    | ErrorSection(v: nat, e: nat)
    | UnlockSection(v: nat)
    | WakeOne
    | DestroySection(v: nat)
    | WakeAll
    | WakeJoiners
    | Return
    | CallJoin(v: nat)
    | JoinSection(k: nat)
    | JoinSleep(k: nat)

  /** The owner alone unlocks or destroys what it has locked; other calls return an error. */
  predicate Enabled(s: State, step: Step) {
    match step
    case CreateSession(range) => s.phase.Free? && 1 <= range <= MAX_RANGE
    case FirstSection(k) => k < |s.entering|
    case RetrySection(k) => k < |s.retrying|
    case Sleep(k) => k < |s.waiting|
    case Interrupt(k) => k < |s.queue|
    case UnlockSection(v) => IsTaken(s.m, v) ==> s.holders > 0
    case WakeOne => s.owed > 0
    case DestroySection(v) => IsTaken(s.m, v) ==> s.holders > 0
    case WakeAll => s.phase.Ending?
    case WakeJoiners => s.phase.EndingJoins?
    case Return => s.phase.Returning?
    case JoinSection(k) => k < |s.joining|
    case JoinSleep(k) => k < |s.joinWaiting|
    case _ => true
  }

  /** One round of the loop of lock for a call with version v. */
  function LockRound(s: State, v: nat, everContended: bool): State {
    var s1 := s.(m := Lock(s.m, v, 0, everContended));
    match LockOutcome(s.m, v)
    case Locked => s1.(holders := s.holders + 1)
    case MustWait => s1.(waiting := s.waiting + [Wait(v, ContendedVer(s.m))])
    case _ => s1
  }

  function ErrorRound(s: State, v: nat, e: nat): State {
    if IsFree(s.m, v) then
      s.(m := s.m.(butex := s.m.lockedVer), holders := s.holders + 1, accepted := s.accepted + [e], handled := s.handled + [e])
    else if IsTaken(s.m, v) then s.(accepted := s.accepted + [e], pending := s.pending + [e])
    else s
  }

  function UnlockRound(s: State, v: nat): State
    requires IsTaken(s.m, v) ==> s.holders > 0
  {
    if !IsTaken(s.m, v) then s
    else if s.pending != [] then s.(pending := s.pending[1..], handled := s.handled + [s.pending[0]])
    else
      s.(m := s.m.(butex := s.m.firstVer), holders := s.holders - 1,
         owed := if s.m.butex == ContendedVer(s.m) then s.owed + 1 else s.owed)
  }

  function Apply(s: State, step: Step): State {
    if !Enabled(s, step) then s else
    match step
    case CreateSession(range) =>
      s.(m := Create(s.m, range), phase := Live, used := true, accepted := [], handled := [],
         restarted := s.restarted || (s.used && FirstOf(s.m) != s.m.butex))
    case CallLock(v) => s.(entering := s.entering + [v])
    case FirstSection(k) => LockRound(s.(entering := Without(s.entering, k)), s.entering[k], false)
    case RetrySection(k) => LockRound(s.(retrying := Without(s.retrying, k)), s.retrying[k], true)
    case Sleep(k) =>
      var w := s.waiting[k];
      var s1 := s.(waiting := Without(s.waiting, k));
      if s.m.butex == w.expected then s1.(queue := s.queue + [w.v]) else s1.(retrying := s.retrying + [w.v])
    case Interrupt(k) => s.(queue := Without(s.queue, k), retrying := s.retrying + [s.queue[k]])
    case TryLockSection(v) => if IsFree(s.m, v) then s.(m := s.m.(butex := s.m.lockedVer), holders := s.holders + 1) else s
    case ErrorSection(v, e) => ErrorRound(s, v, e)
    case UnlockSection(v) => UnlockRound(s, v)
    case WakeOne =>
      var s1 := s.(owed := s.owed - 1);
      if s.queue == [] then s1 else s1.(queue := s.queue[1..], retrying := s.retrying + [s.queue[0]])
    case DestroySection(v) =>
      if IsTaken(s.m, v) then s.(m := End(s.m), holders := s.holders - 1, pending := [], phase := Ending) else s
    case WakeAll => s.(phase := EndingJoins, queue := [], retrying := s.retrying + s.queue)
    case WakeJoiners => s.(phase := Returning, joinQueue := [], joining := s.joining + s.joinQueue)
    case Return => s.(phase := Free)
    case CallJoin(v) => s.(joining := s.joining + [v])
    case JoinSection(k) =>
      var v := s.joining[k];
      var s1 := s.(joining := Without(s.joining, k));
      if HasVersion(s.m, v) then s1.(joinWaiting := s.joinWaiting + [Wait(v, s.m.joinButex)]) else s1
    case JoinSleep(k) =>
      var w := s.joinWaiting[k];
      var s1 := s.(joinWaiting := Without(s.joinWaiting, k));
      if s.m.joinButex == w.expected then s1.(joinQueue := s.joinQueue + [w.v]) else s1.(joining := s.joining + [w.v])
  }

  // ------------------------------------------------------------ what every step keeps

  /** The words of a live session, of which at most one caller is the owner. */
  predicate LockOk(s: State) {
    && s.holders == One(s.phase.Live? && s.m.butex != s.m.firstVer)
    && if s.phase.Live? then LiveOk(s.m) && s.m.butex <= s.m.lockedVer + 1 && s.m.joinButex == s.m.firstVer
       else s.m.butex == s.m.firstVer == s.m.lockedVer == s.m.joinButex < WIDTH
  }

  /** Errors are taken and handled in one order, and a free session has none left. */
  predicate ErrorsOk(s: State) {
    && (s.phase.Live? ==> s.accepted == s.handled + s.pending)
    && (!s.phase.Live? ==> s.pending == [] && s.handled <= s.accepted)
    && (s.phase.Live? && s.m.butex == s.m.firstVer ==> s.pending == [])
  }

  /** A value read by a call of an earlier session cannot be met again. */
  predicate Stale(m: Meta, live: bool, expected: nat) {
    expected > 0 && (live || m.butex != 0 ==> expected < m.firstVer)
  }

  ghost predicate WaitsOk(m: Meta, live: bool, waiting: seq<Wait>) {
    forall k :: 0 <= k < |waiting| ==>
      Stale(m, live, waiting[k].expected) || (live && HasVersion(m, waiting[k].v) && waiting[k].expected == m.lockedVer + 1)
  }

  ghost predicate JoinWaitsOk(m: Meta, live: bool, waiting: seq<Wait>) {
    forall k :: 0 <= k < |waiting| ==>
      Stale(m, live, waiting[k].expected) || (live && HasVersion(m, waiting[k].v) && waiting[k].expected == m.firstVer)
  }

  ghost predicate AllCurrent(m: Meta, ids: seq<nat>) {
    forall k :: 0 <= k < |ids| ==> HasVersion(m, ids[k])
  }

  ghost predicate SomeCurrent(m: Meta, ids: seq<nat>) {
    exists k :: 0 <= k < |ids| && HasVersion(m, ids[k])
  }

  /** Sleepers belong to the session that lives or is just ending. */
  ghost predicate QueuesOk(s: State) {
    && (s.phase.Live? ==> AllCurrent(s.m, s.queue) && AllCurrent(s.m, s.joinQueue))
    && (s.phase.Free? || s.phase.EndingJoins? || s.phase.Returning? ==> s.queue == [])
    && (s.phase.Free? || s.phase.Returning? ==> s.joinQueue == [])
  }

  /** While somebody sleeps on a live session the word is contended, or an unlocker owes a
      wake, or a call that has been contended before is about to try again. */
  ghost predicate Covered(s: State) {
    s.phase.Live? && s.queue != [] ==> s.m.butex == s.m.lockedVer + 1 || s.owed > 0 || SomeCurrent(s.m, s.retrying)
  }

  /** Before its first session nobody has been in the slot. */
  predicate UsedOk(s: State) {
    !s.used ==> !s.phase.Live? && s.waiting == [] && s.joinWaiting == [] && s.queue == [] && s.m.butex == 0
  }

  ghost predicate Inv(s: State) {
    && LockOk(s) && ErrorsOk(s) && UsedOk(s)
    && (!s.restarted ==>
          && WaitsOk(s.m, s.phase.Live?, s.waiting) && JoinWaitsOk(s.m, s.phase.Live?, s.joinWaiting)
          && QueuesOk(s) && Covered(s))
  }

  /** What the words of the live session are. */
  lemma Words(s: State)
    requires LockOk(s)
    ensures s.phase.Live? ==> ContendedVer(s.m) == s.m.lockedVer + 1 && UnlockableVer(s.m) == s.m.lockedVer + 2 && EndVer(s.m) < WIDTH
    ensures s.phase.Live? && EndVer(s.m) != 0 ==> EndVer(s.m) == s.m.lockedVer + 3
  {
    if s.phase.Live? { SectionKeepsLive(s.m, 0, 0, false); }
    hide Wrap;
  }

  lemma SomeMore(m: Meta, ids: seq<nat>, v: nat)
    ensures SomeCurrent(m, ids) || HasVersion(m, v) ==> SomeCurrent(m, ids + [v])
  {
    if HasVersion(m, v) {
      assert (ids + [v])[|ids|] == v;
    } else if k :| 0 <= k < |ids| && HasVersion(m, ids[k]) {
      assert (ids + [v])[k] == ids[k];
    }
  }

  lemma SomeLess(m: Meta, ids: seq<nat>, k: nat)
    requires k < |ids| && SomeCurrent(m, ids) && !HasVersion(m, ids[k])
    ensures SomeCurrent(m, Without(ids, k))
  {
    var j :| 0 <= j < |ids| && HasVersion(m, ids[j]);
    assert Without(ids, k)[if j < k then j else j - 1] == ids[j];
  }

  lemma CreateKeeps(s: State, range: int)
    requires Inv(s) && Enabled(s, CreateSession(range))
    ensures Inv(Apply(s, CreateSession(range)))
  {
    Words(s);
    hide Wrap, ContendedVer, UnlockableVer, EndVer;
  }

  lemma CallLockKeeps(s: State, v: nat)
    requires Inv(s) && Enabled(s, CallLock(v))
    ensures Inv(Apply(s, CallLock(v)))
  {
    Words(s);
    hide Wrap, ContendedVer, UnlockableVer, EndVer;
  }

  lemma FirstKeeps(s: State, k: nat)
    requires Inv(s) && Enabled(s, FirstSection(k))
    ensures Inv(Apply(s, FirstSection(k)))
  {
    Words(s);
    hide Wrap, ContendedVer, UnlockableVer, EndVer;
  }

  lemma RetryKeeps(s: State, k: nat)
    requires Inv(s) && Enabled(s, RetrySection(k))
    ensures Inv(Apply(s, RetrySection(k)))
  {
    Words(s);
    if SomeCurrent(s.m, s.retrying) && !HasVersion(s.m, s.retrying[k]) { SomeLess(s.m, s.retrying, k); }
    hide Wrap, ContendedVer, UnlockableVer, EndVer;
  }

  lemma SleepKeeps(s: State, k: nat)
    requires Inv(s) && Enabled(s, Sleep(k))
    ensures Inv(Apply(s, Sleep(k)))
  {
    Words(s);
    SomeMore(s.m, s.retrying, s.waiting[k].v);
    hide Wrap, ContendedVer, UnlockableVer, EndVer;
  }

  lemma InterruptKeeps(s: State, k: nat)
    requires Inv(s) && Enabled(s, Interrupt(k))
    ensures Inv(Apply(s, Interrupt(k)))
  {
    Words(s);
    SomeMore(s.m, s.retrying, s.queue[k]);
    hide Wrap, ContendedVer, UnlockableVer, EndVer;
  }

  lemma TryLockKeeps(s: State, v: nat)
    requires Inv(s) && Enabled(s, TryLockSection(v))
    ensures Inv(Apply(s, TryLockSection(v)))
  {
    Words(s);
    hide Wrap, ContendedVer, UnlockableVer, EndVer;
  }

  lemma ErrorKeeps(s: State, v: nat, e: nat)
    requires Inv(s) && Enabled(s, ErrorSection(v, e))
    ensures Inv(Apply(s, ErrorSection(v, e)))
  {
    Words(s);
    hide Wrap, ContendedVer, UnlockableVer, EndVer;
  }

  lemma UnlockKeeps(s: State, v: nat)
    requires Inv(s) && Enabled(s, UnlockSection(v))
    ensures Inv(Apply(s, UnlockSection(v)))
  {
    Words(s);
    hide Wrap, ContendedVer, UnlockableVer, EndVer;
  }

  lemma WakeOneKeeps(s: State)
    requires Inv(s) && Enabled(s, WakeOne)
    ensures Inv(Apply(s, WakeOne))
  {
    Words(s);
    if s.queue != [] { SomeMore(s.m, s.retrying, s.queue[0]); }
    hide Wrap, ContendedVer, UnlockableVer, EndVer;
  }

  lemma DestroyKeeps(s: State, v: nat)
    requires Inv(s) && Enabled(s, DestroySection(v))
    ensures Inv(Apply(s, DestroySection(v)))
  {
    Words(s);
    hide Wrap, ContendedVer, UnlockableVer, EndVer;
  }

  lemma WakeAllKeeps(s: State)
    requires Inv(s) && Enabled(s, WakeAll)
    ensures Inv(Apply(s, WakeAll))
  {
    Words(s);
    hide Wrap, ContendedVer, UnlockableVer, EndVer;
  }

  lemma WakeJoinersKeeps(s: State)
    requires Inv(s) && Enabled(s, WakeJoiners)
    ensures Inv(Apply(s, WakeJoiners))
  {
    Words(s);
    hide Wrap, ContendedVer, UnlockableVer, EndVer;
  }

  lemma ReturnKeeps(s: State)
    requires Inv(s) && Enabled(s, Return)
    ensures Inv(Apply(s, Return))
  {
    Words(s);
    hide Wrap, ContendedVer, UnlockableVer, EndVer;
  }

  lemma CallJoinKeeps(s: State, v: nat)
    requires Inv(s) && Enabled(s, CallJoin(v))
    ensures Inv(Apply(s, CallJoin(v)))
  {
    Words(s);
    hide Wrap, ContendedVer, UnlockableVer, EndVer;
  }

  lemma JoinKeeps(s: State, k: nat)
    requires Inv(s) && Enabled(s, JoinSection(k))
    ensures Inv(Apply(s, JoinSection(k)))
  {
    Words(s);
    hide Wrap, ContendedVer, UnlockableVer, EndVer;
  }

  lemma JoinSleepKeeps(s: State, k: nat)
    requires Inv(s) && Enabled(s, JoinSleep(k))
    ensures Inv(Apply(s, JoinSleep(k)))
  {
    Words(s);
    hide Wrap, ContendedVer, UnlockableVer, EndVer;
  }

  lemma StepKeepsInv(s: State, step: Step)
    requires Inv(s)
    ensures Inv(Apply(s, step))
  {
    if Enabled(s, step) {
      hide Inv, Enabled, Apply;
      match step
      case CreateSession(range) => CreateKeeps(s, range);
      case CallLock(v) => CallLockKeeps(s, v);
      case FirstSection(k) => FirstKeeps(s, k);
      case RetrySection(k) => RetryKeeps(s, k);
      case Sleep(k) => SleepKeeps(s, k);
      case Interrupt(k) => InterruptKeeps(s, k);
      case TryLockSection(v) => TryLockKeeps(s, v);
      case ErrorSection(v, e) => ErrorKeeps(s, v, e);
      case UnlockSection(v) => UnlockKeeps(s, v);
      case WakeOne => WakeOneKeeps(s);
      case DestroySection(v) => DestroyKeeps(s, v);
      case WakeAll => WakeAllKeeps(s);
      case WakeJoiners => WakeJoinersKeeps(s);
      case Return => ReturnKeeps(s);
      case CallJoin(v) => CallJoinKeeps(s, v);
      case JoinSection(k) => JoinKeeps(s, k);
      case JoinSleep(k) => JoinSleepKeeps(s, k);
    }
  }

  // ------------------------------------------------------------ whole runs

  function Init(): State {
    State.State(Meta(0, 0, 0, 0), Free, false, false, 0, 0, [], [], [], [], [], [], [], [], [], [])
  }

  function Run(s: State, steps: seq<Step>): State
    decreases |steps|
  {
    if steps == [] then s else Run(Apply(s, steps[0]), steps[1..])
  }

  lemma {:induction false} RunKeepsInv(s: State, steps: seq<Step>)
    requires Inv(s)
    ensures Inv(Run(s, steps))
    decreases |steps|
  {
    hide Inv, Apply;
    if steps != [] {
      StepKeepsInv(s, steps[0]);
      RunKeepsInv(Apply(s, steps[0]), steps[1..]);
    }
  }

  lemma RunFromInit(steps: seq<Step>)
    ensures Inv(Run(Init(), steps))
  {
    RunKeepsInv(Init(), steps);
  }

  /** A session has one owner exactly while its word says locked. */
  lemma OneOwner(steps: seq<Step>)
    ensures var s := Run(Init(), steps);
            s.holders <= 1 && (s.holders == 1 <==> s.phase.Live? && s.m.butex != s.m.firstVer)
  {
    RunFromInit(steps);
    hide Run;
  }

  /** A sleeping lock call is never forgotten, across destruction and reuse of the slot: on a
      live session the word is contended or a wake is owed or a contended call is about to
      retry, a dead session's destroyer still owes a wake to all, and the next user of the slot
      finds nobody asleep. */
  lemma NoLockerStranded(steps: seq<Step>)
    ensures var s := Run(Init(), steps);
            !s.restarted && s.queue != [] ==>
              (s.phase.Live? && AllCurrent(s.m, s.queue)
               && (s.m.butex == ContendedVer(s.m) || s.owed > 0 || SomeCurrent(s.m, s.retrying)))
              || s.phase.Ending?
  {
    RunFromInit(steps);
    Words(Run(Init(), steps));
    hide Run, Wrap;
  }

  /** When the session is free, no wake is owed and no call is on its way, nobody sleeps. */
  lemma QuietMeansNoSleeper(steps: seq<Step>)
    ensures var s := Run(Init(), steps);
            !s.restarted && s.phase.Live? && s.holders == 0 && s.owed == 0 && s.retrying == [] ==> s.queue == []
  {
    RunFromInit(steps);
    hide Run, Wrap;
  }

  /** A join call sleeps only while its session lives or its destroyer has yet to wake it. */
  lemma JoinersWoken(steps: seq<Step>)
    ensures var s := Run(Init(), steps);
            !s.restarted && s.joinQueue != [] ==>
              (s.phase.Live? && AllCurrent(s.m, s.joinQueue)) || s.phase.Ending? || s.phase.EndingJoins?
  {
    RunFromInit(steps);
    hide Run, Wrap;
  }

  /** The errors taken by a session reach on_error in the order they were posted, each once:
      what has been handled and what is pending together are what was taken. A session is
      unlocked only when nothing is pending. */
  lemma ErrorsHandledInOrder(steps: seq<Step>)
    ensures var s := Run(Init(), steps);
            && (s.phase.Live? ==> s.accepted == s.handled + s.pending)
            && (s.phase.Live? && s.holders == 0 ==> s.pending == [] && s.handled == s.accepted)
            && (!s.phase.Live? ==> s.pending == [] && s.handled <= s.accepted)
  {
    RunFromInit(steps);
    hide Run, Wrap;
  }

  /** Only destruction drops errors, and then exactly those pending. */
  lemma OnlyDestroyDrops(steps: seq<Step>, step: Step)
    ensures var s := Run(Init(), steps); var s' := Apply(s, step);
            s.phase.Live? && s'.pending == [] && s.pending != [] ==>
              s'.handled == s'.accepted || (step.DestroySection? && s'.phase.Ending? && s'.accepted == s'.handled + s.pending)
  {
    RunFromInit(steps);
    StepKeepsInv(Run(Init(), steps), step);
    hide Run, Wrap;
  }
}
