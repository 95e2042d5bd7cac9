/** The version words of a session slot (struct Id of eabase/fiber/session.cc) and what each
    locked section does to them, in 32-bit arithmetic. */
module SessionVersion {

  const WIDTH: nat := 0x1_0000_0000
  const MAX_RANGE: nat := 1024

  function Wrap(x: int): nat {
    x % WIDTH
  }

  /** `butex` is the state word: firstVer when unlocked, lockedVer, ContendedVer or
      UnlockableVer when locked. */
  datatype Meta = Meta(butex: nat, firstVer: nat, lockedVer: nat, joinButex: nat)

  predicate HasVersion(m: Meta, v: nat) {
    m.firstVer <= v < m.lockedVer
  }

  function ContendedVer(m: Meta): nat {
    Wrap(m.lockedVer + 1)
  }

  function UnlockableVer(m: Meta): nat {
    Wrap(m.lockedVer + 2)
  }

  function EndVer(m: Meta): nat {
    Wrap(UnlockableVer(m) + 1)
  }

  /** create: the counter starts again at 1 when it is 0 or too close to the end. */
  function FirstOf(m: Meta): nat {
    if m.butex == 0 || Wrap(m.butex + MAX_RANGE + 2) < m.butex then 1 else m.butex
  }

  function Create(m: Meta, range: int): Meta {
    var b := FirstOf(m);
    Meta(b, b, Wrap(b + range), b)
  }

  /** The locked version after lock_and_reset_range takes a free session. */
  function ResetRange(m: Meta, range: int): nat {
    if range <= 0 || range > MAX_RANGE || Wrap(range + m.firstVer) <= m.lockedVer then m.lockedVer
    else Wrap(m.firstVer + range)
  }

  function LockFree(m: Meta, range: int, everContended: bool): Meta {
    var m1 := m.(lockedVer := ResetRange(m, range));
    m1.(butex := if everContended then ContendedVer(m1) else m1.lockedVer)
  }

  /** What lock finds. */
  datatype LockResult = Locked | MustWait | AboutToEnd | NoSuchId

  function LockOutcome(m: Meta, v: nat): LockResult {
    if !HasVersion(m, v) then NoSuchId
    else if m.butex == m.firstVer then Locked
    else if m.butex != UnlockableVer(m) then MustWait
    else AboutToEnd
  }

  function Lock(m: Meta, v: nat, range: int, everContended: bool): Meta {
    match LockOutcome(m, v)
    case Locked => LockFree(m, range, everContended)
    case MustWait => m.(butex := ContendedVer(m))
    case _ => m
  }

  predicate IsFree(m: Meta, v: nat) {
    HasVersion(m, v) && m.butex == m.firstVer
  }

  predicate IsTaken(m: Meta, v: nat) {
    HasVersion(m, v) && m.butex != m.firstVer
  }

  /** The new words of a session that ends. */
  function End(m: Meta): Meta {
    Meta(EndVer(m), EndVer(m), EndVer(m), EndVer(m))
  }

  // ------------------------------------------------------------ runs

  datatype Op =
    | Start(range: int)
    | LockWith(v: nat, range: int, everContended: bool)
    | TryLock(v: nat)
    | Error(v: nat)
    | Unlock(v: nat, quiet: bool)
    | AboutToDestroy(v: nat)
    | UnlockAndDestroy(v: nat)
    | Cancel(v: nat)

  /** `ended` holds the versions of all ids of sessions that have ended since the counter last
      started at 1. */
  datatype State = State(m: Meta, alive: bool, ended: set<nat>)

  function Versions(m: Meta): set<nat> {
    set v: nat | v < m.lockedVer && HasVersion(m, v)
  }

  function Finish(s: State): State {
    State(End(s.m).(joinButex := EndVer(s.m)), false, s.ended + Versions(s.m))
  }

  /** Each locked section; `quiet` is an unlock that finds no pending error. cancel leaves the
      join word alone. */
  function Apply(s: State, op: Op): State {
    var m := s.m;
    match op
    case Start(range) =>
      if s.alive || range < 1 || range > MAX_RANGE then s
      else State(Create(m, range), true, if FirstOf(m) == m.butex then s.ended else {})
    case LockWith(v, range, everContended) => s.(m := Lock(m, v, range, everContended))
    case TryLock(v) => if IsFree(m, v) then s.(m := m.(butex := m.lockedVer)) else s
    case Error(v) => if IsFree(m, v) then s.(m := m.(butex := m.lockedVer)) else s
    case Unlock(v, quiet) => if IsTaken(m, v) && quiet then s.(m := m.(butex := m.firstVer)) else s
    case AboutToDestroy(v) => if IsTaken(m, v) then s.(m := m.(butex := UnlockableVer(m))) else s
    case UnlockAndDestroy(v) => if IsTaken(m, v) then Finish(s) else s
    case Cancel(v) => if IsFree(m, v) then Finish(s).(m := Finish(s).m.(joinButex := m.joinButex)) else s
  }

  function Run(s: State, ops: seq<Op>): State
    decreases |ops|
  {
    if ops == [] then s else Run(Apply(s, ops[0]), ops[1..])
  }

  function Init(): State {
    State(Meta(0, 0, 0, 0), false, {})
  }

  /** Where a live session's words are. */
  predicate LiveOk(m: Meta) {
    && 1 <= m.firstVer < m.lockedVer <= m.firstVer + MAX_RANGE && m.firstVer + MAX_RANGE + 2 < WIDTH
    && (m.butex == m.firstVer || m.butex == m.lockedVer || m.butex == m.lockedVer + 1 || m.butex == m.lockedVer + 2)
  }

  /** Ended ids lie below the live ones; when the counter has wrapped to 0 the next session
      starts again at 1. */
  ghost predicate Inv(s: State) {
    if s.alive then LiveOk(s.m) && forall v :: v in s.ended ==> v < s.m.firstVer
    else s.m.butex == s.m.firstVer == s.m.lockedVer < WIDTH && (s.m.butex != 0 ==> forall v :: v in s.ended ==> v < s.m.butex)
  }

  lemma WrapSmall(x: int)
    ensures 0 <= x < WIDTH ==> Wrap(x) == x
    ensures WIDTH <= x < 2 * WIDTH ==> Wrap(x) == x - WIDTH
  {}

  lemma StartIsLive(m: Meta, range: int)
    requires m.butex < WIDTH && 1 <= range <= MAX_RANGE
    ensures LiveOk(Create(m, range)) && FirstOf(m) <= Create(m, range).firstVer
    ensures FirstOf(m) == m.butex ==> m.butex != 0
  {
    WrapSmall(m.butex + MAX_RANGE + 2);
    WrapSmall(FirstOf(m) + range);
    hide Wrap;
  }

  lemma SectionKeepsLive(m: Meta, v: nat, range: int, everContended: bool)
    requires LiveOk(m)
    ensures ContendedVer(m) == m.lockedVer + 1 && UnlockableVer(m) == m.lockedVer + 2 && EndVer(m) < WIDTH
    ensures EndVer(m) != 0 ==> EndVer(m) == m.lockedVer + 3
    ensures LiveOk(Lock(m, v, range, everContended)) && Lock(m, v, range, everContended).firstVer == m.firstVer
  {
    WrapSmall(m.lockedVer + 1);
    WrapSmall(m.lockedVer + 2);
    WrapSmall(m.lockedVer + 3);
    var locked := ResetRange(m, range);
    WrapSmall(range + m.firstVer);
    assert m.firstVer < locked <= m.firstVer + MAX_RANGE;
    WrapSmall(locked + 1);
    hide Wrap;
  }

  lemma StepKeepsInv(s: State, op: Op)
    requires Inv(s)
    ensures Inv(Apply(s, op))
  {
    if s.alive {
      SectionKeepsLive(s.m, if op.LockWith? then op.v else 0, if op.LockWith? then op.range else 0, op.LockWith? && op.everContended);
    } else if op.Start? && 1 <= op.range <= MAX_RANGE {
      StartIsLive(s.m, op.range);
    }
    hide Wrap, ContendedVer, UnlockableVer, EndVer, Lock;
  }

  lemma {:induction false} RunKeepsInv(s: State, ops: seq<Op>)
    requires Inv(s)
    ensures Inv(Run(s, ops))
    decreases |ops|
  {
    if ops != [] {
      StepKeepsInv(s, ops[0]);
      RunKeepsInv(Apply(s, ops[0]), ops[1..]);
    }
  }

  /** A live session: its versions and its four states fit in 32 bits without wrapping, so the
      four states are told apart, and the state word is one of them. */
  lemma LiveStatesDistinct(ops: seq<Op>)
    ensures var s := Run(Init(), ops); var m := s.m;
            s.alive ==>
              && m.firstVer < m.lockedVer <= m.firstVer + MAX_RANGE
              && m.firstVer < m.lockedVer < ContendedVer(m) < UnlockableVer(m) < WIDTH
              && m.butex in {m.firstVer, m.lockedVer, ContendedVer(m), UnlockableVer(m)}
  {
    RunKeepsInv(Init(), ops);
  }

  /** An id of an ended session is rejected until the counter starts again at 1, also when the
      end version has wrapped to 0; ids are never 0. */
  lemma EndedIdRejected(ops: seq<Op>, v: nat)
    ensures var s := Run(Init(), ops); (v in s.ended ==> !HasVersion(s.m, v)) && (s.alive && HasVersion(s.m, v) ==> v != 0)
  {
    RunKeepsInv(Init(), ops);
  }

  /** The counter wraps to 0 exactly when the session that ends used the last four versions. */
  lemma WrapsOnlyAtTheEnd(ops: seq<Op>)
    ensures var s := Run(Init(), ops); s.alive ==> (EndVer(s.m) == 0 <==> s.m.lockedVer == WIDTH - 3) && EndVer(s.m) != s.m.butex
  {
    RunKeepsInv(Init(), ops);
  }
}
