/** The accept fence before an idle stop: the accept loop, the session
    handlers and the idle watchdog interleave freely, and the watchdog must
    only stop a VM that no client is using. */
module Fence {

  datatype Loop = Accepting | Holding(conn: nat) | Exited

  datatype Watchdog =
    | Idle
    | Checked      // the record permits a stop
    | Closing      // the listener is closed; waiting for the accept loop
    | Fenced       // SuspendAccept has returned
    | Verified     // no active session was seen behind the fence
    | Recorded     // the park is in the record
    | Signalled    // the daemon was told to shut down
    | Aborting     // about to resume accepting

  datatype State = State(
    listening: bool,
    suspended: bool,
    loop: Loop,
    active: int,
    counted: set<nat>,
    nextConn: nat,
    parked: bool,
    watchdog: Watchdog)

  const INITIAL := State(true, false, Accepting, 0, {}, 0, false, Idle)

  datatype Op =
    | Accept
    | Count
    | SessionEnds(conn: nat)
    | LoopSeesClosed
    | LoopGivesUp
    | CheckRecord(permits: bool)
    | CloseListener
    | AwaitLoop
    | CheckActive
    | RecordPark
    | Signal(ok: bool)
    | Resume(ok: bool)

  function Apply(s: State, op: Op): State {
    match op
    case Accept =>
      if s.loop == Accepting && s.listening
      then s.(loop := Holding(s.nextConn), nextConn := s.nextConn + 1) else s
    case Count =>
      if s.loop.Holding?
      then s.(loop := Accepting, active := s.active + 1, counted := s.counted + {s.loop.conn}) else s
    case SessionEnds(c) =>
      if c in s.counted then s.(active := s.active - 1, counted := s.counted - {c}) else s
    case LoopSeesClosed => if s.loop == Accepting && !s.listening then s.(loop := Exited) else s
    case LoopGivesUp => if s.loop == Accepting then s.(loop := Exited) else s
    case CheckRecord(permits) => if s.watchdog == Idle && permits then s.(watchdog := Checked) else s
    case CloseListener =>
      if s.watchdog != Checked then s
      else if s.suspended then s.(watchdog := Fenced)
      else s.(suspended := true, listening := false, watchdog := Closing)
    case AwaitLoop => if s.watchdog == Closing && s.loop == Exited then s.(watchdog := Fenced) else s
    case CheckActive =>
      if s.watchdog != Fenced then s
      else s.(watchdog := if s.active > 0 then Aborting else Verified)
    case RecordPark => if s.watchdog == Verified then s.(parked := true, watchdog := Recorded) else s
    case Signal(ok) =>
      if s.watchdog != Recorded then s
      else if ok then s.(watchdog := Signalled) else s.(parked := false, watchdog := Aborting)
    case Resume(ok) =>
      if s.watchdog != Aborting then s
      else if ok && s.suspended
      then s.(listening := true, suspended := false, loop := Accepting, watchdog := Idle)
      else s.(watchdog := Idle)
  }

  function Run(s: State, ops: seq<Op>): State {
    if ops == [] then s else Apply(Run(s, ops[..|ops| - 1]), ops[|ops| - 1])
  }

  /** Accepted and not yet finished, counted or not. */
  function Live(s: State): set<nat> {
    s.counted + if s.loop.Holding? then {s.loop.conn} else {}
  }

  predicate BehindFence(s: State) {
    s.watchdog in {Fenced, Verified, Recorded, Signalled, Aborting}
  }

  /** The counter counts, and connections are numbered as they come. */
  ghost predicate Sessions(s: State) {
    && s.active == |s.counted|
    && (forall c :: c in s.counted ==> c < s.nextConn)
    && (s.loop.Holding? ==> s.loop.conn < s.nextConn && s.loop.conn !in s.counted)
  }

  ghost predicate Fencing(s: State) {
    && (s.suspended ==> !s.listening)
    && (s.suspended && s.watchdog != Closing ==> s.loop == Exited)
    && (s.watchdog == Closing || BehindFence(s) ==> s.suspended)
    && (s.watchdog in {Verified, Recorded, Signalled} ==> s.counted == {})
    && (s.parked <==> s.watchdog in {Recorded, Signalled})
  }

  ghost predicate Inv(s: State) {
    Sessions(s) && Fencing(s)
  }

  lemma CountKeepsInv(s: State)
    requires Inv(s)
    ensures Inv(Apply(s, Count))
  {
    if s.loop.Holding? {
      assert |s.counted + {s.loop.conn}| == |s.counted| + 1;
    }
  }

  lemma EndKeepsInv(s: State, c: nat)
    requires Inv(s)
    ensures Inv(Apply(s, SessionEnds(c)))
  {
    if c in s.counted {
      assert |s.counted - {c}| == |s.counted| - 1;
    }
  }

  lemma CheckKeepsInv(s: State)
    requires Inv(s)
    ensures Inv(Apply(s, CheckActive))
  {
    assert |s.counted| == 0 ==> s.counted == {};
  }

  /** Steps that leave the sessions alone. */
  lemma SessionsKept(s: State, op: Op)
    requires Sessions(s) && !op.Count? && !op.SessionEnds?
    ensures Sessions(Apply(s, op)) && Apply(s, op).counted == s.counted
  {
  }

  lemma FencingKept(s: State, op: Op)
    requires Fencing(s) && !op.Count? && !op.SessionEnds? && !op.CheckActive?
    ensures Fencing(Apply(s, op))
  {
  }

  lemma StepKeepsInv(s: State, op: Op)
    requires Inv(s)
    ensures Inv(Apply(s, op))
  {
    hide Sessions, Fencing, Apply;
    if op.Count? {
      CountKeepsInv(s);
    } else if op.SessionEnds? {
      EndKeepsInv(s, op.conn);
    } else if op.CheckActive? {
      CheckKeepsInv(s);
    } else {
      SessionsKept(s, op);
      FencingKept(s, op);
    }
  }

  lemma {:induction false} RunKeepsInv(s: State, ops: seq<Op>)
    requires Inv(s)
    ensures Inv(Run(s, ops))
  {
    if ops != [] {
      RunKeepsInv(s, ops[..|ops| - 1]);
      StepKeepsInv(Run(s, ops[..|ops| - 1]), ops[|ops| - 1]);
    }
  }

  lemma InitialOk()
    ensures Inv(INITIAL)
  {
  }

  /** Behind the fence the counter is the number of live sessions, and no step
      short of resuming adds one. */
  lemma FenceHolds(ops: seq<Op>, op: Op)
    requires BehindFence(Run(INITIAL, ops)) && !op.Resume?
    ensures Run(INITIAL, ops).active == |Live(Run(INITIAL, ops))|
    ensures Live(Apply(Run(INITIAL, ops), op)) <= Live(Run(INITIAL, ops))
    ensures BehindFence(Apply(Run(INITIAL, ops), op))
  {
    InitialOk();
    RunKeepsInv(INITIAL, ops);
  }

  /** In every interleaving, the shutdown is signalled, and the park recorded,
      only when no session is live anywhere; and it stays so. */
  lemma SignalOnlyWhenUnused(ops: seq<Op>)
    requires Run(INITIAL, ops).watchdog == Signalled
    ensures Live(Run(INITIAL, ops)) == {} && Run(INITIAL, ops).parked
  {
    InitialOk();
    RunKeepsInv(INITIAL, ops);
  }

  lemma {:induction false} SignalIsFinal(s: State, ops: seq<Op>)
    requires Inv(s) && s.watchdog == Signalled
    ensures Run(s, ops).watchdog == Signalled && Live(Run(s, ops)) == {}
  {
    RunKeepsInv(s, ops);
    if ops != [] {
      SignalIsFinal(s, ops[..|ops| - 1]);
    }
  }

  /** An aborted attempt leaves no park in the record, and a successful resume
      leaves the proxy accepting. */
  lemma AbortRestores(ops: seq<Op>)
    requires Run(INITIAL, ops).watchdog == Aborting
    ensures !Run(INITIAL, ops).parked
    ensures var s := Apply(Run(INITIAL, ops), Resume(true));
            s.listening && !s.suspended && s.loop == Accepting && s.watchdog == Idle
    ensures var s := Apply(Run(INITIAL, ops), Resume(false));
            !s.listening && s.suspended && s.watchdog == Idle
  {
    InitialOk();
    RunKeepsInv(INITIAL, ops);
  }

  // ---------- and it is not idle talk ----------

  /** In front of the fence a client is accepted, and counted before the next;
      when its session ends it is live no more. */
  lemma SessionsComeAndGo(s: State, c: nat)
    requires Inv(s)
    ensures s.listening && s.loop == Accepting ==>
      var t := Apply(s, Accept);
      Live(t) == Live(s) + {s.nextConn} && s.nextConn !in Live(s) && Live(Apply(t, Count)) == Live(t)
    ensures c in s.counted ==> Live(Apply(s, SessionEnds(c))) == Live(s) - {c}
  {
  }

  /** Behind the fence the check lets through exactly a sandbox in no use. */
  lemma CheckIsExact(s: State)
    requires Inv(s) && s.watchdog == Fenced
    ensures Apply(s, CheckActive).watchdog == if Live(s) == {} then Verified else Aborting
  {
    assert |s.counted| == 0 <==> s.counted == {};
  }

  /** A stop attempt begins only after the record permitted one. */
  lemma {:induction false} PermittedFirst(ops: seq<Op>)
    ensures Run(INITIAL, ops).watchdog != Idle ==> CheckRecord(true) in ops
  {
    if ops != [] {
      PermittedFirst(ops[..|ops| - 1]);
      assert ops == ops[..|ops| - 1] + [ops[|ops| - 1]];
    }
  }

  lemma RunNext(s: State, ops: seq<Op>, op: Op)
    ensures Run(s, ops + [op]) == Apply(Run(s, ops), op)
  {
    assert (ops + [op])[..|ops|] == ops;
  }

  /** A sandbox in no use, whose record permits it, is parked and signalled. */
  lemma UnusedGetsSignalled(s: State) returns (ops: seq<Op>)
    requires Inv(s) && s.watchdog == Idle && s.loop == Accepting && Live(s) == {} && !s.suspended
    ensures Run(s, ops).watchdog == Signalled && Run(s, ops).parked
  {
    hide Run;
    assert |s.counted| == 0;
    RunNothing(s);
    ops := [];
    RunTwo(s, ops, CheckRecord(true), CloseListener);
    ops := ops + [CheckRecord(true), CloseListener];
    RunTwo(s, ops, LoopSeesClosed, AwaitLoop);
    ops := ops + [LoopSeesClosed, AwaitLoop];
    RunTwo(s, ops, CheckActive, RecordPark);
    ops := ops + [CheckActive, RecordPark];
    RunNext(s, ops, Signal(true));
    ops := ops + [Signal(true)];
  }

  lemma RunNothing(s: State)
    ensures Run(s, []) == s
  {
  }

  lemma RunTwo(s: State, ops: seq<Op>, a: Op, b: Op)
    ensures Run(s, ops + [a, b]) == Apply(Apply(Run(s, ops), a), b)
  {
    assert ops + [a, b] == (ops + [a]) + [b];
    RunNext(s, ops + [a], b);
    RunNext(s, ops, a);
  }

  // ---------- the proxy object ----------

  class AgentProxy {
    var listening: bool
    var suspended: bool
    var loop: Loop
    var active: int
    var counted: set<nat>
    var nextConn: nat
    var parked: bool
    var watchdog: Watchdog

    function Value(): State
      reads this
    {
      State(listening, suspended, loop, active, counted, nextConn, parked, watchdog)
    }

    constructor ()
      ensures Value() == INITIAL && Inv(Value())
    {
      listening, suspended, loop, active := true, false, Accepting, 0;
      counted, nextConn, parked, watchdog := {}, 0, false, Idle;
    }

    /** The accept loop owns the increment. */
    method CountSession()
      requires Inv(Value()) && loop.Holding?
      modifies this
      ensures Value() == Apply(old(Value()), Count) && Inv(Value())
    {
      StepKeepsInv(Value(), Count);
      active := active + 1;
      counted := counted + {loop.conn};
      loop := Accepting;
    }

    method Release(c: nat)
      requires Inv(Value()) && c in counted
      modifies this
      ensures Value() == Apply(old(Value()), SessionEnds(c)) && Inv(Value())
    {
      StepKeepsInv(Value(), SessionEnds(c));
      active := active - 1;
      counted := counted - {c};
    }

    /** The locked half of SuspendAccept; done tells whether it may return
        without waiting for the loop. */
    method BeginSuspend() returns (done: bool)
      requires Inv(Value()) && watchdog == Checked
      modifies this
      ensures Value() == Apply(old(Value()), CloseListener) && Inv(Value())
      ensures done <==> old(suspended)
    {
      StepKeepsInv(Value(), CloseListener);
      if suspended {
        watchdog := Fenced;
        return true;
      }
      suspended := true;
      listening := false;
      watchdog := Closing;
      return false;
    }

    method ResumeAccept(listenOk: bool)
      requires Inv(Value()) && watchdog == Aborting
      modifies this
      ensures Value() == Apply(old(Value()), Resume(listenOk)) && Inv(Value())
    {
      StepKeepsInv(Value(), Resume(listenOk));
      watchdog := Idle;
      if !suspended || !listenOk {
        return;
      }
      listening := true;
      suspended := false;
      loop := Accepting;
    }
  }
}
