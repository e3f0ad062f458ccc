/** The run-once `on create` hooks across any number of `up` attempts. Hook 0
    is the workspace block, hook i + 1 belongs to phase i. */
module OnCreate {

  datatype Hook = Hook(commands: seq<string>, done: bool)

  /** What an attempt does, as seen from outside: it begins, commands run with
      an outcome, a block is recorded complete. */
  datatype Event = Begin | Ran(hook: nat, n: nat, ok: bool) | Marked(hook: nat)

  datatype Box = Box(hooks: seq<Hook>, pending: bool, log: seq<Event>)

  /** Which commands of this attempt succeed. */
  type Outcome = (nat, nat) -> bool

  function Logged(s: Box, e: Event): Box {
    s.(log := s.log + [e])
  }

  function MarkDone(s: Box, b: nat): Box
    requires b < |s.hooks|
  {
    Logged(s.(hooks := s.hooks[b := s.hooks[b].(done := true)]), Marked(b))
  }

  /** Commands n and on of hook b; a failure leaves the box create-pending. */
  function RunCommands(s: Box, b: nat, n: nat, ok: Outcome): (r: (Box, bool))
    requires b < |s.hooks| && n <= |s.hooks[b].commands|
    ensures |r.0.hooks| == |s.hooks|
    decreases |s.hooks[b].commands| - n
  {
    if n == |s.hooks[b].commands| then (MarkDone(s, b), true)
    else if ok(b, n) then RunCommands(Logged(s, Ran(b, n, true)), b, n + 1, ok)
    else (Logged(s.(pending := true), Ran(b, n, false)), false)
  }

  predicate Skips(h: Hook) {
    h.commands == [] || h.done
  }

  function RunHooks(s: Box, b: nat, ok: Outcome): (Box, bool)
    requires b <= |s.hooks|
    decreases |s.hooks| - b
  {
    if b == |s.hooks| then (s.(pending := false), true)
    else if Skips(s.hooks[b]) then RunHooks(s, b + 1, ok)
    else
      var (s', good) := RunCommands(s, b, 0, ok);
      if good then RunHooks(s', b + 1, ok) else (s', false)
  }

  function Attempt(s: Box, ok: Outcome): (Box, bool) {
    RunHooks(Logged(s, Begin), 0, ok)
  }

  function Attempts(s: Box, oks: seq<Outcome>): Box {
    if oks == [] then s else Attempt(Attempts(s, oks[..|oks| - 1]), oks[|oks| - 1]).0
  }

  // ---------- what every log obeys ----------

  /** What may directly follow what. */
  predicate Follows(hooks: seq<Hook>, prev: Event, e: Event) {
    match e
    case Begin => true
    case Ran(b, n, _) => b < |hooks| && n < |hooks[b].commands| &&
                         if n > 0 then prev == Ran(b, n - 1, true) else !Failure(prev)
    case Marked(b) => b < |hooks| && hooks[b].commands != [] && prev == Ran(b, |hooks[b].commands| - 1, true)
  }

  predicate Failure(e: Event) {
    e.Ran? && !e.ok
  }

  predicate Concerns(e: Event, b: nat) {
    (e.Ran? || e.Marked?) && e.hook == b
  }

  predicate Local(s: Box) {
    && (s.log != [] ==> s.log[0] == Begin)
    && forall i :: 0 < i < |s.log| ==> Follows(s.hooks, s.log[i - 1], s.log[i])
  }

  /** Nothing of a block happens after it was recorded complete. */
  predicate Final(s: Box) {
    forall i, j :: 0 <= i < j < |s.log| && s.log[i].Marked? ==> !Concerns(s.log[j], s.log[i].hook)
  }

  predicate Recorded(s: Box) {
    forall b :: 0 <= b < |s.hooks| && s.hooks[b].commands != [] ==> (s.hooks[b].done <==> Marked(b) in s.log)
  }

  /** No command of a block runs while an earlier block is unfinished; the
      workspace block is the first. */
  predicate InTurn(s: Box) {
    forall i, b ::
      (0 <= i < |s.log| && s.log[i].Ran? && 0 <= b < |s.hooks| && b < s.log[i].hook && s.hooks[b].commands != [])
      ==> Marked(b) in s.log[..i]
  }

  /** Every block before hook b is complete. */
  predicate EarlierMarked(s: Box, hook: nat) {
    forall b :: 0 <= b < |s.hooks| && b < hook && s.hooks[b].commands != [] ==> Marked(b) in s.log
  }

  predicate Inv(s: Box) {
    Local(s) && Final(s) && Recorded(s) && InTurn(s)
  }

  function Last(s: Box): Event {
    if s.log == [] then Begin else s.log[|s.log| - 1]
  }

  lemma FinalGrows(s: Box, e: Event)
    requires Final(s) && (e.Begin? || Marked(e.hook) !in s.log)
    ensures Final(Logged(s, e))
  {
  }

  lemma InTurnGrows(s: Box, e: Event)
    requires InTurn(s) && (e.Ran? ==> EarlierMarked(s, e.hook))
    ensures InTurn(Logged(s, e))
  {
    var t := Logged(s, e);
    forall i | 0 <= i < |t.log| ensures t.log[..i] == s.log[..i] && (i < |s.log| ==> t.log[i] == s.log[i]) {
    }
    assert s.log[..|s.log|] == s.log;
  }

  /** Beginning an attempt, or running one more command. */
  lemma LoggedKeepsInv(s: Box, e: Event)
    requires Inv(s) && !e.Marked?
    requires s.log == [] ==> e == Begin
    requires s.log != [] ==> Follows(s.hooks, Last(s), e)
    requires e.Ran? ==> Marked(e.hook) !in s.log
    requires e.Ran? ==> EarlierMarked(s, e.hook)
    ensures Inv(Logged(s, e))
  {
    FinalGrows(s, e);
    InTurnGrows(s, e);
  }

  lemma FollowsSame(h: seq<Hook>, g: seq<Hook>, prev: Event, e: Event)
    requires |h| == |g| && forall i :: 0 <= i < |h| ==> h[i].commands == g[i].commands
    ensures Follows(h, prev, e) <==> Follows(g, prev, e)
  {
  }

  lemma MarkKeepsLocal(s: Box, b: nat)
    requires Local(s) && s.log != [] && b < |s.hooks| && Follows(s.hooks, Last(s), Marked(b))
    ensures Local(MarkDone(s, b))
  {
    hide Follows;
    var t := MarkDone(s, b);
    forall i | 0 < i < |t.log| ensures Follows(t.hooks, t.log[i - 1], t.log[i]) {
      FollowsSame(s.hooks, t.hooks, t.log[i - 1], t.log[i]);
    }
  }

  lemma MarkKeepsInv(s: Box, b: nat)
    requires Inv(s) && s.log != [] && b < |s.hooks| && Marked(b) !in s.log
    requires Follows(s.hooks, Last(s), Marked(b))
    ensures Inv(MarkDone(s, b))
  {
    hide Local, Follows;
    FinalGrows(s, Marked(b));
    InTurnGrows(s, Marked(b));
    MarkKeepsLocal(s, b);
  }

  /** Hooks before b are finished. */
  predicate DoneBelow(s: Box, b: nat) {
    forall i :: 0 <= i < b && i < |s.hooks| ==> Skips(s.hooks[i])
  }

  /** Ready to run command n of hook b. */
  predicate At(s: Box, b: nat, n: nat) {
    && b < |s.hooks| && n <= |s.hooks[b].commands| && s.hooks[b].commands != []
    && s.log != [] && !s.hooks[b].done && DoneBelow(s, b)
    && if n > 0 then Last(s) == Ran(b, n - 1, true) else !Failure(Last(s))
  }

  lemma {:induction false} CommandsKeepInv(s: Box, b: nat, n: nat, ok: Outcome)
    requires Inv(s) && At(s, b, n)
    ensures var (t, good) := RunCommands(s, b, n, ok);
            && Inv(t) && t.log != []
            && (good ==> DoneBelow(t, b + 1) && !Failure(Last(t)))
            && (!good ==> t.pending && Failure(Last(t)))
    decreases |s.hooks[b].commands| - n
  {
    hide Final, InTurn, Local;
    if n == |s.hooks[b].commands| {
      MarkKeepsInv(s, b);
    } else {
      LoggedKeepsInv(s, Ran(b, n, ok(b, n)));
      if ok(b, n) {
        CommandsKeepInv(Logged(s, Ran(b, n, true)), b, n + 1, ok);
      } else {
        PendingKeepsInv(Logged(s, Ran(b, n, false)), true);
      }
    }
  }

  lemma PendingKeepsInv(s: Box, pending: bool)
    requires Inv(s)
    ensures Inv(s.(pending := pending))
  {
  }

  lemma {:induction false} HooksKeepInv(s: Box, b: nat, ok: Outcome)
    requires Inv(s) && b <= |s.hooks| && s.log != [] && DoneBelow(s, b) && !Failure(Last(s))
    ensures var (t, good) := RunHooks(s, b, ok);
            && Inv(t) && t.log != [] && good == !t.pending == !Failure(Last(t))
            && (good ==> DoneBelow(t, |t.hooks|))
    decreases |s.hooks| - b
  {
    hide Inv, RunCommands;
    if b == |s.hooks| {
      PendingKeepsInv(s, false);
    } else if Skips(s.hooks[b]) {
      HooksKeepInv(s, b + 1, ok);
    } else {
      CommandsKeepInv(s, b, 0, ok);
      var (t, good) := RunCommands(s, b, 0, ok);
      if good {
        HooksKeepInv(t, b + 1, ok);
      }
    }
  }

  lemma BeginKeepsInv(s: Box)
    requires Inv(s)
    ensures Inv(Logged(s, Begin))
  {
    hide Final, InTurn;
    LoggedKeepsInv(s, Begin);
  }

  /** A box is created with nothing run and nothing recorded. */
  predicate New(s: Box) {
    s.log == [] && !s.pending && forall b :: 0 <= b < |s.hooks| ==> !s.hooks[b].done
  }

  /** Whatever fails in whichever attempt: the log obeys the rules, the box is
      create-pending exactly after a failed attempt, and otherwise every block
      is complete once an attempt was made. */
  lemma {:induction false} AttemptsAreSafe(s: Box, oks: seq<Outcome>)
    requires New(s)
    ensures var t := Attempts(s, oks);
            && Inv(t)
            && (t.pending <==> Failure(Last(t)))
            && (oks != [] ==> t.log != [] && t.pending == !Attempt(Attempts(s, oks[..|oks| - 1]), oks[|oks| - 1]).1)
            && (oks != [] && !t.pending ==> DoneBelow(t, |t.hooks|))
  {
    hide RunHooks, Follows;
    if oks != [] {
      AttemptsAreSafe(s, oks[..|oks| - 1]);
      var before := Attempts(s, oks[..|oks| - 1]);
      BeginKeepsInv(before);
      HooksKeepInv(Logged(before, Begin), 0, oks[|oks| - 1]);
    }
  }

  // ---------- the promises ----------

  lemma {:induction false} RanBefore(s: Box, i: nat, k: nat)
    requires Inv(s) && i < |s.log| && s.log[i].Marked?
    requires s.log[i].hook < |s.hooks| && k < |s.hooks[s.log[i].hook].commands|
    ensures var d := |s.hooks[s.log[i].hook].commands| - k;
            i >= d && s.log[i - d] == Ran(s.log[i].hook, k, true)
    decreases |s.hooks[s.log[i].hook].commands| - k
  {
    var b := s.log[i].hook;
    var d := |s.hooks[b].commands| - k;
    assert Follows(s.hooks, s.log[i - 1], s.log[i]);
    if d > 1 {
      RanBefore(s, i, k + 1);
      assert Follows(s.hooks, s.log[i - d], s.log[i - d + 1]);
    }
  }

  /** A block recorded complete at i: right before it, in one attempt, every
      one of its commands ran in order and succeeded. */
  lemma MarkedAfterAll(s: Box, oks: seq<Outcome>, i: nat)
    requires New(s) && i < |Attempts(s, oks).log| && Attempts(s, oks).log[i].Marked?
    ensures var log := Attempts(s, oks).log;
            var b := log[i].hook;
            && b < |s.hooks| && 0 < |s.hooks[b].commands| <= i
            && forall k :: 0 <= k < |s.hooks[b].commands| ==>
                 log[i - |s.hooks[b].commands| + k] == Ran(b, k, true)
  {
    hide Attempts, Final, Recorded, InTurn;
    AttemptsAreSafe(s, oks);
    SameCommands(s, oks);
    var t := Attempts(s, oks);
    var b := t.log[i].hook;
    assert Follows(t.hooks, t.log[i - 1], t.log[i]);
    RanBefore(t, i, 0);
    forall k | 0 <= k < |s.hooks[b].commands|
      ensures t.log[i - |s.hooks[b].commands| + k] == Ran(b, k, true)
    {
      RanBefore(t, i, k);
    }
  }

  /** Over any attempts, a command is never run again once its block is complete,
      nothing runs after a failure until the next attempt, and blocks complete in
      order: the workspace block, then phase by phase. */
  lemma NothingRerun(s: Box, oks: seq<Outcome>, i: nat, j: nat)
    requires New(s) && i < j < |Attempts(s, oks).log|
    ensures var log := Attempts(s, oks).log;
            && (log[i].Marked? ==> !(log[j].Ran? && log[j].hook == log[i].hook))
            && (Failure(log[i]) && j == i + 1 ==> log[j] == Begin)
            && (log[j].Ran? ==>
                  forall b :: 0 <= b < |s.hooks| && b < log[j].hook && s.hooks[b].commands != [] ==>
                    Marked(b) in log[..j])
  {
    AttemptsAreSafe(s, oks);
    var t := Attempts(s, oks);
    SameCommands(s, oks);
    assert Follows(t.hooks, t.log[j - 1], t.log[j]);
  }

  lemma {:induction false} CommandsStay(s: Box, b: nat, n: nat, ok: Outcome)
    requires b < |s.hooks| && n <= |s.hooks[b].commands|
    ensures forall i :: 0 <= i < |s.hooks| ==> RunCommands(s, b, n, ok).0.hooks[i].commands == s.hooks[i].commands
    decreases |s.hooks[b].commands| - n
  {
    if n < |s.hooks[b].commands| && ok(b, n) {
      CommandsStay(Logged(s, Ran(b, n, true)), b, n + 1, ok);
    }
  }

  predicate SameHooks(s: Box, t: Box) {
    |t.hooks| == |s.hooks| && forall i :: 0 <= i < |s.hooks| ==> t.hooks[i].commands == s.hooks[i].commands
  }

  lemma {:induction false} HooksStay(s: Box, b: nat, ok: Outcome)
    requires b <= |s.hooks|
    ensures SameHooks(s, RunHooks(s, b, ok).0)
    decreases |s.hooks| - b
  {
    hide RunCommands;
    if b < |s.hooks| {
      if Skips(s.hooks[b]) {
        HooksStay(s, b + 1, ok);
      } else {
        CommandsStay(s, b, 0, ok);
        HooksStay(RunCommands(s, b, 0, ok).0, b + 1, ok);
      }
    }
  }

  lemma {:induction false} SameCommands(s: Box, oks: seq<Outcome>)
    ensures SameHooks(s, Attempts(s, oks))
  {
    hide RunHooks;
    if oks != [] {
      SameCommands(s, oks[..|oks| - 1]);
      HooksStay(Logged(Attempts(s, oks[..|oks| - 1]), Begin), 0, oks[|oks| - 1]);
    }
  }

  // ---------- the sandbox ----------

  class Sandbox {
    var onCreate: seq<string>
    var onCreateDone: bool
    var phases: seq<Hook>
    var createPending: bool
    var log: seq<Event>

    function Value(): Box
      reads this
    {
      Box([Hook(onCreate, onCreateDone)] + phases, createPending, log)
    }

    /** One command in the guest. */
    method RunHookCommand(b: nat, n: nat, ok: Outcome) returns (good: bool)
      modifies this`log
      ensures good == ok(b, n) && log == old(log) + [Ran(b, n, good)]
    {
      good := ok(b, n);
      log := log + [Ran(b, n, good)];
    }

    method RunPhaseOnCreate(ok: Outcome) returns (good: bool)
      modifies this
      ensures (Value(), good) == Attempt(old(Value()), ok)
    {
      hide RunCommands;
      ghost var start := Logged(Value(), Begin);
      log := log + [Begin];
      assert Value() == start;
      var wsPending := |onCreate| > 0 && !onCreateDone;
      var anyPending := false;
      for i := 0 to |phases|
        invariant anyPending <==> exists j :: 0 <= j < i && !Skips(phases[j])
      {
        if |phases[i].commands| > 0 && !phases[i].done {
          anyPending := true;
        }
      }
      if !wsPending && !anyPending {
        createPending := false;
        AllSkipped(start, 0, ok);
        return true;
      }
      if wsPending {
        good := RunWorkspace(ok);
        if !good {
          return;
        }
      }
      ghost var total := RunHooks(start, 0, ok);
      assert total == RunHooks(Value(), 1, ok);
      for i := 0 to |phases|
        invariant |phases| == |old(phases)|
        invariant total == RunHooks(Value(), i + 1, ok)
      {
        if |phases[i].commands| == 0 || phases[i].done {
          continue;
        }
        good := RunPhase(i, ok);
        if !good {
          return;
        }
      }
      createPending := false;
      good := true;
    }

    method RunWorkspace(ok: Outcome) returns (good: bool)
      requires onCreate != []
      modifies this
      ensures (Value(), good) == RunCommands(old(Value()), 0, 0, ok)
      ensures |phases| == |old(phases)|
    {
      ghost var whole := RunCommands(Value(), 0, 0, ok);
      for n := 0 to |onCreate|
        invariant unchanged(this`phases) && unchanged(this`onCreate)
        invariant whole == RunCommands(Value(), 0, n, ok)
      {
        ghost var before := Value();
        good := RunHookCommand(0, n, ok);
        assert Value() == Logged(before, Ran(0, n, good));
        if !good {
          createPending := true;
          return;
        }
      }
      ghost var before := Value();
      onCreateDone := true;
      log := log + [Marked(0)];
      assert Value() == MarkDone(before, 0);
      good := true;
    }

    method RunPhase(i: nat, ok: Outcome) returns (good: bool)
      requires i < |phases|
      modifies this
      ensures (Value(), good) == RunCommands(old(Value()), i + 1, 0, ok)
      ensures |phases| == |old(phases)|
    {
      ghost var whole := RunCommands(Value(), i + 1, 0, ok);
      for n := 0 to |phases[i].commands|
        invariant unchanged(this`phases)
        invariant whole == RunCommands(Value(), i + 1, n, ok)
      {
        ghost var before := Value();
        good := RunHookCommand(i + 1, n, ok);
        assert Value() == Logged(before, Ran(i + 1, n, good));
        if !good {
          createPending := true;
          return;
        }
      }
      ghost var before := Value();
      phases := phases[i := phases[i].(done := true)];
      log := log + [Marked(i + 1)];
      assert Value() == MarkDone(before, i + 1);
      good := true;
    }
  }

  lemma {:induction false} AllSkipped(s: Box, b: nat, ok: Outcome)
    requires b <= |s.hooks| && forall i :: b <= i < |s.hooks| ==> Skips(s.hooks[i])
    ensures RunHooks(s, b, ok) == (s.(pending := false), true)
    decreases |s.hooks| - b
  {
    if b < |s.hooks| {
      AllSkipped(s, b + 1, ok);
    }
  }
}
