/** The idle tracker: when a sandbox has been quiet for one whole timeout.
    Times are nanoseconds. */
module Idle {

  const BUSY_LOAD: nat := 25
  const BUSY_NET: nat := 32 * 1024

  datatype Sample = Sample(
    now: int, sessionsActive: bool, lastSession: int,
    statsOK: bool, hasGuestActivity: bool, load: nat, net: nat)

  /** What the daemon feeds the tracker, oldest first. */
  datatype Event = Tick(s: Sample) | Reset(at: int)

  // ---------- activity, independent of the tracker ----------

  predicate Counts(e: Event) {
    e.Tick? && e.s.statsOK && e.s.hasGuestActivity
  }

  /** The network counter of the latest sample that carried one. */
  function Baseline(trace: seq<Event>): int {
    if trace == [] then -1
    else if Counts(trace[|trace| - 1]) then trace[|trace| - 1].s.net
    else Baseline(trace[..|trace| - 1])
  }

  /** The sandbox was in use at sample s, or could not be seen. */
  predicate Busy(before: seq<Event>, s: Sample) {
    || s.sessionsActive
    || !s.statsOK
    || (s.hasGuestActivity && s.load >= BUSY_LOAD)
    || (s.hasGuestActivity && Baseline(before) >= 0 && s.net - Baseline(before) >= BUSY_NET)
  }

  /** What makes a sample busy: a session, a guest that cannot be seen, load, or
      traffic since the last counter. A counter that went backwards is no traffic,
      and an agent too old to report leaves only sessions. */
  lemma BusyLaws(before: seq<Event>, s: Sample)
    ensures s.sessionsActive || !s.statsOK ==> Busy(before, s)
    ensures s.hasGuestActivity && s.load >= 25 ==> Busy(before, s)
    ensures s.hasGuestActivity && 0 <= Baseline(before) <= s.net - 32768 ==> Busy(before, s)
    ensures !s.sessionsActive && s.statsOK && !s.hasGuestActivity ==> !Busy(before, s)
    ensures !s.sessionsActive && s.statsOK && s.load < 25 && s.net < Baseline(before) + 32768 ==> !Busy(before, s)
    ensures !s.sessionsActive && s.statsOK && s.load < 25 && Baseline(before) < 0 ==> !Busy(before, s)
  {
  }

  /** t is a time at which something happened: the start, a reset, a busy
      sample, or a session starting or ending. */
  ghost predicate Activity(start: int, trace: seq<Event>, t: int) {
    || t == start
    || exists i :: 0 <= i < |trace| && Happened(trace, i, t)
  }

  predicate Happened(trace: seq<Event>, i: nat, t: int)
    requires i < |trace|
  {
    match trace[i]
    case Reset(at) => t == at
    case Tick(s) => (t == s.now && Busy(trace[..i], s)) || (t == s.lastSession && s.lastSession > 0)
  }

  function TimeOf(e: Event): int {
    match e
    case Tick(s) => s.now
    case Reset(at) => at
  }

  /** The tracker takes event i as the latest activity without comparing. */
  predicate Overwrites(trace: seq<Event>, i: nat)
    requires i < |trace|
  {
    trace[i].Reset? || Busy(trace[..i], trace[i].s)
  }

  /** No activity up to and including event i is later than its stamp. */
  ghost predicate NothingLater(start: int, trace: seq<Event>, i: nat)
    requires i < |trace|
  {
    var upTo := trace[..i + 1];
    forall t :: Activity(start, upTo, t) ==> t <= TimeOf(trace[i])
  }

  /** Every reset and every busy sample is stamped no earlier than all activity
      up to and including it. */
  ghost predicate Steady(start: int, trace: seq<Event>) {
    forall i :: 0 <= i < |trace| && Overwrites(trace, i) ==> NothingLater(start, trace, i)
  }

  /** The clock does not run backwards, and a session stamp is at most the
      time of the first overwriting event from its own tick on. */
  predicate Forward(start: int, trace: seq<Event>) {
    && (forall i :: 0 <= i < |trace| ==> start <= TimeOf(trace[i]))
    && (forall i, j :: 0 <= i <= j < |trace| ==> TimeOf(trace[i]) <= TimeOf(trace[j]))
    && (forall i, j :: 0 <= i <= j < |trace| && trace[i].Tick? && Overwrites(trace, j)
          ==> trace[i].s.lastSession <= TimeOf(trace[j]))
  }

  // ---------- the tracker ----------

  datatype State = State(lastActive: int, prevNet: nat, havePrevNet: bool)

  function Step(st: State, e: Event): State {
    match e
    case Reset(at) => st.(lastActive := at)
    case Tick(s) =>
      var net := s.statsOK && s.hasGuestActivity;
      var active :=
        || s.sessionsActive
        || !s.statsOK
        || (net && s.load >= BUSY_LOAD)
        || (net && st.havePrevNet && s.net >= st.prevNet && s.net - st.prevNet >= BUSY_NET);
      var ended := if s.lastSession > 0 && s.lastSession > st.lastActive then s.lastSession else st.lastActive;
      State(if active then s.now else ended,
            if net then s.net else st.prevNet,
            st.havePrevNet || net)
  }

  function After(start: int, trace: seq<Event>): State {
    if trace == [] then State(start, 0, false)
    else Step(After(start, trace[..|trace| - 1]), trace[|trace| - 1])
  }

  /** What an observation reports. */
  function IdleFor(st: State, now: int): int {
    now - st.lastActive
  }

  class Tracker {
    const timeout: int
    var lastActive: int
    var prevNet: nat
    var havePrevNet: bool

    constructor (timeout: int, now: int)
      ensures this.timeout == timeout && Value() == State(now, 0, false)
    {
      this.timeout, lastActive, prevNet, havePrevNet := timeout, now, 0, false;
    }

    function Value(): State
      reads this
    {
      State(lastActive, prevNet, havePrevNet)
    }

    method Observe(s: Sample) returns (idleFor: int, expired: bool)
      modifies this
      ensures Value() == Step(old(Value()), Tick(s))
      ensures idleFor == IdleFor(Value(), s.now) && expired == (idleFor >= timeout)
    {
      var active := s.sessionsActive || !s.statsOK;
      if s.statsOK && s.hasGuestActivity {
        if s.load >= BUSY_LOAD {
          active := true;
        }
        if havePrevNet && s.net >= prevNet && s.net - prevNet >= BUSY_NET {
          active := true;
        }
        prevNet := s.net;
        havePrevNet := true;
      }
      if s.lastSession > 0 && s.lastSession > lastActive {
        lastActive := s.lastSession;
      }
      if active {
        lastActive := s.now;
      }
      idleFor := s.now - lastActive;
      expired := idleFor >= timeout;
    }

    method Restart(now: int)
      modifies this`lastActive
      ensures Value() == Step(old(Value()), Reset(now))
    {
      lastActive := now;
    }
  }

  // ---------- what the tracker knows ----------

  lemma {:induction false} TracksBaseline(start: int, trace: seq<Event>)
    ensures var st := After(start, trace);
            Baseline(trace) == if st.havePrevNet then st.prevNet else -1
  {
    if trace != [] {
      TracksBaseline(start, trace[..|trace| - 1]);
    }
  }

  lemma HappenedBefore(trace: seq<Event>, i: nat, t: int)
    requires i < |trace| - 1
    ensures Happened(trace[..|trace| - 1], i, t) <==> Happened(trace, i, t)
  {
    assert trace[..|trace| - 1][..i] == trace[..i];
  }

  lemma ActivityGrows(start: int, trace: seq<Event>, t: int)
    requires trace != []
    ensures Activity(start, trace, t) <==>
      Activity(start, trace[..|trace| - 1], t) || Happened(trace, |trace| - 1, t)
  {
    var init := trace[..|trace| - 1];
    forall i | 0 <= i < |init| ensures Happened(init, i, t) <==> Happened(trace, i, t) {
      HappenedBefore(trace, i, t);
    }
  }

  /** t is the latest activity of any kind. */
  ghost predicate Latest(start: int, trace: seq<Event>, t: int) {
    Activity(start, trace, t) && forall u :: Activity(start, trace, u) ==> u <= t
  }

  ghost predicate TracksEverywhere(start: int, trace: seq<Event>) {
    forall n :: 0 <= n <= |trace| ==> Latest(start, trace[..n], After(start, trace[..n]).lastActive)
  }

  /** How one more event moves the tracker's idea of the latest activity. */
  lemma LastEvent(start: int, trace: seq<Event>)
    requires trace != []
    ensures var n := |trace| - 1;
            var was, now := After(start, trace[..n]).lastActive, After(start, trace).lastActive;
            if Overwrites(trace, n) then now == TimeOf(trace[n])
            else if trace[n].s.lastSession > 0 && trace[n].s.lastSession > was then now == trace[n].s.lastSession
            else now == was
  {
    TracksBaseline(start, trace[..|trace| - 1]);
  }

  /** One event: what it takes to stay up to date. */
  lemma StaysLatestIff(start: int, trace: seq<Event>)
    requires trace != []
    requires Latest(start, trace[..|trace| - 1], After(start, trace[..|trace| - 1]).lastActive)
    ensures Latest(start, trace, After(start, trace).lastActive) <==>
      (Overwrites(trace, |trace| - 1) ==> NothingLater(start, trace, |trace| - 1))
  {
    hide Activity, After, Busy;
    var n := |trace| - 1;
    assert trace[..n + 1] == trace;
    LastEvent(start, trace);
    forall t ensures Activity(start, trace, t) <==> Activity(start, trace[..n], t) || Happened(trace, n, t) {
      ActivityGrows(start, trace, t);
    }
  }

  lemma NothingActive(start: int)
    ensures Latest(start, [], After(start, []).lastActive)
  {
  }

  lemma PrefixFacts(start: int, trace: seq<Event>, n: nat, i: nat)
    requires i < n <= |trace|
    ensures Overwrites(trace[..n], i) <==> Overwrites(trace, i)
    ensures NothingLater(start, trace[..n], i) <==> NothingLater(start, trace, i)
  {
    assert trace[..n][..i] == trace[..i] && trace[..n][..i + 1] == trace[..i + 1];
  }

  /** The tracker holds the latest activity at every moment if and only if no
      reset or busy sample is stamped before an activity it follows. */
  lemma {:induction false} TracksEverywhereIff(start: int, trace: seq<Event>)
    ensures TracksEverywhere(start, trace) <==> Steady(start, trace)
  {
    hide Latest, After, NothingLater, Overwrites;
    if trace == [] {
      NothingActive(start);
      assert trace[..0] == [];
    } else {
      var n := |trace| - 1;
      var init := trace[..n];
      TracksEverywhereIff(start, init);
      forall k | 0 <= k <= n ensures init[..k] == trace[..k] {
      }
      assert trace[..|trace|] == trace && init[..n] == init;
      assert TracksEverywhere(start, trace) <==>
        TracksEverywhere(start, init) && Latest(start, trace, After(start, trace).lastActive) by {
        EverywhereGrows(start, trace);
      }
      forall i | 0 <= i < n
        ensures Overwrites(init, i) <==> Overwrites(trace, i)
        ensures NothingLater(start, init, i) <==> NothingLater(start, trace, i)
      {
        PrefixFacts(start, trace, n, i);
      }
      if TracksEverywhere(start, init) {
        assert Latest(start, init[..n], After(start, init[..n]).lastActive);
        StaysLatestIff(start, trace);
      }
    }
  }

  lemma EverywhereGrows(start: int, trace: seq<Event>)
    requires trace != []
    ensures TracksEverywhere(start, trace) <==>
      TracksEverywhere(start, trace[..|trace| - 1]) && Latest(start, trace, After(start, trace).lastActive)
  {
    hide Latest, After;
    var n := |trace| - 1;
    forall k | 0 <= k <= n ensures trace[..n][..k] == trace[..k] {
    }
    assert trace[..|trace|] == trace;
    if TracksEverywhere(start, trace) {
      assert Latest(start, trace[..|trace|], After(start, trace[..|trace|]).lastActive);
      forall k | 0 <= k <= n ensures Latest(start, trace[..n][..k], After(start, trace[..n][..k]).lastActive) {
        assert Latest(start, trace[..k], After(start, trace[..k]).lastActive);
      }
    }
    if TracksEverywhere(start, trace[..n]) && Latest(start, trace, After(start, trace).lastActive) {
      forall k | 0 <= k <= |trace| ensures Latest(start, trace[..k], After(start, trace[..k]).lastActive) {
        if k <= n {
          assert Latest(start, trace[..n][..k], After(start, trace[..n][..k]).lastActive);
        }
      }
    }
  }

  /** A clock that does not run backwards is enough, even if a session stamp is
      later than the tick that carries it, as long as that tick is not busy. */
  lemma ForwardClockIsSteady(start: int, trace: seq<Event>)
    requires Forward(start, trace)
    ensures Steady(start, trace)
  {
    forall i | 0 <= i < |trace| && Overwrites(trace, i) ensures NothingLater(start, trace, i) {
      var upTo := trace[..i + 1];
      forall t | Activity(start, upTo, t) ensures t <= TimeOf(trace[i]) {
        if t != start {
          var k :| 0 <= k < |upTo| && Happened(upTo, k, t);
          assert upTo[k] == trace[k];
        }
      }
    }
  }

  /** The tracker holds the latest activity of any kind. */
  lemma TracksLatest(start: int, trace: seq<Event>)
    requires Steady(start, trace)
    ensures Latest(start, trace, After(start, trace).lastActive)
  {
    TracksEverywhereIff(start, trace);
    assert trace[..|trace|] == trace;
  }

  /** An observation reports expiry exactly when every activity of any kind lies
      at least one timeout back. */
  lemma ExpiresExactlyWhenQuiet(start: int, trace: seq<Event>, timeout: int)
    requires Steady(start, trace) && trace != []
    ensures ExactAt(start, trace, timeout)
  {
    hide ExactAt;
    TracksLatest(start, trace);
    ExactIff(start, trace);
  }

  /** An observation's expiry means "every activity lies one timeout back". */
  ghost predicate ExactAt(start: int, trace: seq<Event>, timeout: int)
    requires trace != []
  {
    var now := TimeOf(trace[|trace| - 1]);
    IdleFor(After(start, trace), now) >= timeout <==>
    forall t :: Activity(start, trace, t) ==> t + timeout <= now
  }

  /** The tracker always holds some activity. */
  lemma {:induction false} HoldsSomeActivity(start: int, trace: seq<Event>)
    ensures Activity(start, trace, After(start, trace).lastActive)
  {
    hide Activity, After, Busy;
    if trace == [] {
      NothingActive(start);
    } else {
      HoldsSomeActivity(start, trace[..|trace| - 1]);
      LastEvent(start, trace);
      ActivityGrows(start, trace, After(start, trace).lastActive);
    }
  }

  /** Expiry is exact for every timeout if and only if the tracker holds the
      latest activity. */
  lemma ExactIff(start: int, trace: seq<Event>)
    requires trace != []
    ensures (forall timeout :: ExactAt(start, trace, timeout)) <==> Latest(start, trace, After(start, trace).lastActive)
  {
    hide Activity, After;
    HoldsSomeActivity(start, trace);
    var la := After(start, trace).lastActive;
    var now := TimeOf(trace[|trace| - 1]);
    if forall timeout :: ExactAt(start, trace, timeout) {
      assert ExactAt(start, trace, now - la);
    }
  }

  /** Whatever the clock did, a busy sample does not expire a positive timeout. */
  lemma NeverExpiresWhenBusy(start: int, trace: seq<Event>, s: Sample, timeout: int)
    requires timeout > 0 && Busy(trace, s)
    ensures IdleFor(After(start, trace + [Tick(s)]), s.now) < timeout
  {
    assert (trace + [Tick(s)])[..|trace|] == trace;
    TracksBaseline(start, trace);
  }
}
