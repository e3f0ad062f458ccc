/** Publishing a set to connected guests over coalesced wake-ups: each control
    connection has a one-slot wake-up channel, and always sends the complete
    current set. Shared by the reverse-forward and the serial proxy. */
module Streams {

  /** One control connection. Sets are named by their place in the history of
      published sets; sent lists the ones this guest was sent. */
  datatype Conn = Conn(token: bool, phase: Phase, sent: seq<nat>)

  datatype Phase = ToSnapshot | Writing(which: nat) | Waiting

  /** history[|history| - 1] is the current set. */
  datatype State<V> = State(history: seq<V>, conns: map<nat, Conn>)
  {
    function Latest(): int { |history| - 1 }
  }

  datatype Op<V> =
    | Publish(v: V)
    | Connect(c: nat)
    | Snapshot(c: nat)
    | Written(c: nat)
    | Wake(c: nat)
    | Leave(c: nat)

  function Apply<V>(s: State<V>, op: Op<V>): State<V> {
    match op
    case Publish(v) => State(s.history + [v], Notify(s.conns))
    case Connect(c) => if c in s.conns then s else s.(conns := s.conns[c := Conn(false, ToSnapshot, [])])
    case Snapshot(c) =>
      if c in s.conns && s.conns[c].phase == ToSnapshot && s.history != []
      then s.(conns := s.conns[c := s.conns[c].(phase := Writing(|s.history| - 1))]) else s
    case Written(c) =>
      if c in s.conns && s.conns[c].phase.Writing?
      then s.(conns := s.conns[c := s.conns[c].(phase := Waiting, sent := s.conns[c].sent + [s.conns[c].phase.which])])
      else s
    case Wake(c) =>
      if c in s.conns && s.conns[c].phase == Waiting && s.conns[c].token
      then s.(conns := s.conns[c := s.conns[c].(phase := ToSnapshot, token := false)]) else s
    case Leave(c) => s.(conns := s.conns - {c})
  }

  /** A pending wake-up absorbs further ones. */
  function Notify(conns: map<nat, Conn>): map<nat, Conn> {
    map c | c in conns :: conns[c].(token := true)
  }

  function Run<V>(s: State<V>, ops: seq<Op<V>>): State<V> {
    if ops == [] then s else Apply(Run(s, ops[..|ops| - 1]), ops[|ops| - 1])
  }

  predicate Ascending(s: seq<nat>) {
    forall i, j :: 0 <= i < j < |s| ==> s[i] <= s[j]
  }

  /** With no wake-up pending a connection is up to date, or about to be; and
      it never goes back to an older set. */
  predicate ConnOk(c: Conn, latest: int) {
    && Ascending(c.sent)
    && (forall i :: 0 <= i < |c.sent| ==> c.sent[i] <= latest)
    && (c.phase.Writing? ==> c.phase.which <= latest && forall i :: 0 <= i < |c.sent| ==> c.sent[i] <= c.phase.which)
    && (c.phase == Waiting ==> c.sent != [])
    && (!c.token ==>
          && (c.phase.Writing? ==> c.phase.which == latest)
          && (c.phase == Waiting ==> c.sent[|c.sent| - 1] == latest))
  }

  ghost predicate Inv<V>(s: State<V>) {
    s.history != [] && forall c :: c in s.conns ==> ConnOk(s.conns[c], s.Latest())
  }

  lemma OneConn<V>(s: State<V>, c: nat, conn: Conn)
    requires Inv(s) && ConnOk(conn, s.Latest())
    ensures Inv(s.(conns := s.conns[c := conn]))
  {
  }

  lemma WrittenOk(c: Conn, latest: int)
    requires ConnOk(c, latest) && c.phase.Writing?
    ensures ConnOk(c.(phase := Waiting, sent := c.sent + [c.phase.which]), latest)
  {
  }

  lemma PublishOk(c: Conn, latest: int)
    requires ConnOk(c, latest)
    ensures ConnOk(c.(token := true), latest + 1)
  {
  }

  lemma StepKeepsInv<V>(s: State<V>, op: Op<V>)
    requires Inv(s)
    ensures Inv(Apply(s, op))
  {
    hide ConnOk;
    match op
    case Publish(v) =>
      forall c | c in s.conns ensures ConnOk(s.conns[c].(token := true), s.Latest() + 1) {
        PublishOk(s.conns[c], s.Latest());
      }
    case Connect(c) => StepConn(s, c);
    case Snapshot(c) => StepConn(s, c);
    case Written(c) => StepConn(s, c);
    case Wake(c) => StepConn(s, c);
    case Leave(c) =>
  }

  lemma StepConn<V>(s: State<V>, c: nat)
    requires Inv(s)
    ensures Inv(Apply(s, Connect(c))) && Inv(Apply(s, Snapshot(c)))
    ensures Inv(Apply(s, Written(c))) && Inv(Apply(s, Wake(c)))
  {
    OneConn(s, c, Conn(false, ToSnapshot, []));
    if c in s.conns {
      var conn := s.conns[c];
      if conn.phase == ToSnapshot {
        OneConn(s, c, conn.(phase := Writing(|s.history| - 1)));
      }
      if conn.phase.Writing? {
        WrittenOk(conn, s.Latest());
        OneConn(s, c, conn.(phase := Waiting, sent := conn.sent + [conn.phase.which]));
      }
      if conn.phase == Waiting && conn.token {
        OneConn(s, c, conn.(phase := ToSnapshot, token := false));
      }
    }
  }

  /** No lost update, over every interleaving of publishing, connecting,
      snapshotting, writing, waking and leaving: a guest waiting with an empty
      wake-up channel was last sent the current set, and no guest is ever sent
      an older set after a newer one. */
  lemma {:induction false} NoLostUpdate<V>(s: State<V>, ops: seq<Op<V>>, c: nat)
    requires Inv(s)
    ensures Inv(Run(s, ops))
    ensures var s' := Run(s, ops);
            c in s'.conns ==>
              && Ascending(s'.conns[c].sent)
              && (s'.conns[c].phase == Waiting && !s'.conns[c].token ==>
                    s'.conns[c].sent != [] && s'.conns[c].sent[|s'.conns[c].sent| - 1] == s'.Latest())
  {
    if ops != [] {
      NoLostUpdate(s, ops[..|ops| - 1], c);
      StepKeepsInv(Run(s, ops[..|ops| - 1]), ops[|ops| - 1]);
    }
  }

  /** The guest a step belongs to; publishing is nobody's. */
  predicate Owns<V>(op: Op<V>, c: nat) {
    match op
    case Publish(_) => false
    case Connect(g) => g == c
    case Snapshot(g) => g == c
    case Written(g) => g == c
    case Wake(g) => g == c
    case Leave(g) => g == c
  }

  /** A guest's steps touch no other guest and no published set; publishing adds
      its set and leaves every guest what it was sent. */
  lemma StepsAreOwn<V>(s: State<V>, op: Op<V>, c: nat)
    requires !Owns(op, c)
    ensures var s' := Apply(s, op);
            && s'.history == (if op.Publish? then s.history + [op.v] else s.history)
            && (c in s'.conns <==> c in s.conns)
            && (c in s.conns ==> s'.conns[c] == s.conns[c].(token := s.conns[c].token || op.Publish?))
  {
  }

  predicate UpToDate<V>(s: State<V>, c: nat) {
    && c in s.conns && s.conns[c].phase == Waiting && !s.conns[c].token
    && s.conns[c].sent != [] && s.conns[c].sent[|s.conns[c].sent| - 1] == s.Latest()
  }

  /** How many of its own steps a connection is from being up to date. */
  function Lag(c: Conn): nat {
    (match c.phase case Waiting => 0 case Writing(_) => 1 case ToSnapshot => 2) + if c.token then 3 else 0
  }

  function OwnStep<V>(conn: Conn, c: nat): Op<V> {
    match conn.phase
    case Waiting => Wake(c)
    case Writing(_) => Written(c)
    case ToSnapshot => Snapshot(c)
  }

  lemma OwnStepHelps<V>(s: State<V>, c: nat)
    requires Inv(s) && c in s.conns && Lag(s.conns[c]) > 0
    ensures var s' := Apply(s, OwnStep(s.conns[c], c));
            c in s'.conns && Lag(s'.conns[c]) == Lag(s.conns[c]) - 1 && s'.history == s.history
  {
  }

  /** Left to itself, a connected guest reaches the current set in at most
      five of its own steps, from any reachable state. */
  lemma {:induction false} Converges<V>(s: State<V>, c: nat) returns (ops: seq<Op<V>>)
    requires Inv(s) && c in s.conns
    ensures |ops| == Lag(s.conns[c]) <= 5
    ensures forall op :: op in ops ==> op == Wake(c) || op == Snapshot(c) || op == Written(c)
    ensures UpToDate(Run(s, ops), c) && Run(s, ops).history == s.history
    decreases Lag(s.conns[c])
  {
    if Lag(s.conns[c]) == 0 {
      ops := [];
    } else {
      var op := OwnStep(s.conns[c], c);
      OwnStepHelps(s, c);
      StepKeepsInv(s, op);
      var rest := Converges(Apply(s, op), c);
      assert [op][..0] == [];
      assert Run(s, [op]) == Apply(s, op);
      RunConcat(s, [op], rest);
      ops := [op] + rest;
    }
  }

  lemma {:induction false} RunConcat<V>(s: State<V>, a: seq<Op<V>>, b: seq<Op<V>>)
    ensures Run(s, a + b) == Run(Run(s, a), b)
    decreases |b|
  {
    if b == [] {
      assert a + b == a;
    } else {
      assert (a + b)[..|a + b| - 1] == a + b[..|b| - 1];
      RunConcat(s, a, b[..|b| - 1]);
    }
  }

  // ---------- the proxy object ----------

  /** The published set and its subscribers, as both proxies keep them. */
  class SnapshotProxy<V> {
    var history: seq<V>
    var conns: map<nat, Conn>

    function Value(): State<V>
      reads this
    {
      State(history, conns)
    }

    constructor (v: V)
      ensures Value() == State([v], map[]) && Inv(Value())
    {
      history, conns := [v], map[];
    }

    /** Replaces the set and wakes every guest without blocking. */
    method Set(v: V)
      requires Inv(Value())
      modifies this
      ensures Value() == Apply(old(Value()), Publish(v)) && Inv(Value())
    {
      StepKeepsInv(Value(), Publish(v));
      history := history + [v];
      var todo := conns.Keys;
      ghost var before := conns;
      while todo != {}
        invariant todo <= before.Keys && conns.Keys == before.Keys
        invariant history == old(history) + [v]
        invariant forall c :: c in todo ==> conns[c] == before[c]
        invariant forall c :: c in before && c !in todo ==> conns[c] == before[c].(token := true)
        decreases todo
      {
        var c :| c in todo;
        if !conns[c].token {
          conns := conns[c := conns[c].(token := true)];
        }
        todo := todo - {c};
      }
      assert conns == Notify(before);
    }

    method Subscribe(c: nat)
      requires Inv(Value()) && c !in conns
      modifies this
      ensures Value() == Apply(old(Value()), Connect(c)) && Inv(Value())
      ensures c in conns && conns[c] == Conn(false, ToSnapshot, [])
    {
      StepKeepsInv(Value(), Connect(c));
      conns := conns[c := Conn(false, ToSnapshot, [])];
    }

    method Unsubscribe(c: nat)
      requires Inv(Value())
      modifies this
      ensures Value() == Apply(old(Value()), Leave(c)) && Inv(Value())
      ensures history == old(history) && c !in conns
      ensures forall g :: g != c ==> (g in conns <==> g in old(conns)) && (g in conns ==> conns[g] == old(conns)[g])
    {
      StepKeepsInv(Value(), Leave(c));
      conns := conns - {c};
    }

    /** The complete current set, read under the lock. */
    method TakeSnapshot(c: nat) returns (snap: V)
      requires Inv(Value()) && c in conns && conns[c].phase == ToSnapshot
      modifies this
      ensures Value() == Apply(old(Value()), Snapshot(c)) && Inv(Value())
      ensures snap == history[|history| - 1]
    {
      StepKeepsInv(Value(), Snapshot(c));
      snap := history[|history| - 1];
      conns := conns[c := conns[c].(phase := Writing(|history| - 1))];
    }
  }

  // ---------- serial attachments ----------

  /** busy is the set of claimed device names; inFlight the attachments that
      hold a claim. */
  datatype Ports = Ports(busy: set<string>, inFlight: map<nat, string>)

  datatype PortOp = Claim(attach: nat, name: string) | Release(attach: nat)

  function ApplyPort(p: Ports, op: PortOp): Ports {
    match op
    case Claim(a, name) =>
      if name in p.busy || a in p.inFlight then p else Ports(p.busy + {name}, p.inFlight[a := name])
    case Release(a) =>
      if a in p.inFlight then Ports(p.busy - {p.inFlight[a]}, p.inFlight - {a}) else p
  }

  function RunPorts(p: Ports, ops: seq<PortOp>): Ports {
    if ops == [] then p else ApplyPort(RunPorts(p, ops[..|ops| - 1]), ops[|ops| - 1])
  }

  ghost predicate PortsOk(p: Ports) {
    && (forall a :: a in p.inFlight ==> p.inFlight[a] in p.busy)
    && (forall n :: n in p.busy ==> exists a :: a in p.inFlight && p.inFlight[a] == n)
    && (forall a, b :: a in p.inFlight && b in p.inFlight && a != b ==> p.inFlight[a] != p.inFlight[b])
  }

  lemma PortStep(p: Ports, op: PortOp)
    requires PortsOk(p)
    ensures PortsOk(ApplyPort(p, op))
  {
    var p' := ApplyPort(p, op);
    forall n | n in p'.busy ensures exists a :: a in p'.inFlight && p'.inFlight[a] == n {
      if op.Claim? && n == op.name && n !in p.busy {
        assert p'.inFlight[op.attach] == n;
      } else {
        var a :| a in p.inFlight && p.inFlight[a] == n;
        assert a in p'.inFlight && p'.inFlight[a] == n;
      }
    }
  }

  /** A claim succeeds exactly while no attachment of that name is in flight,
      and a release makes the name free again. */
  lemma ClaimsAreExact(ops: seq<PortOp>, a: nat, name: string)
    ensures var p := RunPorts(Ports({}, map[]), ops);
            && (a !in p.inFlight ==>
                  (ApplyPort(p, Claim(a, name)).inFlight == p.inFlight[a := name] <==>
                   forall b :: b in p.inFlight ==> p.inFlight[b] != name))
            && (a in p.inFlight ==>
                  && p.inFlight[a] !in ApplyPort(p, Release(a)).busy
                  && ApplyPort(p, Release(a)).inFlight == p.inFlight - {a})
  {
    OneAttachmentPerDevice(ops);
    var p := RunPorts(Ports({}, map[]), ops);
    assert name in p.busy ==> exists b :: b in p.inFlight && p.inFlight[b] == name;
    assert a !in p.inFlight ==> p.inFlight[a := name] != p.inFlight by {
      assert a in p.inFlight[a := name];
    }
  }

  /** The claimed names, as the proxy keeps them. */
  class BusyPorts {
    var busy: set<string>

    constructor ()
      ensures busy == {}
    {
      busy := {};
    }

    method Claim(name: string) returns (ok: bool)
      modifies this
      ensures ok <==> name !in old(busy)
      ensures name in busy && forall n :: n != name ==> (n in busy <==> n in old(busy))
    {
      if name in busy {
        return false;
      }
      busy := busy + {name};
      return true;
    }

    method Release(name: string)
      modifies this
      ensures name !in busy && forall n :: n != name ==> (n in busy <==> n in old(busy))
    {
      busy := busy - {name};
    }
  }

  /** In every run no device name has two attachments in flight, and a name is
      refused only while one is. */
  lemma {:induction false} OneAttachmentPerDevice(ops: seq<PortOp>)
    ensures PortsOk(RunPorts(Ports({}, map[]), ops))
  {
    if ops != [] {
      OneAttachmentPerDevice(ops[..|ops| - 1]);
      PortStep(RunPorts(Ports({}, map[]), ops[..|ops| - 1]), ops[|ops| - 1]);
    }
  }
}
