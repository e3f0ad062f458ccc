/** The interactive gate: connections held for a human decision, coalesced
    per destination, announced to lossy subscriber streams. Every region the
    gate runs under its mutex is one atomic step here. */
module Gates {
  import opened Text
  import Blocks

  type Addr = Blocks.Addr

  const MAX_HOLD: nat := 16
  const EVENT_BUFFER: nat := 64

  datatype Action = ActionDeny | ActionAllow
  datatype Scope = Once | Session | Always
  datatype Decision = Decision(action: Action, scope: Scope)

  const DENIED := Decision(ActionDeny, Once)
  const ALLOWED_ONCE := Decision(ActionAllow, Once)

  /** The text "<address>#<counter>". */
  datatype Id = Id(key: Addr, counter: nat)

  /** One held destination; a decision is present once it is resolved. */
  datatype Hold = Hold(id: Id, host: string, port: string, waiters: nat, deadline: int, decision: Option<Decision>)

  datatype Event = Pending(id: Id, hold: Hold) | Resolved(id: Id, action: Action)

  /** A subscriber's channel: all it was ever sent, and how much it has read. */
  datatype Stream = Stream(sent: seq<Event>, taken: nat)

  /** A hold is named by its index in holds, which keeps resolved holds too
      because released waiters still read them. */
  type Ref = nat

  datatype State = State(
    holds: seq<Hold>,
    byKey: map<Addr, Ref>,
    byID: map<Id, Ref>,
    subs: map<nat, Stream>,
    nextSub: nat,
    closed: bool,
    joined: map<nat, Ref>,
    returned: map<nat, Decision>)

  const INITIAL := State([], map[], map[], map[], 0, false, map[], map[])

  // ---------- streams ----------

  predicate Room(c: Stream) {
    |c.sent| - c.taken < EVENT_BUFFER
  }

  /** A subscriber whose buffer is full is dropped. */
  function Broadcast(subs: map<nat, Stream>, ev: Event): map<nat, Stream> {
    map i | i in subs && Room(subs[i]) :: subs[i].(sent := subs[i].sent + [ev])
  }

  /** What a listener that adds on pending and drops on resolved believes is
      outstanding. */
  function Open(sent: seq<Event>): set<Id> {
    if sent == [] then {}
    else
      var ev := sent[|sent| - 1];
      if ev.Pending? then Open(sent[..|sent| - 1]) + {ev.id} else Open(sent[..|sent| - 1]) - {ev.id}
  }

  predicate Mentions(sent: seq<Event>, id: Id) {
    exists i :: 0 <= i < |sent| && sent[i].id == id
  }

  /** A pending event is the first mention of its id; a resolved event closes
      an id that is open. */
  predicate Orderly(sent: seq<Event>) {
    sent == [] ||
    (var init, ev := sent[..|sent| - 1], sent[|sent| - 1];
     Orderly(init) && if ev.Pending? then !Mentions(init, ev.id) else ev.id in Open(init))
  }

  // ---------- steps ----------

  datatype Op =
    | Decide(waiter: nat, key: Addr, host: string, port: string, deadline: int)
    | Wake(waiter: nat)
    | Resolve(id: Id, decision: Decision)
    | Expire(id: Id)
    | AllowAll(order: seq<Ref>)
    | Subscribe(order: seq<Ref>)
    | Cancel(sub: nat)
    | Receive(sub: nat)
    | Close

  /** Refuses at once when nobody can answer or too much is held; otherwise
      joins the hold on this destination, opening it if need be. */
  function Join(s: State, w: nat, key: Addr, host: string, port: string, deadline: int): State
    requires key in s.byKey ==> s.byKey[key] < |s.holds|
  {
    if s.closed || |s.subs| == 0 then s.(returned := s.returned[w := DENIED])
    else if key in s.byKey then
      var r := s.byKey[key];
      s.(holds := s.holds[r := s.holds[r].(waiters := s.holds[r].waiters + 1)], joined := s.joined[w := r])
    else if |s.byKey| >= MAX_HOLD then s.(returned := s.returned[w := DENIED])
    else OpenHold(s, w, key, host, port, deadline)
  }

  function OpenHold(s: State, w: nat, key: Addr, host: string, port: string, deadline: int): State {
    var r := |s.holds|;
    var hold := Hold(Id(key, r + 1), host, port, 1, deadline, None);
    State(s.holds + [hold], s.byKey[key := r], s.byID[hold.id := r], Broadcast(s.subs, Pending(hold.id, hold)),
          s.nextSub, s.closed, s.joined[w := r], s.returned)
  }

  predicate Blocked(s: State, w: nat) {
    w in s.joined && w !in s.returned
  }

  /** A blocked caller resumes once its hold is decided, with that decision. */
  function Awaken(s: State, w: nat): State
    requires w in s.joined ==> s.joined[w] < |s.holds|
  {
    if Blocked(s, w) && s.holds[s.joined[w]].decision.Some?
    then s.(returned := s.returned[w := s.holds[s.joined[w]].decision.value])
    else s
  }

  function Finish(s: State, r: Ref, d: Decision): State
    requires r < |s.holds|
  {
    var h := s.holds[r];
    if h.decision.Some? then s
    else s.(holds := s.holds[r := h.(decision := Some(d))],
            byKey := s.byKey - {h.id.key}, byID := s.byID - {h.id},
            subs := Broadcast(s.subs, Resolved(h.id, d.action)))
  }

  predicate Known(s: State, order: seq<Ref>) {
    forall i :: 0 <= i < |order| ==> order[i] < |s.holds|
  }

  function FinishAll(s: State, order: seq<Ref>, d: Decision): (s': State)
    requires Known(s, order)
    ensures |s'.holds| == |s.holds|
  {
    if order == [] then s
    else Finish(FinishAll(s, order[..|order| - 1], d), order[|order| - 1], d)
  }

  function Replay(s: State, order: seq<Ref>): seq<Event>
    requires Known(s, order)
  {
    if order == [] then []
    else
      var r := order[|order| - 1];
      Replay(s, order[..|order| - 1]) + [Pending(s.holds[r].id, s.holds[r])]
  }

  function Attach(s: State, order: seq<Ref>): State
    requires Known(s, order)
  {
    s.(subs := s.subs[s.nextSub := Stream(Replay(s, order), 0)], nextSub := s.nextSub + 1)
  }

  function Shut(s: State): State {
    s.(closed := true, byKey := map[], byID := map[], subs := map[],
       holds := seq(|s.holds|, i requires 0 <= i < |s.holds| =>
         if s.holds[i].decision.None? then s.holds[i].(decision := Some(DENIED)) else s.holds[i]))
  }

  /** The outstanding holds, each once, in some order. */
  ghost predicate Enumerates(s: State, order: seq<Ref>) {
    && (forall i, j :: 0 <= i < j < |order| ==> order[i] != order[j])
    && (forall r :: r in order <==> r in s.byKey.Values)
  }

  /** When a step may be taken: a caller's token is its own, and enumerations
      list exactly what is outstanding. */
  ghost predicate Enabled(s: State, op: Op) {
    match op
    case Decide(w, _, _, _, _) => w !in s.joined && w !in s.returned
    case AllowAll(order) => Enumerates(s, order)
    case Subscribe(order) => Enumerates(s, order)
    case _ => true
  }

  /** Every reference points at a hold; part of the invariant. */
  ghost predicate Pointed(s: State) {
    && (forall k :: k in s.byKey ==> s.byKey[k] < |s.holds|)
    && (forall id :: id in s.byID ==> s.byID[id] < |s.holds|)
    && (forall w :: w in s.joined ==> s.joined[w] < |s.holds|)
  }

  ghost function Apply(s: State, op: Op): State
    requires Pointed(s) && Enabled(s, op)
  {
    match op
    case Decide(w, key, host, port, deadline) => Join(s, w, key, host, port, deadline)
    case Wake(w) => Awaken(s, w)
    case Resolve(id, d) => if id in s.byID then Finish(s, s.byID[id], d) else s
    case Expire(id) => if id in s.byID then Finish(s, s.byID[id], DENIED) else s
    case AllowAll(order) => EnumeratesKnown(s, order); FinishAll(s, order, ALLOWED_ONCE)
    case Subscribe(order) => EnumeratesKnown(s, order); Attach(s, order)
    case Cancel(i) => s.(subs := s.subs - {i})
    case Receive(i) => Read(s, i)
    case Close => Shut(s)
  }

  function Read(s: State, i: nat): State {
    if i in s.subs && s.subs[i].taken < |s.subs[i].sent|
    then s.(subs := s.subs[i := s.subs[i].(taken := s.subs[i].taken + 1)])
    else s
  }

  lemma EnumeratesKnown(s: State, order: seq<Ref>)
    requires Pointed(s) && Enumerates(s, order)
    ensures Known(s, order)
  {
    forall i | 0 <= i < |order| ensures order[i] < |s.holds| {
      assert order[i] in s.byKey.Values;
    }
  }

  // ---------- invariant ----------

  function Joiners(joined: map<nat, Ref>, r: Ref): set<nat> {
    set w | w in joined && joined[w] == r
  }

  /** Ids are never reused: the counter is the hold's position. */
  ghost predicate Numbered(s: State) {
    forall r :: 0 <= r < |s.holds| ==> s.holds[r].id.counter == r + 1
  }

  /** Every undecided hold is found through its key and through its id. */
  ghost predicate Found(s: State) {
    forall r :: 0 <= r < |s.holds| && s.holds[r].decision.None? ==>
      && s.holds[r].id.key in s.byKey && s.byKey[s.holds[r].id.key] == r
      && s.holds[r].id in s.byID && s.byID[s.holds[r].id] == r
  }

  ghost predicate KeyIndex(s: State) {
    forall k :: k in s.byKey ==>
      s.byKey[k] < |s.holds| && s.holds[s.byKey[k]].id.key == k && s.holds[s.byKey[k]].decision.None?
  }

  ghost predicate IdIndex(s: State) {
    forall id :: id in s.byID ==>
      s.byID[id] < |s.holds| && s.holds[s.byID[id]].id == id && s.holds[s.byID[id]].decision.None?
  }

  /** byKey and byID index the same holds, exactly the undecided ones, and at
      most MAX_HOLD of them. */
  ghost predicate Indexed(s: State) {
    Numbered(s) && Found(s) && KeyIndex(s) && IdIndex(s) && |s.byKey| <= MAX_HOLD
  }

  /** The stream fits its buffer, is orderly, folds to ids, and mentions no
      id issued after the n-th. */
  ghost predicate StreamOk(c: Stream, ids: set<Id>, n: nat) {
    && c.taken <= |c.sent| <= c.taken + EVENT_BUFFER
    && Orderly(c.sent)
    && Open(c.sent) == ids
    && forall id :: Mentions(c.sent, id) ==> id.counter <= n
  }

  ghost predicate AllOk(subs: map<nat, Stream>, ids: set<Id>, n: nat) {
    forall i :: i in subs ==> StreamOk(subs[i], ids, n)
  }

  /** Every attached subscriber's stream folds to the outstanding holds. */
  ghost predicate Streaming(s: State) {
    AllOk(s.subs, s.byID.Keys, |s.holds|) && forall i :: i in s.subs ==> i < s.nextSub
  }

  /** Every caller that joined a hold and has returned got that hold's
      decision, and a hold counts its callers. */
  ghost predicate Waiters(s: State) {
    && (forall w :: w in s.joined ==> s.joined[w] < |s.holds|)
    && (forall w :: w in s.joined && w in s.returned ==>
          s.holds[s.joined[w]].decision == Some(s.returned[w]))
    && (forall r :: 0 <= r < |s.holds| ==> s.holds[r].waiters == |Joiners(s.joined, r)|)
  }

  ghost predicate Inv(s: State) {
    && Indexed(s) && Streaming(s) && Waiters(s)
    && (s.closed ==> s.byKey == map[] && s.byID == map[])
  }

  // ---------- streams under broadcast ----------

  lemma BroadcastStream(c: Stream, ev: Event)
    requires c.taken <= |c.sent| <= c.taken + EVENT_BUFFER && Room(c) && Orderly(c.sent)
    requires if ev.Pending? then !Mentions(c.sent, ev.id) else ev.id in Open(c.sent)
    ensures var c' := c.(sent := c.sent + [ev]);
            && c'.taken <= |c'.sent| <= c'.taken + EVENT_BUFFER && Orderly(c'.sent)
            && Open(c'.sent) == (if ev.Pending? then Open(c.sent) + {ev.id} else Open(c.sent) - {ev.id})
            && forall id :: Mentions(c'.sent, id) ==> Mentions(c.sent, id) || id == ev.id
  {
    var sent' := c.sent + [ev];
    assert sent'[..|sent'| - 1] == c.sent;
    forall id | Mentions(sent', id) ensures Mentions(c.sent, id) || id == ev.id {
      var i :| 0 <= i < |sent'| && sent'[i].id == id;
      if i < |c.sent| {
        assert c.sent[i].id == id;
      }
    }
  }

  lemma BroadcastKeys(subs: map<nat, Stream>, ev: Event)
    ensures forall i :: i in Broadcast(subs, ev) ==> i in subs
  {
  }

  lemma BroadcastPending(subs: map<nat, Stream>, ids: set<Id>, n: nat, ev: Event)
    requires AllOk(subs, ids, n) && ev.Pending? && ev.id.counter == n + 1
    ensures AllOk(Broadcast(subs, ev), ids + {ev.id}, n + 1)
  {
    hide Orderly, Open, Mentions;
    forall i | i in Broadcast(subs, ev) ensures StreamOk(Broadcast(subs, ev)[i], ids + {ev.id}, n + 1) {
      BroadcastStream(subs[i], ev);
    }
  }

  lemma BroadcastResolved(subs: map<nat, Stream>, ids: set<Id>, n: nat, ev: Event)
    requires AllOk(subs, ids, n) && ev.Resolved? && ev.id in ids && ev.id.counter <= n
    ensures AllOk(Broadcast(subs, ev), ids - {ev.id}, n)
  {
    hide Orderly, Open, Mentions;
    forall i | i in Broadcast(subs, ev) ensures StreamOk(Broadcast(subs, ev)[i], ids - {ev.id}, n) {
      BroadcastStream(subs[i], ev);
    }
  }

  // ---------- each step keeps the invariant ----------

  lemma FinishFound(s: State, r: Ref, d: Decision)
    requires Indexed(s) && r < |s.holds|
    ensures Found(Finish(s, r, d)) && Numbered(Finish(s, r, d))
  {
    hide Broadcast, KeyIndex, IdIndex;
    var s', h := Finish(s, r, d), s.holds[r];
    forall q | 0 <= q < |s'.holds| && s'.holds[q].decision.None? ensures
      && s'.holds[q].id.key in s'.byKey && s'.byKey[s'.holds[q].id.key] == q
      && s'.holds[q].id in s'.byID && s'.byID[s'.holds[q].id] == q {
      assert s'.holds[q] == s.holds[q];
    }
  }

  lemma FinishKeyIndex(s: State, r: Ref, d: Decision)
    requires KeyIndex(s) && r < |s.holds|
    ensures KeyIndex(Finish(s, r, d))
  {
    hide Broadcast;
    var s' := Finish(s, r, d);
    forall k | k in s'.byKey ensures
      s'.byKey[k] < |s'.holds| && s'.holds[s'.byKey[k]].id.key == k && s'.holds[s'.byKey[k]].decision.None? {
      assert k in s.byKey && s'.byKey[k] == s.byKey[k];
    }
  }

  lemma FinishIdIndex(s: State, r: Ref, d: Decision)
    requires IdIndex(s) && r < |s.holds|
    ensures IdIndex(Finish(s, r, d))
  {
    hide Broadcast;
    var s' := Finish(s, r, d);
    forall id | id in s'.byID ensures
      s'.byID[id] < |s'.holds| && s'.holds[s'.byID[id]].id == id && s'.holds[s'.byID[id]].decision.None? {
      assert id in s.byID && s'.byID[id] == s.byID[id];
    }
  }

  lemma FinishIndexed(s: State, r: Ref, d: Decision)
    requires Indexed(s) && r < |s.holds|
    ensures Indexed(Finish(s, r, d))
  {
    hide Broadcast, Found, Numbered, KeyIndex, IdIndex;
    FinishFound(s, r, d);
    FinishKeyIndex(s, r, d);
    FinishIdIndex(s, r, d);
    KeysSize(Finish(s, r, d).byKey, s.byKey);
  }

  lemma KeysSize<K, V>(a: map<K, V>, b: map<K, V>)
    requires a.Keys <= b.Keys
    ensures |a| <= |b|
  {
    SubsetSize(a.Keys, b.Keys);
    assert |a| == |a.Keys| && |b| == |b.Keys|;
  }

  lemma {:induction false} SubsetSize<T>(a: set<T>, b: set<T>)
    requires a <= b
    ensures |a| <= |b|
    decreases b
  {
    if a != {} {
      var x :| x in a;
      SubsetSize(a - {x}, b - {x});
    }
  }

  lemma FinishStreaming(s: State, r: Ref, d: Decision)
    requires Indexed(s) && Streaming(s) && r < |s.holds|
    ensures Streaming(Finish(s, r, d))
  {
    hide AllOk, Broadcast;
    var h := s.holds[r];
    if h.decision.None? {
      var ids := s.byID.Keys;
      BroadcastKeys(s.subs, Resolved(h.id, d.action));
      BroadcastResolved(s.subs, ids, |s.holds|, Resolved(h.id, d.action));
      assert (s.byID - {h.id}).Keys == ids - {h.id};
    }
  }

  lemma FinishWaiters(s: State, r: Ref, d: Decision)
    requires Inv(s) && r < |s.holds|
    ensures Waiters(Finish(s, r, d))
  {
    hide Streaming, Indexed, Joiners, Broadcast;
  }

  lemma FinishKeepsInv(s: State, r: Ref, d: Decision)
    requires Inv(s) && r < |s.holds|
    ensures Inv(Finish(s, r, d))
  {
    hide Indexed, Streaming, Waiters;
    FinishIndexed(s, r, d);
    FinishStreaming(s, r, d);
    FinishWaiters(s, r, d);
  }

  lemma {:induction false} FinishAllKeepsInv(s: State, order: seq<Ref>, d: Decision)
    requires Inv(s) && Known(s, order)
    ensures Inv(FinishAll(s, order, d))
  {
    if order != [] {
      FinishAllKeepsInv(s, order[..|order| - 1], d);
      FinishKeepsInv(FinishAll(s, order[..|order| - 1], d), order[|order| - 1], d);
    }
  }

  lemma JoinersGrow(joined: map<nat, Ref>, w: nat, r: Ref, q: Ref)
    requires w !in joined
    ensures |Joiners(joined[w := r], q)| == |Joiners(joined, q)| + if q == r then 1 else 0
  {
    if q == r {
      assert Joiners(joined[w := r], q) == Joiners(joined, q) + {w};
    } else {
      assert Joiners(joined[w := r], q) == Joiners(joined, q);
    }
  }

  /** Only the waiter count of hold r changes. */
  lemma RecountIndexed(s: State, r: Ref, n: nat)
    requires Indexed(s) && r < |s.holds|
    ensures Indexed(s.(holds := s.holds[r := s.holds[r].(waiters := n)]))
  {
    hide Numbered, Found, KeyIndex, IdIndex;
    var holds := s.holds[r := s.holds[r].(waiters := n)];
    SameIds(s, s.(holds := holds));
    SameIndexes(s, s.(holds := holds));
  }

  ghost predicate Alike(s: State, s': State) {
    && |s'.holds| == |s.holds| && s'.byKey == s.byKey && s'.byID == s.byID
    && forall q :: 0 <= q < |s.holds| ==> s'.holds[q].id == s.holds[q].id && s'.holds[q].decision == s.holds[q].decision
  }

  lemma SameIds(s: State, s': State)
    requires Alike(s, s') && Numbered(s) && Found(s)
    ensures Numbered(s') && Found(s')
  {
  }

  lemma SameIndexes(s: State, s': State)
    requires Alike(s, s') && KeyIndex(s) && IdIndex(s)
    ensures KeyIndex(s') && IdIndex(s')
  {
  }

  lemma IndexedFrame(s: State, s': State)
    requires Indexed(s) && s'.holds == s.holds && s'.byKey == s.byKey && s'.byID == s.byID
    ensures Indexed(s')
  {
  }

  lemma JoinExistingWaiters(s: State, w: nat, key: Addr, host: string, port: string, deadline: int)
    requires Waiters(s) && w !in s.joined && w !in s.returned
    requires !s.closed && |s.subs| != 0 && key in s.byKey && s.byKey[key] < |s.holds|
    ensures Waiters(Join(s, w, key, host, port, deadline))
  {
    hide Joiners;
    var s' := Join(s, w, key, host, port, deadline);
    forall q | 0 <= q < |s'.holds| ensures s'.holds[q].waiters == |Joiners(s'.joined, q)| {
      JoinersGrow(s.joined, w, s.byKey[key], q);
    }
  }

  lemma KeyRef(s: State, key: Addr)
    requires KeyIndex(s) && key in s.byKey
    ensures s.byKey[key] < |s.holds|
  {
  }

  lemma JoinExisting(s: State, w: nat, key: Addr, host: string, port: string, deadline: int)
    requires Inv(s) && w !in s.joined && w !in s.returned
    requires !s.closed && |s.subs| != 0 && key in s.byKey
    ensures Inv(Join(s, w, key, host, port, deadline))
  {
    hide AllOk, Waiters, Numbered, Found, KeyIndex, IdIndex;
    KeyRef(s, key);
    var s' := Join(s, w, key, host, port, deadline);
    var r := s.byKey[key];
    RecountIndexed(s, r, s.holds[r].waiters + 1);
    IndexedFrame(s.(holds := s'.holds), s');
    JoinExistingWaiters(s, w, key, host, port, deadline);
  }

  /** One more hold, found through a key and an id that were free. */
  lemma AddIndexed(s: State, h: Hold)
    requires Indexed(s) && h.id == Id(h.id.key, |s.holds| + 1) && h.decision.None?
    requires h.id.key !in s.byKey && |s.byKey| < MAX_HOLD
    ensures Indexed(s.(holds := s.holds + [h],
                       byKey := s.byKey[h.id.key := |s.holds|], byID := s.byID[h.id := |s.holds|]))
  {
    hide Numbered, Found, KeyIndex, IdIndex;
    var s' := s.(holds := s.holds + [h], byKey := s.byKey[h.id.key := |s.holds|], byID := s.byID[h.id := |s.holds|]);
    AddFound(s, h, s');
    AddIndexes(s, h, s');
    MapGrows(s.byKey, h.id.key, |s.holds|);
  }

  lemma KeysGrow<K, V>(m: map<K, V>, k: K, v: V)
    ensures m[k := v].Keys == m.Keys + {k}
  {
  }

  lemma MapGrows<K, V>(m: map<K, V>, k: K, v: V)
    requires k !in m
    ensures |m[k := v]| == |m| + 1
  {
    assert m[k := v].Keys == m.Keys + {k};
    assert |m[k := v]| == |m[k := v].Keys|;
  }

  lemma AddFound(s: State, h: Hold, s': State)
    requires Indexed(s) && h.id.counter == |s.holds| + 1 && h.id.key !in s.byKey
    requires s'.holds == s.holds + [h]
    requires s'.byKey == s.byKey[h.id.key := |s.holds|] && s'.byID == s.byID[h.id := |s.holds|]
    ensures Numbered(s') && Found(s')
  {
    hide KeyIndex, IdIndex;
    forall q | 0 <= q < |s'.holds| && s'.holds[q].decision.None? ensures
      && s'.holds[q].id.key in s'.byKey && s'.byKey[s'.holds[q].id.key] == q
      && s'.holds[q].id in s'.byID && s'.byID[s'.holds[q].id] == q {
      if q < |s.holds| {
        assert s'.holds[q] == s.holds[q];
        assert s.holds[q].id != h.id;
      }
    }
  }

  lemma AddIndexes(s: State, h: Hold, s': State)
    requires KeyIndex(s) && IdIndex(s) && h.decision.None? && s'.holds == s.holds + [h]
    requires s'.byKey == s.byKey[h.id.key := |s.holds|] && s'.byID == s.byID[h.id := |s.holds|]
    ensures KeyIndex(s') && IdIndex(s')
  {
    assert s'.holds[|s.holds|] == h;
    assert forall q :: 0 <= q < |s.holds| ==> s'.holds[q] == s.holds[q];
  }

  lemma OpenIndexed(s: State, w: nat, key: Addr, host: string, port: string, deadline: int)
    requires Indexed(s) && !s.closed && |s.subs| != 0 && key !in s.byKey && |s.byKey| < MAX_HOLD
    ensures Indexed(Join(s, w, key, host, port, deadline))
  {
    var h := Hold(Id(key, |s.holds| + 1), host, port, 1, deadline, None);
    AddIndexed(s, h);
    var s1 := s.(holds := s.holds + [h], byKey := s.byKey[key := |s.holds|], byID := s.byID[h.id := |s.holds|]);
    IndexedFrame(s1, Join(s, w, key, host, port, deadline));
  }

  lemma OpenStreaming(s: State, w: nat, key: Addr, host: string, port: string, deadline: int)
    requires Streaming(s) && !s.closed && |s.subs| != 0 && key !in s.byKey && |s.byKey| < MAX_HOLD
    ensures Streaming(Join(s, w, key, host, port, deadline))
  {
    hide AllOk, Broadcast;
    assert Join(s, w, key, host, port, deadline) == OpenHold(s, w, key, host, port, deadline);
    var hold := Hold(Id(key, |s.holds| + 1), host, port, 1, deadline, None);
    BroadcastKeys(s.subs, Pending(hold.id, hold));
    BroadcastPending(s.subs, s.byID.Keys, |s.holds|, Pending(hold.id, hold));
    KeysGrow(s.byID, hold.id, |s.holds|);
  }

  lemma OpenWaiters(s: State, w: nat, key: Addr, host: string, port: string, deadline: int)
    requires Inv(s) && w !in s.joined && w !in s.returned
    requires !s.closed && |s.subs| != 0 && key !in s.byKey && |s.byKey| < MAX_HOLD
    ensures Waiters(Join(s, w, key, host, port, deadline))
  {
    hide Streaming, Indexed, Joiners, Broadcast;
    var s' := Join(s, w, key, host, port, deadline);
    var r := |s.holds|;
    NoJoiners(s.joined, r);
    forall q | 0 <= q < |s'.holds| ensures s'.holds[q].waiters == |Joiners(s'.joined, q)| {
      JoinersGrow(s.joined, w, r, q);
    }
  }

  lemma NoJoiners(joined: map<nat, Ref>, r: Ref)
    requires forall w :: w in joined ==> joined[w] < r
    ensures Joiners(joined, r) == {}
  {
  }

  lemma JoinKeepsInv(s: State, w: nat, key: Addr, host: string, port: string, deadline: int)
    requires Inv(s) && w !in s.joined && w !in s.returned
    ensures Inv(Join(s, w, key, host, port, deadline))
  {
    hide AllOk, Numbered, Found, KeyIndex, IdIndex;
    if s.closed || |s.subs| == 0 {
      IndexedFrame(s, s.(returned := s.returned[w := DENIED]));
    } else if key in s.byKey {
      JoinExisting(s, w, key, host, port, deadline);
    } else if |s.byKey| >= MAX_HOLD {
      IndexedFrame(s, s.(returned := s.returned[w := DENIED]));
    } else {
      OpenIndexed(s, w, key, host, port, deadline);
      OpenStreaming(s, w, key, host, port, deadline);
      OpenWaiters(s, w, key, host, port, deadline);
    }
  }

  // ---------- subscribing ----------

  function IdsOf(s: State, order: seq<Ref>): set<Id>
    requires Known(s, order)
  {
    set i | 0 <= i < |order| :: s.holds[order[i]].id
  }

  lemma IdsOfNext(s: State, init: seq<Ref>, r: Ref)
    requires Known(s, init + [r]) && Numbered(s) && r !in init
    ensures r < |s.holds| && Known(s, init) && IdsOf(s, init + [r]) == IdsOf(s, init) + {s.holds[r].id}
    ensures s.holds[r].id !in IdsOf(s, init)
  {
    var order := init + [r];
    assert order[|init|] == r;
    assert forall i :: 0 <= i < |init| ==> order[i] == init[i];
    assert forall i :: 0 <= i < |init| ==> s.holds[init[i]].id in IdsOf(s, order);
    assert s.holds[order[|init|]].id in IdsOf(s, order);
  }

  /** Replaying any list of distinct holds yields an orderly stream that opens
      exactly those. */
  lemma {:induction false} ReplayOpens(s: State, order: seq<Ref>)
    requires Numbered(s) && Known(s, order)
    requires forall i, j :: 0 <= i < j < |order| ==> order[i] != order[j]
    ensures Orderly(Replay(s, order)) && |Replay(s, order)| == |order|
    ensures Open(Replay(s, order)) == IdsOf(s, order)
    ensures forall id :: Mentions(Replay(s, order), id) <==> id in IdsOf(s, order)
  {
    if order == [] {
      ReplayNothing(s);
    } else {
      hide Orderly, Open, Mentions, IdsOf, Replay;
      var init, r := order[..|order| - 1], order[|order| - 1];
      ReplayOpens(s, init);
      assert order == init + [r];
      IdsOfNext(s, init, r);
      ReplayLast(s, init, r);
      ReplayStep(Replay(s, init), Pending(s.holds[r].id, s.holds[r]));
    }
  }

  lemma ReplayNothing(s: State)
    ensures Replay(s, []) == [] && Orderly([]) && Open([]) == {} && IdsOf(s, []) == {}
    ensures forall id :: !Mentions([], id)
  {
  }

  lemma ReplayLast(s: State, init: seq<Ref>, r: Ref)
    requires Known(s, init + [r])
    ensures r < |s.holds| && Known(s, init)
    ensures Replay(s, init + [r]) == Replay(s, init) + [Pending(s.holds[r].id, s.holds[r])]
  {
    assert (init + [r])[|init|] == r && (init + [r])[..|init|] == init;
    assert forall i :: 0 <= i < |init| ==> init[i] == (init + [r])[i];
  }

  lemma ReplayStep(sent: seq<Event>, ev: Event)
    requires Orderly(sent) && ev.Pending? && !Mentions(sent, ev.id)
    ensures Orderly(sent + [ev]) && Open(sent + [ev]) == Open(sent) + {ev.id}
    ensures forall id :: Mentions(sent + [ev], id) <==> Mentions(sent, id) || id == ev.id
  {
  }

  lemma {:induction false} EnumerationSize(order: seq<Ref>, values: set<Ref>)
    requires forall i, j :: 0 <= i < j < |order| ==> order[i] != order[j]
    requires forall r :: r in order <==> r in values
    ensures |order| == |values|
  {
    if order == [] {
      assert values == {};
    } else {
      var init, r := order[..|order| - 1], order[|order| - 1];
      assert order == init + [r];
      EnumerationSize(init, values - {r});
    }
  }

  lemma {:induction false} ValuesSize(m: map<Addr, Ref>)
    ensures |m.Values| <= |m|
    decreases m.Keys
  {
  }

  /** The replay fits the new channel's buffer, so subscribing never blocks. */
  lemma ReplayFits(s: State, order: seq<Ref>)
    requires |s.byKey| <= MAX_HOLD && Enumerates(s, order)
    ensures |order| <= MAX_HOLD <= EVENT_BUFFER
  {
    EnumerationSize(order, s.byKey.Values);
    ValuesSize(s.byKey);
  }

  lemma EnumeratesIds(s: State, order: seq<Ref>)
    requires Indexed(s) && Enumerates(s, order) && Known(s, order)
    ensures IdsOf(s, order) == s.byID.Keys
  {
    forall id | id in s.byID ensures id in IdsOf(s, order) {
      var r := s.byID[id];
      assert s.byKey[s.holds[r].id.key] == r;
      assert r in s.byKey.Values;
      var i :| 0 <= i < |order| && order[i] == r;
      assert s.holds[order[i]].id == id;
    }
    forall id | id in IdsOf(s, order) ensures id in s.byID {
      var i :| 0 <= i < |order| && s.holds[order[i]].id == id;
      assert order[i] in s.byKey.Values;
    }
  }

  lemma ReplayOk(s: State, order: seq<Ref>)
    requires Indexed(s) && Pointed(s) && Enumerates(s, order)
    ensures Known(s, order) && StreamOk(Stream(Replay(s, order), 0), s.byID.Keys, |s.holds|)
  {
    hide Orderly, Open, Mentions, Replay, IdsOf;
    EnumeratesKnown(s, order);
    ReplayFits(s, order);
    ReplayOpens(s, order);
    EnumeratesIds(s, order);
    assert forall id :: id in s.byID ==> id.counter <= |s.holds|;
  }

  lemma AttachKeepsInv(s: State, order: seq<Ref>)
    requires Inv(s) && Pointed(s) && Enumerates(s, order)
    ensures Known(s, order) && Inv(Attach(s, order))
  {
    hide StreamOk, Replay, Enumerates, Indexed;
    ReplayOk(s, order);
    IndexedFrame(s, Attach(s, order));
  }

  // ---------- the remaining steps ----------

  lemma InvIsPointed(s: State)
    requires Inv(s)
    ensures Pointed(s)
  {
  }

  lemma AwakenKeepsInv(s: State, w: nat)
    requires Inv(s) && Pointed(s)
    ensures Inv(Awaken(s, w))
  {
    hide AllOk, Numbered, Found, KeyIndex, IdIndex, Joiners;
    IndexedFrame(s, Awaken(s, w));
  }

  lemma SubsKeepInv(s: State, subs: map<nat, Stream>)
    requires Inv(s) && AllOk(subs, s.byID.Keys, |s.holds|) && forall i :: i in subs ==> i in s.subs
    ensures Inv(s.(subs := subs))
  {
  }

  lemma ShutKeepsInv(s: State)
    requires Inv(s)
    ensures Inv(Shut(s))
  {
    hide AllOk, Joiners;
    var s' := Shut(s);
    assert forall r :: 0 <= r < |s.holds| ==>
      s'.holds[r].id == s.holds[r].id && s'.holds[r].waiters == s.holds[r].waiters && s'.holds[r].decision.Some?
      && (s.holds[r].decision.Some? ==> s'.holds[r] == s.holds[r]);
    assert AllOk(s'.subs, s'.byID.Keys, |s'.holds|) by {
      NoStreams({}, |s.holds|);
      assert s'.byID.Keys == {};
    }
  }

  lemma NoStreams(ids: set<Id>, n: nat)
    ensures AllOk(map[], ids, n)
  {
  }

  lemma ApplyKeepsInv(s: State, op: Op)
    requires Inv(s) && Enabled(s, op)
    ensures Pointed(s) && Inv(Apply(s, op))
  {
    InvIsPointed(s);
    hide Indexed, Waiters, StreamOk, Finish, FinishAll, Join, Attach, Shut, Awaken;
    match op
    case Decide(w, key, host, port, deadline) => JoinKeepsInv(s, w, key, host, port, deadline);
    case Wake(w) => AwakenKeepsInv(s, w);
    case Resolve(id, d) =>
      if id in s.byID {
        FinishKeepsInv(s, s.byID[id], d);
      }
    case Expire(id) =>
      if id in s.byID {
        FinishKeepsInv(s, s.byID[id], DENIED);
      }
    case AllowAll(order) =>
      EnumeratesKnown(s, order);
      FinishAllKeepsInv(s, order, ALLOWED_ONCE);
    case Subscribe(order) => AttachKeepsInv(s, order);
    case Cancel(i) => SubsKeepInv(s, s.subs - {i});
    case Receive(i) =>
      ReadOk(s, i);
      SubsKeepInv(s, Read(s, i).subs);
    case Close => ShutKeepsInv(s);
  }

  lemma ReadOk(s: State, i: nat)
    requires Streaming(s)
    ensures AllOk(Read(s, i).subs, s.byID.Keys, |s.holds|)
  {
  }
}

/** What holds over whole runs of the gate, and the gate as an object. */
module GateRuns {
  import opened Text
  import opened Gates

  /** A step that cannot be taken leaves the gate as it is. */
  ghost function Step(s: State, op: Op): State {
    if Pointed(s) && Enabled(s, op) then Apply(s, op) else s
  }

  ghost function Run(s: State, ops: seq<Op>): State {
    if ops == [] then s else Step(Run(s, ops[..|ops| - 1]), ops[|ops| - 1])
  }

  lemma InitialOk()
    ensures Inv(INITIAL)
  {
  }

  /** Over every run of the gate: the two indexes agree and hold at most
      MAX_HOLD entries, every attached stream folds to exactly the outstanding
      holds, and every released caller got its hold's decision. */
  lemma {:induction false} RunKeepsInv(s: State, ops: seq<Op>)
    requires Inv(s)
    ensures Inv(Run(s, ops))
  {
    hide Inv, Apply;
    if ops != [] {
      var mid, op := Run(s, ops[..|ops| - 1]), ops[|ops| - 1];
      RunKeepsInv(s, ops[..|ops| - 1]);
      if Enabled(mid, op) {
        ApplyKeepsInv(mid, op);
      }
    }
  }

  // ---------- decided exactly once ----------

  /** s' extends s: same holds in the same places, and a decision once made
      stays as it was made. */
  ghost predicate Extends(s: State, s': State) {
    && |s.holds| <= |s'.holds|
    && forall r :: 0 <= r < |s.holds| ==>
         && s'.holds[r].id == s.holds[r].id
         && (s.holds[r].decision.Some? ==> s'.holds[r].decision == s.holds[r].decision)
  }

  lemma {:induction false} FinishAllExtends(s: State, order: seq<Ref>, d: Decision)
    requires Known(s, order)
    ensures Extends(s, FinishAll(s, order, d))
  {
    if order != [] {
      FinishAllExtends(s, order[..|order| - 1], d);
    }
  }

  lemma FinishExtends(s: State, r: Ref, d: Decision)
    requires r < |s.holds|
    ensures Extends(s, Finish(s, r, d))
  {
  }

  lemma JoinExtends(s: State, w: nat, key: Addr, host: string, port: string, deadline: int)
    requires Pointed(s)
    ensures Extends(s, Join(s, w, key, host, port, deadline))
    ensures forall r :: 0 <= r < |s.holds| ==>
      Join(s, w, key, host, port, deadline).holds[r].decision == s.holds[r].decision
  {
    hide Broadcast;
  }

  lemma ApplyExtends(s: State, op: Op)
    requires Pointed(s) && Enabled(s, op)
    ensures Extends(s, Apply(s, op))
  {
    hide Replay, Finish, FinishAll, Join;
    match op
    case Decide(w, key, host, port, deadline) => JoinExtends(s, w, key, host, port, deadline);
    case Resolve(id, d) =>
      if id in s.byID {
        FinishExtends(s, s.byID[id], d);
      }
    case Expire(id) =>
      if id in s.byID {
        FinishExtends(s, s.byID[id], DENIED);
      }
    case AllowAll(order) =>
      EnumeratesKnown(s, order);
      FinishAllExtends(s, order, ALLOWED_ONCE);
    case _ =>
  }

  /** No step of any run ever changes a decision that was made. */
  lemma {:induction false} DecisionsStand(s: State, ops: seq<Op>)
    ensures Extends(s, Run(s, ops))
  {
    hide Apply, Enabled, Pointed;
    if ops != [] {
      var mid, op := Run(s, ops[..|ops| - 1]), ops[|ops| - 1];
      DecisionsStand(s, ops[..|ops| - 1]);
      if Pointed(mid) && Enabled(mid, op) {
        ApplyExtends(mid, op);
      }
    }
  }

  /** What a step says about the hold with this id, if it speaks of it. */
  function Verdict(op: Op, id: Id): Option<Decision> {
    match op
    case Resolve(i, d) => if i == id then Some(d) else None
    case Expire(i) => if i == id then Some(DENIED) else None
    case AllowAll(_) => Some(ALLOWED_ONCE)
    case Close => Some(DENIED)
    case _ => None
  }

  lemma {:induction false} FinishAllDecides(s: State, order: seq<Ref>, d: Decision, r: Ref)
    requires Known(s, order) && r < |s.holds| && s.holds[r].decision.None?
    ensures FinishAll(s, order, d).holds[r].decision == if r in order then Some(d) else None
  {
    if order != [] {
      var init, q := order[..|order| - 1], order[|order| - 1];
      assert order == init + [q];
      FinishAllDecides(s, init, d, r);
    }
  }

  lemma ResolveDecides(s: State, id: Id, d: Decision, r: Ref)
    requires Indexed(s) && r < |s.holds| && s.holds[r].decision.None?
    ensures id in s.byID ==> s.byID[id] < |s.holds|
    ensures (if id in s.byID then Finish(s, s.byID[id], d) else s).holds[r].decision
            == if s.holds[r].id == id then Some(d) else None
  {
    hide Broadcast;
  }

  /** A hold is decided by exactly the first step that speaks of it, and as
      that step says. */
  lemma FirstToSpeakDecides(s: State, op: Op, r: Ref)
    requires Inv(s) && Enabled(s, op) && r < |s.holds| && s.holds[r].decision.None?
    ensures Pointed(s) && r < |Apply(s, op).holds|
    ensures Apply(s, op).holds[r].decision == Verdict(op, s.holds[r].id)
  {
    hide Replay, Streaming, Waiters, Finish, FinishAll, Join, Indexed;
    InvIsPointed(s);
    ApplyExtends(s, op);
    match op
    case Decide(w, key, host, port, deadline) => JoinExtends(s, w, key, host, port, deadline);
    case Resolve(id, d) => ResolveDecides(s, id, d, r);
    case Expire(id) => ResolveDecides(s, id, DENIED, r);
    case AllowAll(order) =>
      EnumeratesKnown(s, order);
      UndecidedIsListed(s, order, r);
      FinishAllDecides(s, order, ALLOWED_ONCE, r);
    case _ =>
  }

  lemma UndecidedIsListed(s: State, order: seq<Ref>, r: Ref)
    requires Indexed(s) && Enumerates(s, order) && r < |s.holds| && s.holds[r].decision.None?
    ensures r in order
  {
  }

  /** What the first step of ops that is taken and speaks of id says. */
  ghost function FirstWord(s: State, ops: seq<Op>, id: Id): Option<Decision> {
    if ops == [] then None
    else
      var init, op := ops[..|ops| - 1], ops[|ops| - 1];
      var word := FirstWord(s, init, id);
      if word.Some? then word else if Enabled(Run(s, init), op) then Verdict(op, id) else None
  }

  /** Over a whole run a hold's decision is the first word spoken on it, and
      that hold stays undecided as long as none is. */
  lemma {:induction false} DecidedByFirstWord(s: State, ops: seq<Op>, r: Ref)
    requires Inv(s) && r < |s.holds| && s.holds[r].decision.None?
    ensures r < |Run(s, ops).holds| && Run(s, ops).holds[r].id == s.holds[r].id
    ensures Run(s, ops).holds[r].decision == FirstWord(s, ops, s.holds[r].id)
  {
    hide Apply, Enabled, Verdict, Inv;
    DecisionsStand(s, ops);
    if ops != [] {
      var init, op := ops[..|ops| - 1], ops[|ops| - 1];
      var mid := Run(s, init);
      DecidedByFirstWord(s, init, r);
      RunKeepsInv(s, init);
      InvIsPointed(mid);
      DecisionsStand(mid, [op]);
      assert [op][..0] == [] && Run(mid, [op]) == Step(mid, op);
      if Enabled(mid, op) && mid.holds[r].decision.None? {
        FirstToSpeakDecides(mid, op, r);
      }
    }
  }

  /** Coalesced callers that have both returned got one and the same answer. */
  lemma CoalescedCallersAgree(ops: seq<Op>, v: nat, w: nat)
    ensures var s := Run(INITIAL, ops);
            v in s.joined && w in s.joined && s.joined[v] == s.joined[w] && v in s.returned && w in s.returned
            ==> s.returned[v] == s.returned[w]
  {
    hide Run, Indexed, Streaming;
    InitialOk();
    RunKeepsInv(INITIAL, ops);
  }

  // ---------- who is refused, and who is allowed ----------

  /** Nobody can answer, or too much is held and this destination is not. */
  predicate Refuses(s: State, key: Addr) {
    s.closed || |s.subs| == 0 || (key !in s.byKey && |s.byKey| >= MAX_HOLD)
  }

  /** A call is refused exactly then, and denied; otherwise it joins a hold on its
      destination that is undecided, the one that is there or a new one. */
  lemma DecideExactly(s: State, w: nat, key: Addr, host: string, port: string, deadline: int)
    requires Inv(s) && w !in s.joined && w !in s.returned
    ensures Pointed(s)
    ensures var t := Join(s, w, key, host, port, deadline);
            && (Refuses(s, key) ==> t == s.(returned := s.returned[w := DENIED]))
            && (!Refuses(s, key) ==>
                  && t.returned == s.returned && w in t.joined && t.joined[w] < |t.holds|
                  && t.holds[t.joined[w]].id.key == key && t.holds[t.joined[w]].decision.None?
                  && (key in s.byKey ==> t.joined[w] == s.byKey[key] && |t.holds| == |s.holds|)
                  && (key !in s.byKey ==>
                        && t.joined[w] == |s.holds| && |t.holds| == |s.holds| + 1
                        && t.holds[|s.holds|] == Hold(Id(key, |s.holds| + 1), host, port, 1, deadline, None)))
  {
    hide Broadcast, Streaming, Waiters, IdIndex, Found;
    InvIsPointed(s);
  }

  /** A caller that returned without joining a hold was denied. */
  ghost predicate RefusedAreDenied(s: State) {
    forall w :: w in s.returned && w !in s.joined ==> s.returned[w] == DENIED
  }

  lemma RefusedStep(s: State, op: Op)
    requires Pointed(s) && Enabled(s, op) && RefusedAreDenied(s)
    ensures RefusedAreDenied(Apply(s, op))
  {
    hide Broadcast, Replay;
    if op.AllowAll? {
      EnumeratesKnown(s, op.order);
      FinishAllKeepsCallers(s, op.order, ALLOWED_ONCE);
    }
  }

  lemma {:induction false} FinishAllKeepsCallers(s: State, order: seq<Ref>, d: Decision)
    requires Known(s, order)
    ensures FinishAll(s, order, d).returned == s.returned && FinishAll(s, order, d).joined == s.joined
  {
    hide Broadcast;
    if order != [] {
      FinishAllKeepsCallers(s, order[..|order| - 1], d);
    }
  }

  lemma {:induction false} RefusedRun(s: State, ops: seq<Op>)
    requires RefusedAreDenied(s)
    ensures RefusedAreDenied(Run(s, ops))
  {
    hide Apply, Enabled, Pointed, RefusedAreDenied;
    if ops != [] {
      var mid, op := Run(s, ops[..|ops| - 1]), ops[|ops| - 1];
      RefusedRun(s, ops[..|ops| - 1]);
      if Pointed(mid) && Enabled(mid, op) {
        RefusedStep(mid, op);
      }
    }
  }

  /** Step n of ops was taken and decided on id as d. */
  ghost predicate Spoke(s: State, ops: seq<Op>, n: nat, id: Id, d: Decision) {
    n < |ops| && Enabled(Run(s, ops[..n]), ops[n]) && Verdict(ops[n], id) == Some(d)
  }

  lemma StepOpensUndecided(s: State, op: Op, r: Ref)
    requires Pointed(s) && Enabled(s, op) && |s.holds| <= r < |Apply(s, op).holds|
    ensures Apply(s, op).holds[r].decision.None?
  {
    hide Broadcast, Replay;
  }

  /** Every decision was made by a step that was taken and says so. */
  lemma {:induction false} DecisionHasCause(ops: seq<Op>, r: Ref) returns (n: nat)
    requires r < |Run(INITIAL, ops).holds| && Run(INITIAL, ops).holds[r].decision.Some?
    ensures var h := Run(INITIAL, ops).holds[r]; Spoke(INITIAL, ops, n, h.id, h.decision.value)
    decreases |ops|
  {
    hide Apply, Enabled, Verdict, Inv;
    var init, op := ops[..|ops| - 1], ops[|ops| - 1];
    var mid := Run(INITIAL, init);
    InitialOk();
    RunKeepsInv(INITIAL, init);
    InvIsPointed(mid);
    if r < |mid.holds| && mid.holds[r].decision.Some? {
      n := DecisionHasCause(init, r);
      assert init[..n] == ops[..n];
      if Enabled(mid, op) {
        ApplyExtends(mid, op);
      }
    } else {
      assert Enabled(mid, op);
      ApplyExtends(mid, op);
      if r < |mid.holds| {
        FirstToSpeakDecides(mid, op, r);
      } else {
        StepOpensUndecided(mid, op, r);
      }
      n := |ops| - 1;
    }
  }

  /** A caller is let through only because it joined a hold that somebody allowed:
      a resolve of that hold as allowed, or an allow-all. */
  lemma AllowedBySomebody(ops: seq<Op>, w: nat) returns (n: nat)
    requires w in Run(INITIAL, ops).returned && Run(INITIAL, ops).returned[w].action == ActionAllow
    ensures var s := Run(INITIAL, ops);
            && w in s.joined && s.joined[w] < |s.holds| && n < |ops| && Enabled(Run(INITIAL, ops[..n]), ops[n])
            && (ops[n].AllowAll? || ops[n] == Op.Resolve(s.holds[s.joined[w]].id, s.returned[w]))
  {
    hide Run, Indexed, Streaming;
    var s := Run(INITIAL, ops);
    InitialOk();
    RunKeepsInv(INITIAL, ops);
    RefusedRun(INITIAL, ops);
    n := DecisionHasCause(ops, s.joined[w]);
  }

  /** A blocked caller whose hold is decided returns with that decision. */
  lemma WakeReturns(s: State, w: nat)
    requires Inv(s) && Blocked(s, w) && s.joined[w] < |s.holds| && s.holds[s.joined[w]].decision.Some?
    ensures Pointed(s)
    ensures var t := Apply(s, Wake(w));
            w in t.returned && Some(t.returned[w]) == s.holds[s.joined[w]].decision
  {
    InvIsPointed(s);
  }

  // ---------- what subscribers are told is true, and they stay ----------

  /** What an event says agrees with the hold it is about. */
  predicate Truthful(holds: seq<Hold>, ev: Event) {
    && 0 < ev.id.counter <= |holds|
    && var h := holds[ev.id.counter - 1];
       && h.id == ev.id
       && (ev.Pending? ==> ev.hold.id == h.id && ev.hold.host == h.host && ev.hold.port == h.port
                           && ev.hold.deadline == h.deadline)
       && (ev.Resolved? ==> h.decision.Some? && h.decision.value.action == ev.action)
  }

  ghost predicate AllTruthful(s: State) {
    forall i, k :: i in s.subs && 0 <= k < |s.subs[i].sent| ==> Truthful(s.holds, s.subs[i].sent[k])
  }

  /** The same holds, with decisions only added. */
  ghost predicate SameHolds(a: seq<Hold>, b: seq<Hold>) {
    && |a| <= |b|
    && forall r :: 0 <= r < |a| ==>
         && b[r].id == a[r].id && b[r].host == a[r].host && b[r].port == a[r].port && b[r].deadline == a[r].deadline
         && (a[r].decision.Some? ==> b[r].decision == a[r].decision)
  }

  lemma TruthStands(s: State, holds: seq<Hold>)
    requires AllTruthful(s) && SameHolds(s.holds, holds)
    ensures AllTruthful(s.(holds := holds))
  {
  }

  lemma TruthBroadcast(s: State, ev: Event, t: State)
    requires AllTruthful(s) && Truthful(s.holds, ev)
    requires t.holds == s.holds && t.subs == Broadcast(s.subs, ev)
    ensures AllTruthful(t)
  {
    hide Truthful;
    forall i, k | i in t.subs && 0 <= k < |t.subs[i].sent| ensures Truthful(t.holds, t.subs[i].sent[k]) {
      assert k < |s.subs[i].sent| ==> t.subs[i].sent[k] == s.subs[i].sent[k];
    }
  }

  lemma FinishTruthful(s: State, r: Ref, d: Decision)
    requires r < |s.holds| && s.holds[r].id.counter == r + 1 && AllTruthful(s)
    ensures AllTruthful(Finish(s, r, d)) && SameHolds(s.holds, Finish(s, r, d).holds)
  {
    hide Broadcast, AllTruthful;
    var h := s.holds[r];
    if h.decision.None? {
      var holds := s.holds[r := h.(decision := Some(d))];
      TruthStands(s, holds);
      TruthBroadcast(s.(holds := holds), Resolved(h.id, d.action), Finish(s, r, d));
    }
  }

  lemma {:induction false} FinishAllTruthful(s: State, order: seq<Ref>, d: Decision)
    requires Known(s, order) && Numbered(s) && AllTruthful(s)
    ensures AllTruthful(FinishAll(s, order, d)) && SameHolds(s.holds, FinishAll(s, order, d).holds)
  {
    hide AllTruthful, Finish;
    if order != [] {
      FinishAllTruthful(s, order[..|order| - 1], d);
      FinishTruthful(FinishAll(s, order[..|order| - 1], d), order[|order| - 1], d);
    }
  }

  lemma JoinTruthful(s: State, w: nat, key: Addr, host: string, port: string, deadline: int)
    requires Pointed(s) && AllTruthful(s)
    ensures AllTruthful(Join(s, w, key, host, port, deadline))
  {
    hide Broadcast, AllTruthful;
    var t := Join(s, w, key, host, port, deadline);
    if |t.holds| == |s.holds| {
      TruthStands(s, t.holds);
      SameSubs(s.(holds := t.holds), t);
    } else {
      var hold := t.holds[|s.holds|];
      TruthStands(s, t.holds);
      TruthBroadcast(s.(holds := t.holds), Pending(hold.id, hold), t);
    }
  }

  lemma SameSubs(s: State, t: State)
    requires AllTruthful(s) && t.holds == s.holds && t.subs == s.subs
    ensures AllTruthful(t)
  {
  }

  lemma {:induction false} ReplayTruthful(s: State, order: seq<Ref>, k: nat)
    requires Known(s, order) && Numbered(s) && k < |Replay(s, order)|
    ensures Truthful(s.holds, Replay(s, order)[k])
  {
    if order != [] && k < |Replay(s, order[..|order| - 1])| {
      ReplayTruthful(s, order[..|order| - 1], k);
    }
  }

  lemma StepTruthful(s: State, op: Op)
    requires Inv(s) && Enabled(s, op) && AllTruthful(s)
    ensures Pointed(s) && AllTruthful(Apply(s, op))
  {
    hide AllTruthful, Finish, FinishAll, Join, Replay, Streaming, Waiters, Broadcast;
    InvIsPointed(s);
    match op
    case Decide(w, key, host, port, deadline) => JoinTruthful(s, w, key, host, port, deadline);
    case Wake(w) => SameSubs(s, Apply(s, op));
    case Resolve(id, d) =>
      if id in s.byID {
        FinishTruthful(s, s.byID[id], d);
      }
    case Expire(id) =>
      if id in s.byID {
        FinishTruthful(s, s.byID[id], DENIED);
      }
    case AllowAll(order) =>
      EnumeratesKnown(s, order);
      FinishAllTruthful(s, order, ALLOWED_ONCE);
    case Subscribe(order) => AttachTruthful(s, order);
    case _ => FewerTold(s, op);
  }

  lemma AttachTruthful(s: State, order: seq<Ref>)
    requires Pointed(s) && Numbered(s) && Enumerates(s, order) && AllTruthful(s)
    ensures Known(s, order) && AllTruthful(Attach(s, order))
  {
    hide Truthful, Replay;
    EnumeratesKnown(s, order);
    var t := Attach(s, order);
    forall i, k | i in t.subs && 0 <= k < |t.subs[i].sent| ensures Truthful(t.holds, t.subs[i].sent[k]) {
      if i == s.nextSub {
        ReplayTruthful(s, order, k);
      }
    }
  }

  lemma FewerTold(s: State, op: Op)
    requires Pointed(s) && AllTruthful(s) && (op.Cancel? || op.Receive? || op.Close?)
    ensures AllTruthful(Apply(s, op))
  {
    hide Truthful;
  }

  /** Over every run, all that a subscriber was told is true: each pending event
      describes its hold, each resolved event carries that hold's decision. */
  lemma {:induction false} SubscribersAreToldTheTruth(ops: seq<Op>)
    ensures AllTruthful(Run(INITIAL, ops))
  {
    hide Apply, Enabled, Inv, AllTruthful;
    InitialOk();
    if ops == [] {
      NobodyTold();
    } else {
      var mid, op := Run(INITIAL, ops[..|ops| - 1]), ops[|ops| - 1];
      SubscribersAreToldTheTruth(ops[..|ops| - 1]);
      RunKeepsInv(INITIAL, ops[..|ops| - 1]);
      if Enabled(mid, op) {
        StepTruthful(mid, op);
      }
    }
  }

  lemma NobodyTold()
    ensures AllTruthful(INITIAL)
  {
  }

  /** How many events a step may send to one subscriber. */
  function Sends(op: Op): nat {
    match op
    case Decide(_, _, _, _, _) => 1
    case Resolve(_, _) => 1
    case Expire(_) => 1
    case AllowAll(order) => |order|
    case _ => 0
  }

  lemma {:induction false} FinishAllKeepsRoomy(s: State, order: seq<Ref>, d: Decision, i: nat)
    requires Known(s, order) && i in s.subs && |s.subs[i].sent| - s.subs[i].taken + |order| <= EVENT_BUFFER
    ensures var t := FinishAll(s, order, d);
            && i in t.subs && s.subs[i].sent <= t.subs[i].sent && t.subs[i].taken == s.subs[i].taken
            && |t.subs[i].sent| <= |s.subs[i].sent| + |order|
  {
    if order != [] {
      FinishAllKeepsRoomy(s, order[..|order| - 1], d, i);
    }
  }

  /** A subscriber with room for what a step sends stays attached and loses
      nothing it was sent; only cancelling or closing detaches it. */
  lemma RoomyStays(s: State, op: Op, i: nat)
    requires Pointed(s) && Enabled(s, op) && i in s.subs && i < s.nextSub && op != Cancel(i) && op != Close
    requires |s.subs[i].sent| - s.subs[i].taken + Sends(op) <= EVENT_BUFFER
    ensures i in Apply(s, op).subs && s.subs[i].sent <= Apply(s, op).subs[i].sent
  {
    hide Replay;
    if op.AllowAll? {
      EnumeratesKnown(s, op.order);
      FinishAllKeepsRoomy(s, op.order, ALLOWED_ONCE, i);
    }
  }

  // ---------- closing ----------

  lemma ClosedStaysClosed(s: State, op: Op)
    requires Pointed(s) && Enabled(s, op) && s.closed
    ensures Apply(s, op).closed
  {
    if op.AllowAll? {
      EnumeratesKnown(s, op.order);
      FinishAllClosed(s, op.order, ALLOWED_ONCE);
    }
  }

  lemma {:induction false} FinishAllClosed(s: State, order: seq<Ref>, d: Decision)
    requires Known(s, order)
    ensures FinishAll(s, order, d).closed == s.closed
  {
    if order != [] {
      FinishAllClosed(s, order[..|order| - 1], d);
    }
  }

  lemma {:induction false} RunStaysClosed(s: State, ops: seq<Op>)
    requires s.closed
    ensures Run(s, ops).closed
  {
    hide Apply, Enabled, Pointed;
    if ops != [] {
      var mid, op := Run(s, ops[..|ops| - 1]), ops[|ops| - 1];
      RunStaysClosed(s, ops[..|ops| - 1]);
      if Pointed(mid) && Enabled(mid, op) {
        ClosedStaysClosed(mid, op);
      }
    }
  }

  /** After a close, whatever happens next: nothing is outstanding, every
      caller still blocked is released by its next step, and every new caller
      is refused at once. */
  lemma AfterClose(s: State, ops: seq<Op>, w: nat, key: Addr, host: string, port: string, deadline: int)
    requires Inv(s) && s.closed
    ensures var s' := Run(s, ops);
            && s'.byKey == map[] && s'.byID == map[] && Pointed(s')
            && (Blocked(s', w) ==> w in Apply(s', Wake(w)).returned)
            && (w !in s'.joined && w !in s'.returned ==>
                  Apply(s', Decide(w, key, host, port, deadline)) == s'.(returned := s'.returned[w := DENIED]))
  {
    hide Run, Streaming;
    RunKeepsInv(s, ops);
    RunStaysClosed(s, ops);
    var s' := Run(s, ops);
    InvIsPointed(s');
    assert Blocked(s', w) ==> s'.holds[s'.joined[w]].decision.Some?;
  }

  // ---------- what a subscriber sees ----------

  lemma {:induction false} OpenIsPending(sent: seq<Event>, id: Id)
    requires id in Open(sent)
    ensures exists i :: 0 <= i < |sent| && sent[i].Pending? && sent[i].id == id
  {
    var init, ev := sent[..|sent| - 1], sent[|sent| - 1];
    if ev.Pending? && ev.id == id {
      assert sent[|sent| - 1].Pending?;
    } else {
      OpenIsPending(init, id);
      var i :| 0 <= i < |init| && init[i].Pending? && init[i].id == id;
      assert sent[i] == init[i];
    }
  }

  lemma {:induction false} PrefixOrderly(sent: seq<Event>, n: nat)
    requires Orderly(sent) && n <= |sent|
    ensures Orderly(sent[..n])
    decreases |sent|
  {
    if n == |sent| {
      assert sent[..n] == sent;
    } else {
      var init := sent[..|sent| - 1];
      PrefixOrderly(init, n);
      assert init[..n] == sent[..n];
    }
  }

  /** In an orderly stream a resolved event follows its pending event. */
  lemma ResolvedAfterPending(sent: seq<Event>, j: nat)
    requires Orderly(sent) && j < |sent| && sent[j].Resolved?
    ensures exists i :: 0 <= i < j && sent[i].Pending? && sent[i].id == sent[j].id
  {
    PrefixOrderly(sent, j + 1);
    var p := sent[..j + 1];
    assert p[..j] == sent[..j];
    OpenIsPending(p[..j], sent[j].id);
    var i :| 0 <= i < j && p[..j][i].Pending? && p[..j][i].id == sent[j].id;
    assert sent[i] == p[..j][i];
  }

  lemma {:induction false} ResolvedIsNotOpen(sent: seq<Event>, i: nat)
    requires Orderly(sent) && i < |sent| && sent[i].Resolved?
    ensures sent[i].id !in Open(sent)
    decreases |sent|
  {
    var init, ev := sent[..|sent| - 1], sent[|sent| - 1];
    if i < |init| {
      assert init[i] == sent[i];
      assert Mentions(init, sent[i].id);
      ResolvedIsNotOpen(init, i);
    }
  }

  /** In an orderly stream no id is announced twice and none is resolved twice. */
  lemma AtMostOnce(sent: seq<Event>, i: nat, j: nat)
    requires Orderly(sent) && i < j < |sent| && sent[i].id == sent[j].id
    ensures sent[j].Resolved? && sent[i].Pending?
  {
    PrefixOrderly(sent, j + 1);
    var p := sent[..j + 1];
    assert p[..j] == sent[..j];
    assert p[..j][i] == sent[i];
    assert Mentions(p[..j], sent[i].id);
    if sent[i].Resolved? {
      ResolvedIsNotOpen(p[..j], i);
    }
  }

  /** The guarantee to a subscriber still attached after any run. */
  lemma SubscriberSeesOutstanding(ops: seq<Op>, i: nat)
    ensures var s := Run(INITIAL, ops);
            i in s.subs ==>
              && Orderly(s.subs[i].sent)
              && forall id :: id in Open(s.subs[i].sent) <==>
                   exists r :: 0 <= r < |s.holds| && s.holds[r].id == id && s.holds[r].decision.None?
  {
    hide Run, Orderly, Open, Mentions;
    InitialOk();
    RunKeepsInv(INITIAL, ops);
    var s := Run(INITIAL, ops);
    assert i in s.subs ==> StreamOk(s.subs[i], s.byID.Keys, |s.holds|);
  }

  // ---------- the gate object ----------

  /** Non-blocking send to every subscriber, dropping the ones that are full. */
  method BroadcastTo(subs: map<nat, Stream>, ev: Event) returns (out: map<nat, Stream>)
    ensures forall i :: i in out <==> i in subs && |subs[i].sent| - subs[i].taken < EVENT_BUFFER
    ensures forall i :: i in out ==> out[i].sent == subs[i].sent + [ev] && out[i].taken == subs[i].taken
    ensures out == Broadcast(subs, ev)
  {
    out := subs;
    var todo := subs.Keys;
    while todo != {}
      invariant todo <= subs.Keys && out.Keys <= subs.Keys
      invariant forall i :: i in todo ==> i in out && out[i] == subs[i]
      invariant forall i :: i in subs && i !in todo ==> (i in out <==> Room(subs[i]))
      invariant forall i :: i in out && i !in todo ==> out[i] == subs[i].(sent := subs[i].sent + [ev])
      decreases todo
    {
      var i :| i in todo;
      if Room(subs[i]) {
        out := out[i := subs[i].(sent := subs[i].sent + [ev])];
      } else {
        out := out - {i};
      }
      todo := todo - {i};
    }
  }

  predicate SoonestFirst(holds: seq<Hold>, order: seq<Ref>) {
    && (forall i :: 0 <= i < |order| ==> order[i] < |holds|)
    && forall i, j :: 0 <= i < j < |order| ==> holds[order[i]].deadline <= holds[order[j]].deadline
  }

  predicate Distinct(order: seq<Ref>) {
    forall i, j :: 0 <= i < j < |order| ==> order[i] != order[j]
  }

  method InsertByDeadline(holds: seq<Hold>, order: seq<Ref>, r: Ref) returns (out: seq<Ref>)
    requires SoonestFirst(holds, order) && Distinct(order) && r !in order && r < |holds|
    ensures SoonestFirst(holds, out) && Distinct(out)
    ensures forall q :: q in out <==> q in order || q == r
  {
    var k := 0;
    while k < |order| && holds[order[k]].deadline <= holds[r].deadline
      invariant 0 <= k <= |order|
      invariant forall i :: 0 <= i < k ==> holds[order[i]].deadline <= holds[r].deadline
    {
      k := k + 1;
    }
    out := order[..k] + [r] + order[k..];
    Inserted(holds, order, k, r);
  }

  lemma InsertedAt(order: seq<Ref>, k: nat, r: Ref, i: nat)
    requires k <= |order| && i <= |order|
    ensures (order[..k] + [r] + order[k..])[i] == if i < k then order[i] else if i == k then r else order[i - 1]
  {
  }

  lemma Inserted(holds: seq<Hold>, order: seq<Ref>, k: nat, r: Ref)
    requires SoonestFirst(holds, order) && Distinct(order) && r !in order && r < |holds| && k <= |order|
    requires forall i :: 0 <= i < k ==> holds[order[i]].deadline <= holds[r].deadline
    requires k < |order| ==> holds[r].deadline <= holds[order[k]].deadline
    ensures var out := order[..k] + [r] + order[k..];
            SoonestFirst(holds, out) && Distinct(out) && forall q :: q in out <==> q in order || q == r
  {
    var out := order[..k] + [r] + order[k..];
    assert order == order[..k] + order[k..];
    forall i | 0 <= i < |out| ensures out[i] < |holds| {
      InsertedAt(order, k, r, i);
    }
    forall i, j | 0 <= i < j < |out|
      ensures holds[out[i]].deadline <= holds[out[j]].deadline && out[i] != out[j]
    {
      InsertedAt(order, k, r, i);
      InsertedAt(order, k, r, j);
      if j == k {
        assert order[i] in order;
      } else if i == k {
        assert order[j - 1] in order;
      }
    }
  }

  /** Lists the outstanding holds, soonest deadline first. */
  method ListHolds(holds: seq<Hold>, byKey: map<Addr, Ref>) returns (order: seq<Ref>)
    requires forall k :: k in byKey ==> byKey[k] < |holds| && holds[byKey[k]].id.key == k
    ensures SoonestFirst(holds, order) && Distinct(order)
    ensures forall r :: r in order <==> r in byKey.Values
  {
    order := [];
    var todo := byKey.Keys;
    while todo != {}
      invariant todo <= byKey.Keys
      invariant SoonestFirst(holds, order) && Distinct(order)
      invariant forall r :: r in order <==> exists k :: k in byKey && k !in todo && byKey[k] == r
      decreases todo
    {
      var k :| k in todo;
      order := InsertByDeadline(holds, order, byKey[k]);
      todo := todo - {k};
    }
  }

  /** Fills a new channel with the outstanding holds; every send finds room. */
  method Prime(ghost s: State, holds: seq<Hold>, pendings: seq<Ref>) returns (c: Stream)
    requires holds == s.holds && Known(s, pendings) && |pendings| <= EVENT_BUFFER
    ensures c == Stream(Replay(s, pendings), 0)
  {
    c := Stream([], 0);
    for i := 0 to |pendings|
      invariant c == Stream(Replay(s, pendings[..i]), 0) && |c.sent| == i
    {
      assert Room(c);
      assert pendings[..i + 1][..i] == pendings[..i];
      var p := holds[pendings[i]];
      c := c.(sent := c.sent + [Pending(p.id, p)]);
    }
    assert pendings[..|pendings|] == pendings;
  }

  class Gate {
    var holds: seq<Hold>
    var byKey: map<Addr, Ref>
    var byID: map<Id, Ref>
    var subs: map<nat, Stream>
    var nextSub: nat
    var closed: bool
    var joined: map<nat, Ref>
    var returned: map<nat, Decision>

    function Value(): State
      reads this
    {
      State(holds, byKey, byID, subs, nextSub, closed, joined, returned)
    }

    constructor ()
      ensures Value() == INITIAL && Inv(Value())
    {
      holds, byKey, byID, subs, nextSub, closed, joined, returned := [], map[], map[], map[], 0, false, map[], map[];
      InitialOk();
    }

    method BroadcastLocked(ev: Event)
      modifies this
      ensures Value() == old(Value()).(subs := Broadcast(old(subs), ev))
    {
      subs := BroadcastTo(subs, ev);
    }

    method FinishLocked(r: Ref, d: Decision)
      requires r < |holds|
      modifies this
      ensures Value() == Finish(old(Value()), r, d)
    {
      hide Broadcast;
      var h := holds[r];
      if h.decision.Some? {
        return;
      }
      holds := holds[r := h.(decision := Some(d))];
      byKey := byKey - {h.id.key};
      byID := byID - {h.id};
      BroadcastLocked(Resolved(h.id, d.action));
    }

    /** Registers a new hold and announces it. */
    method StartHold(w: nat, key: Addr, host: string, port: string, deadline: int)
      modifies this
      ensures Value() == OpenHold(old(Value()), w, key, host, port, deadline)
    {
      hide Broadcast;
      var r := |holds|;
      var p := Hold(Id(key, r + 1), host, port, 1, deadline, None);
      holds := holds + [p];
      byKey := byKey[key := r];
      byID := byID[p.id := r];
      BroadcastLocked(Pending(p.id, p));
      joined := joined[w := r];
    }

    /** The part of a call up to where it blocks or is refused. */
    method Decide(w: nat, key: Addr, host: string, port: string, deadline: int)
      requires Inv(Value()) && w !in joined && w !in returned
      modifies this
      ensures old(Pointed(Value())) && Value() == Join(old(Value()), w, key, host, port, deadline)
      ensures Inv(Value())
      ensures w in returned <==>
        old(closed) || |old(subs)| == 0 || (key !in old(byKey) && |old(byKey)| >= MAX_HOLD)
      ensures w in returned ==> returned[w] == DENIED && w !in joined
      ensures w !in returned ==>
        w in joined && joined[w] < |holds| && holds[joined[w]].id.key == key && holds[joined[w]].decision.None?
    {
      hide Inv, OpenHold;
      InvIsPointed(Value());
      DecideExactly(Value(), w, key, host, port, deadline);
      JoinKeepsInv(Value(), w, key, host, port, deadline);
      if closed || |subs| == 0 {
        returned := returned[w := DENIED];
        return;
      }
      if key !in byKey {
        if |byKey| >= MAX_HOLD {
          returned := returned[w := DENIED];
          return;
        }
        StartHold(w, key, host, port, deadline);
      } else {
        var r := byKey[key];
        holds := holds[r := holds[r].(waiters := holds[r].waiters + 1)];
        joined := joined[w := r];
      }
    }

    /** The part after the hold's channel closes: read its decision. */
    method ReadDecision(w: nat) returns (d: Decision)
      requires Inv(Value()) && Blocked(Value(), w) && holds[joined[w]].decision.Some?
      modifies this
      ensures old(Pointed(Value())) && Value() == Apply(old(Value()), Wake(w)) && Inv(Value())
      ensures Some(d) == holds[joined[w]].decision
    {
      ApplyKeepsInv(Value(), Wake(w));
      d := holds[joined[w]].decision.value;
      returned := returned[w := d];
    }

    /** Unknown means already resolved, expired, or never existed. */
    method Resolve(id: Id, d: Decision) returns (known: bool)
      requires Inv(Value())
      modifies this
      ensures old(Pointed(Value())) && Value() == Apply(old(Value()), Op.Resolve(id, d)) && Inv(Value())
      ensures known <==> exists r :: 0 <= r < |old(holds)| && old(holds)[r].id == id && old(holds)[r].decision.None?
      ensures |holds| == |old(holds)| && forall r :: 0 <= r < |holds| && old(holds)[r].decision.None? ==>
        holds[r].decision == if old(holds)[r].id == id then Some(d) else None
    {
      hide StreamOk, Waiters, Finish;
      ApplyKeepsInv(Value(), Op.Resolve(id, d));
      OthersWait(Value(), Op.Resolve(id, d), id, d);
      known := id in byID;
      if known {
        FinishLocked(byID[id], d);
      }
    }

    method Expire(id: Id)
      requires Inv(Value())
      modifies this
      ensures old(Pointed(Value())) && Value() == Apply(old(Value()), Op.Expire(id)) && Inv(Value())
      ensures |holds| == |old(holds)| && forall r :: 0 <= r < |holds| && old(holds)[r].decision.None? ==>
        holds[r].decision == if old(holds)[r].id == id then Some(Decision(ActionDeny, Once)) else None
    {
      hide Inv, Finish;
      ApplyKeepsInv(Value(), Op.Expire(id));
      OthersWait(Value(), Op.Expire(id), id, DENIED);
      if id in byID {
        FinishLocked(byID[id], DENIED);
      }
    }

    /** Releases every held connection as allowed. */
    method AllowAll() returns (ghost order: seq<Ref>)
      requires Inv(Value())
      modifies this
      ensures old(Pointed(Value())) && old(Enumerates(Value(), order))
      ensures Value() == Apply(old(Value()), Op.AllowAll(order)) && Inv(Value())
      ensures byKey == map[] && |holds| == |old(holds)|
      ensures forall r :: 0 <= r < |holds| && old(holds)[r].decision.None? ==>
        holds[r].decision == Some(Decision(ActionAllow, Once))
    {
      hide Inv, FinishAll, SoonestFirst;
      ghost var s := Value();
      InvIsPointed(s);
      KeysAreOwn(s);
      var held := ListHolds(holds, byKey);
      order := held;
      EnumeratesKnown(s, held);
      FinishEach(held, ALLOWED_ONCE);
      ApplyKeepsInv(s, Op.AllowAll(held));
      NothingLeft(s, held);
      AllReleased(s, held);
    }

    method FinishEach(held: seq<Ref>, d: Decision)
      requires Known(Value(), held)
      modifies this
      ensures Value() == FinishAll(old(Value()), held, d)
    {
      hide Finish;
      for i := 0 to |held|
        invariant Known(old(Value()), held[..i]) && Value() == FinishAll(old(Value()), held[..i], d)
      {
        assert held[..i + 1][..i] == held[..i];
        FinishLocked(held[i], d);
      }
      assert held[..|held|] == held;
    }

    /** Opens a stream primed with the outstanding holds. */
    method Subscribe() returns (id: nat, ghost order: seq<Ref>)
      requires Inv(Value())
      modifies this
      ensures old(Pointed(Value())) && old(Enumerates(Value(), order)) && SoonestFirst(old(holds), order)
      ensures Value() == Apply(old(Value()), Op.Subscribe(order)) && Inv(Value())
      ensures id !in old(subs) && id in subs && subs[id].taken == 0
      ensures forall i :: i in old(subs) ==> i in subs && subs[i] == old(subs)[i]
    {
      hide Inv, Replay, StreamOk;
      ghost var s := Value();
      InvIsPointed(s);
      NewNumber(s);
      KeysAreOwn(s);
      var pendings := ListHolds(holds, byKey);
      order := pendings;
      EnumeratesKnown(s, pendings);
      ReplayFits(s, pendings);
      var c := Prime(s, holds, pendings);
      id := nextSub;
      nextSub := nextSub + 1;
      subs := subs[id := c];
      ApplyKeepsInv(s, Op.Subscribe(pendings));
    }

    method Cancel(i: nat)
      requires Inv(Value())
      modifies this
      ensures old(Pointed(Value())) && Value() == Apply(old(Value()), Op.Cancel(i)) && Inv(Value())
      ensures i !in subs && forall j :: j in old(subs) && j != i ==> j in subs && subs[j] == old(subs)[j]
    {
      hide Inv;
      ApplyKeepsInv(Value(), Op.Cancel(i));
      assert i !in subs ==> subs - {i} == subs;
      if i in subs {
        subs := subs - {i};
      }
    }

    method Close()
      requires Inv(Value())
      modifies this
      ensures Value() == Shut(old(Value())) && Inv(Value())
      ensures |holds| == |old(holds)| && forall r :: 0 <= r < |holds| ==>
        holds[r].decision == if old(holds)[r].decision.Some? then old(holds)[r].decision
                             else Some(Decision(ActionDeny, Once))
    {
      hide Inv;
      ShutKeepsInv(Value());
      KeysAreOwn(Value());
      UndecidedAreKeyed(Value());
      holds := DenyOutstanding(holds, byKey);
      closed := true;
      byKey := map[];
      byID := map[];
      subs := map[];
    }
  }

  lemma KeysAreOwn(s: State)
    requires Inv(s)
    ensures forall k :: k in s.byKey ==> s.byKey[k] < |s.holds| && s.holds[s.byKey[k]].id.key == k
    ensures |s.byKey| <= MAX_HOLD
  {
  }

  lemma UndecidedAreKeyed(s: State)
    requires Inv(s)
    ensures forall r :: 0 <= r < |s.holds| && s.holds[r].decision.None? ==>
      s.holds[r].id.key in s.byKey && s.byKey[s.holds[r].id.key] == r
  {
  }

  /** Denies every hold found through byKey that is still undecided. */
  method DenyOutstanding(holds: seq<Hold>, byKey: map<Addr, Ref>) returns (out: seq<Hold>)
    requires forall k :: k in byKey ==> byKey[k] < |holds| && holds[byKey[k]].id.key == k
    requires forall r :: 0 <= r < |holds| && holds[r].decision.None? ==>
      holds[r].id.key in byKey && byKey[holds[r].id.key] == r
    ensures |out| == |holds|
    ensures forall r :: 0 <= r < |holds| ==>
      out[r] == if holds[r].decision.None? then holds[r].(decision := Some(DENIED)) else holds[r]
  {
    out := holds;
    var todo := byKey.Keys;
    while todo != {}
      invariant todo <= byKey.Keys && |out| == |holds|
      invariant forall r :: 0 <= r < |holds| ==>
        out[r] == if holds[r].decision.None? && holds[r].id.key !in todo
                  then holds[r].(decision := Some(DENIED)) else holds[r]
      decreases todo
    {
      var k :| k in todo;
      var r := byKey[k];
      if out[r].decision.None? {
        out := out[r := out[r].(decision := Some(DENIED))];
      }
      todo := todo - {k};
    }
  }

  lemma NewNumber(s: State)
    requires Inv(s)
    ensures s.nextSub !in s.subs
  {
    hide Indexed, Waiters;
  }

  /** A resolve or an expiry decides one hold. */
  lemma OthersWait(s: State, op: Op, id: Id, d: Decision)
    requires Inv(s) && Pointed(s) && (op == Op.Resolve(id, d) || (op == Op.Expire(id) && d == DENIED))
    ensures var t := Apply(s, op);
            && |t.holds| == |s.holds|
            && forall r :: 0 <= r < |s.holds| && s.holds[r].decision.None? ==>
                 t.holds[r].decision == if s.holds[r].id == id then Some(d) else None
  {
    hide Inv, Indexed, Broadcast;
    KeyedAreUndecided(s);
    forall r | 0 <= r < |s.holds| && s.holds[r].decision.None?
      ensures Apply(s, op).holds[r].decision == if s.holds[r].id == id then Some(d) else None
    {
      ResolveDecides(s, id, d, r);
    }
  }

  lemma KeyedAreUndecided(s: State)
    requires Inv(s)
    ensures Indexed(s)
    ensures forall k :: k in s.byKey ==> s.byKey[k] < |s.holds| && s.holds[s.byKey[k]].decision.None?
  {
    hide Streaming, Waiters;
  }

  lemma AllReleased(s: State, order: seq<Ref>)
    requires Inv(s) && Enumerates(s, order) && Known(s, order)
    ensures var t := FinishAll(s, order, ALLOWED_ONCE);
            forall r :: 0 <= r < |s.holds| && s.holds[r].decision.None? ==> t.holds[r].decision == Some(ALLOWED_ONCE)
  {
    hide Inv, Indexed, Enumerates, FinishAll;
    KeyedAreUndecided(s);
    forall r | 0 <= r < |s.holds| && s.holds[r].decision.None?
      ensures FinishAll(s, order, ALLOWED_ONCE).holds[r].decision == Some(ALLOWED_ONCE)
    {
      UndecidedIsListed(s, order, r);
      FinishAllDecides(s, order, ALLOWED_ONCE, r);
    }
  }

  lemma NothingLeft(s: State, order: seq<Ref>)
    requires Inv(s) && Enumerates(s, order) && Known(s, order) && Inv(FinishAll(s, order, ALLOWED_ONCE))
    ensures FinishAll(s, order, ALLOWED_ONCE).byKey == map[]
  {
    hide Inv, Indexed, Enumerates, FinishAll;
    var s' := FinishAll(s, order, ALLOWED_ONCE);
    KeyedAreUndecided(s);
    KeyedAreUndecided(s');
    FinishAllExtends(s, order, ALLOWED_ONCE);
    forall k | k in s'.byKey ensures false {
      var r := s'.byKey[k];
      UndecidedIsListed(s, order, r);
      FinishAllDecides(s, order, ALLOWED_ONCE, r);
    }
  }
}
