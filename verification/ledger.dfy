/** The bounded ledger of refused connections. Under a clock that never
    repeats a reading it is an exact least-recently-refused cache. */
module Ledger {

  const MAX_DENIAL_HOSTS: nat := 256

  datatype Denial = Denial(
    host: string, ip: string, port: string, count: nat, firstSeen: int, lastSeen: int, rule: string)

  /** One refused connection attempt. */
  datatype Refusal = Refusal(host: string, ip: string, port: string, rule: string, at: int)

  // ---------- reference: reverse the trace, de-duplicate, take 256 ----------

  function Without(s: seq<string>, h: string): seq<string> {
    if s == [] then []
    else if s[0] == h then Without(s[1..], h)
    else [s[0]] + Without(s[1..], h)
  }

  /** The hosts of a trace, most recently refused first, each once. */
  function Recent(trace: seq<Refusal>): seq<string> {
    if trace == [] then []
    else
      var h := trace[|trace| - 1].host;
      [h] + Without(Recent(trace[..|trace| - 1]), h)
  }

  function Take(s: seq<string>, n: nat): seq<string> {
    if |s| <= n then s else s[..n]
  }

  function Window(trace: seq<Refusal>): seq<string> {
    Take(Recent(trace), MAX_DENIAL_HOSTS)
  }

  /** The record a host has after a trace: folded into its previous one when
      the host was still in the window, started afresh when it had left it. */
  function Folded(trace: seq<Refusal>, h: string): Denial {
    if trace == [] then Denial(h, "", "", 0, 0, 0, "")
    else
      var init, r := trace[..|trace| - 1], trace[|trace| - 1];
      if r.host != h then Folded(init, h)
      else if h in Window(init) then Fold(Folded(init, h), r)
      else Fold(Denial(h, "", "", 0, r.at, 0, ""), r)
  }

  function Fold(d: Denial, r: Refusal): Denial {
    d.(ip := r.ip, port := r.port, rule := r.rule, count := d.count + 1, lastSeen := r.at)
  }

  ghost function LedgerOf(trace: seq<Refusal>): map<string, Denial> {
    map h | h in Window(trace) :: Folded(trace, h)
  }

  predicate Ticking(trace: seq<Refusal>) {
    forall i, j :: 0 <= i < j < |trace| ==> trace[i].at < trace[j].at
  }

  // ---------- shape of the window ----------

  predicate Distinct(s: seq<string>) {
    forall i, j :: 0 <= i < j < |s| ==> s[i] != s[j]
  }

  lemma DistinctCons(x: string, s: seq<string>)
    requires Distinct(s) && x !in s
    ensures Distinct([x] + s)
  {
  }

  lemma {:induction false} WithoutMembers(s: seq<string>, h: string)
    ensures forall x :: x in Without(s, h) <==> x in s && x != h
    ensures Distinct(s) ==> Distinct(Without(s, h))
  {
    if s != [] {
      WithoutMembers(s[1..], h);
      assert s == [s[0]] + s[1..];
      if Distinct(s) && s[0] != h {
        DistinctCons(s[0], Without(s[1..], h));
      }
    }
  }

  lemma {:induction false} RecentMembers(trace: seq<Refusal>)
    ensures Distinct(Recent(trace))
    ensures forall h :: h in Recent(trace) <==> exists i :: 0 <= i < |trace| && trace[i].host == h
  {
    if trace != [] {
      var init, r := trace[..|trace| - 1], trace[|trace| - 1];
      RecentMembers(init);
      WithoutMembers(Recent(init), r.host);
      DistinctCons(r.host, Without(Recent(init), r.host));
      assert trace == init + [r];
    }
  }

  lemma {:induction false} WithoutAbsent(s: seq<string>, h: string)
    requires h !in s
    ensures Without(s, h) == s
  {
    if s != [] {
      WithoutAbsent(s[1..], h);
    }
  }

  lemma {:induction false} WithoutSplit(a: seq<string>, b: seq<string>, h: string)
    ensures Without(a + b, h) == Without(a, h) + Without(b, h)
  {
    if a == [] {
      assert a + b == b;
    } else {
      assert (a + b)[1..] == a[1..] + b;
      WithoutSplit(a[1..], b, h);
    }
  }

  /** Removing one present element of a list without repetitions. */
  lemma {:induction false} WithoutOne(s: seq<string>, k: nat)
    requires k < |s| && Distinct(s)
    ensures Without(s, s[k]) == s[..k] + s[k + 1..]
  {
    if k == 0 {
      WithoutAbsent(s[1..], s[0]);
    } else {
      var t := s[1..];
      WithoutOne(t, k - 1);
      assert s[..k] + s[k + 1..] == [s[0]] + (t[..k - 1] + t[k..]);
    }
  }

  lemma TakeAcross(u: seq<string>, v: seq<string>, n: nat)
    requires |u| <= n
    ensures Take(u + v, n) == u + Take(v, n - |u|)
  {
  }

  lemma TakeKnown(s: seq<string>, n: nat, k: nat)
    requires Distinct(s) && k < |s| && k < n
    ensures forall h :: h in Take([s[k]] + Without(s, s[k]), n) <==> h in Take(s, n)
  {
    hide Take, Without;
    var a, x, b := s[..k], s[k], s[k + 1..];
    WithoutOne(s, k);
    assert s == (a + [x]) + b && [x] + (a + b) == ([x] + a) + b;
    TakeAcross(a + [x], b, n);
    TakeAcross([x] + a, b, n);
    var rest := Take(b, n - k - 1);
    assert Take(s, n) == (a + [x]) + rest && Take([x] + Without(s, x), n) == ([x] + a) + rest;
  }

  lemma InTake(s: seq<string>, n: nat, k: nat)
    requires k < |s|
    ensures k < n ==> s[k] in Take(s, n)
  {
  }

  lemma TakeNew(s: seq<string>, n: nat, h: string)
    requires Distinct(s) && h !in Take(s, n) && n > 0
    ensures Take([h] + Without(s, h), n) == [h] + Take(Take(s, n), n - 1)
  {
    if h in s {
      var k :| 0 <= k < |s| && s[k] == h;
      InTake(s, n, k);
      WithoutOne(s, k);
    } else {
      WithoutAbsent(s, h);
    }
  }

  /** How one more refusal moves the window: a known host moves to the front;
      a new one is put in front and pushes the oldest out of a full window. */
  lemma WindowStep(init: seq<Refusal>, r: Refusal)
    ensures r.host in Window(init) ==> forall h :: h in Window(init + [r]) <==> h in Window(init)
    ensures r.host !in Window(init) ==>
      Window(init + [r]) == [r.host] + Take(Window(init), MAX_DENIAL_HOSTS - 1)
  {
    var s, w, h := Recent(init), Window(init), r.host;
    RecentMembers(init);
    assert (init + [r])[..|init|] == init;
    assert Recent(init + [r]) == [h] + Without(s, h);
    if h in w {
      var k :| 0 <= k < |w| && w[k] == h;
      TakeKnown(s, MAX_DENIAL_HOSTS, k);
    } else {
      TakeNew(s, MAX_DENIAL_HOSTS, h);
    }
  }

  // ---------- recency is the clock ----------

  lemma {:induction false} FoldedSeen(trace: seq<Refusal>, h: string)
    requires h in Recent(trace)
    ensures Folded(trace, h).host == h
    ensures exists i :: 0 <= i < |trace| && trace[i].host == h && Folded(trace, h).lastSeen == trace[i].at
  {
    var init, r := trace[..|trace| - 1], trace[|trace| - 1];
    if r.host == h {
      if h in Window(init) {
        FoldedSeen(init, h);
      }
      assert trace[|trace| - 1].host == h && Folded(trace, h).lastSeen == trace[|trace| - 1].at;
    } else {
      WithoutMembers(Recent(init), r.host);
      FoldedSeen(init, h);
    }
  }

  lemma FoldedLast(trace: seq<Refusal>, h: string)
    requires trace != []
    ensures trace[|trace| - 1].host == h ==> Folded(trace, h).lastSeen == trace[|trace| - 1].at
    ensures trace[|trace| - 1].host != h ==> Folded(trace, h) == Folded(trace[..|trace| - 1], h)
  {
  }

  lemma LastIsNewest(trace: seq<Refusal>, y: string)
    requires Ticking(trace) && trace != [] && y in Recent(trace[..|trace| - 1]) && y != trace[|trace| - 1].host
    ensures Folded(trace, trace[|trace| - 1].host).lastSeen > Folded(trace, y).lastSeen
  {
    hide Folded, Recent;
    FoldedLast(trace, y);
    FoldedLast(trace, trace[|trace| - 1].host);
    FoldedSeen(trace[..|trace| - 1], y);
  }

  /** Earlier in the window means refused later. */
  lemma {:induction false} RecentIsNewestFirst(trace: seq<Refusal>, a: nat, b: nat)
    requires Ticking(trace) && a < b < |Recent(trace)|
    ensures Folded(trace, Recent(trace)[a]).lastSeen > Folded(trace, Recent(trace)[b]).lastSeen
    decreases |trace|, 1
  {
    hide Folded;
    var init, r := trace[..|trace| - 1], trace[|trace| - 1];
    var s := Recent(init);
    var rest := Without(s, r.host);
    assert Recent(trace) == [r.host] + rest;
    WithoutMembers(s, r.host);
    assert Recent(trace)[b] in rest;
    if a == 0 {
      LastIsNewest(trace, Recent(trace)[b]);
    } else {
      OlderPair(trace, s, a - 1, b - 1);
    }
  }

  lemma {:induction false} OlderPair(trace: seq<Refusal>, s: seq<string>, a: nat, b: nat)
    requires Ticking(trace) && trace != [] && s == Recent(trace[..|trace| - 1])
    requires a < b < |Without(s, trace[|trace| - 1].host)|
    ensures var rest := Without(s, trace[|trace| - 1].host);
            Folded(trace, rest[a]).lastSeen > Folded(trace, rest[b]).lastSeen
    decreases |trace|, 0
  {
    hide Folded, Recent;
    var init, h := trace[..|trace| - 1], trace[|trace| - 1].host;
    var rest := Without(s, h);
    WithoutMembers(s, h);
    assert rest[a] in rest && rest[b] in rest;
    FoldedLast(trace, rest[a]);
    FoldedLast(trace, rest[b]);
    WithoutKeepsOrder(s, h, a, b);
    var i, j :| 0 <= i < j < |s| && s[i] == rest[a] && s[j] == rest[b];
    RecentIsNewestFirst(init, i, j);
  }

  lemma {:induction false} WithoutKeepsOrder(s: seq<string>, h: string, a: nat, b: nat)
    requires a < b < |Without(s, h)|
    ensures exists i, j :: 0 <= i < j < |s| && s[i] == Without(s, h)[a] && s[j] == Without(s, h)[b]
  {
    if s[0] == h {
      WithoutKeepsOrder(s[1..], h, a, b);
      var i, j :| 0 <= i < j < |s[1..]| && s[1..][i] == Without(s, h)[a] && s[1..][j] == Without(s, h)[b];
      assert s[i + 1] == Without(s, h)[a] && s[j + 1] == Without(s, h)[b];
    } else if a == 0 {
      var t := Without(s[1..], h);
      WithoutMembers(s[1..], h);
      assert t[b - 1] in s[1..];
      var j :| 0 <= j < |s[1..]| && s[1..][j] == t[b - 1];
      assert s[0] == Without(s, h)[0] && s[j + 1] == Without(s, h)[b];
    } else {
      WithoutKeepsOrder(s[1..], h, a - 1, b - 1);
      var t := s[1..];
      var i, j :| 0 <= i < j < |t| && t[i] == Without(t, h)[a - 1] && t[j] == Without(t, h)[b - 1];
      assert s[i + 1] == Without(s, h)[a] && s[j + 1] == Without(s, h)[b];
    }
  }

  // ---------- one refusal refines the window ----------

  lemma FoldedStep(init: seq<Refusal>, r: Refusal, h: string)
    ensures Folded(init + [r], h) ==
            if r.host != h then Folded(init, h)
            else if h in Window(init) then Fold(Folded(init, h), r)
            else Fold(Denial(h, "", "", 0, r.at, 0, ""), r)
  {
  }

  lemma KnownHost(trace: seq<Refusal>, r: Refusal)
    requires r.host in LedgerOf(trace)
    ensures LedgerOf(trace + [r]) == LedgerOf(trace)[r.host := Fold(LedgerOf(trace)[r.host], r)]
  {
    WindowStep(trace, r);
    forall h | h in Window(trace) ensures Folded(trace + [r], h) ==
      if h == r.host then Fold(Folded(trace, h), r) else Folded(trace, h) {
      FoldedStep(trace, r, h);
    }
  }

  /** The last host of a full window is the one seen longest ago. */
  lemma OldestIsLast(trace: seq<Refusal>, h: string)
    requires Ticking(trace) && |Window(trace)| == MAX_DENIAL_HOSTS && h in Window(trace)
    ensures var last := Window(trace)[MAX_DENIAL_HOSTS - 1];
            h == last || Folded(trace, h).lastSeen > Folded(trace, last).lastSeen
  {
    var k :| 0 <= k < MAX_DENIAL_HOSTS && Window(trace)[k] == h;
    if k < MAX_DENIAL_HOSTS - 1 {
      RecentIsNewestFirst(trace, k, MAX_DENIAL_HOSTS - 1);
    }
  }

  ghost predicate Oldest(m: map<string, Denial>, h: string) {
    h in m && forall x :: x in m ==> m[h].lastSeen <= m[x].lastSeen
  }

  lemma NewHost(trace: seq<Refusal>, r: Refusal)
    requires r.host !in LedgerOf(trace) && |Window(trace)| < MAX_DENIAL_HOSTS
    ensures LedgerOf(trace + [r]) == LedgerOf(trace)[r.host := Fold(Denial(r.host, "", "", 0, r.at, 0, ""), r)]
  {
    WindowStep(trace, r);
    forall h | h in Window(trace + [r]) ensures Folded(trace + [r], h) ==
      if h == r.host then Fold(Denial(h, "", "", 0, r.at, 0, ""), r) else Folded(trace, h) {
      FoldedStep(trace, r, h);
    }
  }

  lemma DropLast(w: seq<string>, h: string)
    requires Distinct(w) && w != []
    ensures h in w[..|w| - 1] <==> h in w && h != w[|w| - 1]
  {
  }

  lemma NewHostEvicts(trace: seq<Refusal>, r: Refusal, evicted: string)
    requires Ticking(trace) && r.host !in LedgerOf(trace) && |Window(trace)| == MAX_DENIAL_HOSTS
    requires Oldest(LedgerOf(trace), evicted)
    ensures LedgerOf(trace + [r]) ==
            (LedgerOf(trace) - {evicted})[r.host := Fold(Denial(r.host, "", "", 0, r.at, 0, ""), r)]
  {
    hide Recent, Folded;
    var w := Window(trace);
    OldestIsLast(trace, evicted);
    assert w[MAX_DENIAL_HOSTS - 1] in LedgerOf(trace);
    assert evicted == w[MAX_DENIAL_HOSTS - 1];
    WindowStep(trace, r);
    RecentMembers(trace);
    forall h ensures h in Window(trace + [r]) <==> h == r.host || (h in w && h != evicted) {
      DropLast(w, h);
    }
    forall h | h in Window(trace + [r]) ensures Folded(trace + [r], h) ==
      if h == r.host then Fold(Denial(h, "", "", 0, r.at, 0, ""), r) else Folded(trace, h) {
      FoldedStep(trace, r, h);
    }
  }

  lemma {:induction false} SetSize(s: seq<string>)
    requires Distinct(s)
    ensures |set h | h in s| == |s|
  {
    if s != [] {
      SetSize(s[1..]);
      assert s == [s[0]] + s[1..];
      assert (set h | h in s) == {s[0]} + set h | h in s[1..];
    }
  }

  lemma LedgerSize(trace: seq<Refusal>)
    ensures |LedgerOf(trace)| == |Window(trace)| <= MAX_DENIAL_HOSTS
  {
    RecentMembers(trace);
    assert Distinct(Window(trace));
    SetSize(Window(trace));
    assert LedgerOf(trace).Keys == set h | h in Window(trace);
  }

  // ---------- listing ----------

  predicate LexLess(a: string, b: string) {
    if b == "" then false
    else if a == "" then true
    else a[0] < b[0] || (a[0] == b[0] && LexLess(a[1..], b[1..]))
  }

  /** The listing order: most recent first, host name breaking ties. */
  predicate Before(a: Denial, b: Denial) {
    a.lastSeen > b.lastSeen || (a.lastSeen == b.lastSeen && LexLess(a.host, b.host))
  }

  predicate NewestFirst(s: seq<Denial>) {
    forall i, j :: 0 <= i < j < |s| ==> s[i].lastSeen > s[j].lastSeen
  }

  /** The first difference decides, and a proper prefix comes first. */
  lemma {:induction false} LexFirstDifference(p: string, x: char, y: char, s: string, t: string)
    ensures x != y ==> (LexLess(p + [x] + s, p + [y] + t) <==> x < y)
    ensures LexLess(p, p + [x] + s)
  {
    if p != "" {
      LexFirstDifference(p[1..], x, y, s, t);
      assert (p + [x] + s)[1..] == p[1..] + [x] + s && (p + [y] + t)[1..] == p[1..] + [y] + t;
    }
  }

  lemma {:induction false} LexTotal(a: string, b: string)
    ensures a == b || LexLess(a, b) || LexLess(b, a)
  {
    if a != "" && b != "" && a[0] == b[0] {
      LexTotal(a[1..], b[1..]);
      assert a == [a[0]] + a[1..] && b == [b[0]] + b[1..];
    }
  }

  lemma {:induction false} LexTransitive(a: string, b: string, c: string)
    requires LexLess(a, b) && LexLess(b, c)
    ensures LexLess(a, c)
  {
    if a != "" && a[0] == b[0] && b[0] == c[0] {
      LexTransitive(a[1..], b[1..], c[1..]);
    }
  }

  lemma BeforeTransitive(a: Denial, b: Denial, c: Denial)
    requires Before(a, b) && Before(b, c)
    ensures Before(a, c)
  {
    hide LexLess;
    if a.lastSeen == b.lastSeen && b.lastSeen == c.lastSeen {
      LexTransitive(a.host, b.host, c.host);
    }
  }

  lemma BeforeTotal(a: Denial, b: Denial)
    requires a.host != b.host
    ensures Before(a, b) || Before(b, a)
  {
    LexTotal(a.host, b.host);
  }

  predicate InOrder(s: seq<Denial>) {
    forall i, j :: 0 <= i < j < |s| ==> Before(s[i], s[j])
  }

  method Insert(s: seq<Denial>, d: Denial) returns (out: seq<Denial>)
    requires InOrder(s) && forall x :: x in s ==> x.host != d.host
    ensures InOrder(out) && forall x :: x in out <==> x in s || x == d
  {
    hide Before;
    var k := 0;
    while k < |s| && Before(s[k], d)
      invariant 0 <= k <= |s|
      invariant forall i :: 0 <= i < k ==> Before(s[i], d)
    {
      k := k + 1;
    }
    if k < |s| {
      assert s[k] in s;
      BeforeTotal(s[k], d);
    }
    InsertedBetween(s, k, d);
    out := s[..k] + [d] + s[k..];
  }

  lemma InsertedBetween(s: seq<Denial>, k: nat, d: Denial)
    requires InOrder(s) && k <= |s|
    requires forall i :: 0 <= i < k ==> Before(s[i], d)
    requires k < |s| ==> Before(d, s[k])
    ensures InOrder(s[..k] + [d] + s[k..])
    ensures forall x :: x in s[..k] + [d] + s[k..] <==> x in s || x == d
  {
    hide Before;
    var out := s[..k] + [d] + s[k..];
    assert s == s[..k] + s[k..];
    forall j | k <= j < |s| ensures Before(d, s[j]) {
      if j > k {
        BeforeTransitive(d, s[k], s[j]);
      }
    }
    forall i, j | 0 <= i < j < |out| ensures Before(out[i], out[j]) {
      assert forall m :: 0 <= m < |out| ==> out[m] == if m < k then s[m] else if m == k then d else s[m - 1];
    }
  }

  lemma TailMembers(a: seq<Denial>)
    requires NewestFirst(a) && a != []
    ensures forall x :: x in a[1..] <==> x in a && x != a[0]
  {
  }

  /** Two newest-first listings of the same records are the same listing. */
  lemma {:induction false} ListingUnique(a: seq<Denial>, b: seq<Denial>)
    requires NewestFirst(a) && NewestFirst(b) && forall x :: x in a <==> x in b
    ensures a == b
  {
    assert |b| > 0 ==> b[0] in b;
    if a != [] {
      assert a[0] in b && b[0] in a;
      assert a[0] == b[0];
      TailMembers(a);
      TailMembers(b);
      ListingUnique(a[1..], b[1..]);
    }
  }

  function Listing(trace: seq<Refusal>): seq<Denial> {
    seq(|Window(trace)|, i requires 0 <= i < |Window(trace)| => Folded(trace, Window(trace)[i]))
  }

  lemma ListingOrdered(trace: seq<Refusal>)
    requires Ticking(trace)
    ensures NewestFirst(Listing(trace))
    ensures forall d :: d in Listing(trace) <==> exists h :: h in LedgerOf(trace) && LedgerOf(trace)[h] == d
  {
    forall i, j | 0 <= i < j < |Listing(trace)| ensures Listing(trace)[i].lastSeen > Listing(trace)[j].lastSeen {
      RecentIsNewestFirst(trace, i, j);
    }
    forall h | h in LedgerOf(trace) ensures LedgerOf(trace)[h] in Listing(trace) {
      var i :| 0 <= i < |Window(trace)| && Window(trace)[i] == h;
      assert Listing(trace)[i] == LedgerOf(trace)[h];
    }
    forall d | d in Listing(trace) ensures exists h :: h in LedgerOf(trace) && LedgerOf(trace)[h] == d {
      var i :| 0 <= i < |Listing(trace)| && Listing(trace)[i] == d;
      assert LedgerOf(trace)[Window(trace)[i]] == d;
    }
  }

  lemma DistinctTimes(trace: seq<Refusal>, a: string, b: string)
    requires Ticking(trace) && a in LedgerOf(trace) && b in LedgerOf(trace) && a != b
    ensures LedgerOf(trace)[a].lastSeen != LedgerOf(trace)[b].lastSeen
  {
    var i :| 0 <= i < |Window(trace)| && Window(trace)[i] == a;
    var j :| 0 <= j < |Window(trace)| && Window(trace)[j] == b;
    RecentIsNewestFirst(trace, if i < j then i else j, if i < j then j else i);
  }

  // ---------- what a count counts ----------

  function Occurrences(trace: seq<Refusal>, h: string): nat {
    if trace == [] then 0
    else Occurrences(trace[..|trace| - 1], h) + if trace[|trace| - 1].host == h then 1 else 0
  }

  /** The refusal at k put h into the ledger, and h has been in the window at
      each of its refusals since. */
  ghost predicate EnteredAt(trace: seq<Refusal>, h: string, k: nat) {
    && k < |trace| && trace[k].host == h && h !in Window(trace[..k])
    && forall m :: k < m < |trace| && trace[m].host == h ==> h in Window(trace[..m])
  }

  /** A record counts the refusals since its host entered the ledger, and
      dates from that entry. */
  lemma {:induction false} CountsSinceEntry(trace: seq<Refusal>, h: string) returns (k: nat)
    requires h in Recent(trace)
    ensures EnteredAt(trace, h, k)
    ensures Folded(trace, h).count == Occurrences(trace[k..], h)
    ensures Folded(trace, h).firstSeen == trace[k].at
  {
    hide Window, Folded;
    var n := |trace| - 1;
    var init, r := trace[..n], trace[n];
    assert init + [r] == trace;
    FoldedStep(init, r, h);
    if r.host == h && h !in Window(init) {
      k := n;
      assert trace[n..] == [r] && [r][..0] == [];
    } else {
      if r.host == h {
        InWindowIsRecent(init, h);
      } else {
        WithoutMembers(Recent(init), r.host);
      }
      k := CountsSinceEntry(init, h);
      StillEntered(trace, h, k);
      assert trace[k..][..n - k] == init[k..];
    }
  }

  /** A record tells of its host's last refusal: address, port, rule and time. */
  lemma {:induction false} TellsOfTheLast(trace: seq<Refusal>, h: string, k: nat)
    requires k < |trace| && trace[k].host == h && forall m :: k < m < |trace| ==> trace[m].host != h
    ensures var d := Folded(trace, h);
            d.host == h && d.ip == trace[k].ip && d.port == trace[k].port && d.rule == trace[k].rule
            && d.lastSeen == trace[k].at
    decreases |trace|
  {
    hide Window;
    if k < |trace| - 1 {
      TellsOfTheLast(trace[..|trace| - 1], h, k);
    } else {
      KeepsItsHost(trace, h);
    }
  }

  lemma {:induction false} KeepsItsHost(trace: seq<Refusal>, h: string)
    ensures Folded(trace, h).host == h
  {
    if trace != [] {
      KeepsItsHost(trace[..|trace| - 1], h);
    }
  }

  lemma InWindowIsRecent(trace: seq<Refusal>, h: string)
    requires h in Window(trace)
    ensures h in Recent(trace)
  {
  }

  lemma StillEntered(trace: seq<Refusal>, h: string, k: nat)
    requires trace != [] && EnteredAt(trace[..|trace| - 1], h, k)
    requires trace[|trace| - 1].host == h ==> h in Window(trace[..|trace| - 1])
    ensures EnteredAt(trace, h, k)
  {
    hide Window;
    var n := |trace| - 1;
    var init := trace[..n];
    assert trace[..k] == init[..k];
    forall m | k < m < |trace| && trace[m].host == h ensures h in Window(trace[..m]) {
      if m < n {
        assert init[m].host == h && init[..m] == trace[..m];
      }
    }
  }

  /** Scans for the record seen longest ago; "" stands for none yet. */
  method FindOldest(m: map<string, Denial>) returns (oldest: string)
    requires m != map[] && "" !in m
    ensures Oldest(m, oldest)
  {
    oldest := "";
    var oldestSeen := 0;
    var todo := m.Keys;
    while todo != {}
      invariant todo <= m.Keys
      invariant oldest == "" ==> todo == m.Keys
      invariant oldest != "" ==> oldest in m && oldestSeen == m[oldest].lastSeen
      invariant oldest != "" ==> forall h :: h in m && h !in todo ==> oldestSeen <= m[h].lastSeen
      decreases todo
    {
      var h :| h in todo;
      if oldest == "" || m[h].lastSeen < oldestSeen {
        oldest, oldestSeen := h, m[h].lastSeen;
      }
      todo := todo - {h};
    }
  }

  // ---------- the ledger object ----------

  class DenialLedger {
    var denials: map<string, Denial>
    ghost var trace: seq<Refusal>

    /** Bounded and keyed by host under any clock; exactly the window of the
        trace under a clock that never repeats a reading. */
    ghost predicate Valid()
      reads this
    {
      && |denials| <= MAX_DENIAL_HOSTS
      && (forall h :: h in denials ==> h != "" && denials[h].host == h)
      && (Ticking(trace) ==> denials == LedgerOf(trace))
    }

    constructor ()
      ensures Valid() && trace == [] && denials == map[]
    {
      denials, trace := map[], [];
    }

    /** Folds one refusal in. A host not in the ledger starts afresh and, when
        the ledger is full, takes the place of one seen longest ago. */
    method Record(r: Refusal) returns (snapshot: Denial, first: bool, ghost evicted: set<string>)
      requires Valid() && r.host != ""
      modifies this
      ensures Valid() && trace == old(trace) + [r]
      ensures first <==> r.host !in old(denials)
      ensures snapshot == Fold(if first then Denial(r.host, "", "", 0, r.at, 0, "") else old(denials)[r.host], r)
      ensures denials == (old(denials) - evicted)[r.host := snapshot]
      ensures if first && |old(denials)| == MAX_DENIAL_HOSTS
              then exists h :: evicted == {h} && Oldest(old(denials), h) else evicted == {}
    {
      hide LedgerOf, Window, Folded, Ticking, Fold;
      ghost var now := trace + [r];
      first := r.host !in denials;
      var d: Denial;
      evicted := {};
      if first {
        if |denials| >= MAX_DENIAL_HOSTS {
          var h := FindOldest(denials);
          evicted := {h};
          EvictingSize(denials, h);
          denials := denials - {h};
        }
        d := Denial(r.host, "", "", 0, r.at, 0, "");
      } else {
        d := denials[r.host];
      }
      d := Fold(d, r);
      FoldKeepsHost(if first then Denial(r.host, "", "", 0, r.at, 0, "") else old(denials)[r.host], r);
      AddingSize(denials, r.host, d);
      denials := denials[r.host := d];
      snapshot := d;
      trace := now;
      if Ticking(now) {
        RecordRefines(old(trace), r, old(denials), evicted);
      }
    }

    /** Most recent first, ties by host. Under a ticking clock the listing is
        the window of the trace. */
    method Denials() returns (out: seq<Denial>)
      requires Valid()
      ensures InOrder(out)
      ensures forall d :: d in out <==> exists h :: h in denials && denials[h] == d
      ensures Ticking(trace) ==> out == Listing(trace)
    {
      hide LedgerOf, Window, Folded, Ticking, Listing, Before;
      out := [];
      var todo := denials.Keys;
      while todo != {}
        invariant todo <= denials.Keys && InOrder(out)
        invariant forall d :: d in out <==> exists h :: h in denials && h !in todo && denials[h] == d
        decreases todo
      {
        var h :| h in todo;
        forall x | x in out ensures x.host != denials[h].host {
          var g :| g in denials && g !in todo && denials[g] == x;
        }
        out := Insert(out, denials[h]);
        todo := todo - {h};
      }
      if Ticking(trace) {
        ListingRefines(trace, out);
      }
    }
  }

  lemma EvictingSize(m: map<string, Denial>, h: string)
    requires h in m
    ensures |m - {h}| == |m| - 1
  {
    assert (m - {h}).Keys == m.Keys - {h};
    assert |m - {h}| == |(m - {h}).Keys| && |m| == |m.Keys|;
  }

  lemma AddingSize(m: map<string, Denial>, h: string, d: Denial)
    ensures |m[h := d]| == |m| + if h in m then 0 else 1
  {
    assert m[h := d].Keys == m.Keys + {h};
    assert |m[h := d]| == |m[h := d].Keys| && |m| == |m.Keys|;
  }

  lemma FoldKeepsHost(d: Denial, r: Refusal)
    ensures Fold(d, r).host == d.host
  {
  }

  /** Under a ticking clock, recording one refusal gives the ledger of the
      longer trace. */
  lemma RecordRefines(trace: seq<Refusal>, r: Refusal, m: map<string, Denial>, evicted: set<string>)
    requires Ticking(trace + [r]) && (Ticking(trace) ==> m == LedgerOf(trace))
    requires if r.host !in m && |m| == MAX_DENIAL_HOSTS
             then exists h :: evicted == {h} && Oldest(m, h) else evicted == {}
    ensures var blank := Denial(r.host, "", "", 0, r.at, 0, "");
            LedgerOf(trace + [r]) ==
            (m - evicted)[r.host := Fold(if r.host in m then m[r.host] else blank, r)]
  {
    hide Window, Folded, Fold;
    TickingPrefix(trace, r);
    LedgerSize(trace);
    assert m - {} == m;
    if r.host in m {
      KnownHost(trace, r);
    } else if |m| < MAX_DENIAL_HOSTS {
      NewHost(trace, r);
    } else {
      var h :| evicted == {h} && Oldest(m, h);
      NewHostEvicts(trace, r, h);
    }
  }

  lemma TickingPrefix(trace: seq<Refusal>, r: Refusal)
    requires Ticking(trace + [r])
    ensures Ticking(trace)
  {
    var all := trace + [r];
    assert forall i :: 0 <= i < |trace| ==> trace[i] == all[i];
  }

  lemma ListingRefines(trace: seq<Refusal>, out: seq<Denial>)
    requires Ticking(trace) && InOrder(out)
    requires forall d :: d in out <==> exists h :: h in LedgerOf(trace) && LedgerOf(trace)[h] == d
    ensures out == Listing(trace)
  {
    hide Window, Folded, Ticking, Listing, LedgerOf;
    ListingOrdered(trace);
    forall i, j | 0 <= i < j < |out| ensures out[i].lastSeen > out[j].lastSeen {
      assert out[i] in out && out[j] in out;
      var g :| g in LedgerOf(trace) && LedgerOf(trace)[g] == out[i];
      var h :| h in LedgerOf(trace) && LedgerOf(trace)[h] == out[j];
      NeverBeforeItself(out[i]);
      assert Before(out[i], out[j]);
      DistinctTimes(trace, g, h);
    }
    ListingUnique(out, Listing(trace));
  }

  lemma {:induction false} LexIrreflexive(a: string)
    ensures !LexLess(a, a)
  {
    if a != "" {
      LexIrreflexive(a[1..]);
    }
  }

  lemma NeverBeforeItself(d: Denial)
    ensures !Before(d, d)
  {
    LexIrreflexive(d.host);
  }
}
