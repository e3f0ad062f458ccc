/** The runtime filter on top of a chain: DNS-derived and human grants, live
    policy edits, and the order in which a connection attempt consults them. */
module Acl {
  import opened Text
  import opened Blocks
  import opened Chains

  const ORIGIN_CUSTOM := "custom"
  const MAX_OBSERVED_NAMES: nat := 4096

  datatype State = State(
    chain: Chain,
    resolved: map<Addr, string>,
    observed: map<Addr, string>,
    granted: set<Addr>,
    lastName: map<Addr, string>,
    allowAllUntil: Option<int>)

  /** What every operation keeps: the chain is compiled from its blocks, every
      observed address is still justified by a name the chain allows, and the
      attribution map is bounded. */
  ghost predicate Inv(s: State) {
    && s.chain.Valid()
    && (forall ip :: ip in s.observed ==> NamedVerdict(s.chain, s.observed[ip]) == Allow)
    && |s.lastName| <= MAX_OBSERVED_NAMES
  }

  // ---------- operations ----------

  datatype CustomEdit =
    | ReplaceAllows(domains: seq<string>, ips: seq<IPEntry>)
    | ReplaceDenies(domains: seq<string>)
    | AppendDeny(domain: string)
  {
    function Edit(b: Block): Block {
      match this
      case ReplaceAllows(ds, ips) => b.(allowDomains := ds, allowIPs := ips)
      case ReplaceDenies(ds) => b.(denyDomains := ds)
      case AppendDeny(d) => if d in b.denyDomains then b else b.(denyDomains := b.denyDomains + [d])
    }
  }

  datatype Op =
    | SetChain(chain: Chain)
    | EditCustom(edit: CustomEdit)
    | Grant(ip: Addr)
    | InstallResolved(resolved: map<Addr, string>)
    | ObserveDNS(name: string, ip: Addr)
    | AllowAllFor(duration: int, now: int)

  /** Index of the highest custom block, or |blocks| when there is none. */
  function LastCustom(blocks: seq<Block>): (i: nat)
    ensures i <= |blocks|
    ensures i < |blocks| ==> blocks[i].origin == ORIGIN_CUSTOM
    ensures forall j :: i < j < |blocks| ==> blocks[j].origin != ORIGIN_CUSTOM
    ensures i == |blocks| ==> forall j :: 0 <= j < |blocks| ==> blocks[j].origin != ORIGIN_CUSTOM
  {
    if blocks == [] then 0
    else if blocks[|blocks| - 1].origin == ORIGIN_CUSTOM then |blocks| - 1
    else
      var i := LastCustom(blocks[..|blocks| - 1]);
      if i == |blocks| - 1 then |blocks| else i
  }

  /** The custom block is created on top when absent. */
  function EditedBlocks(blocks: seq<Block>, e: CustomEdit): seq<Block> {
    var i := LastCustom(blocks);
    if i < |blocks| then blocks[i := e.Edit(blocks[i])]
    else blocks + [e.Edit(Block(ORIGIN_CUSTOM, "", [], [], [], []))]
  }

  ghost function Prune(c: Chain, observed: map<Addr, string>): map<Addr, string> {
    map ip | ip in observed && NamedVerdict(c, observed[ip]) == Allow :: observed[ip]
  }

  ghost function Install(s: State, c: Chain): State {
    s.(chain := c, observed := Prune(c, s.observed))
  }

  ghost function Apply(s: State, op: Op): State {
    match op
    case SetChain(c) => if c.Valid() then Install(s, c) else s
    case EditCustom(e) =>
      var blocks := EditedBlocks(s.chain.blocks, e);
      if forall b :: b in blocks ==> Parses(b) then Install(s, Chain(blocks, CompileAll(blocks))) else s
    case Grant(ip) => s.(granted := s.granted + {ip})
    case InstallResolved(r) => s.(resolved := r)
    case ObserveDNS(n, ip) => Observe(s, TrimSuffix(n, "."), Unmap(ip))
    case AllowAllFor(d, now) => s.(allowAllUntil := if d <= 0 then None else Some(now + d))
  }

  ghost function Observe(s: State, name: string, ip: Addr): State {
    var names := if |s.lastName| >= MAX_OBSERVED_NAMES then map[] else s.lastName;
    var s' := s.(lastName := names[ip := name]);
    if NamedVerdict(s.chain, name) == Allow then s'.(observed := s.observed[ip := name]) else s'
  }

  ghost function Run(s: State, ops: seq<Op>): State {
    if ops == [] then s else Apply(Run(s, ops[..|ops| - 1]), ops[|ops| - 1])
  }

  // ---------- the connection decision ----------

  predicate Bypassed(s: State, now: int) {
    s.allowAllUntil.Some? && now < s.allowAllUntil.value
  }

  /** The last DNS answer the guest received for ip, else the name that
      pre-resolution found it under, else empty. */
  function AttributedName(s: State, ip: Addr): string {
    var seen := if ip in s.lastName then s.lastName[ip] else "";
    if seen != "" then seen
    else if ip in s.resolved then s.resolved[ip]
    else ""
  }

  ghost predicate Admits(s: State, ip: Addr, now: int, gateAllows: bool) {
    || Bypassed(s, now)
    || (var (v, byName) := AddrVerdict(s.chain, AttributedName(s, ip), ip);
        if byName && v != NoOpinion then v == Allow
        else if ip in s.granted then true
        else if v != NoOpinion then v == Allow
        else ip in s.observed || ip in s.resolved || gateAllows)
  }

  // ---------- invariant over every run ----------

  lemma EditParses(blocks: seq<Block>, e: CustomEdit)
    requires forall b :: b in blocks ==> Parses(b)
    requires !e.ReplaceAllows?
    ensures forall b :: b in EditedBlocks(blocks, e) ==> Parses(b)
  {
    var i := LastCustom(blocks);
    var custom := if i < |blocks| then blocks[i] else Block(ORIGIN_CUSTOM, "", [], [], [], []);
    assert i < |blocks| ==> custom in blocks;
    assert Parses(e.Edit(custom));
    forall b | b in EditedBlocks(blocks, e) ensures Parses(b) {
      assert b in blocks || b == e.Edit(custom);
    }
  }

  lemma InstallKeepsInv(s: State, c: Chain)
    requires Inv(s) && c.Valid()
    ensures Inv(Install(s, c))
  {
    hide CompileAll, NamedVerdict;
  }

  lemma ObserveKeepsInv(s: State, name: string, ip: Addr)
    requires Inv(s)
    ensures Inv(Observe(s, name, ip))
  {
    hide CompileAll, NamedVerdict;
    AttributionGrows(if |s.lastName| >= MAX_OBSERVED_NAMES then map[] else s.lastName, ip, name);
  }

  lemma AttributionGrows(names: map<Addr, string>, ip: Addr, name: string)
    ensures |names[ip := name]| <= |names| + 1
  {
    assert names[ip := name].Keys == names.Keys + {ip};
    assert |names[ip := name]| == |names[ip := name].Keys| && |names| == |names.Keys|;
  }

  lemma ApplyKeepsInv(s: State, op: Op)
    requires Inv(s)
    ensures Inv(Apply(s, op))
  {
    hide CompileAll, NamedVerdict, EditedBlocks, Install, Observe;
    match op
    case SetChain(c) =>
      if c.Valid() {
        InstallKeepsInv(s, c);
      }
    case EditCustom(e) =>
      var blocks := EditedBlocks(s.chain.blocks, e);
      if forall b :: b in blocks ==> Parses(b) {
        InstallKeepsInv(s, Chain(blocks, CompileAll(blocks)));
      }
    case Grant(ip) =>
    case InstallResolved(r) =>
    case ObserveDNS(n, ip) =>
      ObserveKeepsInv(s, TrimSuffix(n, "."), Unmap(ip));
    case AllowAllFor(d, now) =>
  }

  lemma {:induction false} RunKeepsInv(s: State, ops: seq<Op>)
    requires Inv(s)
    ensures Inv(Run(s, ops))
  {
    if ops != [] {
      RunKeepsInv(s, ops[..|ops| - 1]);
      ApplyKeepsInv(Run(s, ops[..|ops| - 1]), ops[|ops| - 1]);
    }
  }

  // ---------- a denied domain stays denied ----------

  /** Everything but a new chain or a rewrite of the denied domains; in
      particular the custom block's allows may be replaced. */
  predicate KeepsDenies(op: Op) {
    !op.SetChain? && !(op.EditCustom? && op.edit.ReplaceDenies?)
  }

  /** The top block is the custom one and lists the deny. */
  predicate Pinned(s: State, entry: string) {
    && s.chain.blocks != []
    && var top := s.chain.blocks[|s.chain.blocks| - 1];
       top.origin == ORIGIN_CUSTOM && entry in top.denyDomains
  }

  predicate CustomOnTop(blocks: seq<Block>) {
    LastCustom(blocks) >= |blocks| - 1
  }

  function TopAllows(blocks: seq<Block>): seq<string> {
    if LastCustom(blocks) < |blocks| then blocks[LastCustom(blocks)].allowDomains else []
  }

  lemma DenyPins(s: State, d: string)
    requires Inv(s) && CustomOnTop(s.chain.blocks)
    ensures Pinned(Apply(s, EditCustom(AppendDeny(d))), d)
  {
    hide CompileAll, CompileBlock, NamedVerdict;
    EditParses(s.chain.blocks, AppendDeny(d));
  }

  lemma PinStays(s: State, op: Op, entry: string)
    requires Inv(s) && Pinned(s, entry) && KeepsDenies(op)
    ensures Pinned(Apply(s, op), entry)
  {
    hide CompileAll, CompileBlock, NamedVerdict;
    if op.EditCustom? {
      assert LastCustom(s.chain.blocks) == |s.chain.blocks| - 1;
    }
  }

  lemma {:induction false} PinStaysAcross(s: State, ops: seq<Op>, entry: string)
    requires Inv(s) && Pinned(s, entry) && forall op :: op in ops ==> KeepsDenies(op)
    ensures Inv(Run(s, ops)) && Pinned(Run(s, ops), entry)
  {
    RunKeepsInv(s, ops);
    if ops != [] {
      var init := ops[..|ops| - 1];
      PinStaysAcross(s, init, entry);
      PinStays(Run(s, init), ops[|ops| - 1], entry);
    }
  }

  /** Some allow in entries matches name strictly deeper than apex does. */
  ghost predicate DeeperAllow(entries: seq<string>, name: string, apex: string) {
    exists e, r :: e in entries && r in CompileName(e, false) && r.MatchName(name).0 && r.labels > Dots(apex) + 1
  }

  lemma TopBlockDenies(b: Block, entry: string, name: string)
    requires entry in b.denyDomains
    requires !Vacuous(NormalizeDomain(entry)) && !HasPrefix(NormalizeDomain(entry), "*.")
    requires AtOrBelow(name, NormalizeDomain(entry))
    requires !DeeperAllow(b.allowDomains, name, NormalizeDomain(entry))
    ensures NameVerdict(CompileBlock(b).names, name) == Deny
  {
    var p := NormalizeDomain(entry);
    var cb := CompileBlock(b);
    var deny := NameRule(p, p, Dots(p) + 1, false, true, true);
    assert CompileName(entry, true) == [deny];
    CompiledNames(b.denyDomains, true, deny);
    CompiledBlockWellFormed(b);
    forall r | r in cb.names && !r.deny && r.MatchName(name).0 ensures r.labels <= deny.labels {
      CompiledNames(b.allowDomains, false, r);
      CompiledNames(b.denyDomains, true, r);
    }
    SubtreeDeny(cb, deny, name);
  }

  lemma TopNameDeny(cbs: seq<CompiledBlock>, n: string, ip: Addr)
    requires cbs != [] && n != "" && NameVerdict(cbs[|cbs| - 1].names, n) == Deny
    ensures ChainAddr(cbs, n, ip) == (Deny, true)
  {
  }

  /** A pinned deny decides the whole chain, by name. */
  lemma PinDecides(s: State, entry: string, name: string, ip: Addr)
    requires Inv(s) && Pinned(s, entry)
    requires !Vacuous(NormalizeDomain(entry)) && !HasPrefix(NormalizeDomain(entry), "*.")
    requires AtOrBelow(NormalizeDomain(name), NormalizeDomain(entry))
    requires !DeeperAllow(TopAllows(s.chain.blocks), NormalizeDomain(name), NormalizeDomain(entry))
    ensures AddrVerdict(s.chain, name, ip) == (Deny, true)
  {
    hide NormalizeDomain, CompileName, NameVerdict, Unmap;
    var blocks, n := s.chain.blocks, NormalizeDomain(name);
    var top := blocks[|blocks| - 1];
    TopBlockDenies(top, entry, n);
    CompileUpdate(blocks, |blocks| - 1, top);
    TopNameDeny(s.chain.compiled, n, Unmap(ip));
  }

  /** Once a domain has been denied, nothing but a new chain, a rewrite of the
      denied domains or the timed bypass lets a connection attributed to it
      through: not a grant, not a DNS answer, not pre-resolution, not the answer
      at the gate, and of the allows put beside it only a strictly deeper one. */
  lemma DeniedDomainStaysDenied(s: State, d: string, ops: seq<Op>, ip: Addr, now: int, gateAllows: bool)
    requires Inv(s) && CustomOnTop(s.chain.blocks)
    requires forall op :: op in ops ==> KeepsDenies(op)
    requires !Vacuous(NormalizeDomain(d)) && !HasPrefix(NormalizeDomain(d), "*.")
    ensures var s' := Run(Apply(s, EditCustom(AppendDeny(d))), ops);
            var name := NormalizeDomain(AttributedName(s', ip));
            && !Bypassed(s', now)
            && AtOrBelow(name, NormalizeDomain(d))
            && !DeeperAllow(TopAllows(s'.chain.blocks), name, NormalizeDomain(d))
            ==> !Admits(s', ip, now, gateAllows)
  {
    hide NormalizeDomain, CompileName, DeeperAllow, AtOrBelow, Inv, Apply, Run, AddrVerdict;
    var s1 := Apply(s, EditCustom(AppendDeny(d)));
    ApplyKeepsInv(s, EditCustom(AppendDeny(d)));
    DenyPins(s, d);
    PinStaysAcross(s1, ops, d);
    var s2 := Run(s1, ops);
    var name := AttributedName(s2, ip);
    if AtOrBelow(NormalizeDomain(name), NormalizeDomain(d))
      && !DeeperAllow(TopAllows(s2.chain.blocks), NormalizeDomain(name), NormalizeDomain(d))
    {
      PinDecides(s2, d, name, ip);
    }
  }

  // ---------- what an attempt comes to ----------

  /** Without a bypass: a verdict by name is final; otherwise a grant admits, then
      a verdict by address decides, and only where the chain has no opinion do
      observed and resolved addresses and the gate count. */
  lemma AdmitsExactly(s: State, ip: Addr, now: int, gateAllows: bool)
    ensures Bypassed(s, now) ==> Admits(s, ip, now, gateAllows)
    ensures !Bypassed(s, now) ==>
      var (v, byName) := AddrVerdict(s.chain, AttributedName(s, ip), ip);
      && (v == Deny && (byName || ip !in s.granted) ==> !Admits(s, ip, now, gateAllows))
      && (v == Deny && !byName && ip in s.granted ==> Admits(s, ip, now, gateAllows))
      && (v == Allow ==> Admits(s, ip, now, gateAllows))
      && (v == NoOpinion ==>
            (Admits(s, ip, now, gateAllows) <==> ip in s.granted || ip in s.observed || ip in s.resolved || gateAllows))
  {
    hide AddrVerdict;
  }

  /** The bypass is on from now until the duration has passed, if positive. */
  lemma BypassIsTimed(s: State, d: int, now: int, at: int)
    ensures Bypassed(Apply(s, AllowAllFor(d, now)), at) <==> d > 0 && at < now + d
  {
  }

  /** The name last answered for ip, if any. */
  function LastAnswer(ops: seq<Op>, ip: Addr): Option<string> {
    if ops == [] then None
    else
      var op := ops[|ops| - 1];
      if op.ObserveDNS? && Unmap(op.ip) == ip then Some(TrimSuffix(op.name, "."))
      else LastAnswer(ops[..|ops| - 1], ip)
  }

  /** Whatever happened, an address is attributed to the last name answered for
      it, or to no answer at all; and right after an answer, to that one. */
  lemma {:induction false} AttributesLastAnswer(s: State, ops: seq<Op>, ip: Addr)
    requires s.lastName == map[]
    ensures var t := Run(s, ops);
            && (ip in t.lastName ==> LastAnswer(ops, ip) == Some(t.lastName[ip]))
            && (ops != [] && ops[|ops| - 1].ObserveDNS? && Unmap(ops[|ops| - 1].ip) == ip ==> ip in t.lastName)
  {
    hide Apply, Unmap;
    if ops != [] {
      AttributesLastAnswer(s, ops[..|ops| - 1], ip);
      AttributionStep(Run(s, ops[..|ops| - 1]), ops[|ops| - 1], ip);
    }
  }

  lemma AttributionStep(s: State, op: Op, ip: Addr)
    ensures var names := Apply(s, op).lastName;
            if op.ObserveDNS? && Unmap(op.ip) == ip then ip in names && names[ip] == TrimSuffix(op.name, ".")
            else ip in names ==> ip in s.lastName && names[ip] == s.lastName[ip]
  {
    hide CompileAll, NamedVerdict, EditedBlocks, Unmap, TrimSuffix;
  }

  /** An answered name wins over pre-resolution. */
  lemma AttributionOrder(s: State, ip: Addr)
    ensures ip in s.lastName && s.lastName[ip] != "" ==> AttributedName(s, ip) == s.lastName[ip]
    ensures (ip !in s.lastName || s.lastName[ip] == "") && ip in s.resolved ==> AttributedName(s, ip) == s.resolved[ip]
  {
  }

  /** Once the guest was given an address for a name the chain allows, it can
      connect, unless the chain denies that address there. */
  lemma AllowedAnswerAdmits(s: State, name: string, addr: Addr, now: int, gateAllows: bool)
    requires NamedVerdict(s.chain, TrimSuffix(name, ".")) == Allow
    ensures var t, ip := Apply(s, ObserveDNS(name, addr)), Unmap(addr);
            && ip in t.observed && t.observed[ip] == TrimSuffix(name, ".")
            && (AddrVerdict(t.chain, AttributedName(t, ip), ip).0 != Deny ==> Admits(t, ip, now, gateAllows))
  {
    hide AddrVerdict, NamedVerdict, Unmap;
  }

  // ---------- a denied address stays denied ----------

  /** The top block is the custom one and lists the deny. */
  predicate PinnedIP(s: State, e: IPEntry) {
    && s.chain.blocks != []
    && var top := s.chain.blocks[|s.chain.blocks| - 1];
       top.origin == ORIGIN_CUSTOM && e in top.denyIPs
  }

  lemma PinIPStays(s: State, op: Op, e: IPEntry)
    requires Inv(s) && PinnedIP(s, e) && !op.SetChain?
    ensures PinnedIP(Apply(s, op), e)
  {
    hide CompileAll, CompileBlock, NamedVerdict;
    if op.EditCustom? {
      assert LastCustom(s.chain.blocks) == |s.chain.blocks| - 1;
    }
  }

  lemma UngrantedStep(s: State, op: Op, ip: Addr)
    requires ip !in s.granted && op != Grant(ip)
    ensures ip !in Apply(s, op).granted
  {
    hide CompileAll, NamedVerdict, EditedBlocks;
  }

  lemma {:induction false} PinIPStaysAcross(s: State, ops: seq<Op>, e: IPEntry, ip: Addr)
    requires Inv(s) && PinnedIP(s, e) && ip !in s.granted
    requires forall op :: op in ops ==> !op.SetChain? && op != Grant(ip)
    ensures var t := Run(s, ops); Inv(t) && PinnedIP(t, e) && ip !in t.granted
  {
    hide Inv, PinnedIP, Apply;
    RunKeepsInv(s, ops);
    if ops != [] {
      var init, op := ops[..|ops| - 1], ops[|ops| - 1];
      assert op in ops && forall o :: o in init ==> o in ops;
      RunKeepsInv(s, init);
      PinIPStaysAcross(s, init, e, ip);
      PinIPStays(Run(s, init), op, e);
      UngrantedStep(Run(s, init), op, ip);
    }
  }

  /** The custom block's deny of an address outranks what it allows there. */
  ghost predicate AddressUnbeaten(b: Block, e: IPEntry, ip: Addr) {
    exists r :: r in CompileIP(e, true) && r.Contains(ip) && IPUnbeaten(BlockIPs(b), r, ip)
  }

  /** An address the topmost custom block denies stays refused over every run
      without a new chain and without a grant of it: whatever its name, whatever
      was observed, resolved or answered at the gate, and whatever was allowed
      beside it, short of the bypass or an allow that outranks the deny. */
  lemma DeniedAddressStaysDenied(s: State, e: IPEntry, ops: seq<Op>, ip: Addr, now: int, gateAllows: bool)
    requires Inv(s) && PinnedIP(s, e) && ip !in s.granted
    requires forall op :: op in ops ==> !op.SetChain? && op != Grant(ip)
    ensures var t := Run(s, ops);
            && t.chain.blocks != []
            && (!Bypassed(t, now) && AddressUnbeaten(t.chain.blocks[|t.chain.blocks| - 1], e, Unmap(ip))
                ==> !Admits(t, ip, now, gateAllows))
  {
    hide Run, Inv, AddrVerdict, AddressUnbeaten;
    PinIPStaysAcross(s, ops, e, ip);
    var t := Run(s, ops);
    if AddressUnbeaten(t.chain.blocks[|t.chain.blocks| - 1], e, Unmap(ip)) {
      TopAddressDenies(t, e, AttributedName(t, ip), ip);
    }
  }

  lemma TopAddressDenies(t: State, e: IPEntry, name: string, ip: Addr)
    requires Inv(t) && PinnedIP(t, e) && AddressUnbeaten(t.chain.blocks[|t.chain.blocks| - 1], e, Unmap(ip))
    ensures AddrVerdict(t.chain, name, ip).0 == Deny
  {
    hide NormalizeDomain, Unmap, NameVerdict, IPVerdict, IPUnbeaten, CompileIP, NamedVerdict, BlockAddr;
    var blocks := t.chain.blocks;
    var top := blocks[|blocks| - 1];
    var r :| r in CompileIP(e, true) && r.Contains(Unmap(ip)) && IPUnbeaten(BlockIPs(top), r, Unmap(ip));
    CompiledIPs(top.denyIPs, true, r);
    UnbeatenIPDecides(BlockIPs(top), r, Unmap(ip));
    CompileUpdate(blocks, |blocks| - 1, top);
    var n := NormalizeDomain(name);
    assert DeniesEither(t.chain.compiled[|blocks| - 1], n, Unmap(ip));
    ChainAddrExactly(t.chain.compiled, |blocks| - 1, n, Unmap(ip));
  }

  // ---------- a grant stands ----------

  lemma {:induction false} GrantsGrow(s: State, ops: seq<Op>)
    ensures s.granted <= Run(s, ops).granted
  {
    hide CompileAll, NamedVerdict, EditedBlocks;
    if ops != [] {
      GrantsGrow(s, ops[..|ops| - 1]);
    }
  }

  /** A human's grant admits its address for the rest of the run, whatever the
      address rules say; only a deny of the attributed name overrides it. */
  lemma GrantStands(s: State, ip: Addr, ops: seq<Op>, now: int, gateAllows: bool)
    ensures var s' := Run(Apply(s, Grant(ip)), ops);
            Admits(s', ip, now, gateAllows) <==>
            Bypassed(s', now) || AddrVerdict(s'.chain, AttributedName(s', ip), ip) != (Deny, true)
  {
    hide Run, AddrVerdict;
    GrantsGrow(Apply(s, Grant(ip)), ops);
  }

  // ---------- what an edit changes ----------

  /** The custom block edits apply to: the highest, or an empty one. */
  function CustomOf(blocks: seq<Block>): Block {
    if LastCustom(blocks) < |blocks| then blocks[LastCustom(blocks)] else Block(ORIGIN_CUSTOM, "", [], [], [], [])
  }

  /** The highest custom block has these lists, its denied addresses and all other
      blocks are as before; without one before, it is new on top. */
  predicate CustomChanged(was: seq<Block>, now: seq<Block>, allows: seq<string>, denies: seq<string>, ips: seq<IPEntry>)
  {
    var i := LastCustom(was);
    && |now| == (if i < |was| then |was| else |was| + 1)
    && now[i] == CustomOf(was).(allowDomains := allows, denyDomains := denies, allowIPs := ips)
    && forall j :: 0 <= j < |was| && j != i ==> now[j] == was[j]
  }

  lemma EditChanges(blocks: seq<Block>, e: CustomEdit)
    ensures var was := CustomOf(blocks);
            CustomChanged(blocks, EditedBlocks(blocks, e),
              if e.ReplaceAllows? then e.domains else was.allowDomains,
              match e
              case ReplaceAllows(_, _) => was.denyDomains
              case ReplaceDenies(ds) => ds
              case AppendDeny(d) => if d in was.denyDomains then was.denyDomains else was.denyDomains + [d],
              if e.ReplaceAllows? then e.ips else was.allowIPs)
  {
  }

  /** A list is cleaned entry by entry, and loses what names nothing. */
  lemma {:induction false} CleanedMembers(domains: seq<string>, d: string)
    ensures d in CleanAll(domains) <==> d != "" && exists e :: e in domains && d == Clean(e)
  {
    if domains != [] {
      CleanedMembers(domains[..|domains| - 1], d);
      assert domains == domains[..|domains| - 1] + [domains[|domains| - 1]];
    }
  }

  /** Cleaning keeps the domain an entry names. */
  lemma CleanKeepsDomain(d: string)
    ensures ToLower(Clean(d)) == NormalizeDomain(d)
  {
  }

  // ---------- the filter object ----------

  method PruneObserved(c: Chain, observed: map<Addr, string>) returns (r: map<Addr, string>)
    requires c.Valid()
    ensures forall ip :: ip in r <==> ip in observed && NamedVerdict(c, observed[ip]) == Allow
    ensures forall ip :: ip in r ==> r[ip] == observed[ip]
    ensures r == Prune(c, observed)
  {
    hide CompileAll, CompileBlock, NamedVerdict;
    r := observed;
    var todo := observed.Keys;
    while todo != {}
      invariant todo <= observed.Keys && r.Keys <= observed.Keys
      invariant forall ip :: ip in r ==> r[ip] == observed[ip]
      invariant forall ip :: ip in todo ==> ip in r
      invariant forall ip :: ip in observed && ip !in todo ==> (ip in r <==> NamedVerdict(c, observed[ip]) == Allow)
      decreases todo
    {
      var ip :| ip in todo;
      var v, m := DecideName(c, observed[ip]);
      if v != Allow {
        r := r - {ip};
      }
      todo := todo - {ip};
    }
  }

  class AllowList {
    var chain: Chain
    var resolved: map<Addr, string>
    var observed: map<Addr, string>
    var granted: set<Addr>
    var lastName: map<Addr, string>
    var allowAllUntil: Option<int>

    function Value(): State
      reads this
    {
      State(chain, resolved, observed, granted, lastName, allowAllUntil)
    }

    constructor (c: Chain)
      requires c.Valid()
      ensures Inv(Value())
      ensures Value() == State(c, map[], map[], {}, map[], None)
    {
      chain := c;
      resolved, observed, granted, lastName, allowAllUntil := map[], map[], {}, map[], None;
    }

    method SetChain(c: Chain)
      requires Inv(Value()) && c.Valid()
      modifies this
      ensures Value() == Apply(old(Value()), Op.SetChain(c)) && Inv(Value())
      ensures chain == c
      ensures forall ip :: ip in observed <==> ip in old(observed) && NamedVerdict(c, old(observed)[ip]) == Allow
    {
      hide CompileAll, CompileBlock, NamedVerdict;
      InstallChain(c);
      ApplyKeepsInv(old(Value()), Op.SetChain(c));
    }

    /** Installs c and drops observed entries it no longer allows. */
    method InstallChain(c: Chain)
      requires c.Valid()
      modifies this
      ensures Value() == Install(old(Value()), c)
    {
      hide CompileAll, CompileBlock, NamedVerdict;
      chain := c;
      observed := PruneObserved(c, observed);
    }

    /** Edits the custom block and no other; a policy that does not compile changes
        nothing. */
    method MutateCustom(e: CustomEdit) returns (ok: bool)
      requires Inv(Value())
      modifies this
      ensures Value() == Apply(old(Value()), EditCustom(e)) && Inv(Value())
      ensures ok <==> forall b :: b in EditedBlocks(old(chain.blocks), e) ==> Parses(b)
      ensures ok ==> chain.blocks == EditedBlocks(old(chain.blocks), e)
    {
      hide CompileAll, CompileBlock, NamedVerdict;
      var r := NewChain(EditedBlocks(chain.blocks, e));
      ApplyKeepsInv(Value(), EditCustom(e));
      if r.BadIPEntry? {
        return false;
      }
      InstallChain(r.chain);
      ok := true;
    }

    method SetPolicy(ips: seq<IPEntry>, cidrs: seq<IPEntry>, domains: seq<string>) returns (ok: bool)
      requires Inv(Value())
      modifies this
      ensures Value() == Apply(old(Value()), EditCustom(ReplaceAllows(domains, ips + cidrs))) && Inv(Value())
      ensures !ok ==> Value() == old(Value())
      ensures ok ==> CustomChanged(old(chain.blocks), chain.blocks, domains, CustomOf(old(chain.blocks)).denyDomains,
                                   ips + cidrs)
    {
      EditChanges(chain.blocks, ReplaceAllows(domains, ips + cidrs));
      ok := MutateCustom(ReplaceAllows(domains, ips + cidrs));
    }

    /** Replacing the denied domains cannot fail. */
    method SetDeniedDomains(domains: seq<string>)
      requires Inv(Value())
      modifies this
      ensures Value() == Apply(old(Value()), EditCustom(ReplaceDenies(CleanAll(domains)))) && Inv(Value())
      ensures CustomChanged(old(chain.blocks), chain.blocks, CustomOf(old(chain.blocks)).allowDomains,
                            CleanAll(domains), CustomOf(old(chain.blocks)).allowIPs)
    {
      var cleaned: seq<string> := [];
      for i := 0 to |domains|
        invariant cleaned == CleanAll(domains[..i]) && Value() == old(Value())
      {
        var d := Clean(domains[i]);
        assert domains[..i + 1][..i] == domains[..i];
        if d != "" {
          cleaned := cleaned + [d];
        }
      }
      assert domains[..|domains|] == domains;
      EditParses(chain.blocks, ReplaceDenies(cleaned));
      EditChanges(chain.blocks, ReplaceDenies(cleaned));
      var ok := MutateCustom(ReplaceDenies(cleaned));
    }

    /** Denying one more domain cannot fail either, and is idempotent. */
    method DenyDomain(domain: string)
      requires Inv(Value())
      modifies this
      ensures Inv(Value())
      ensures Clean(domain) == "" ==> Value() == old(Value())
      ensures Clean(domain) != "" ==> Value() == Apply(old(Value()), EditCustom(AppendDeny(Clean(domain))))
      ensures Clean(domain) != "" ==>
        var was := CustomOf(old(chain.blocks));
        CustomChanged(old(chain.blocks), chain.blocks, was.allowDomains,
                      if Clean(domain) in was.denyDomains then was.denyDomains else was.denyDomains + [Clean(domain)],
                      was.allowIPs)
    {
      var d := Clean(domain);
      if d == "" {
        return;
      }
      EditParses(chain.blocks, AppendDeny(d));
      EditChanges(chain.blocks, AppendDeny(d));
      var ok := MutateCustom(AppendDeny(d));
    }

    method GrantIP(ip: Addr)
      requires Inv(Value())
      modifies this
      ensures Value() == Apply(old(Value()), Grant(ip)) && Inv(Value())
      ensures granted == old(granted) + {ip}
    {
      granted := granted + {ip};
    }

    method ReplaceResolved(r: map<Addr, string>)
      requires Inv(Value())
      modifies this
      ensures Value() == Apply(old(Value()), InstallResolved(r)) && Inv(Value())
      ensures resolved == r
    {
      resolved := r;
    }

    method ObserveDNSAnswer(name: string, ip: Addr)
      requires Inv(Value())
      modifies this
      ensures Value() == Apply(old(Value()), ObserveDNS(name, ip)) && Inv(Value())
    {
      hide CompileAll, CompileBlock, NamedVerdict;
      ApplyKeepsInv(Value(), ObserveDNS(name, ip));
      var n, a := TrimSuffix(name, "."), Unmap(ip);
      if |lastName| >= MAX_OBSERVED_NAMES {
        lastName := map[];
      }
      lastName := lastName[a := n];
      var v, m := DecideName(chain, n);
      if v == Allow {
        observed := observed[a := n];
      }
    }

    method OpenBypass(d: int, now: int)
      requires Inv(Value())
      modifies this
      ensures Value() == Apply(old(Value()), AllowAllFor(d, now)) && Inv(Value())
    {
      hide CompileAll, NamedVerdict;
      allowAllUntil := if d <= 0 then None else Some(now + d);
    }

    /** One connection attempt. gateAllows is what the interactive gate would
        answer; with no gate or no decider attached it is false. */
    method Admit(addr: Addr, now: int, gateAllows: bool) returns (ok: bool)
      requires Inv(Value())
      ensures ok == Admits(Value(), Unmap(addr), now, gateAllows)
    {
      hide CompileAll, NamedVerdict, AddrVerdict, AddrDecided, NormalizeDomain, Unmap;
      var ip := Unmap(addr);
      var bypass := allowAllUntil.Some? && now < allowAllUntil.value;
      var name := if ip in lastName then lastName[ip] else "";
      if name == "" {
        name := if ip in resolved then resolved[ip] else "";
      }
      if bypass {
        return true;
      }
      var v, m, byName := DecideAddr(chain, name, ip);
      if byName {
        if v == Deny {
          return false;
        } else if v == Allow {
          return true;
        }
      }
      if ip in granted {
        return true;
      }
      if v == Deny {
        return false;
      } else if v == Allow {
        return true;
      }
      if ip in observed || ip in resolved {
        return true;
      }
      return gateAllows;
    }
  }

  function UnmapAll(addrs: seq<Addr>): (r: seq<Addr>)
    ensures |r| == |addrs| && forall i :: 0 <= i < |r| ==> r[i] == Unmap(addrs[i])
  {
    if addrs == [] then [] else UnmapAll(addrs[..|addrs| - 1]) + [Unmap(addrs[|addrs| - 1])]
  }

  /** Pre-resolution of pattern p yields ip. lookup holds the answers DNS gave;
      a host missing from it failed to resolve. */
  ghost predicate Resolves(lookup: map<string, seq<Addr>>, p: string, ip: Addr) {
    Apex(p) in lookup && exists a :: a in lookup[Apex(p)] && Unmap(a) == ip
  }

  /** The periodic refresh: the apex of every pattern the chain stands behind,
      rebuilt from scratch, each address with a name that justifies it. */
  method RefreshDomains(c: Chain, lookup: map<string, seq<Addr>>) returns (r: map<Addr, string>)
    requires c.Valid()
    ensures |c.compiled| == |c.blocks|
    ensures forall ip :: ip in r <==> exists p :: OfferedBelow(c, |c.blocks|, p) && Resolves(lookup, p, ip)
    ensures forall ip :: ip in r ==>
      exists p :: OfferedBelow(c, |c.blocks|, p) && Resolves(lookup, p, ip) && r[ip] == Apex(p)
    ensures forall ip :: ip in r ==> r[ip] in lookup && ip in UnmapAll(lookup[r[ip]])
  {
    hide CompileAll, OfferedBelow;
    var patterns, cut := AllowDomainPatterns(c);
    r := map[];
    for i := 0 to |patterns|
      invariant forall ip :: ip in r <==> exists p :: p in patterns[..i] && Resolves(lookup, p, ip)
      invariant forall ip :: ip in r ==> exists p :: p in patterns[..i] && Resolves(lookup, p, ip) && r[ip] == Apex(p)
    {
      assert patterns[..i + 1] == patterns[..i] + [patterns[i]];
      r := AddAnswers(r, lookup, patterns[i]);
    }
    assert patterns[..|patterns|] == patterns;
    forall ip | ip in r ensures r[ip] in lookup && ip in UnmapAll(lookup[r[ip]]) {
      var p :| p in patterns && Resolves(lookup, p, ip) && r[ip] == Apex(p);
      var k :| 0 <= k < |lookup[Apex(p)]| && Unmap(lookup[Apex(p)][k]) == ip;
      assert UnmapAll(lookup[Apex(p)])[k] == ip;
    }
  }

  method AddAnswers(before: map<Addr, string>, lookup: map<string, seq<Addr>>, p: string) returns (r: map<Addr, string>)
    ensures forall ip :: ip in r <==> ip in before || Resolves(lookup, p, ip)
    ensures forall ip :: ip in r ==> r[ip] == if Resolves(lookup, p, ip) then Apex(p) else before[ip]
  {
    r := before;
    var host := Apex(p);
    if host !in lookup {
      return;
    }
    var ips := lookup[host];
    for i := 0 to |ips|
      invariant forall ip :: ip in r <==> ip in before || exists k :: 0 <= k < i && Unmap(ips[k]) == ip
      invariant forall ip :: ip in r ==>
        r[ip] == if exists k :: 0 <= k < i && Unmap(ips[k]) == ip then host else before[ip]
    {
      r := r[Unmap(ips[i]) := host];
    }
  }

  function Clean(domain: string): string {
    TrimSuffix(TrimSpace(domain), ".")
  }

  function CleanAll(domains: seq<string>): seq<string> {
    if domains == [] then []
    else
      var init, d := CleanAll(domains[..|domains| - 1]), Clean(domains[|domains| - 1]);
      if d != "" then init + [d] else init
  }
}
