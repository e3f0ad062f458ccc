/** An ordered chain of blocks: compilation, the highest-block-first walks,
    and what editing or dropping a block can do to a verdict. */
module Chains {
  import opened Text
  import opened Blocks

  datatype Chain = Chain(blocks: seq<Block>, compiled: seq<CompiledBlock>)
  {
    ghost predicate Valid() {
      (forall b :: b in blocks ==> Parses(b)) && compiled == CompileAll(blocks)
    }
  }

  /** A failure names the first block, in chain order, with an entry that does
      not parse, and the first such entry. */
  datatype CompileResult = Compiled(chain: Chain) | BadIPEntry(origin: string, name: string, entry: string)

  // ---------- compilation ----------

  function NormalizeDomain(s: string): string {
    ToLower(TrimSuffix(TrimSpace(s), "."))
  }

  /** Patterns that name nothing are dropped. */
  predicate Vacuous(p: string) {
    p == "" || p == "*."
  }

  /** A leading "*." makes a wildcard; a bare deny covers its whole subtree;
      a bare allow is exact. */
  function CompileName(entry: string, deny: bool): seq<NameRule> {
    var p := NormalizeDomain(entry);
    if Vacuous(p) then []
    else if HasPrefix(p, "*.") then [NameRule(p, p[2..], Dots(p[2..]) + 1, true, false, deny)]
    else [NameRule(p, p, Dots(p) + 1, false, deny, deny)]
  }

  function CompileNames(entries: seq<string>, deny: bool): seq<NameRule> {
    if entries == [] then []
    else CompileNames(entries[..|entries| - 1], deny) + CompileName(entries[|entries| - 1], deny)
  }

  function CompileIP(e: IPEntry, deny: bool): seq<IPRule> {
    match e
    case AddrEntry(text, a) => [ExactRule(TrimSpace(text), Unmap(a), deny)]
    case PrefixEntry(text, p) => [PrefixRule(TrimSpace(text), p, deny)]
    case _ => []
  }

  function CompileIPs(entries: seq<IPEntry>, deny: bool): seq<IPRule> {
    if entries == [] then []
    else CompileIPs(entries[..|entries| - 1], deny) + CompileIP(entries[|entries| - 1], deny)
  }

  predicate Parses(b: Block) {
    AllGood(b.allowIPs) && AllGood(b.denyIPs)
  }

  predicate AllGood(entries: seq<IPEntry>) {
    forall i :: 0 <= i < |entries| ==> !entries[i].BadEntry?
  }

  /** text is the first entry that does not parse. */
  ghost predicate FirstBadEntry(entries: seq<IPEntry>, text: string) {
    exists i :: 0 <= i < |entries| && entries[i] == BadEntry(text) && AllGood(entries[..i])
  }

  /** Allowed addresses are read before denied ones. */
  ghost predicate Offends(b: Block, text: string) {
    if AllGood(b.allowIPs) then FirstBadEntry(b.denyIPs, text) else FirstBadEntry(b.allowIPs, text)
  }

  function BlockNames(b: Block): seq<NameRule> {
    CompileNames(b.allowDomains, false) + CompileNames(b.denyDomains, true)
  }

  function BlockIPs(b: Block): seq<IPRule> {
    CompileIPs(b.allowIPs, false) + CompileIPs(b.denyIPs, true)
  }

  function CompileBlock(b: Block): CompiledBlock {
    CompiledBlock(b.origin, b.name, BlockNames(b), BlockIPs(b))
  }

  function CompileAll(blocks: seq<Block>): (cbs: seq<CompiledBlock>)
    ensures |cbs| == |blocks|
    ensures forall i :: 0 <= i < |blocks| ==> cbs[i] == CompileBlock(blocks[i])
  {
    if blocks == [] then [] else CompileAll(blocks[..|blocks| - 1]) + [CompileBlock(blocks[|blocks| - 1])]
  }

  /** Normalising lower-cases, and strips surrounding white space and one dot. */
  lemma NormalizeLaws(s: string)
    ensures forall i :: 0 <= i < |NormalizeDomain(s)| ==> LowerChar(NormalizeDomain(s)[i]) == NormalizeDomain(s)[i]
    ensures Trimmed(s) && !HasSuffix(s, ".") ==> NormalizeDomain(s) == ToLower(s)
    ensures s != "" && Trimmed(s) ==> NormalizeDomain(s + ".") == ToLower(s)
    ensures NormalizeDomain(TrimSpace(s)) == NormalizeDomain(s)
  {
    hide TrimSpace, ToLower;
    LowerAt(TrimSuffix(TrimSpace(s), "."));
    TrimSpaceFixes(s);
    if s != "" && Trimmed(s) {
      var d := s + ".";
      assert d[0] == s[0] && d[|d| - 1] == '.';
      TrimSpaceFixes(d);
      assert d[|d| - 1..] == "." && d[..|d| - 1] == s;
    }
  }

  /** Which names an entry is about: "*.x" the names below x, a bare deny x and
      the names below it, a bare allow x alone. */
  lemma CompiledMatches(entry: string, deny: bool, r: NameRule, name: string)
    requires r in CompileName(entry, deny)
    ensures var p := NormalizeDomain(entry);
            && r.MatchName(name).0 == (if HasPrefix(p, "*.") then HasSuffix(name, p[1..])
                                       else if deny then AtOrBelow(name, p) else name == p)
            && r.deny == deny && r.entry == p && r.pattern == Apex(p) && r.labels == Dots(Apex(p)) + 1
  {
    var p := NormalizeDomain(entry);
    if HasPrefix(p, "*.") {
      assert p[..2][1] == p[1];
      assert p[1..] == "." + p[2..];
    }
  }

  /** Every entry compiles to one rule, unless it names nothing. */
  lemma CompilesToOne(entry: string, deny: bool)
    ensures |CompileName(entry, deny)| == if Vacuous(NormalizeDomain(entry)) then 0 else 1
  {
  }

  /** Which addresses an entry is about. */
  lemma CompiledIPMatches(e: IPEntry, deny: bool, r: IPRule, ip: Addr)
    requires r in CompileIP(e, deny)
    ensures r.deny == deny && (e.AddrEntry? || e.PrefixEntry?)
    ensures e.AddrEntry? ==> (r.Contains(Unmap(ip)) <==> Unmap(ip) == Unmap(e.addr))
    ensures e.PrefixEntry? ==> (r.Contains(Unmap(ip)) <==> PrefixContains(e.prefix, Unmap(ip)))
  {
  }

  lemma {:induction false} CompiledNames(entries: seq<string>, deny: bool, r: NameRule)
    ensures r in CompileNames(entries, deny) <==> exists e :: e in entries && r in CompileName(e, deny)
    ensures r in CompileNames(entries, deny) ==> r.WellFormed() && r.deny == deny
  {
    if entries != [] {
      var init, last := entries[..|entries| - 1], entries[|entries| - 1];
      assert entries == init + [last];
      CompiledNames(init, deny, r);
    }
  }

  lemma {:induction false} CompiledIPs(entries: seq<IPEntry>, deny: bool, r: IPRule)
    ensures r in CompileIPs(entries, deny) <==> exists e :: e in entries && r in CompileIP(e, deny)
    ensures r in CompileIPs(entries, deny) ==> r.deny == deny
  {
    if entries != [] {
      var init, last := entries[..|entries| - 1], entries[|entries| - 1];
      assert entries == init + [last];
      CompiledIPs(init, deny, r);
    }
  }

  lemma CompiledBlockWellFormed(b: Block)
    ensures CompileBlock(b).WellFormed()
  {
    forall r | r in CompileBlock(b).names ensures r.WellFormed() {
      CompiledNames(b.allowDomains, false, r);
      CompiledNames(b.denyDomains, true, r);
    }
  }

  /** Compiles a chain, or names the first malformed address. */
  method NewChain(blocks: seq<Block>) returns (r: CompileResult)
    ensures r.Compiled? <==> forall b :: b in blocks ==> Parses(b)
    ensures r.Compiled? ==> r.chain.blocks == blocks && r.chain.Valid()
    ensures r.BadIPEntry? ==>
      exists i: nat :: FirstBad(blocks, i)
        && r.origin == blocks[i].origin && r.name == blocks[i].name && Offends(blocks[i], r.entry)
  {
    var bad, entry, compiled := CompileEach(blocks);
    if bad.Some? {
      r := BadIPEntry(blocks[bad.value].origin, blocks[bad.value].name, entry);
    } else {
      r := Compiled(Chain(blocks, compiled));
    }
  }

  method CompileEach(blocks: seq<Block>)
    returns (bad: Option<nat>, entry: string, compiled: seq<CompiledBlock>)
    ensures bad.Some? ==> FirstBad(blocks, bad.value) && Offends(blocks[bad.value], entry)
    ensures bad.None? ==> compiled == CompileAll(blocks) && forall j :: 0 <= j < |blocks| ==> Parses(blocks[j])
  {
    hide CompileBlock, Parses, Offends;
    compiled := [];
    for i := 0 to |blocks|
      invariant compiled == CompileAll(blocks[..i])
      invariant forall j :: 0 <= j < i ==> Parses(blocks[j])
    {
      var ok, text, cb := NewBlock(blocks[i]);
      if !ok {
        return Some(i), text, compiled;
      }
      assert blocks[..i + 1][..i] == blocks[..i];
      compiled := compiled + [cb];
    }
    assert blocks[..|blocks|] == blocks;
    bad, entry := None, "";
  }

  ghost predicate FirstBad(blocks: seq<Block>, i: nat) {
    i < |blocks| && !Parses(blocks[i]) && forall j :: 0 <= j < i ==> Parses(blocks[j])
  }

  method NewBlock(b: Block) returns (ok: bool, text: string, cb: CompiledBlock)
    ensures ok <==> Parses(b)
    ensures ok ==> cb == CompileBlock(b)
    ensures !ok ==> Offends(b, text)
  {
    hide FirstBadEntry;
    cb := CompiledBlock(b.origin, b.name, [], []);
    var names := AddNames([], b.allowDomains, false);
    assert names == CompileNames(b.allowDomains, false);
    names := AddNames(names, b.denyDomains, true);
    var ips;
    ok, text, ips := AddIPs([], b.allowIPs, false);
    if !ok {
      return;
    }
    assert ips == CompileIPs(b.allowIPs, false);
    ok, text, ips := AddIPs(ips, b.denyIPs, true);
    cb := CompiledBlock(b.origin, b.name, names, ips);
  }

  method AddNames(rules: seq<NameRule>, entries: seq<string>, deny: bool) returns (out: seq<NameRule>)
    ensures out == rules + CompileNames(entries, deny)
  {
    hide CompileName;
    out := rules;
    for i := 0 to |entries|
      invariant out == rules + CompileNames(entries[..i], deny)
    {
      assert entries[..i + 1][..i] == entries[..i];
      out := out + CompileName(entries[i], deny);
    }
    assert entries[..|entries|] == entries;
  }

  method AddIPs(rules: seq<IPRule>, entries: seq<IPEntry>, deny: bool)
    returns (ok: bool, text: string, out: seq<IPRule>)
    ensures ok <==> AllGood(entries)
    ensures ok ==> out == rules + CompileIPs(entries, deny)
    ensures !ok ==> FirstBadEntry(entries, text)
  {
    hide CompileIP;
    out, text := rules, "";
    for i := 0 to |entries|
      invariant out == rules + CompileIPs(entries[..i], deny)
      invariant forall j :: 0 <= j < i ==> !entries[j].BadEntry?
    {
      if entries[i].BadEntry? {
        assert entries[i] == BadEntry(entries[i].text) && AllGood(entries[..i]);
        return false, entries[i].text, out;
      }
      assert entries[..i + 1][..i] == entries[..i];
      out := out + CompileIP(entries[i], deny);
    }
    assert entries[..|entries|] == entries;
    ok := true;
  }

  // ---------- the walks over blocks ----------

  ghost function ChainName(cbs: seq<CompiledBlock>, name: string): Verdict {
    if cbs == [] then NoOpinion
    else
      var v := NameVerdict(cbs[|cbs| - 1].names, name);
      if v != NoOpinion then v else ChainName(cbs[..|cbs| - 1], name)
  }

  ghost function ChainIP(cbs: seq<CompiledBlock>, ip: Addr): Verdict {
    if cbs == [] then NoOpinion
    else
      var v := IPVerdict(cbs[|cbs| - 1].ips, ip);
      if v != NoOpinion then v else ChainIP(cbs[..|cbs| - 1], ip)
  }

  /** No name is attributed when name is empty. */
  ghost function AttributedVerdict(cb: CompiledBlock, name: string): Verdict {
    if name == "" then NoOpinion else NameVerdict(cb.names, name)
  }

  /** Both rule spaces of one block: a deny in either overrides an allow in
      the other; the flag says the verdict came from the name. */
  ghost function BlockAddr(cb: CompiledBlock, name: string, ip: Addr): (Verdict, bool) {
    var nv, iv := AttributedVerdict(cb, name), IPVerdict(cb.ips, ip);
    if nv == Deny || (nv == Allow && iv != Deny) then (nv, true) else (iv, false)
  }

  ghost function ChainAddr(cbs: seq<CompiledBlock>, name: string, ip: Addr): (Verdict, bool) {
    if cbs == [] then (NoOpinion, false)
    else
      var v := BlockAddr(cbs[|cbs| - 1], name, ip);
      if v.0 != NoOpinion then v else ChainAddr(cbs[..|cbs| - 1], name, ip)
  }

  ghost function NamedVerdict(c: Chain, name: string): Verdict {
    if NormalizeDomain(name) == "" then NoOpinion else ChainName(c.compiled, NormalizeDomain(name))
  }

  ghost function AddrVerdict(c: Chain, name: string, ip: Addr): (Verdict, bool) {
    ChainAddr(c.compiled, NormalizeDomain(name), Unmap(ip))
  }

  ghost predicate AllWellFormed(cbs: seq<CompiledBlock>) {
    forall cb :: cb in cbs ==> cb.WellFormed()
  }

  lemma ValidWellFormed(c: Chain)
    requires c.Valid()
    ensures AllWellFormed(c.compiled) && |c.compiled| == |c.blocks|
  {
    forall cb | cb in c.compiled ensures cb.WellFormed() {
      var i :| 0 <= i < |c.compiled| && c.compiled[i] == cb;
      CompiledBlockWellFormed(c.blocks[i]);
    }
  }

  /** m is the attribution of the highest block with an opinion on name. */
  ghost predicate NameDecided(cbs: seq<CompiledBlock>, name: string, v: Verdict, m: Match) {
    exists i :: 0 <= i < |cbs| && NameVerdict(cbs[i].names, name) == v && NameAttributed(cbs[i], name, v, m)
      && forall j :: i < j < |cbs| ==> NameVerdict(cbs[j].names, name) == NoOpinion
  }

  ghost predicate IPDecided(cbs: seq<CompiledBlock>, ip: Addr, v: Verdict, m: Match) {
    exists i :: 0 <= i < |cbs| && IPVerdict(cbs[i].ips, ip) == v && IPAttributed(cbs[i], ip, v, m)
      && forall j :: i < j < |cbs| ==> IPVerdict(cbs[j].ips, ip) == NoOpinion
  }

  /** The same over both rule spaces, naming a rule of the one that spoke. */
  ghost predicate AddrDecided(cbs: seq<CompiledBlock>, name: string, ip: Addr, v: Verdict, byName: bool, m: Match) {
    exists i :: 0 <= i < |cbs| && BlockAddr(cbs[i], name, ip) == (v, byName)
      && (if byName then NameAttributed(cbs[i], name, v, m) else IPAttributed(cbs[i], ip, v, m))
      && forall j :: i < j < |cbs| ==> BlockAddr(cbs[j], name, ip).0 == NoOpinion
  }

  method DecideName(c: Chain, name: string) returns (v: Verdict, m: Match)
    requires c.Valid()
    ensures v == NamedVerdict(c, name)
    ensures v == NoOpinion ==> m == NoMatch
    ensures v != NoOpinion ==> NameDecided(c.compiled, NormalizeDomain(name), v, m)
  {
    var n := NormalizeDomain(name);
    if n == "" {
      return NoOpinion, NoMatch;
    }
    ValidWellFormed(c);
    v, m := FirstNameOpinion(c.compiled, n);
  }

  /** Highest block first; the first opinion decides. */
  method FirstNameOpinion(cbs: seq<CompiledBlock>, n: string) returns (v: Verdict, m: Match)
    requires AllWellFormed(cbs)
    ensures v == ChainName(cbs, n)
    ensures v == NoOpinion ==> m == NoMatch
    ensures v != NoOpinion ==> NameDecided(cbs, n, v, m)
  {
    hide NameVerdict, NameAttributed;
    assert cbs[..|cbs|] == cbs;
    for i := |cbs| downto 0
      invariant ChainName(cbs, n) == ChainName(cbs[..i], n)
      invariant forall j :: i <= j < |cbs| ==> NameVerdict(cbs[j].names, n) == NoOpinion
    {
      assert cbs[..i + 1][..i] == cbs[..i];
      v, m := DecideBlockName(cbs[i], n);
      if v != NoOpinion {
        return;
      }
    }
    return NoOpinion, NoMatch;
  }

  method DecideIP(c: Chain, ip: Addr) returns (v: Verdict, m: Match)
    ensures v == ChainIP(c.compiled, Unmap(ip))
    ensures v == NoOpinion ==> m == NoMatch
    ensures v != NoOpinion ==> IPDecided(c.compiled, Unmap(ip), v, m)
  {
    hide IPVerdict, IPAttributed;
    var a, cbs := Unmap(ip), c.compiled;
    assert cbs[..|cbs|] == cbs;
    for i := |cbs| downto 0
      invariant ChainIP(cbs, a) == ChainIP(cbs[..i], a)
      invariant forall j :: i <= j < |cbs| ==> IPVerdict(cbs[j].ips, a) == NoOpinion
    {
      assert cbs[..i + 1][..i] == cbs[..i];
      v, m := DecideBlockIP(cbs[i], a);
      if v != NoOpinion {
        return;
      }
    }
    return NoOpinion, NoMatch;
  }

  method DecideAddr(c: Chain, name: string, ip: Addr) returns (v: Verdict, m: Match, byName: bool)
    requires c.Valid()
    ensures (v, byName) == AddrVerdict(c, name, ip)
    ensures v == NoOpinion ==> m == NoMatch
    ensures v != NoOpinion ==> AddrDecided(c.compiled, NormalizeDomain(name), Unmap(ip), v, byName, m)
  {
    ValidWellFormed(c);
    v, m, byName := FirstAddrOpinion(c.compiled, NormalizeDomain(name), Unmap(ip));
  }

  method FirstAddrOpinion(cbs: seq<CompiledBlock>, n: string, a: Addr)
    returns (v: Verdict, m: Match, byName: bool)
    requires AllWellFormed(cbs)
    ensures (v, byName) == ChainAddr(cbs, n, a)
    ensures v == NoOpinion ==> m == NoMatch
    ensures v != NoOpinion ==> AddrDecided(cbs, n, a, v, byName, m)
  {
    hide NameVerdict, IPVerdict, NameAttributed, IPAttributed, BlockAddr;
    assert cbs[..|cbs|] == cbs;
    for i := |cbs| downto 0
      invariant ChainAddr(cbs, n, a) == ChainAddr(cbs[..i], n, a)
      invariant forall j :: i <= j < |cbs| ==> BlockAddr(cbs[j], n, a).0 == NoOpinion
    {
      assert cbs[..i + 1][..i] == cbs[..i];
      v, m, byName := DecideBlockAddr(cbs[i], n, a);
      if v != NoOpinion {
        return;
      }
    }
    return NoOpinion, NoMatch, false;
  }

  /** One block's turn, consulting both rule spaces. */
  method DecideBlockAddr(cb: CompiledBlock, n: string, a: Addr) returns (v: Verdict, m: Match, byName: bool)
    requires cb.WellFormed()
    ensures (v, byName) == BlockAddr(cb, n, a)
    ensures v != NoOpinion ==> if byName then NameAttributed(cb, n, v, m) else IPAttributed(cb, a, v, m)
  {
    hide NameVerdict, IPVerdict, NameAttributed, IPAttributed;
    var nv, nm := NoOpinion, NoMatch;
    if n != "" {
      nv, nm := DecideBlockName(cb, n);
    }
    var iv, im := DecideBlockIP(cb, a);
    if nv == NoOpinion && iv == NoOpinion {
      return NoOpinion, NoMatch, false;
    } else if iv == NoOpinion {
      return nv, nm, true;
    } else if nv == NoOpinion {
      return iv, im, false;
    } else if nv == Deny {
      return nv, nm, true;
    } else if iv == Deny {
      return iv, im, false;
    } else {
      return nv, nm, true;
    }
  }

  // ---------- splitting a chain ----------

  lemma {:induction false} AddrSplit(lo: seq<CompiledBlock>, hi: seq<CompiledBlock>, name: string, ip: Addr)
    ensures ChainAddr(lo + hi, name, ip) ==
            if ChainAddr(hi, name, ip).0 != NoOpinion then ChainAddr(hi, name, ip) else ChainAddr(lo, name, ip)
    decreases |hi|
  {
    if hi == [] {
      assert lo + hi == lo;
    } else {
      assert (lo + hi)[..|lo + hi| - 1] == lo + hi[..|hi| - 1];
      AddrSplit(lo, hi[..|hi| - 1], name, ip);
    }
  }

  lemma {:induction false} NameSplit(lo: seq<CompiledBlock>, hi: seq<CompiledBlock>, name: string)
    ensures ChainName(lo + hi, name) ==
            if ChainName(hi, name) != NoOpinion then ChainName(hi, name) else ChainName(lo, name)
    decreases |hi|
  {
    if hi == [] {
      assert lo + hi == lo;
    } else {
      assert (lo + hi)[..|lo + hi| - 1] == lo + hi[..|hi| - 1];
      NameSplit(lo, hi[..|hi| - 1], name);
    }
  }

  /** A chain around one block: the blocks above speak first, then it, then
      the blocks below. */
  lemma AddrAround(cbs: seq<CompiledBlock>, i: nat, name: string, ip: Addr)
    requires i < |cbs|
    ensures ChainAddr(cbs, name, ip) ==
            var hi := ChainAddr(cbs[i + 1..], name, ip);
            var here := BlockAddr(cbs[i], name, ip);
            if hi.0 != NoOpinion then hi
            else if here.0 != NoOpinion then here
            else ChainAddr(cbs[..i], name, ip)
  {
    assert cbs == cbs[..i + 1] + cbs[i + 1..];
    AddrSplit(cbs[..i + 1], cbs[i + 1..], name, ip);
    assert cbs[..i + 1][..i] == cbs[..i];
  }

  // ---------- both rule spaces together ----------

  predicate NameSays(cb: CompiledBlock, name: string, v: Verdict) {
    name != "" && NameVerdict(cb.names, name) == v
  }

  ghost predicate Silent(cb: CompiledBlock, name: string, ip: Addr) {
    (name == "" || NameVerdict(cb.names, name) == NoOpinion) && IPVerdict(cb.ips, ip) == NoOpinion
  }

  ghost predicate DeniesEither(cb: CompiledBlock, name: string, ip: Addr) {
    NameSays(cb, name, Deny) || IPVerdict(cb.ips, ip) == Deny
  }

  ghost predicate AllowsEither(cb: CompiledBlock, name: string, ip: Addr) {
    NameSays(cb, name, Allow) || IPVerdict(cb.ips, ip) == Allow
  }

  /** A block denies a destination if and only if either space denies it, allows
      if and only if neither denies and one allows. The name is credited exactly
      when it says what the block says. */
  lemma BlockAddrExactly(cb: CompiledBlock, name: string, ip: Addr)
    ensures var (v, byName) := BlockAddr(cb, name, ip);
            && (v == Deny <==> DeniesEither(cb, name, ip))
            && (v == Allow <==> !DeniesEither(cb, name, ip) && AllowsEither(cb, name, ip))
            && (v == NoOpinion <==> Silent(cb, name, ip))
            && (byName <==> v != NoOpinion && NameSays(cb, name, v))
  {
    hide NameVerdict, IPVerdict;
  }

  /** Block i is the highest that speaks in either space. */
  ghost predicate Highest(cbs: seq<CompiledBlock>, i: nat, name: string, ip: Addr) {
    && i < |cbs| && !Silent(cbs[i], name, ip)
    && forall j :: i < j < |cbs| ==> Silent(cbs[j], name, ip)
  }

  /** The chain says what its highest speaking block says: deny if and only if
      that block denies in either space. */
  lemma {:induction false} ChainAddrExactly(cbs: seq<CompiledBlock>, i: nat, name: string, ip: Addr)
    requires Highest(cbs, i, name, ip)
    ensures var (v, byName) := ChainAddr(cbs, name, ip);
            && v != NoOpinion
            && (v == Deny <==> DeniesEither(cbs[i], name, ip))
            && (byName <==> NameSays(cbs[i], name, v))
    decreases |cbs|
  {
    hide NameVerdict, IPVerdict, BlockAddr;
    var n := |cbs| - 1;
    BlockAddrExactly(cbs[n], name, ip);
    if i < n {
      ChainAddrExactly(cbs[..n], i, name, ip);
    }
  }

  lemma {:induction false} ChainAddrSilent(cbs: seq<CompiledBlock>, name: string, ip: Addr)
    ensures ChainAddr(cbs, name, ip).0 == NoOpinion <==>
      forall i :: 0 <= i < |cbs| ==> Silent(cbs[i], name, ip)
  {
    hide NameVerdict, IPVerdict, BlockAddr;
    if cbs != [] {
      BlockAddrExactly(cbs[|cbs| - 1], name, ip);
      ChainAddrSilent(cbs[..|cbs| - 1], name, ip);
    }
  }

  // ---------- policy edits are monotone ----------

  datatype Edit =
    | AddAllowDomain(domain: string) | AddDenyDomain(domain: string)
    | AddAllowIP(ip: IPEntry) | AddDenyIP(ip: IPEntry)
  {
    predicate Denies() { AddDenyDomain? || AddDenyIP? }

    function Apply(b: Block): Block {
      match this
      case AddAllowDomain(d) => b.(allowDomains := b.allowDomains + [d])
      case AddDenyDomain(d) => b.(denyDomains := b.denyDomains + [d])
      case AddAllowIP(e) => b.(allowIPs := b.allowIPs + [e])
      case AddDenyIP(e) => b.(denyIPs := b.denyIPs + [e])
    }
  }

  lemma NameAppended(entries: seq<string>, e: string, deny: bool)
    ensures CompileNames(entries + [e], deny) == CompileNames(entries, deny) + CompileName(e, deny)
  {
  }

  lemma IPAppended(entries: seq<IPEntry>, e: IPEntry, deny: bool)
    ensures CompileIPs(entries + [e], deny) == CompileIPs(entries, deny) + CompileIP(e, deny)
  {
  }

  lemma Inserted<T>(a: seq<T>, x: seq<T>, b: seq<T>)
    ensures SameRules((a + b) + x, (a + x) + b)
    ensures SameRules((a + b) + x, a + (b + x))
  {
  }

  lemma GrownNames(was: seq<NameRule>, added: seq<NameRule>, now: seq<NameRule>, deny: bool, name: string)
    requires added == [] || (|added| == 1 && added[0].deny == deny)
    requires SameRules(was + added, now)
    ensures NameVerdict(now, name) == NameVerdict(was, name) || NameVerdict(now, name) == VerdictFor(deny)
  {
    if added == [] {
      assert was + added == was;
      NameOrderIrrelevant(was, now, name, 0);
    } else {
      AddNameRule(was, added[0], now, name, 0);
    }
  }

  lemma GrownIPs(was: seq<IPRule>, added: seq<IPRule>, now: seq<IPRule>, deny: bool, ip: Addr)
    requires added == [] || (|added| == 1 && added[0].deny == deny)
    requires SameRules(was + added, now)
    ensures IPVerdict(now, ip) == IPVerdict(was, ip) || IPVerdict(now, ip) == VerdictFor(deny)
  {
    if added == [] {
      assert was + added == was;
      IPOrderIrrelevant(was, now, ip);
    } else {
      AddIPRule(was, added[0], now, ip);
    }
  }

  lemma NamesAfterEdit(b: Block, e: Edit, name: string)
    requires e.AddAllowDomain? || e.AddDenyDomain?
    ensures NameVerdict(BlockNames(e.Apply(b)), name) == NameVerdict(BlockNames(b), name)
         || NameVerdict(BlockNames(e.Apply(b)), name) == VerdictFor(e.Denies())
  {
    var added := CompileName(e.domain, e.Denies());
    var allows, denies := CompileNames(b.allowDomains, false), CompileNames(b.denyDomains, true);
    Inserted(allows, added, denies);
    if e.Denies() {
      NameAppended(b.denyDomains, e.domain, true);
      assert BlockNames(e.Apply(b)) == allows + (denies + added);
    } else {
      NameAppended(b.allowDomains, e.domain, false);
      assert BlockNames(e.Apply(b)) == (allows + added) + denies;
    }
    GrownNames(allows + denies, added, BlockNames(e.Apply(b)), e.Denies(), name);
  }

  lemma IPsAfterEdit(b: Block, e: Edit, ip: Addr)
    requires e.AddAllowIP? || e.AddDenyIP?
    ensures IPVerdict(BlockIPs(e.Apply(b)), ip) == IPVerdict(BlockIPs(b), ip)
         || IPVerdict(BlockIPs(e.Apply(b)), ip) == VerdictFor(e.Denies())
  {
    var added := CompileIP(e.ip, e.Denies());
    var allows, denies := CompileIPs(b.allowIPs, false), CompileIPs(b.denyIPs, true);
    Inserted(allows, added, denies);
    if e.Denies() {
      IPAppended(b.denyIPs, e.ip, true);
      assert BlockIPs(e.Apply(b)) == allows + (denies + added);
    } else {
      IPAppended(b.allowIPs, e.ip, false);
      assert BlockIPs(e.Apply(b)) == (allows + added) + denies;
    }
    GrownIPs(allows + denies, added, BlockIPs(e.Apply(b)), e.Denies(), ip);
  }

  lemma BlockAfterEdit(b: Block, e: Edit, name: string, ip: Addr)
    ensures var v, v' := BlockAddr(CompileBlock(b), name, ip).0, BlockAddr(CompileBlock(e.Apply(b)), name, ip).0;
            v' == v || v' == VerdictFor(e.Denies())
  {
    if e.AddAllowDomain? || e.AddDenyDomain? {
      NamesAfterEdit(b, e, name);
    } else {
      IPsAfterEdit(b, e, ip);
    }
  }

  lemma SwapOne(cbs: seq<CompiledBlock>, i: nat, cb: CompiledBlock, name: string, ip: Addr, target: Verdict)
    requires i < |cbs| && target != NoOpinion
    requires BlockAddr(cb, name, ip).0 in {BlockAddr(cbs[i], name, ip).0, target}
    ensures ChainAddr(cbs[i := cb], name, ip).0 in {ChainAddr(cbs, name, ip).0, target}
  {
    var cbs' := cbs[i := cb];
    AddrAround(cbs, i, name, ip);
    AddrAround(cbs', i, name, ip);
    assert cbs[..i] == cbs'[..i] && cbs[i + 1..] == cbs'[i + 1..];
  }

  lemma CompileUpdate(blocks: seq<Block>, i: nat, b: Block)
    requires i < |blocks|
    ensures CompileAll(blocks[i := b]) == CompileAll(blocks)[i := CompileBlock(b)]
    ensures CompileAll(blocks)[i] == CompileBlock(blocks[i])
  {
  }

  /** Adding one rule anywhere in a chain leaves every destination's verdict
      alone or turns it into that rule's own verdict. */
  lemma EditIsMonotone(blocks: seq<Block>, i: nat, e: Edit, name: string, ip: Addr)
    requires i < |blocks|
    ensures ChainAddr(CompileAll(blocks[i := e.Apply(blocks[i])]), name, ip).0
            in {ChainAddr(CompileAll(blocks), name, ip).0, VerdictFor(e.Denies())}
  {
    var b := e.Apply(blocks[i]);
    BlockAfterEdit(blocks[i], e, name, ip);
    CompileUpdate(blocks, i, b);
    SwapOne(CompileAll(blocks), i, CompileBlock(b), name, ip, VerdictFor(e.Denies()));
  }

  // ---------- dropping a block ----------

  /** What a chain says of a destination as the decision sees it. */
  ghost function Outcome(blocks: seq<Block>, name: string, ip: Addr): Verdict {
    ChainAddr(CompileAll(blocks), NormalizeDomain(name), Unmap(ip)).0
  }

  ghost function Opinion(b: Block, name: string, ip: Addr): Verdict {
    BlockAddr(CompileBlock(b), NormalizeDomain(name), Unmap(ip)).0
  }

  /** However the rest of the chain looks, dropping b never lets a destination
      through that was not allowed before. */
  ghost predicate SafeToDrop(b: Block) {
    forall lo, hi, name, ip :: DropKeepsOut(lo, b, hi, name, ip)
  }

  ghost predicate DropKeepsOut(lo: seq<Block>, b: Block, hi: seq<Block>, name: string, ip: Addr) {
    Outcome(lo + hi, name, ip) == Allow ==> Outcome(lo + [b] + hi, name, ip) == Allow
  }

  ghost predicate NeverDenies(b: Block) {
    forall name, ip :: Opinion(b, name, ip) != Deny
  }

  lemma CompileConcat(a: seq<Block>, b: seq<Block>)
    ensures CompileAll(a + b) == CompileAll(a) + CompileAll(b)
  {
    hide CompileBlock;
  }

  lemma OutcomeConcat(lo: seq<Block>, hi: seq<Block>, name: string, ip: Addr)
    ensures Outcome(lo + hi, name, ip) ==
            if Outcome(hi, name, ip) != NoOpinion then Outcome(hi, name, ip) else Outcome(lo, name, ip)
  {
    hide CompileAll, ChainAddr;
    CompileConcat(lo, hi);
    AddrSplit(CompileAll(lo), CompileAll(hi), NormalizeDomain(name), Unmap(ip));
  }

  lemma OutcomeOfOne(b: Block, name: string, ip: Addr)
    ensures Outcome([b], name, ip) == Opinion(b, name, ip) && Outcome([], name, ip) == NoOpinion
  {
    hide CompileBlock, BlockAddr, NormalizeDomain, Unmap;
    var cb := CompileBlock(b);
    assert CompileAll([b]) == [cb];
    ChainOfOne(cb, NormalizeDomain(name), Unmap(ip));
  }

  lemma ChainOfOne(cb: CompiledBlock, name: string, ip: Addr)
    ensures ChainAddr([cb], name, ip).0 == BlockAddr(cb, name, ip).0
  {
    hide BlockAddr;
    assert [cb][..0] == [];
  }

  lemma DropOne(lo: seq<Block>, b: Block, hi: seq<Block>, name: string, ip: Addr)
    ensures Outcome(lo + [b] + hi, name, ip) ==
            var h, o := Outcome(hi, name, ip), Opinion(b, name, ip);
            if h != NoOpinion then h else if o != NoOpinion then o else Outcome(lo, name, ip)
  {
    hide Outcome, Opinion;
    OutcomeConcat(lo + [b], hi, name, ip);
    OutcomeConcat(lo, [b], name, ip);
    OutcomeOfOne(b, name, ip);
  }

  /** The layer that allows one address. */
  function OpenBlock(ip: Addr): Block {
    Block("policy", "", [], [], [AddrEntry("", ip)], [])
  }

  lemma OpenBlockAllows(name: string, ip: Addr)
    ensures Opinion(OpenBlock(ip), name, ip) == Allow
  {
    hide NormalizeDomain, Unmap, CompileBlock, NameVerdict, IPVerdict;
    var rule := ExactRule(TrimSpace(""), Unmap(ip), false);
    OpenBlockRules(ip);
    NoRulesNoOpinion(NormalizeDomain(name));
    OneRuleDecides(rule, Unmap(ip));
  }

  lemma OpenBlockRules(ip: Addr)
    ensures var cb := CompileBlock(OpenBlock(ip));
            cb.names == [] && cb.ips == [ExactRule(TrimSpace(""), Unmap(ip), false)]
  {
    hide Unmap, TrimSpace;
    var e := AddrEntry("", ip);
    IPAppended([], e, false);
    assert [] + [e] == [e];
    assert CompileIPs([e], false) == CompileIP(e, false);
  }

  lemma NoRulesNoOpinion(name: string)
    ensures NameVerdict([], name) == NoOpinion
  {
    NoMatchNoOpinion([], name, 0);
  }

  lemma OneRuleDecides(r: IPRule, ip: Addr)
    requires r.Contains(ip)
    ensures IPVerdict([r], ip) == VerdictFor(r.deny)
  {
    assert Top([r], ip, r);
  }

  /** The remark that a missing layer can only block more holds for exactly
      the layers that deny no destination. */
  lemma SafeToDropIff(b: Block)
    ensures SafeToDrop(b) <==> NeverDenies(b)
  {
    hide Outcome, Opinion;
    if NeverDenies(b) {
      forall lo, hi, name, ip ensures DropKeepsOut(lo, b, hi, name, ip) {
        OutcomeConcat(lo, hi, name, ip);
        DropOne(lo, b, hi, name, ip);
      }
    }
    if SafeToDrop(b) {
      forall name, ip ensures Opinion(b, name, ip) != Deny {
        var open := OpenBlock(ip);
        OpenBlockAllows(name, ip);
        OutcomeOfOne(open, name, ip);
        OutcomeConcat([open], [], name, ip);
        DropOne([open], b, [], name, ip);
        assert DropKeepsOut([open], b, [], name, ip);
      }
    }
  }

  // ---------- which layers deny nothing, by what they list ----------

  /** q outranks a prefix of length n. */
  predicate Outranks(q: IPRule, n: nat) {
    q.ExactRule? || q.prefix.len > n
  }

  /** q contains every address that starts with bits. */
  predicate ContainsAll(q: IPRule, v6: bool, bits: seq<bool>) {
    match q
    case ExactRule(_, a, _) => a.v6 == v6 && a.bits == bits
    case PrefixRule(_, p, _) => p.base.v6 == v6 && p.len <= |bits| && p.base.bits[..p.len] == bits[..p.len]
  }

  /** Every address starting with bits that a connection can have is allowed
      by a rule outranking a prefix of length n. */
  predicate Covered(rules: seq<IPRule>, n: nat, v6: bool, bits: seq<bool>)
    requires |bits| <= Width(v6)
    decreases Width(v6) - |bits|
  {
    || (exists q :: q in rules && !q.deny && Outranks(q, n) && ContainsAll(q, v6, bits))
    || if |bits| == Width(v6) then FourInSix(AddrBits(v6, bits))
       else Covered(rules, n, v6, bits + [false]) && Covered(rules, n, v6, bits + [true])
  }

  predicate Within(x: Addr, v6: bool, bits: seq<bool>) {
    x.v6 == v6 && |bits| <= Width(v6) && x.bits[..|bits|] == bits
  }

  predicate Overridden(rules: seq<IPRule>, n: nat, x: Addr) {
    exists q :: q in rules && !q.deny && Outranks(q, n) && q.Contains(x)
  }

  /** Covered means what it says. */
  lemma {:induction false} CoveredIff(rules: seq<IPRule>, n: nat, v6: bool, bits: seq<bool>)
    requires |bits| <= Width(v6)
    ensures Covered(rules, n, v6, bits) <==>
      forall x: Addr :: Within(x, v6, bits) && !FourInSix(x) ==> Overridden(rules, n, x)
    decreases Width(v6) - |bits|
  {
    hide FourInSix;
    if q :| q in rules && !q.deny && Outranks(q, n) && ContainsAll(q, v6, bits) {
      forall x: Addr | Within(x, v6, bits) ensures q.Contains(x) {
        ContainsEach(q, v6, bits, x);
      }
    } else if |bits| == Width(v6) {
      var x: Addr := AddrBits(v6, bits);
      assert Within(x, v6, bits);
      forall q | q in rules && q.Contains(x) ensures ContainsAll(q, v6, bits) {
      }
      forall y: Addr | Within(y, v6, bits) ensures y == x {
        assert y.bits[..|bits|] == y.bits;
      }
    } else {
      CoveredIff(rules, n, v6, bits + [false]);
      CoveredIff(rules, n, v6, bits + [true]);
      forall x: Addr
        ensures Within(x, v6, bits) <==> Within(x, v6, bits + [false]) || Within(x, v6, bits + [true])
      {
        WithinHalf(x, v6, bits);
      }
    }
  }

  lemma WithinHalf(x: Addr, v6: bool, bits: seq<bool>)
    requires |bits| < Width(v6)
    ensures Within(x, v6, bits) <==> Within(x, v6, bits + [false]) || Within(x, v6, bits + [true])
  {
    if x.v6 == v6 {
      var n := |bits|;
      if x.bits[n] {
        assert x.bits[..n + 1] == x.bits[..n] + [true];
      } else {
        assert x.bits[..n + 1] == x.bits[..n] + [false];
      }
      assert (bits + [false])[..n] == bits && (bits + [true])[..n] == bits;
      assert x.bits[..n + 1][..n] == x.bits[..n];
    }
  }

  lemma ContainsEach(q: IPRule, v6: bool, bits: seq<bool>, x: Addr)
    requires ContainsAll(q, v6, bits) && Within(x, v6, bits)
    ensures q.Contains(x)
  {
    match q
    case ExactRule(_, a, _) => assert x.bits[..|bits|] == x.bits;
    case PrefixRule(_, p, _) => assert x.bits[..p.len] == x.bits[..|bits|][..p.len];
  }

  /** A deny that never takes effect: a prefix that allows of the same block
      outrank at every address. */
  predicate Ineffective(rules: seq<IPRule>, r: IPRule) {
    r.PrefixRule? && Covered(rules, r.prefix.len, r.prefix.base.v6, r.prefix.base.bits[..r.prefix.len])
  }

  lemma IneffectiveIff(rules: seq<IPRule>, r: IPRule)
    requires r.PrefixRule?
    ensures Ineffective(rules, r) <==>
      forall x: Addr :: r.Contains(x) && !FourInSix(x) ==> Overridden(rules, r.prefix.len, x)
  {
    hide Covered, FourInSix, Overridden;
    var p := r.prefix;
    CoveredIff(rules, p.len, p.base.v6, p.base.bits[..p.len]);
    forall x: Addr ensures r.Contains(x) <==> Within(x, p.base.v6, p.base.bits[..p.len]) {
    }
  }

  /** Destinations are unmapped first, so a prefix inside the 4-in-6 range
      never takes effect. */
  lemma MappedPrefixIneffective(rules: seq<IPRule>, r: IPRule)
    requires r.PrefixRule? && FourInSix(r.prefix.base) && r.prefix.len >= 96
    ensures Ineffective(rules, r)
  {
    hide Ineffective;
    IneffectiveIff(rules, r);
    forall x: Addr | r.Contains(x) ensures FourInSix(x) {
      assert forall i :: 0 <= i < 96 ==> x.bits[i] == x.bits[..r.prefix.len][i];
      assert forall i :: 0 <= i < 96 ==> r.prefix.base.bits[i] == r.prefix.base.bits[..r.prefix.len][i];
    }
  }

  /** Where a containing deny r is not overridden, the verdict is deny. */
  lemma NotOverriddenDenies(rules: seq<IPRule>, r: IPRule, x: Addr)
    requires r in rules && r.deny && r.Contains(x)
    requires r.PrefixRule? ==> !Overridden(rules, r.prefix.len, x)
    ensures IPVerdict(rules, x) == Deny
  {
    if r.ExactRule? {
      assert Top(rules, x, r);
    } else {
      TopExists(rules, x, r);
      var t :| Top(rules, x, t);
      assert t.deny || Top(rules, x, r);
    }
  }

  lemma NoIPDenyIff(rules: seq<IPRule>)
    requires forall r :: r in rules && r.ExactRule? ==> !FourInSix(r.addr)
    ensures (forall ip: Addr :: IPVerdict(rules, Unmap(ip)) != Deny) <==>
      forall r :: r in rules && r.deny ==> Ineffective(rules, r)
  {
    hide FourInSix, Ineffective, PrefixContains;
    if forall ip: Addr :: IPVerdict(rules, Unmap(ip)) != Deny {
      forall r | r in rules && r.deny ensures Ineffective(rules, r) {
        assert r.ExactRule? ==> IPVerdict(rules, Unmap(r.addr)) != Deny;
        if r.ExactRule? {
          NotOverriddenDenies(rules, r, r.addr);
        } else {
          IneffectiveIff(rules, r);
          forall x: Addr | r.Contains(x) && !FourInSix(x) ensures Overridden(rules, r.prefix.len, x) {
            assert IPVerdict(rules, Unmap(x)) != Deny;
            if !Overridden(rules, r.prefix.len, x) {
              NotOverriddenDenies(rules, r, x);
            }
          }
        }
      }
    }
    if forall r :: r in rules && r.deny ==> Ineffective(rules, r) {
      forall ip: Addr ensures IPVerdict(rules, Unmap(ip)) != Deny {
        OverriddenIsNotDenied(rules, Unmap(ip));
      }
    }
  }

  lemma OverriddenIsNotDenied(rules: seq<IPRule>, x: Addr)
    requires !FourInSix(x) && forall r :: r in rules && r.deny ==> Ineffective(rules, r)
    ensures IPVerdict(rules, x) != Deny
  {
    hide FourInSix, Covered, PrefixContains;
    forall r | Top(rules, x, r) ensures !r.deny {
      assert r.deny ==> Ineffective(rules, r);
      if r.deny {
        TopNotOverridden(rules, r, x);
        IneffectiveIff(rules, r);
      }
    }
  }

  lemma TopNotOverridden(rules: seq<IPRule>, r: IPRule, x: Addr)
    requires Top(rules, x, r) && r.PrefixRule?
    ensures r.Contains(x) && !Overridden(rules, r.prefix.len, x)
  {
  }

  /** The letter a, n times. */
  function Letters(n: nat): (x: string)
    ensures |x| == n && forall i :: 0 <= i < n ==> x[i] == 'a'
  {
    if n == 0 then "" else Letters(n - 1) + "a"
  }

  function Longest(rules: seq<NameRule>): (n: nat)
    ensures forall r :: r in rules ==> |r.pattern| <= n
  {
    if rules == [] then 0
    else
      var n, last := Longest(rules[..|rules| - 1]), rules[|rules| - 1];
      assert rules == rules[..|rules| - 1] + [last];
      if |last.pattern| > n then |last.pattern| else n
  }

  /** Every deny rule has a name it denies: below a wildcard, one whose first
      label is too long for any exact rule. */
  lemma DenyRuleDenies(rules: seq<NameRule>, deny: NameRule) returns (name: string)
    requires deny in rules && deny.deny && deny.pattern != ""
    ensures NameVerdict(rules, name) == Deny
    ensures if deny.wildcard then exists n :: n > 0 && name == Letters(n) + "." + deny.pattern
            else name == deny.pattern
  {
    if !deny.wildcard {
      name := deny.pattern;
      assert SpeaksAt(deny, name, 0);
    } else {
      var x := Letters(Longest(rules) + 1);
      name := x + "." + deny.pattern;
      var i := |x| + 1;
      assert name[i..] == deny.pattern && name[i - 1] == '.';
      assert SpeaksAt(deny, name, i);
      forall k | 0 <= k < i ensures !Speaks(rules, false, name, k) {
        assert k > 0 ==> name[k - 1] == x[k - 1];
        assert name[0..] == name;
      }
      WalkToDeny(rules, name, 0, i);
    }
  }

  /** Every lower-case name that starts with a letter is the normal form of
      some text. */
  lemma NormalFormOf(name: string)
    requires name != "" && name[0] == 'a' && forall i :: 0 <= i < |name| ==> LowerChar(name[i]) == name[i]
    ensures NormalizeDomain(name + ".") == name
  {
    var raw := name + ".";
    assert raw[0] == 'a' && raw[|raw| - 1] == '.';
    TrimSpaceFixes(raw);
    assert raw[|raw| - 1..] == "." && raw[..|raw| - 1] == name;
    LowerAt(name);
  }

  /** A deny entry that names something denies some destination. */
  lemma DenyEntryDenies(b: Block, e: string) returns (name: string, ip: Addr)
    requires e in b.denyDomains && !Vacuous(NormalizeDomain(e))
    ensures Opinion(b, name, ip) == Deny
  {
    hide NormalizeDomain, NameVerdict, CompileNames, IPVerdict;
    var deny := CompileName(e, true)[0];
    CompiledNames(b.denyDomains, true, deny);
    var n := DenyRuleDenies(BlockNames(b), deny);
    name := if deny.wildcard then n + "." else e;
    ip := AddrBits(false, seq(32, i => false));
    if deny.wildcard {
      var k :| k > 0 && n == Letters(k) + "." + deny.pattern;
      BelowIsNormal(e, k);
    }
  }

  /** Names below a wildcard pattern are normal forms too. */
  lemma BelowIsNormal(e: string, k: nat)
    requires k > 0 && HasPrefix(NormalizeDomain(e), "*.")
    ensures var n := Letters(k) + "." + NormalizeDomain(e)[2..];
            NormalizeDomain(n + ".") == n && n != ""
  {
    var t := TrimSuffix(TrimSpace(e), ".");
    LowerAt(t);
    var n := Letters(k) + "." + NormalizeDomain(e)[2..];
    forall i | 0 <= i < |n| ensures LowerChar(n[i]) == n[i] {
      if i > k {
        assert n[i] == LowerChar(t[i - k + 1]);
      }
    }
    NormalFormOf(n);
  }

  /** What a layer lists that could deny a destination. */
  predicate ListsNoDeny(b: Block) {
    && (forall e :: e in b.denyDomains ==> Vacuous(NormalizeDomain(e)))
    && (forall r :: r in BlockIPs(b) && r.deny ==> Ineffective(BlockIPs(b), r))
  }

  /** Which layers are safe to leave out, by what they list: those whose deny
      entries name nothing, except address prefixes that allows of the same
      layer outrank at every address. */
  lemma SafeToDropSyntactically(b: Block)
    ensures SafeToDrop(b) <==> ListsNoDeny(b)
  {
    hide SafeToDrop, Ineffective, IPVerdict, NameVerdict, CompileIPs, CompileNames;
    SafeToDropIff(b);
    ExactRulesAreUnmapped(b);
    NoIPDenyIff(BlockIPs(b));
    if NeverDenies(b) {
      forall e | e in b.denyDomains ensures Vacuous(NormalizeDomain(e)) {
        if !Vacuous(NormalizeDomain(e)) {
          var name, ip := DenyEntryDenies(b, e);
        }
      }
      forall ip: Addr ensures IPVerdict(BlockIPs(b), Unmap(ip)) != Deny {
        assert Opinion(b, "", ip) != Deny;
        assert NormalizeDomain("") == "";
      }
    }
    if ListsNoDeny(b) {
      forall name, ip ensures Opinion(b, name, ip) != Deny {
        NoNameDeny(b, NormalizeDomain(name));
      }
    }
  }

  lemma ExactRulesAreUnmapped(b: Block)
    ensures forall r :: r in BlockIPs(b) && r.ExactRule? ==> !FourInSix(r.addr)
  {
    hide FourInSix;
    forall r | r in BlockIPs(b) && r.ExactRule? ensures !FourInSix(r.addr) {
      CompiledIPs(b.allowIPs, false, r);
      CompiledIPs(b.denyIPs, true, r);
    }
  }

  lemma NoNameDeny(b: Block, name: string)
    requires forall e :: e in b.denyDomains ==> Vacuous(NormalizeDomain(e))
    ensures NameVerdict(BlockNames(b), name) != Deny
  {
    forall r | r in BlockNames(b) ensures !r.deny {
      CompiledNames(b.allowDomains, false, r);
      CompiledNames(b.denyDomains, true, r);
    }
    NoDenyRuleNoDeny(BlockNames(b), name, 0);
  }

  lemma {:induction false} NoDenyRuleNoDeny(rules: seq<NameRule>, name: string, i: nat)
    requires i <= |name| && forall r :: r in rules ==> !r.deny
    ensures Walk(rules, name, i) != Deny
    decreases |name| - i
  {
    if i < |name| {
      NoDenyRuleNoDeny(rules, name, i + 1);
    }
  }

  // ---------- what a subtree deny covers ----------

  predicate AtOrBelow(name: string, apex: string) {
    name == apex || HasSuffix(name, "." + apex)
  }

  lemma {:induction false} WalkToDeny(rules: seq<NameRule>, name: string, j: nat, i: nat)
    requires j <= i <= |name| && Speaks(rules, true, name, i)
    requires forall k :: j <= k < i ==> !Speaks(rules, false, name, k)
    ensures Walk(rules, name, j) == Deny
    decreases i - j
  {
    if j < i {
      WalkToDeny(rules, name, j + 1, i);
    }
  }

  /** A block holding a bare deny of apex denies every name at or below it,
      unless an allow of the same block matches strictly deeper. */
  lemma SubtreeDeny(cb: CompiledBlock, deny: NameRule, name: string)
    requires cb.WellFormed() && deny in cb.names && deny.deny && deny.subtree
    requires AtOrBelow(name, deny.pattern)
    requires forall r :: r in cb.names && !r.deny && r.MatchName(name).0 ==> r.labels <= deny.labels
    ensures NameVerdict(cb.names, name) == Deny
  {
    MatchIsSpeaking(deny, name);
    var i := |name| - |deny.pattern|;
    forall k | 0 <= k < i ensures !Speaks(cb.names, false, name, k) {
      if Speaks(cb.names, false, name, k) {
        var q :| q in cb.names && !q.deny && SpeaksAt(q, name, k);
        MatchIsSpeaking(q, name);
        LongerSuffixHasMoreDots(name, k, i);
        assert false;
      }
    }
    WalkToDeny(cb.names, name, 0, i);
  }

  // ---------- pre-resolvable patterns ----------

  function Apex(p: string): string {
    if HasPrefix(p, "*.") then p[2..] else p
  }

  ghost predicate ApexDeniedAbove(c: Chain, i: nat, apex: string)
    requires i < |c.compiled|
  {
    ChainName(c.compiled[i + 1..], apex) == Deny
  }

  /** Block i stands behind pattern p: it lists p, and the first opinion above
      it on p's apex is not a deny. */
  ghost predicate Offers(c: Chain, i: nat, p: string)
    requires i < |c.blocks| && |c.compiled| == |c.blocks|
  {
    && (exists e :: e in c.blocks[i].allowDomains && NormalizeDomain(e) == p)
    && !Vacuous(p)
    && !ApexDeniedAbove(c, i, Apex(p))
  }

  method IsApexDeniedAbove(c: Chain, i: nat, apex: string) returns (denied: bool)
    requires AllWellFormed(c.compiled) && i < |c.compiled|
    ensures denied == ApexDeniedAbove(c, i, apex)
  {
    var v, m := FirstNameOpinion(c.compiled[i + 1..], apex);
    return v == Deny;
  }

  ghost predicate OfferedBelow(c: Chain, n: nat, p: string)
    requires n <= |c.blocks| && |c.compiled| == |c.blocks|
  {
    exists i :: 0 <= i < n && Offers(c, i, p)
  }

  ghost predicate OfferedUpTo(c: Chain, i: nat, k: nat, p: string)
    requires i < |c.blocks| && |c.compiled| == |c.blocks| && k <= |c.blocks[i].allowDomains|
  {
    && (exists e :: e in c.blocks[i].allowDomains[..k] && NormalizeDomain(e) == p)
    && !Vacuous(p) && !ApexDeniedAbove(c, i, Apex(p))
  }

  predicate NoDuplicates<T(==)>(s: seq<T>) {
    forall i, j :: 0 <= i < j < |s| ==> s[i] != s[j]
  }

  lemma OfferedStep(c: Chain, i: nat, k: nat, q: string)
    requires i < |c.blocks| && |c.compiled| == |c.blocks| && k < |c.blocks[i].allowDomains|
    ensures var p := NormalizeDomain(c.blocks[i].allowDomains[k]);
            OfferedUpTo(c, i, k + 1, q) <==>
            OfferedUpTo(c, i, k, q) || (q == p && !Vacuous(p) && !ApexDeniedAbove(c, i, Apex(p)))
  {
  }

  /** One block's turn: append what it offers and nobody offered before. */
  method OfferBlock(c: Chain, i: nat, before: seq<string>) returns (out: seq<string>)
    requires AllWellFormed(c.compiled) && i < |c.blocks| && |c.compiled| == |c.blocks|
    requires NoDuplicates(before)
    ensures NoDuplicates(out) && before <= out
    ensures forall p :: p in out <==> p in before || Offers(c, i, p)
  {
    out := before;
    var entries := c.blocks[i].allowDomains;
    for k := 0 to |entries|
      invariant NoDuplicates(out) && before <= out
      invariant forall p :: p in out <==> p in before || OfferedUpTo(c, i, k, p)
    {
      var p := NormalizeDomain(entries[k]);
      forall q ensures OfferedUpTo(c, i, k + 1, q) <==>
          OfferedUpTo(c, i, k, q) || (q == p && !Vacuous(p) && !ApexDeniedAbove(c, i, Apex(p))) {
        OfferedStep(c, i, k, q);
      }
      if Vacuous(p) || p in out {
        continue;
      }
      var denied := IsApexDeniedAbove(c, i, Apex(p));
      if !denied {
        out := out + [p];
      }
    }
    assert entries[..|entries|] == entries;
    assert forall p :: OfferedUpTo(c, i, |entries|, p) <==> Offers(c, i, p);
  }

  ghost predicate Lists(c: Chain, n: nat, s: seq<string>)
    requires n <= |c.blocks| && |c.compiled| == |c.blocks|
  {
    forall p :: p in s <==> OfferedBelow(c, n, p)
  }

  lemma ListsNext(c: Chain, i: nat, before: seq<string>, after: seq<string>)
    requires i < |c.blocks| && |c.compiled| == |c.blocks| && Lists(c, i, before)
    requires forall p :: p in after <==> p in before || Offers(c, i, p)
    ensures Lists(c, i + 1, after)
  {
  }

  /** Exactly the offered patterns, each once. The list grows block by block:
      what the lowest n blocks offer is its prefix of length cut[n]. */
  method AllowDomainPatterns(c: Chain) returns (out: seq<string>, ghost cut: seq<nat>)
    requires c.Valid()
    ensures |c.compiled| == |c.blocks|
    ensures NoDuplicates(out) && Lists(c, |c.blocks|, out)
    ensures |cut| == |c.blocks| + 1
    ensures forall n :: 0 <= n < |cut| ==> cut[n] <= |out| && Lists(c, n, out[..cut[n]])
  {
    ValidWellFormed(c);
    out := [];
    cut := [0];
    for i := 0 to |c.blocks|
      invariant NoDuplicates(out) && Lists(c, i, out)
      invariant |cut| == i + 1
      invariant forall n :: 0 <= n <= i ==> cut[n] <= |out| && Lists(c, n, out[..cut[n]])
    {
      var before := out;
      out := OfferBlock(c, i, before);
      ListsNext(c, i, before, out);
      forall n | 0 <= n <= i ensures cut[n] <= |out| && Lists(c, n, out[..cut[n]]) {
        assert out[..cut[n]] == before[..cut[n]];
      }
      assert out[..|out|] == out;
      cut := cut + [|out|];
    }
  }

  lemma ListedSpeaks(b: Block, e: string)
    requires e in b.allowDomains && !Vacuous(NormalizeDomain(e)) && !HasPrefix(NormalizeDomain(e), "*.")
    ensures Speaks(CompileBlock(b).names, false, NormalizeDomain(e), 0)
  {
    var p := NormalizeDomain(e);
    var allow := NameRule(p, p, Dots(p) + 1, false, false, false);
    assert CompileName(e, false) == [allow];
    CompiledNames(b.allowDomains, false, allow);
    assert SpeaksAt(allow, p, 0);
  }

  lemma FirstOpinionFrom(cbs: seq<CompiledBlock>, i: nat, p: string)
    requires i < |cbs| && Speaks(cbs[i].names, false, p, 0) && ChainName(cbs[i + 1..], p) != Deny
    ensures if Speaks(cbs[i].names, true, p, 0) && ChainName(cbs[i + 1..], p) == NoOpinion
            then ChainName(cbs, p) == Deny else ChainName(cbs, p) == Allow
  {
    var lo, hi := cbs[..i + 1], cbs[i + 1..];
    assert cbs == lo + hi;
    NameSplit(lo, hi, p);
  }

  /** An exact pattern that block i offers is allowed by name, unless block i
      itself also denies that very name and no block above allows it. */
  lemma OfferedExactIsAllowed(c: Chain, i: nat, p: string)
    requires c.Valid() && i < |c.blocks| && Offers(c, i, p)
    requires !HasPrefix(p, "*.") && NormalizeDomain(p) == p
    ensures NamedVerdict(c, p) ==
            if Speaks(c.compiled[i].names, true, p, 0) && ChainName(c.compiled[i + 1..], p) == NoOpinion
            then Deny else Allow
  {
    var e :| e in c.blocks[i].allowDomains && NormalizeDomain(e) == p;
    ListedSpeaks(c.blocks[i], e);
    FirstOpinionFrom(c.compiled, i, p);
  }
}
