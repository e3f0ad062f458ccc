/** One block of network policy: compiled name and address rules, and how a
    single block forms its opinion on a name or an address. */
module Blocks {
  import opened Text

  datatype Verdict = NoOpinion | Allow | Deny

  /** One layer of policy as the user wrote it. Address entries carry the
      outcome of the address parser beside their text. */
  datatype Block = Block(
    origin: string, name: string,
    allowDomains: seq<string>, denyDomains: seq<string>,
    allowIPs: seq<IPEntry>, denyIPs: seq<IPEntry>)

  datatype IPEntry =
    | BlankEntry
    | AddrEntry(text: string, addr: Addr)
    | PrefixEntry(text: string, prefix: Prefix)
    | BadEntry(text: string)

  datatype AddrBits = AddrBits(v6: bool, bits: seq<bool>)

  function Width(v6: bool): nat {
    if v6 then 128 else 32
  }

  /** Network-order bits: 32 of them in an IPv4 address, 128 in an IPv6 one. */
  type Addr = a: AddrBits | |a.bits| == Width(a.v6) witness AddrBits(false, seq(32, i => false))

  datatype PrefixBits = PrefixBits(base: Addr, len: nat)

  type Prefix = p: PrefixBits | p.len <= |p.base.bits|
    witness PrefixBits(AddrBits(false, seq(32, i => false)), 0)

  datatype Match = NoMatch | Match(origin: string, block: string, entry: string, verdict: Verdict)

  /** labels is the specificity depth; wildcard and subtree exclude each other. */
  datatype NameRule = NameRule(
    entry: string, pattern: string, labels: nat, wildcard: bool, subtree: bool, deny: bool)
  {
    predicate WellFormed() {
      labels == Dots(pattern) + 1 && !(wildcard && subtree)
    }

    /** (matches, matches the whole name). */
    function MatchName(name: string): (bool, bool) {
      if wildcard then (HasSuffix(name, "." + pattern), false)
      else if subtree then
        if name == pattern then (true, true) else (HasSuffix(name, "." + pattern), false)
      else (name == pattern, name == pattern)
    }
  }

  datatype IPRule =
    | ExactRule(entry: string, addr: Addr, deny: bool)
    | PrefixRule(entry: string, prefix: Prefix, deny: bool)
  {
    predicate Contains(ip: Addr) {
      match this
      case ExactRule(_, a, _) => a == ip
      case PrefixRule(_, p, _) => PrefixContains(p, ip)
    }
  }

  datatype CompiledBlock = CompiledBlock(
    origin: string, name: string, names: seq<NameRule>, ips: seq<IPRule>)
  {
    predicate WellFormed() {
      forall r :: r in names ==> r.WellFormed()
    }
  }

  // ---------- addresses ----------

  /** Families never mix; otherwise the leading bits must agree. */
  predicate PrefixContains(p: Prefix, ip: Addr) {
    p.base.v6 == ip.v6 && ip.bits[..p.len] == p.base.bits[..p.len]
  }

  /** The 4-in-6 range ::ffff:0:0/96 names the same hosts as IPv4: 80 zero
      bits, 16 one bits, then the IPv4 address. */
  predicate FourInSix(a: Addr) {
    a.v6 && forall i :: 0 <= i < 96 ==> a.bits[i] == (80 <= i)
  }

  function Unmap(a: Addr): (r: Addr)
    ensures !FourInSix(r)
  {
    if FourInSix(a) then AddrBits(false, a.bits[96..]) else a
  }

  /** The 4-in-6 address of an IPv4 one. */
  function Mapped(a: Addr): (r: Addr)
    requires !a.v6
  {
    AddrBits(true, seq(96, i => 80 <= i) + a.bits)
  }

  /** Unmapping undoes mapping, changes nothing else, and loses nothing. */
  lemma UnmapInvertsMapped(a: Addr)
    ensures !a.v6 ==> FourInSix(Mapped(a)) && Unmap(Mapped(a)) == a
    ensures FourInSix(a) ==> !Unmap(a).v6 && Mapped(Unmap(a)) == a
    ensures !FourInSix(a) ==> Unmap(a) == a
  {
    if !a.v6 {
      assert Mapped(a).bits[96..] == a.bits;
    }
    if FourInSix(a) {
      assert Mapped(Unmap(a)).bits == a.bits[..96] + a.bits[96..] == a.bits;
    }
  }

  /** Bit by bit; a prefix of full length is one address. */
  lemma PrefixIsLeadingBits(p: Prefix, ip: Addr)
    ensures PrefixContains(p, ip) <==> p.base.v6 == ip.v6 && forall i :: 0 <= i < p.len ==> ip.bits[i] == p.base.bits[i]
    ensures p.len == Width(p.base.v6) ==> (PrefixContains(p, ip) <==> ip == p.base)
  {
    if p.base.v6 == ip.v6 {
      var a, b := ip.bits[..p.len], p.base.bits[..p.len];
      assert a == b <==> forall i :: 0 <= i < p.len ==> a[i] == b[i];
    }
  }

  // ---------- specificity ----------

  predicate MoreSpecificName(r: NameRule, exact: bool, best: NameRule, bestExact: bool) {
    if r.labels != best.labels then r.labels > best.labels
    else if exact != bestExact then exact
    else r.deny && !best.deny
  }

  predicate MoreSpecificIP(r: IPRule, best: IPRule) {
    if r.ExactRule? != best.ExactRule? then r.ExactRule?
    else if r.PrefixRule? && r.prefix.len != best.prefix.len then r.prefix.len > best.prefix.len
    else r.deny && !best.deny
  }

  function VerdictFor(deny: bool): Verdict {
    if deny then Deny else Allow
  }

  // ---------- reference semantics of a block ----------

  /** Position i starts a dot-suffix of name. */
  predicate Boundary(name: string, i: nat)
    requires i <= |name|
  {
    i == 0 || name[i - 1] == '.'
  }

  /** Rule r has the dot-suffix of name starting at i as its pattern, and its
      shape covers that suffix: the whole name for exact and subtree rules, a
      proper suffix for wildcard and subtree rules. */
  predicate SpeaksAt(r: NameRule, name: string, i: nat)
    requires i <= |name|
  {
    Boundary(name, i) && r.pattern == name[i..] && (if i == 0 then !r.wildcard else r.wildcard || r.subtree)
  }

  predicate Speaks(rules: seq<NameRule>, deny: bool, name: string, i: nat)
    requires i <= |name|
  {
    exists r :: r in rules && r.deny == deny && SpeaksAt(r, name, i)
  }

  /** Walk the dot-suffixes of name from longest to shortest; the first one
      some rule speaks at decides, deny winning there. */
  function Walk(rules: seq<NameRule>, name: string, i: nat): Verdict
    requires i <= |name|
    decreases |name| - i
  {
    if Speaks(rules, true, name, i) then Deny
    else if Speaks(rules, false, name, i) then Allow
    else if i == |name| then NoOpinion
    else Walk(rules, name, i + 1)
  }

  function NameVerdict(rules: seq<NameRule>, name: string): Verdict {
    Walk(rules, name, 0)
  }

  /** Exact addresses outrank every prefix; longer prefixes outrank shorter. */
  predicate AtMost(q: IPRule, r: IPRule) {
    r.ExactRule? || (q.PrefixRule? && q.prefix.len <= r.prefix.len)
  }

  ghost predicate Top(rules: seq<IPRule>, ip: Addr, r: IPRule) {
    r in rules && r.Contains(ip) && forall q :: q in rules && q.Contains(ip) ==> AtMost(q, r)
  }

  ghost function IPVerdict(rules: seq<IPRule>, ip: Addr): Verdict {
    if exists r :: Top(rules, ip, r) && r.deny then Deny
    else if exists r :: Top(rules, ip, r) then Allow
    else NoOpinion
  }

  // ---------- the name loop refines the walk ----------

  lemma MatchIsSpeaking(r: NameRule, name: string)
    ensures r.MatchName(name).0 <==> |r.pattern| <= |name| && SpeaksAt(r, name, |name| - |r.pattern|)
    ensures r.MatchName(name).1 <==> r.MatchName(name).0 && r.pattern == name
  {
    var dotted := "." + r.pattern;
    if HasSuffix(name, dotted) {
      var i := |name| - |r.pattern|;
      assert name[i - 1..] == dotted;
      assert name[i..] == dotted[1..] == r.pattern;
      assert name[i - 1] == dotted[0];
    }
    if |r.pattern| < |name| && SpeaksAt(r, name, |name| - |r.pattern|) {
      var i := |name| - |r.pattern|;
      assert name[i - 1..] == [name[i - 1]] + name[i..];
      assert HasSuffix(name, dotted);
    }
    if |r.pattern| == |name| {
      assert name[0..] == name;
    }
  }

  lemma LongerSuffixHasMoreDots(name: string, j: nat, i: nat)
    requires j < i <= |name| && Boundary(name, i)
    ensures Dots(name[j..]) > Dots(name[i..])
  {
    assert name[j..] == name[j..i - 1] + ([name[i - 1]] + name[i..]);
    DotsConcat(name[j..i - 1], [name[i - 1]] + name[i..]);
    DotsConcat([name[i - 1]], name[i..]);
  }

  /** Two rules of one depth that match one name have the same pattern, so the
      exactness tie-break can never separate them. */
  lemma EqualDepthSamePattern(r: NameRule, q: NameRule, name: string)
    requires r.WellFormed() && q.WellFormed() && r.labels == q.labels
    requires r.MatchName(name).0 && q.MatchName(name).0
    ensures r.pattern == q.pattern && r.MatchName(name).1 == q.MatchName(name).1
  {
    MatchIsSpeaking(r, name);
    MatchIsSpeaking(q, name);
    var i, j := |name| - |r.pattern|, |name| - |q.pattern|;
    if j < i {
      LongerSuffixHasMoreDots(name, j, i);
    } else if i < j {
      LongerSuffixHasMoreDots(name, i, j);
    }
  }

  /** r matches name, nothing matching is deeper, and a deny as deep is
      itself a deny. */
  ghost predicate Best(rules: seq<NameRule>, name: string, r: NameRule) {
    && r in rules && r.MatchName(name).0
    && forall q :: q in rules && q.MatchName(name).0 ==>
         q.labels <= r.labels && (q.labels == r.labels && q.deny ==> r.deny)
  }

  lemma {:induction false} WalkReaches(rules: seq<NameRule>, name: string, j: nat, i: nat)
    requires j <= i <= |name|
    requires forall k, d :: j <= k < i ==> !Speaks(rules, d, name, k)
    ensures Walk(rules, name, j) == Walk(rules, name, i)
    decreases i - j
  {
    if j < i {
      WalkReaches(rules, name, j + 1, i);
    }
  }

  lemma BestDecides(rules: seq<NameRule>, name: string, r: NameRule)
    requires forall q :: q in rules ==> q.WellFormed()
    requires Best(rules, name, r)
    ensures NameVerdict(rules, name) == VerdictFor(r.deny)
  {
    MatchIsSpeaking(r, name);
    var i := |name| - |r.pattern|;
    forall k, d | 0 <= k < i ensures !Speaks(rules, d, name, k) {
      if Speaks(rules, d, name, k) {
        var q :| q in rules && q.deny == d && SpeaksAt(q, name, k);
        MatchIsSpeaking(q, name);
        LongerSuffixHasMoreDots(name, k, i);
        assert false;
      }
    }
    WalkReaches(rules, name, 0, i);
    if Speaks(rules, true, name, i) {
      var q :| q in rules && q.deny && SpeaksAt(q, name, i);
      MatchIsSpeaking(q, name);
    } else {
      assert Speaks(rules, r.deny, name, i);
    }
  }

  lemma {:induction false} NoMatchNoOpinion(rules: seq<NameRule>, name: string, i: nat)
    requires i <= |name|
    requires forall q :: q in rules ==> !q.MatchName(name).0
    ensures Walk(rules, name, i) == NoOpinion
    decreases |name| - i
  {
    forall d ensures !Speaks(rules, d, name, i) {
      if Speaks(rules, d, name, i) {
        var q :| q in rules && q.deny == d && SpeaksAt(q, name, i);
        MatchIsSpeaking(q, name);
        assert false;
      }
    }
    if i < |name| {
      NoMatchNoOpinion(rules, name, i + 1);
    }
  }

  /** m names cb and a best rule for its verdict v on name. */
  ghost predicate NameAttributed(cb: CompiledBlock, name: string, v: Verdict, m: Match) {
    exists r :: Best(cb.names, name, r) && v == VerdictFor(r.deny) && m == Match(cb.origin, cb.name, r.entry, v)
  }

  /** The within-block scan: one pass keeping the best rule so far. */
  method DecideBlockName(cb: CompiledBlock, name: string) returns (v: Verdict, m: Match)
    requires cb.WellFormed()
    ensures v == NameVerdict(cb.names, name)
    ensures v == NoOpinion ==> m == NoMatch
    ensures v != NoOpinion ==> NameAttributed(cb, name, v, m)
  {
    var best: Option<NameRule> := None;
    var bestExact := false;
    for i := 0 to |cb.names|
      invariant best.None? ==> forall q :: q in cb.names[..i] ==> !q.MatchName(name).0
      invariant best.Some? ==> Best(cb.names[..i], name, best.value) && best.value in cb.names
      invariant best.Some? ==> bestExact == best.value.MatchName(name).1
    {
      var r := cb.names[i];
      assert cb.names[..i + 1] == cb.names[..i] + [r];
      var (ok, exact) := r.MatchName(name);
      if !ok {
        continue;
      }
      if best.Some? && r.labels == best.value.labels {
        EqualDepthSamePattern(r, best.value, name);
      }
      if best.None? || MoreSpecificName(r, exact, best.value, bestExact) {
        best, bestExact := Some(r), exact;
      }
    }
    assert cb.names[..|cb.names|] == cb.names;
    if best.None? {
      NoMatchNoOpinion(cb.names, name, 0);
      return NoOpinion, NoMatch;
    }
    BestDecides(cb.names, name, best.value);
    v := VerdictFor(best.value.deny);
    m := Match(cb.origin, cb.name, best.value.entry, v);
  }

  // ---------- the address loop ----------

  /** m names cb and a top rule of its verdict v on ip. */
  ghost predicate IPAttributed(cb: CompiledBlock, ip: Addr, v: Verdict, m: Match) {
    exists r :: Top(cb.ips, ip, r) && v == VerdictFor(r.deny) && m == Match(cb.origin, cb.name, r.entry, v)
  }

  method DecideBlockIP(cb: CompiledBlock, ip: Addr) returns (v: Verdict, m: Match)
    ensures v == IPVerdict(cb.ips, ip)
    ensures v == NoOpinion ==> m == NoMatch
    ensures v != NoOpinion ==> IPAttributed(cb, ip, v, m)
  {
    var best: Option<IPRule> := None;
    for i := 0 to |cb.ips|
      invariant best.None? ==> forall q :: q in cb.ips[..i] ==> !q.Contains(ip)
      invariant best.Some? ==> Top(cb.ips[..i], ip, best.value)
      invariant best.Some? ==>
        forall q :: q in cb.ips[..i] && q.Contains(ip) && AtMost(best.value, q) && q.deny ==> best.value.deny
    {
      var r := cb.ips[i];
      assert cb.ips[..i + 1] == cb.ips[..i] + [r];
      if !r.Contains(ip) {
        continue;
      }
      if best.None? || MoreSpecificIP(r, best.value) {
        best := Some(r);
      }
    }
    assert cb.ips[..|cb.ips|] == cb.ips;
    if best.None? {
      return NoOpinion, NoMatch;
    }
    v := VerdictFor(best.value.deny);
    m := Match(cb.origin, cb.name, best.value.entry, v);
    assert Top(cb.ips, ip, best.value);
  }

  // ---------- when a listed rule decides ----------

  /** No matching rule of the other kind is as specific as r; a deny may tie. */
  ghost predicate NameUnbeaten(rules: seq<NameRule>, r: NameRule, name: string) {
    forall q :: q in rules && q.MatchName(name).0 && q.deny != r.deny ==>
      if r.deny then q.labels <= r.labels else q.labels < r.labels
  }

  /** A matching rule that is not beaten decides. */
  lemma UnbeatenNameDecides(rules: seq<NameRule>, r: NameRule, name: string)
    requires forall q :: q in rules ==> q.WellFormed()
    requires r in rules && r.MatchName(name).0 && NameUnbeaten(rules, r, name)
    ensures NameVerdict(rules, name) == VerdictFor(r.deny)
  {
    var b := SomeBest(rules, name, r);
    BestDecides(rules, name, b);
  }

  lemma SomeBest(rules: seq<NameRule>, name: string, r: NameRule) returns (b: NameRule)
    requires r in rules && r.MatchName(name).0
    ensures Best(rules, name, b)
  {
    b := r;
    for i := 0 to |rules|
      invariant b in rules && b.MatchName(name).0
      invariant forall j :: 0 <= j < i && rules[j].MatchName(name).0 ==>
        rules[j].labels <= b.labels && (rules[j].labels == b.labels && rules[j].deny ==> b.deny)
    {
      var q := rules[i];
      if q.MatchName(name).0 && (q.labels > b.labels || (q.labels == b.labels && q.deny)) {
        b := q;
      }
    }
  }

  ghost predicate IPUnbeaten(rules: seq<IPRule>, r: IPRule, ip: Addr) {
    forall q :: q in rules && q.Contains(ip) && q.deny != r.deny ==> AtMost(q, r) && (r.deny || !AtMost(r, q))
  }

  lemma UnbeatenIPDecides(rules: seq<IPRule>, r: IPRule, ip: Addr)
    requires r in rules && r.Contains(ip) && IPUnbeaten(rules, r, ip)
    ensures IPVerdict(rules, ip) == VerdictFor(r.deny)
  {
    TopExists(rules, ip, r);
    var t :| Top(rules, ip, t);
    if r.deny && !t.deny {
      assert Top(rules, ip, r);
    }
  }

  // ---------- order independence and single-rule edits ----------

  predicate SameRules<T(==)>(a: seq<T>, b: seq<T>) {
    (forall r :: r in a ==> r in b) && (forall r :: r in b ==> r in a)
  }

  /** b holds the rules of a and r, in any order. */
  predicate Adds<T(==)>(a: seq<T>, r: T, b: seq<T>) {
    && r in b
    && (forall q :: q in a ==> q in b)
    && (forall q :: q in b ==> q in a || q == r)
  }

  /** A block's opinion depends on which rules it holds, never on their order
      or on repetitions. */
  lemma {:induction false} NameOrderIrrelevant(a: seq<NameRule>, b: seq<NameRule>, name: string, i: nat)
    requires i <= |name| && SameRules(a, b)
    ensures Walk(a, name, i) == Walk(b, name, i)
    decreases |name| - i
  {
    assert forall d :: Speaks(a, d, name, i) <==> Speaks(b, d, name, i);
    if i < |name| {
      NameOrderIrrelevant(a, b, name, i + 1);
    }
  }

  lemma IPOrderIrrelevant(a: seq<IPRule>, b: seq<IPRule>, ip: Addr)
    requires SameRules(a, b)
    ensures IPVerdict(a, ip) == IPVerdict(b, ip)
  {
    assert forall r :: Top(a, ip, r) <==> Top(b, ip, r);
  }

  /** Adding one rule leaves a block's opinion on a name alone or turns it
      into that rule's own verdict. */
  lemma {:induction false} AddNameRule(a: seq<NameRule>, r: NameRule, b: seq<NameRule>, name: string, i: nat)
    requires i <= |name| && Adds(a, r, b)
    ensures Walk(b, name, i) == Walk(a, name, i) || Walk(b, name, i) == VerdictFor(r.deny)
    decreases |name| - i
  {
    assert forall d :: Speaks(a, d, name, i) ==> Speaks(b, d, name, i);
    assert Speaks(b, !r.deny, name, i) ==> Speaks(a, !r.deny, name, i);
    if i < |name| {
      AddNameRule(a, r, b, name, i + 1);
    }
  }

  lemma AddIPRule(a: seq<IPRule>, r: IPRule, b: seq<IPRule>, ip: Addr)
    requires Adds(a, r, b)
    ensures IPVerdict(b, ip) == IPVerdict(a, ip) || IPVerdict(b, ip) == VerdictFor(r.deny)
  {
    if !r.Contains(ip) {
      assert forall q :: Top(a, ip, q) <==> Top(b, ip, q);
    } else if exists q :: Top(a, ip, q) && !AtMost(q, r) {
      var q :| Top(a, ip, q) && !AtMost(q, r);
      assert forall p :: Top(a, ip, p) <==> Top(b, ip, p);
    } else {
      TopExists(b, ip, r);
      var t :| Top(b, ip, t);
      assert t == r || Top(a, ip, t);
      assert Top(b, ip, r);
      assert forall p :: Top(b, ip, p) && p != r ==> Top(a, ip, p);
    }
  }

  lemma {:induction false} TopExists(rules: seq<IPRule>, ip: Addr, r: IPRule)
    requires r in rules && r.Contains(ip)
    ensures exists t :: Top(rules, ip, t)
  {
    var t := r;
    for i := 0 to |rules|
      invariant t in rules && t.Contains(ip)
      invariant forall q :: q in rules[..i] && q.Contains(ip) ==> AtMost(q, t)
    {
      if rules[i].Contains(ip) && !AtMost(rules[i], t) {
        t := rules[i];
      }
    }
    assert rules[..|rules|] == rules;
    assert Top(rules, ip, t);
  }
}
