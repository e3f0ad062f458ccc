/** A sandbox's stored policy and the chain resolved from it: folding legacy
    flat lists into the custom block, restoring the order of blocks, and
    layering policies, namespace and sandbox blocks. */
module Policies {
  import opened Text
  import opened Blocks
  import opened Chains
  import Acl

  // ---------- block order ----------

  const CUSTOM_RANK: nat := 4

  /** Unknown origins rank lowest. */
  function OriginRank(origin: string): nat {
    if origin == "namespace" then 1
    else if origin == "mcp" then 2
    else if origin == "mod" then 3
    else if origin == Acl.ORIGIN_CUSTOM then CUSTOM_RANK
    else 0
  }

  function RankOf(b: Block): nat {
    OriginRank(b.origin)
  }

  /** Namespace, then MCP servers, then clawk.mod, then custom; every other origin
      below them all. */
  lemma OriginOrder(o: string)
    ensures OriginRank("namespace") < OriginRank("mcp") < OriginRank("mod") < OriginRank(Acl.ORIGIN_CUSTOM)
    ensures o !in {"namespace", "mcp", "mod", Acl.ORIGIN_CUSTOM} <==> OriginRank(o) < OriginRank("namespace")
  {
  }

  /** In normal form a block stands above every block of a lower origin, so an
      opinion of its decides over theirs. */
  lemma HigherOriginAbove(s: seq<Block>, i: nat, j: nat)
    requires Ordered(s) && i < |s| && j < |s| && OriginRank(s[i].origin) < OriginRank(s[j].origin)
    ensures i < j
  {
    hide OriginRank;
  }

  predicate Ordered(s: seq<Block>) {
    forall i, j :: 0 <= i < j < |s| ==> RankOf(s[i]) <= RankOf(s[j])
  }

  /** The blocks of one rank, in the order they stand. */
  function Keep(s: seq<Block>, r: nat): seq<Block> {
    if s == [] then []
    else Keep(s[..|s| - 1], r) + if RankOf(s[|s| - 1]) == r then [s[|s| - 1]] else []
  }

  ghost predicate SameKept(a: seq<Block>, b: seq<Block>) {
    forall r :: Keep(a, r) == Keep(b, r)
  }

  /** out is s sorted by rank, blocks of one rank keeping their order. */
  ghost predicate SortsStably(s: seq<Block>, out: seq<Block>) {
    Ordered(out) && SameKept(out, s)
  }

  lemma {:induction false} KeepConcat(a: seq<Block>, b: seq<Block>, r: nat)
    ensures Keep(a + b, r) == Keep(a, r) + Keep(b, r)
    decreases |b|
  {
    if b == [] {
      assert a + b == a;
    } else {
      assert (a + b)[..|a + b| - 1] == a + b[..|b| - 1];
      KeepConcat(a, b[..|b| - 1], r);
    }
  }

  lemma KeepOne(b: Block, r: nat)
    ensures Keep([b], r) == if RankOf(b) == r then [b] else []
  {
  }

  lemma {:induction false} KeepNone(s: seq<Block>, r: nat)
    requires forall i :: 0 <= i < |s| ==> RankOf(s[i]) != r
    ensures Keep(s, r) == []
  {
    if s != [] {
      KeepNone(s[..|s| - 1], r);
    }
  }

  /** Inserting b after every block that does not outrank it. */
  lemma InsertKeeps(lo: seq<Block>, b: Block, hi: seq<Block>, r: nat)
    requires forall i :: 0 <= i < |hi| ==> RankOf(hi[i]) > RankOf(b)
    ensures Keep(lo + [b] + hi, r) == Keep(lo + hi, r) + Keep([b], r)
  {
    hide RankOf, Keep;
    KeepConcat(lo + [b], hi, r);
    KeepConcat(lo, [b], r);
    KeepConcat(lo, hi, r);
    KeepOne(b, r);
    if r == RankOf(b) {
      KeepNone(hi, r);
    }
    SwapEmpty(Keep(lo, r), Keep([b], r), Keep(hi, r));
  }

  lemma SwapEmpty<T>(a: seq<T>, b: seq<T>, c: seq<T>)
    requires b == [] || c == []
    ensures a + b + c == a + c + b
  {
  }

  method StableSort(s: seq<Block>) returns (out: seq<Block>)
    ensures SortsStably(s, out)
  {
    hide RankOf, Ordered, SameKept;
    out := [];
    SortNothing();
    for i := 0 to |s|
      invariant SortsStably(s[..i], out)
    {
      var b := s[i];
      var k := |out|;
      while k > 0 && RankOf(out[k - 1]) > RankOf(b)
        invariant 0 <= k <= |out|
        invariant forall j :: k <= j < |out| ==> RankOf(out[j]) > RankOf(b)
      {
        k := k - 1;
      }
      SortStep(s[..i], out, k, b);
      assert s[..i + 1] == s[..i] + [b];
      out := out[..k] + [b] + out[k..];
    }
    assert s[..|s|] == s;
  }

  lemma SortNothing()
    ensures SortsStably([], [])
  {
  }

  lemma SortStep(s: seq<Block>, out: seq<Block>, k: nat, b: Block)
    requires SortsStably(s, out) && k <= |out|
    requires forall j :: k <= j < |out| ==> RankOf(out[j]) > RankOf(b)
    requires k > 0 ==> RankOf(out[k - 1]) <= RankOf(b)
    ensures SortsStably(s + [b], out[..k] + [b] + out[k..])
  {
    hide RankOf, Ordered, Keep;
    var t, u := s + [b], out[..k] + [b] + out[k..];
    forall r ensures Keep(u, r) == Keep(t, r) {
      InsertKeeps(out[..k], b, out[k..], r);
      assert out[..k] + out[k..] == out;
      KeepConcat(s, [b], r);
    }
    OrderedInsert(out, k, b);
  }

  lemma OrderedInsert(s: seq<Block>, k: nat, b: Block)
    requires Ordered(s) && k <= |s|
    requires forall j :: k <= j < |s| ==> RankOf(s[j]) > RankOf(b)
    requires k > 0 ==> RankOf(s[k - 1]) <= RankOf(b)
    ensures Ordered(s[..k] + [b] + s[k..])
  {
    var out := s[..k] + [b] + s[k..];
    forall i, j | 0 <= i < j < |out| ensures RankOf(out[i]) <= RankOf(out[j]) {
      assert forall m :: 0 <= m < |out| ==> out[m] == if m < k then s[m] else if m == k then b else s[m - 1];
    }
  }

  /** The last block of an ordered list is the last of the highest rank. */
  lemma {:induction false} LastKept(s: seq<Block>, r: nat)
    requires Ordered(s) && s != []
    ensures Keep(s, r) != [] ==> r <= RankOf(s[|s| - 1])
    ensures Keep(s, RankOf(s[|s| - 1])) == Keep(s[..|s| - 1], RankOf(s[|s| - 1])) + [s[|s| - 1]]
  {
    if r > RankOf(s[|s| - 1]) {
      KeepNone(s, r);
    }
  }

  lemma SomethingKept(s: seq<Block>)
    ensures s != [] ==> Keep(s, RankOf(s[|s| - 1])) != []
  {
  }

  lemma EmptyKept(a: seq<Block>, b: seq<Block>)
    requires SameKept(a, b)
    ensures a == [] <==> b == []
  {
    hide RankOf;
    SomethingKept(a);
    SomethingKept(b);
  }

  /** There is only one stable sort of a list. */
  lemma {:induction false} StableSortUnique(a: seq<Block>, b: seq<Block>)
    requires Ordered(a) && Ordered(b) && SameKept(a, b)
    ensures a == b
    decreases |a|
  {
    hide RankOf, Keep;
    EmptyKept(a, b);
    if a != [] && b != [] {
      var p, q := RankOf(a[|a| - 1]), RankOf(b[|b| - 1]);
      LastKept(a, q);
      LastKept(b, p);
      assert Keep(a, p) == Keep(b, p) && Keep(a, q) == Keep(b, q);
      assert p == q;
      SameLast(Keep(a[..|a| - 1], p), a[|a| - 1], Keep(b[..|b| - 1], p), b[|b| - 1]);
      StripLast(a, b);
      OrderedInit(a);
      OrderedInit(b);
      StableSortUnique(a[..|a| - 1], b[..|b| - 1]);
      assert a == a[..|a| - 1] + [a[|a| - 1]] && b == b[..|b| - 1] + [b[|b| - 1]];
    }
  }

  lemma SameLast(s: seq<Block>, x: Block, t: seq<Block>, y: Block)
    requires s + [x] == t + [y]
    ensures x == y
  {
    assert |s| == |t|;
    assert (s + [x])[|s|] == x && (t + [y])[|t|] == y;
  }

  lemma OrderedInit(s: seq<Block>)
    requires s != [] && Ordered(s)
    ensures Ordered(s[..|s| - 1])
  {
  }

  lemma StripLast(a: seq<Block>, b: seq<Block>)
    requires a != [] && b != [] && a[|a| - 1] == b[|b| - 1] && SameKept(a, b)
    ensures SameKept(a[..|a| - 1], b[..|b| - 1])
  {
    hide RankOf, Keep;
    var a', b' := a[..|a| - 1], b[..|b| - 1];
    forall r ensures Keep(a', r) == Keep(b', r) {
      assert Keep(a, r) == Keep(b, r);
      LastOff(a, r);
      LastOff(b, r);
    }
  }

  lemma LastOff(s: seq<Block>, r: nat)
    requires s != []
    ensures RankOf(s[|s| - 1]) == r ==> Keep(s, r) != []
    ensures Keep(s[..|s| - 1], r) ==
            if RankOf(s[|s| - 1]) == r then Keep(s, r)[..|Keep(s, r)| - 1] else Keep(s, r)
  {
  }

  // ---------- normalisation ----------

  /** The stored form: legacy flat lists plus blocks. */
  datatype Stored = Stored(
    allowedDomains: seq<string>, allowedIPs: seq<IPEntry>, deniedDomains: seq<string>, blocks: seq<Block>)

  predicate Flat(p: Stored) {
    |p.allowedDomains| + |p.allowedIPs| + |p.deniedDomains| > 0
  }

  /** Index of the first custom block, or |blocks|. */
  function FirstCustom(blocks: seq<Block>): (i: nat)
    ensures i <= |blocks| && (i < |blocks| ==> blocks[i].origin == Acl.ORIGIN_CUSTOM)
    ensures forall j :: 0 <= j < i ==> blocks[j].origin != Acl.ORIGIN_CUSTOM
  {
    if blocks == [] then 0
    else if blocks[0].origin == Acl.ORIGIN_CUSTOM then 0
    else 1 + FirstCustom(blocks[1..])
  }

  const EMPTY_CUSTOM := Block(Acl.ORIGIN_CUSTOM, "", [], [], [], [])

  /** Where the custom block is, or where it would be appended. */
  function CustomAt(blocks: seq<Block>): (i: nat)
    ensures i < |WithCustom(blocks)| && WithCustom(blocks)[i].origin == Acl.ORIGIN_CUSTOM
  {
    FirstCustom(blocks)
  }

  function WithCustom(blocks: seq<Block>): seq<Block> {
    if FirstCustom(blocks) < |blocks| then blocks else blocks + [EMPTY_CUSTOM]
  }

  /** The custom block with the flat lists appended. */
  function Absorb(c: Block, p: Stored): Block {
    c.(allowDomains := c.allowDomains + p.allowedDomains,
       allowIPs := c.allowIPs + p.allowedIPs,
       denyDomains := c.denyDomains + p.deniedDomains)
  }

  /** The flat lists appended to the first custom block, created if absent. */
  function Folded(p: Stored): seq<Block> {
    if !Flat(p) then p.blocks
    else
      var bs, i := WithCustom(p.blocks), CustomAt(p.blocks);
      bs[i := Absorb(bs[i], p)]
  }

  /** q is what normalising p yields. */
  ghost predicate Normalized(p: Stored, q: Stored) {
    !Flat(q) && SortsStably(Folded(p), q.blocks)
  }

  class NetworkPolicy {
    var allowedDomains: seq<string>
    var allowedIPs: seq<IPEntry>
    var deniedDomains: seq<string>
    var blocks: seq<Block>

    function Value(): Stored
      reads this
    {
      Stored(allowedDomains, allowedIPs, deniedDomains, blocks)
    }

    /** Finds or appends the custom block. */
    method CustomBlock() returns (i: nat)
      modifies this`blocks
      ensures blocks == WithCustom(old(blocks))
      ensures i == CustomAt(old(blocks)) < |blocks|
    {
      i := 0;
      while i < |blocks| && blocks[i].origin != Acl.ORIGIN_CUSTOM
        invariant 0 <= i <= |blocks|
        invariant FirstCustom(blocks) == i + FirstCustom(blocks[i..])
      {
        assert blocks[i..][1..] == blocks[i + 1..];
        i := i + 1;
      }
      if i == |blocks| {
        blocks := blocks + [EMPTY_CUSTOM];
      }
    }

    method Normalize()
      modifies this
      ensures Normalized(old(Value()), Value())
    {
      if |allowedDomains| + |allowedIPs| + |deniedDomains| > 0 {
        var i := CustomBlock();
        var c := blocks[i];
        blocks := blocks[i := c.(allowDomains := c.allowDomains + allowedDomains,
                                 allowIPs := c.allowIPs + allowedIPs,
                                 denyDomains := c.denyDomains + deniedDomains)];
        allowedDomains, allowedIPs, deniedDomains := [], [], [];
      }
      blocks := StableSort(blocks);
    }
  }

  /** Normalising twice changes nothing more. */
  lemma NormalizeIdempotent(p: Stored, q: Stored, r: Stored)
    requires Normalized(p, q) && Normalized(q, r)
    ensures r == q
  {
    assert Folded(q) == q.blocks;
    StableSortUnique(q.blocks, r.blocks);
    assert r.allowedDomains == [] && r.allowedIPs == [] && r.deniedDomains == [];
    assert q.allowedDomains == [] && q.allowedIPs == [] && q.deniedDomains == [];
  }

  // ---------- no entry lost or invented ----------

  datatype Field = AllowNames | DenyNames | AllowAddrs | DenyAddrs
  datatype Entry = NameEntry(name: string) | AddrOf(ip: IPEntry)

  function Names(s: seq<string>): multiset<Entry> {
    if s == [] then multiset{} else Names(s[..|s| - 1]) + multiset{NameEntry(s[|s| - 1])}
  }

  function Addrs(s: seq<IPEntry>): multiset<Entry> {
    if s == [] then multiset{} else Addrs(s[..|s| - 1]) + multiset{AddrOf(s[|s| - 1])}
  }

  function Entries(b: Block, f: Field): multiset<Entry> {
    match f
    case AllowNames => Names(b.allowDomains)
    case DenyNames => Names(b.denyDomains)
    case AllowAddrs => Addrs(b.allowIPs)
    case DenyAddrs => Addrs(b.denyIPs)
  }

  function Gather(s: seq<Block>, f: Field): multiset<Entry> {
    if s == [] then multiset{} else Gather(s[..|s| - 1], f) + Entries(s[|s| - 1], f)
  }

  function FlatEntries(p: Stored, f: Field): multiset<Entry> {
    match f
    case AllowNames => Names(p.allowedDomains)
    case DenyNames => Names(p.deniedDomains)
    case AllowAddrs => Addrs(p.allowedIPs)
    case DenyAddrs => multiset{}
  }

  lemma {:induction false} NamesConcat(a: seq<string>, b: seq<string>)
    ensures Names(a + b) == Names(a) + Names(b)
    decreases |b|
  {
    if b == [] {
      assert a + b == a;
    } else {
      assert (a + b)[..|a + b| - 1] == a + b[..|b| - 1];
      NamesConcat(a, b[..|b| - 1]);
    }
  }

  lemma {:induction false} AddrsConcat(a: seq<IPEntry>, b: seq<IPEntry>)
    ensures Addrs(a + b) == Addrs(a) + Addrs(b)
    decreases |b|
  {
    if b == [] {
      assert a + b == a;
    } else {
      assert (a + b)[..|a + b| - 1] == a + b[..|b| - 1];
      AddrsConcat(a, b[..|b| - 1]);
    }
  }

  lemma {:induction false} GatherUpdate(s: seq<Block>, i: nat, b: Block, f: Field, more: multiset<Entry>)
    requires i < |s| && Entries(b, f) == Entries(s[i], f) + more
    ensures Gather(s[i := b], f) == Gather(s, f) + more
    decreases |s|
  {
    hide Entries;
    var s' := s[i := b];
    if i == |s| - 1 {
      assert s'[..|s| - 1] == s[..|s| - 1];
    } else {
      assert s'[..|s| - 1] == s[..|s| - 1][i := b];
      GatherUpdate(s[..|s| - 1], i, b, f, more);
    }
  }

  /** All blocks, rank by rank. */
  function GatherRanks(s: seq<Block>, f: Field, n: nat): multiset<Entry> {
    if n == 0 then multiset{} else GatherRanks(s, f, n - 1) + Gather(Keep(s, n - 1), f)
  }

  lemma GatherAppend(s: seq<Block>, b: Block, f: Field)
    ensures Gather(s + [b], f) == Gather(s, f) + Entries(b, f)
  {
  }

  lemma KeptGrows(s: seq<Block>, b: Block, f: Field, r: nat)
    ensures Gather(Keep(s + [b], r), f) ==
            Gather(Keep(s, r), f) + if RankOf(b) == r then Entries(b, f) else multiset{}
  {
    hide Entries, RankOf, Gather, Keep;
    KeepConcat(s, [b], r);
    KeepOne(b, r);
    if RankOf(b) == r {
      GatherAppend(Keep(s, r), b, f);
    } else {
      assert Keep(s, r) + [] == Keep(s, r);
    }
  }

  lemma {:induction false} RanksGrow(s: seq<Block>, b: Block, f: Field, n: nat)
    ensures GatherRanks(s + [b], f, n) == GatherRanks(s, f, n) + if RankOf(b) < n then Entries(b, f) else multiset{}
  {
    hide Entries, RankOf, Gather, Keep;
    if n > 0 {
      RanksGrow(s, b, f, n - 1);
      KeptGrows(s, b, f, n - 1);
    }
  }

  lemma RankBound(b: Block)
    ensures RankOf(b) <= CUSTOM_RANK
  {
  }

  lemma {:induction false} GatherByRank(s: seq<Block>, f: Field)
    ensures Gather(s, f) == GatherRanks(s, f, CUSTOM_RANK + 1)
  {
    hide Entries, RankOf, Keep, GatherRanks;
    if s == [] {
      NothingKept(f, CUSTOM_RANK + 1);
    } else {
      var init, b := s[..|s| - 1], s[|s| - 1];
      assert s == init + [b];
      GatherByRank(init, f);
      RanksGrow(init, b, f, CUSTOM_RANK + 1);
      RankBound(b);
    }
  }

  lemma {:induction false} NothingKept(f: Field, n: nat)
    ensures GatherRanks([], f, n) == multiset{}
  {
    if n > 0 {
      NothingKept(f, n - 1);
    }
  }

  lemma {:induction false} SameRanks(s: seq<Block>, t: seq<Block>, f: Field, n: nat)
    requires forall r :: Keep(t, r) == Keep(s, r)
    ensures GatherRanks(t, f, n) == GatherRanks(s, f, n)
  {
    if n > 0 {
      SameRanks(s, t, f, n - 1);
      assert Keep(t, n - 1) == Keep(s, n - 1);
    }
  }

  lemma AbsorbEntries(c: Block, p: Stored, f: Field)
    ensures Entries(Absorb(c, p), f) == Entries(c, f) + FlatEntries(p, f)
  {
    hide Names, Addrs;
    NamesConcat(c.allowDomains, p.allowedDomains);
    NamesConcat(c.denyDomains, p.deniedDomains);
    AddrsConcat(c.allowIPs, p.allowedIPs);
  }

  lemma NothingFlat(p: Stored, f: Field)
    requires !Flat(p)
    ensures FlatEntries(p, f) == multiset{}
  {
  }

  lemma WithCustomEntries(blocks: seq<Block>, f: Field)
    ensures Gather(WithCustom(blocks), f) == Gather(blocks, f)
  {
  }

  lemma FoldKeepsEntries(p: Stored, f: Field)
    ensures Gather(Folded(p), f) == Gather(p.blocks, f) + FlatEntries(p, f)
  {
    hide Entries, Gather, FlatEntries, WithCustom, Absorb, Flat;
    if Flat(p) {
      var bs := WithCustom(p.blocks);
      var i := CustomAt(p.blocks);
      AbsorbEntries(bs[i], p, f);
      GatherUpdate(bs, i, Absorb(bs[i], p), f, FlatEntries(p, f));
      WithCustomEntries(p.blocks, f);
    } else {
      NothingFlat(p, f);
    }
  }

  /** Normalising loses no entry and invents none, list by list. */
  lemma NormalizeKeepsEntries(p: Stored, q: Stored, f: Field)
    requires Normalized(p, q)
    ensures Gather(q.blocks, f) == Gather(p.blocks, f) + FlatEntries(p, f)
  {
    hide Gather, FlatEntries, Folded, Keep, GatherRanks, Ordered;
    FoldKeepsEntries(p, f);
    GatherByRank(q.blocks, f);
    GatherByRank(Folded(p), f);
    SameRanks(Folded(p), q.blocks, f, CUSTOM_RANK + 1);
  }

  // ---------- layering ----------

  /** A named policy with what its blocklist source last fetched. */
  datatype Policy = Policy(
    name: string, sourced: bool, allowDomains: seq<string>, denyDomains: seq<string>,
    allowIPs: seq<IPEntry>, denyIPs: seq<IPEntry>,
    fetched: bool, fetchedAllows: seq<string>, fetchedDenies: seq<string>)

  datatype Namespace = Namespace(
    name: string, allowDomains: seq<string>, allowIPs: seq<IPEntry>, denyDomains: seq<string>, denyIPs: seq<IPEntry>)

  const DEFAULT_POLICY := "default"

  function PolicyBlock(p: Policy): Block {
    Block(if p.name == DEFAULT_POLICY then "default" else if p.sourced then "source" else "policy",
          p.name, p.allowDomains + p.fetchedAllows, p.denyDomains + p.fetchedDenies, p.allowIPs, p.denyIPs)
  }

  /** A policy that cannot be loaded leaves its layer out. */
  function PolicyLayers(use: seq<string>, store: map<string, Policy>): seq<Block> {
    if use == [] then []
    else
      PolicyLayers(use[..|use| - 1], store) +
      if use[|use| - 1] in store then [PolicyBlock(store[use[|use| - 1]])] else []
  }

  function NamespaceLayer(ns: Namespace): seq<Block> {
    if |ns.allowDomains| + |ns.allowIPs| + |ns.denyDomains| + |ns.denyIPs| > 0
    then [Block("namespace", ns.name, ns.allowDomains, ns.denyDomains, ns.allowIPs, ns.denyIPs)] else []
  }

  function Layers(use: seq<string>, store: map<string, Policy>, ns: Namespace, own: seq<Block>): seq<Block> {
    PolicyLayers(use, store) + NamespaceLayer(ns) + own
  }

  /** The names in order of first mention. */
  function FirstMentions(names: seq<string>): seq<string> {
    if names == [] then []
    else
      var init, n := FirstMentions(names[..|names| - 1]), names[|names| - 1];
      if n in init then init else init + [n]
  }

  /** Every name once, none added or lost, earlier mentions first. */
  lemma {:induction false} MentionedOnce(names: seq<string>)
    ensures forall n :: n in FirstMentions(names) <==> n in names
    ensures forall i, j :: 0 <= i < j < |FirstMentions(names)| ==> FirstMentions(names)[i] != FirstMentions(names)[j]
    ensures forall k :: 0 <= k <= |names| ==> FirstMentions(names[..k]) <= FirstMentions(names)
  {
    if names != [] {
      var init := names[..|names| - 1];
      MentionedOnce(init);
      assert names == init + [names[|names| - 1]];
      forall k | 0 <= k <= |names| ensures FirstMentions(names[..k]) <= FirstMentions(names) {
        if k == |names| {
          assert names[..k] == names;
        } else {
          assert names[..k] == init[..k];
          assert FirstMentions(init[..k]) <= FirstMentions(init) <= FirstMentions(names);
        }
      }
    }
  }

  /** An unwritten list inherits; written lists concatenate, broader scope
      first, duplicates collapsing to their first mention. */
  method EffectiveUse(nsUse: Option<seq<string>>, sbUse: Option<seq<string>>) returns (out: seq<string>)
    ensures nsUse.None? && sbUse.None? ==> out == [DEFAULT_POLICY]
    ensures nsUse.Some? || sbUse.Some? ==>
      out == FirstMentions((if nsUse.Some? then nsUse.value else []) + (if sbUse.Some? then sbUse.value else []))
  {
    if nsUse.None? && sbUse.None? {
      return [DEFAULT_POLICY];
    }
    var names := (if nsUse.Some? then nsUse.value else []) + (if sbUse.Some? then sbUse.value else []);
    out := [];
    var seen: set<string> := {};
    for i := 0 to |names|
      invariant out == FirstMentions(names[..i]) && seen == set n | n in out
    {
      assert names[..i + 1][..i] == names[..i];
      if names[i] !in seen {
        seen := seen + {names[i]};
        out := out + [names[i]];
      }
    }
    assert names[..|names|] == names;
  }

  predicate AllParse(blocks: seq<Block>) {
    forall i :: 0 <= i < |blocks| ==> Parses(blocks[i])
  }

  /** A policy that is missing, or a blocklist never fetched. */
  predicate Doubtful(name: string, store: map<string, Policy>) {
    name in store ==> store[name].sourced && !store[name].fetched
  }

  /** A policy that does not compile falls back to the empty chain. */
  method ResolveChain(use: seq<string>, store: map<string, Policy>, ns: Namespace, own: seq<Block>)
    returns (chain: Chain, warned: bool)
    ensures chain.Valid()
    ensures chain.blocks ==
            if AllParse(Layers(use, store, ns, own)) then Layers(use, store, ns, own) else []
    ensures warned <==>
      || (exists b :: b in Layers(use, store, ns, own) && !Parses(b))
      || exists k :: 0 <= k < |use| && (use[k] in store ==> store[use[k]].sourced && !store[use[k]].fetched)
  {
    hide CompileAll;
    var blocks: seq<Block> := [];
    warned := false;
    for i := 0 to |use|
      invariant blocks == PolicyLayers(use[..i], store)
      invariant warned <==> exists k :: 0 <= k < i && Doubtful(use[k], store)
    {
      assert use[..i + 1][..i] == use[..i];
      if use[i] in store {
        var p := store[use[i]];
        warned := warned || (p.sourced && !p.fetched);
        blocks := blocks + [PolicyBlock(p)];
      } else {
        warned := true;
      }
    }
    assert use[..|use|] == use;
    blocks := blocks + NamespaceLayer(ns) + own;
    var r := NewChain(blocks);
    if r.BadIPEntry? {
      warned := true;
      r := NewChain([]);
    }
    chain := r.chain;
  }

  // ---------- precedence of layers ----------

  /** The sandbox's own blocks speak first, then the namespace, then the
      policies. */
  lemma LayerPrecedence(
      use: seq<string>, store: map<string, Policy>, ns: Namespace, own: seq<Block>, name: string, ip: Addr)
    ensures var o, n := ChainAddr(CompileAll(own), name, ip), ChainAddr(CompileAll(NamespaceLayer(ns)), name, ip);
            ChainAddr(CompileAll(Layers(use, store, ns, own)), name, ip) ==
            if o.0 != NoOpinion then o
            else if n.0 != NoOpinion then n
            else ChainAddr(CompileAll(PolicyLayers(use, store)), name, ip)
  {
    hide CompileAll, ChainAddr, PolicyLayers, NamespaceLayer;
    var ps, n := PolicyLayers(use, store), NamespaceLayer(ns);
    CompileConcat(ps + n, own);
    CompileConcat(ps, n);
    AddrSplit(CompileAll(ps + n), CompileAll(own), name, ip);
    AddrSplit(CompileAll(ps), CompileAll(n), name, ip);
  }

  /** A policy mentioned later outranks those before it; one that is missing
      changes nothing. */
  lemma LaterPolicyWins(use: seq<string>, store: map<string, Policy>, p: string, name: string, ip: Addr)
    ensures var before := ChainAddr(CompileAll(PolicyLayers(use, store)), name, ip);
            ChainAddr(CompileAll(PolicyLayers(use + [p], store)), name, ip) ==
            if p !in store then before
            else var o := BlockAddr(CompileBlock(PolicyBlock(store[p])), name, ip);
                 if o.0 != NoOpinion then o else before
  {
    hide CompileBlock, BlockAddr, PolicyBlock;
    assert (use + [p])[..|use|] == use;
    var layers := PolicyLayers(use, store);
    assert layers + [] == layers;
    if p in store {
      var b := PolicyBlock(store[p]);
      CompileConcat(layers, [b]);
      assert CompileAll([b]) == [CompileBlock(b)];
      assert (CompileAll(layers) + [CompileBlock(b)])[..|layers|] == CompileAll(layers);
    }
  }

  /** cb holds exactly the rules of these four lists, allows as allows and denies
      as denies. */
  ghost predicate RulesOf(
      cb: CompiledBlock, allows: seq<string>, denies: seq<string>, allowIPs: seq<IPEntry>, denyIPs: seq<IPEntry>)
  {
    && (forall r :: r in cb.names <==> ListsName(allows, false, r) || ListsName(denies, true, r))
    && (forall r :: r in cb.ips <==> ListsIP(allowIPs, false, r) || ListsIP(denyIPs, true, r))
  }

  ghost predicate ListsName(entries: seq<string>, deny: bool, r: NameRule) {
    exists e :: e in entries && r in CompileName(e, deny)
  }

  ghost predicate ListsIP(entries: seq<IPEntry>, deny: bool, r: IPRule) {
    exists e :: e in entries && r in CompileIP(e, deny)
  }

  lemma BlockRules(b: Block)
    ensures RulesOf(CompileBlock(b), b.allowDomains, b.denyDomains, b.allowIPs, b.denyIPs)
  {
    hide CompileName, CompileIP, CompileNames, CompileIPs;
    var cb := CompileBlock(b);
    forall r ensures r in cb.names <==> ListsName(b.allowDomains, false, r) || ListsName(b.denyDomains, true, r) {
      CompiledNames(b.allowDomains, false, r);
      CompiledNames(b.denyDomains, true, r);
    }
    forall r ensures r in cb.ips <==> ListsIP(b.allowIPs, false, r) || ListsIP(b.denyIPs, true, r) {
      CompiledIPs(b.allowIPs, false, r);
      CompiledIPs(b.denyIPs, true, r);
    }
  }

  /** A namespace with any entry has one layer, with the rules of its lists. */
  lemma NamespaceRules(ns: Namespace)
    ensures NamespaceLayer(ns) == [] <==>
      ns.allowDomains == [] && ns.allowIPs == [] && ns.denyDomains == [] && ns.denyIPs == []
    ensures NamespaceLayer(ns) != [] ==>
      && |NamespaceLayer(ns)| == 1
      && NamespaceLayer(ns)[0].origin == "namespace" && NamespaceLayer(ns)[0].name == ns.name
      && RulesOf(CompileBlock(NamespaceLayer(ns)[0]), ns.allowDomains, ns.denyDomains, ns.allowIPs, ns.denyIPs)
  {
    hide RulesOf, CompileBlock;
    if NamespaceLayer(ns) != [] {
      BlockRules(NamespaceLayer(ns)[0]);
    }
  }

  /** A policy's layer has the rules of its lists and of what was fetched. */
  lemma PolicyRules(p: Policy)
    ensures RulesOf(CompileBlock(PolicyBlock(p)), p.allowDomains + p.fetchedAllows, p.denyDomains + p.fetchedDenies,
                    p.allowIPs, p.denyIPs)
    ensures PolicyBlock(p).name == p.name && PolicyBlock(p).origin in {"default", "source", "policy"}
    ensures PolicyBlock(p).origin == "default" <==> p.name == DEFAULT_POLICY
    ensures PolicyBlock(p).origin == "source" ==> p.sourced
  {
    hide RulesOf, CompileBlock;
    BlockRules(PolicyBlock(p));
  }

  /** An entry of a layer's lists decides the names it is about, as its list says,
      unless an entry of the other list beats it there. */
  lemma ListedNameDecides(
      cb: CompiledBlock, allows: seq<string>, denies: seq<string>, allowIPs: seq<IPEntry>, denyIPs: seq<IPEntry>,
      deny: bool, e: string, r: NameRule, name: string)
    requires cb.WellFormed() && RulesOf(cb, allows, denies, allowIPs, denyIPs)
    requires e in (if deny then denies else allows) && r in CompileName(e, deny)
    requires r.MatchName(name).0 && NameUnbeaten(cb.names, r, name)
    ensures NameVerdict(cb.names, name) == VerdictFor(deny)
  {
    hide NameVerdict;
    assert ListsName(if deny then denies else allows, deny, r);
    CompiledMatches(e, deny, r, name);
    UnbeatenNameDecides(cb.names, r, name);
  }

  lemma ListedIPDecides(
      cb: CompiledBlock, allows: seq<string>, denies: seq<string>, allowIPs: seq<IPEntry>, denyIPs: seq<IPEntry>,
      deny: bool, e: IPEntry, r: IPRule, ip: Addr)
    requires RulesOf(cb, allows, denies, allowIPs, denyIPs)
    requires e in (if deny then denyIPs else allowIPs) && r in CompileIP(e, deny)
    requires r.Contains(ip) && IPUnbeaten(cb.ips, r, ip)
    ensures IPVerdict(cb.ips, ip) == VerdictFor(deny)
  {
    hide IPVerdict;
    assert ListsIP(if deny then denyIPs else allowIPs, deny, r);
    CompiledIPMatches(e, deny, r, ip);
    UnbeatenIPDecides(cb.ips, r, ip);
  }

  /** A namespace denies what it lists as denied and allows what it lists as
      allowed, each where the other list does not beat it. */
  lemma NamespaceNameDecides(ns: Namespace, deny: bool, e: string, r: NameRule, name: string)
    requires e in (if deny then ns.denyDomains else ns.allowDomains) && r in CompileName(e, deny) && r.MatchName(name).0
    ensures |NamespaceLayer(ns)| == 1
    ensures var rules := CompileBlock(NamespaceLayer(ns)[0]).names;
            NameUnbeaten(rules, r, name) ==> NameVerdict(rules, name) == VerdictFor(deny)
  {
    hide RulesOf, CompileBlock, NameVerdict, NameUnbeaten;
    NamespaceRules(ns);
    var b := NamespaceLayer(ns)[0];
    CompiledBlockWellFormed(b);
    if NameUnbeaten(CompileBlock(b).names, r, name) {
      ListedNameDecides(
        CompileBlock(b), ns.allowDomains, ns.denyDomains, ns.allowIPs, ns.denyIPs, deny, e, r, name);
    }
  }

  lemma NamespaceIPDecides(ns: Namespace, deny: bool, e: IPEntry, r: IPRule, ip: Addr)
    requires e in (if deny then ns.denyIPs else ns.allowIPs) && r in CompileIP(e, deny) && r.Contains(ip)
    ensures |NamespaceLayer(ns)| == 1
    ensures var rules := CompileBlock(NamespaceLayer(ns)[0]).ips;
            IPUnbeaten(rules, r, ip) ==> IPVerdict(rules, ip) == VerdictFor(deny)
  {
    hide RulesOf, CompileBlock, IPVerdict, IPUnbeaten;
    NamespaceRules(ns);
    var cb := CompileBlock(NamespaceLayer(ns)[0]);
    if IPUnbeaten(cb.ips, r, ip) {
      ListedIPDecides(cb, ns.allowDomains, ns.denyDomains, ns.allowIPs, ns.denyIPs, deny, e, r, ip);
    }
  }

  /** The same for a policy, with what its source last fetched. */
  lemma PolicyNameDecides(p: Policy, deny: bool, e: string, r: NameRule, name: string)
    requires e in (if deny then p.denyDomains + p.fetchedDenies else p.allowDomains + p.fetchedAllows)
    requires r in CompileName(e, deny) && r.MatchName(name).0
    ensures var rules := CompileBlock(PolicyBlock(p)).names;
            NameUnbeaten(rules, r, name) ==> NameVerdict(rules, name) == VerdictFor(deny)
  {
    hide RulesOf, CompileBlock, NameVerdict, NameUnbeaten, PolicyBlock;
    PolicyRules(p);
    CompiledBlockWellFormed(PolicyBlock(p));
    var cb := CompileBlock(PolicyBlock(p));
    if NameUnbeaten(cb.names, r, name) {
      ListedNameDecides(cb, p.allowDomains + p.fetchedAllows, p.denyDomains + p.fetchedDenies,
                        p.allowIPs, p.denyIPs, deny, e, r, name);
    }
  }

  lemma PolicyIPDecides(p: Policy, deny: bool, e: IPEntry, r: IPRule, ip: Addr)
    requires e in (if deny then p.denyIPs else p.allowIPs) && r in CompileIP(e, deny) && r.Contains(ip)
    ensures var rules := CompileBlock(PolicyBlock(p)).ips;
            IPUnbeaten(rules, r, ip) ==> IPVerdict(rules, ip) == VerdictFor(deny)
  {
    hide RulesOf, CompileBlock, IPVerdict, IPUnbeaten, PolicyBlock;
    PolicyRules(p);
    var cb := CompileBlock(PolicyBlock(p));
    if IPUnbeaten(cb.ips, r, ip) {
      ListedIPDecides(cb, p.allowDomains + p.fetchedAllows, p.denyDomains + p.fetchedDenies,
                      p.allowIPs, p.denyIPs, deny, e, r, ip);
    }
  }

  /** A domain a policy denies, itself or through its fetched blocklist, is
      denied by its layer, whatever the policy allows. */
  lemma PolicyDenies(p: Policy, entry: string)
    requires entry in p.denyDomains || entry in p.fetchedDenies
    requires !Vacuous(NormalizeDomain(entry)) && !HasPrefix(NormalizeDomain(entry), "*.")
    ensures NameVerdict(CompileBlock(PolicyBlock(p)).names, NormalizeDomain(entry)) == Deny
  {
    hide CompileBlock, NameVerdict, NormalizeDomain;
    var b, d := PolicyBlock(p), NormalizeDomain(entry);
    forall e, r | e in b.allowDomains && r in CompileName(e, false) && r.MatchName(d).0
      ensures r.labels <= Dots(d) + 1
    {
      AllowNoDeeper(e, r, d);
    }
    Acl.TopBlockDenies(b, entry, d);
  }

  lemma AllowNoDeeper(e: string, r: NameRule, name: string)
    requires r in CompileName(e, false) && r.MatchName(name).0
    ensures r.labels <= Dots(name) + 1
  {
    MatchIsSpeaking(r, name);
    var i := |name| - |r.pattern|;
    if i > 0 {
      LongerSuffixHasMoreDots(name, 0, i);
    }
    assert name[0..] == name;
  }

  // ---------- custom decides ----------

  lemma {:induction false} NoCustomPolicy(use: seq<string>, store: map<string, Policy>)
    ensures forall b :: b in PolicyLayers(use, store) ==> b.origin != Acl.ORIGIN_CUSTOM
  {
    if use != [] {
      NoCustomPolicy(use[..|use| - 1], store);
    }
  }

  lemma NoCustomNamespace(ns: Namespace)
    ensures forall b :: b in NamespaceLayer(ns) ==> b.origin != Acl.ORIGIN_CUSTOM
  {
  }

  /** In a chain resolved from a normalised record nothing stands above the
      custom block. */
  lemma ResolvedCustomOnTop(use: seq<string>, store: map<string, Policy>, ns: Namespace, own: seq<Block>)
    requires Ordered(own)
    ensures Acl.CustomOnTop(Layers(use, store, ns, own))
  {
    hide PolicyLayers, NamespaceLayer, OriginRank;
    var base := PolicyLayers(use, store) + NamespaceLayer(ns);
    NoCustomPolicy(use, store);
    NoCustomNamespace(ns);
    assert forall k :: 0 <= k < |base| ==> base[k].origin != Acl.ORIGIN_CUSTOM;
    CustomRanksHighest();
    assert Layers(use, store, ns, own) == base + own;
    LastOfOrdered(base, own);
  }

  lemma CustomRanksHighest()
    ensures forall o :: OriginRank(o) <= CUSTOM_RANK && (OriginRank(o) == CUSTOM_RANK <==> o == Acl.ORIGIN_CUSTOM)
  {
  }

  lemma LastOfOrdered(base: seq<Block>, own: seq<Block>)
    requires Ordered(own) && forall k :: 0 <= k < |base| ==> base[k].origin != Acl.ORIGIN_CUSTOM
    ensures Acl.CustomOnTop(base + own)
  {
  }

  /** Whatever the other layers say, an opinion of the custom block decides. */
  lemma CustomDecides(
      use: seq<string>, store: map<string, Policy>, ns: Namespace, own: seq<Block>, name: string, ip: Addr)
    requires Ordered(own) && Acl.LastCustom(Layers(use, store, ns, own)) < |Layers(use, store, ns, own)|
    ensures var all := Layers(use, store, ns, own);
            var opinion := BlockAddr(CompileBlock(all[Acl.LastCustom(all)]), name, ip);
            opinion.0 != NoOpinion ==> ChainAddr(CompileAll(all), name, ip) == opinion
  {
    ResolvedCustomOnTop(use, store, ns, own);
    var all := Layers(use, store, ns, own);
    TopDecides(all, name, ip);
  }

  lemma TopDecides(all: seq<Block>, name: string, ip: Addr)
    requires all != []
    ensures var opinion := BlockAddr(CompileBlock(all[|all| - 1]), name, ip);
            opinion.0 != NoOpinion ==> ChainAddr(CompileAll(all), name, ip) == opinion
  {
  }
}
