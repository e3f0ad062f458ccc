/** Sandbox records over three generations of on-disk layout, and the ordered
    log of schema migrations that brings them to the current one. */
module Migrations {
  import opened Text

  // ---------- records and where they are kept ----------

  const DEFAULT_NAMESPACE := "default"
  const RETIRED_PROVIDER := "vfkit"
  const VZ_PROVIDER := "vz"

  datatype Phase = Phase(inPlace: bool, worktree: string)

  /** `flat` says that legacy allow and deny lists are still set; `saves` is the
      counter that every save increments. */
  datatype Record = Record(
    name: string, namespace: string, provider: string, anchor: string, phases: seq<Phase>,
    running: bool, flat: bool, saves: nat)

  /** Namespace and name. */
  type Id = (string, string)

  datatype Path = Current(id: Id) | Interim(id: Id) | Flat(name: string)
  datatype File = Unreadable | Stored(rec: Record)
  type Disk = map<Path, File>

  function NamespaceName(r: Record): string {
    if r.namespace == "" then DEFAULT_NAMESPACE else r.namespace
  }

  function Key(r: Record): Id {
    (NamespaceName(r), r.name)
  }

  function KeyText(id: Id): string {
    id.0 + "/" + id.1
  }

  /** Splits at the first slash; a bare name is in the default namespace. */
  function SplitKey(key: string): Id {
    if '/' in key then SplitAt(key) else (DEFAULT_NAMESPACE, key)
  }

  function SplitAt(key: string): Id
    requires '/' in key
  {
    if key[0] == '/' then ("", key[1..])
    else var (ns, name) := SplitAt(key[1..]); ([key[0]] + ns, name)
  }

  lemma {:induction false} SplitInvertsKey(id: Id)
    requires '/' !in id.0
    ensures SplitKey(KeyText(id)) == id
    decreases |id.0|
  {
    var key := KeyText(id);
    assert key[|id.0|] == '/';
    if id.0 == "" {
      assert key[1..] == id.1;
    } else {
      var rest := (id.0[1..], id.1);
      assert key[1..] == KeyText(rest);
      assert KeyText(rest)[|rest.0|] == '/';
      SplitInvertsKey(rest);
      assert id.0 == [id.0[0]] + id.0[1..];
    }
  }

  /** A bare name is in the default namespace. */
  lemma SplitBareName(name: string)
    requires '/' !in name
    ensures SplitKey(name) == (DEFAULT_NAMESPACE, name)
  {
  }

  /** The id a directory scan derives from a path. */
  function IdOf(p: Path): Id {
    if p.Flat? then (DEFAULT_NAMESPACE, p.name) else p.id
  }

  /** Scans and keys agree on ids. */
  lemma ScanIdIsKey(p: Path)
    requires if p.Flat? then '/' !in p.name else '/' !in p.id.0
    ensures IdOf(p) == SplitKey(if p.Flat? then p.name else KeyText(p.id))
  {
    if !p.Flat? {
      SplitInvertsKey(p.id);
    }
  }

  /** Prefers the current layout, then the interim one, then the flat one. */
  function Resolve(d: Disk, id: Id): Path {
    if Current(id) in d then Current(id)
    else if Interim(id) in d then Interim(id)
    else if Flat(id.1) in d then Flat(id.1)
    else Current(id)
  }

  /** Loading folds legacy network lists in memory. */
  function Loaded(r: Record): Record {
    r.(flat := false)
  }

  function Saved(r: Record): Record {
    r.(saves := r.saves + 1)
  }

  function SaveTo(d: Disk, r: Record): Disk {
    d[Resolve(d, Key(r)) := Stored(Saved(r))]
  }

  /** The record at p is one that a listing shows. */
  predicate Listed(d: Disk, p: Path) {
    p in d && d[p].Stored? && Resolve(d, IdOf(p)) == p
  }

  function RecordAt(d: Disk, p: Path): Record
    requires Listed(d, p)
  {
    Loaded(d[p].rec)
  }

  /** Every listed record is the one found under its own key. */
  ghost predicate Home(d: Disk) {
    forall p :: Listed(d, p) ==> Resolve(d, Key(d[p].rec)) == p
  }

  /** The listed record with key k. */
  function Found(d: Disk, k: Id): Option<Record> {
    var p := Resolve(d, k);
    if Listed(d, p) && Key(d[p].rec) == k then Some(RecordAt(d, p)) else None
  }

  /** Where names and directories agree with the records, all files can be
      read and no two share a key, every record is at home. */
  lemma UniqueKeysAreHome(d: Disk)
    requires forall p :: p in d ==> d[p].Stored? && d[p].rec.name == IdOf(p).1
                                    && (!p.Flat? ==> NamespaceName(d[p].rec) == p.id.0)
    requires forall p, q :: p in d && q in d && Key(d[p].rec) == Key(d[q].rec) ==> p == q
    ensures Home(d)
  {
  }

  /** At home, listing and looking up by key show the same records. */
  lemma ListedIffFound(d: Disk, k: Id, r: Record)
    requires Home(d)
    ensures (exists p :: Listed(d, p) && RecordAt(d, p) == r && Key(r) == k) <==> Found(d, k) == Some(r)
  {
  }

  /** What loading under a key yields. */
  function Load(d: Disk, k: Id): Option<Record> {
    var p := Resolve(d, k);
    if p in d && d[p].Stored? then Some(Loaded(d[p].rec)) else None
  }

  /** A save redirects no key. */
  lemma SaveKeepsResolve(d: Disk, r: Record)
    ensures forall k :: Resolve(SaveTo(d, r), k) == Resolve(d, k)
  {
  }

  // ---------- the steps, record by record ----------

  function NormalizedProvider(r: Record): Record {
    if r.provider == RETIRED_PROVIDER then r.(provider := VZ_PROVIDER) else r
  }

  /** The first directory bound in place. */
  function LegacyAnchor(phases: seq<Phase>): string {
    if phases == [] then ""
    else if phases[0].inPlace && phases[0].worktree != "" then phases[0].worktree
    else LegacyAnchor(phases[1..])
  }

  predicate Binds(p: Phase) {
    p.inPlace && p.worktree != ""
  }

  /** The anchor is the worktree of the first phase that binds a directory. */
  lemma {:induction false} LegacyAnchorIsFirst(phases: seq<Phase>, i: nat)
    requires i <= |phases| && forall j :: 0 <= j < i ==> !Binds(phases[j])
    ensures i < |phases| && Binds(phases[i]) ==> LegacyAnchor(phases) == phases[i].worktree
    ensures i == |phases| ==> LegacyAnchor(phases) == ""
  {
    if i > 0 {
      assert forall j :: 0 <= j < i - 1 ==> phases[1..][j] == phases[j + 1];
      LegacyAnchorIsFirst(phases[1..], i - 1);
    }
  }

  function Backfilled(r: Record): Record {
    r.(anchor := if r.anchor == "" then LegacyAnchor(r.phases) else r.anchor,
       namespace := if r.namespace == "" then DEFAULT_NAMESPACE else r.namespace)
  }

  /** A managed worktree under a legacy directory moves under the new one. */
  function RelocatedPhase(p: Phase, flat: string, interim: string, to: string): Phase {
    if p.inPlace || p.worktree == "" then p
    else if HasPrefix(p.worktree, flat) then p.(worktree := to + p.worktree[|flat|..])
    else if HasPrefix(p.worktree, interim) then p.(worktree := to + p.worktree[|interim|..])
    else p
  }

  function RelocatedPhases(phases: seq<Phase>, flat: string, interim: string, to: string): (r: seq<Phase>)
    ensures |r| == |phases|
    ensures forall i :: 0 <= i < |r| ==> r[i] == RelocatedPhase(phases[i], flat, interim, to)
  {
    if phases == [] then []
    else [RelocatedPhase(phases[0], flat, interim, to)] + RelocatedPhases(phases[1..], flat, interim, to)
  }

  function Relocated(root: string, r: Record): Record {
    r.(phases := RelocatedPhases(r.phases,
         root + "/worktrees/" + r.name,
         root + "/worktrees/" + NamespaceName(r) + "/" + r.name,
         root + "/namespaces/" + NamespaceName(r) + "/worktrees/" + r.name))
  }

  /** Where worktrees point after a move. In place or outside the legacy
      directories: where they did. Under the flat one: to the same place under the
      new one. Under the interim one: likewise, if and only if the path does not
      also start like the flat one, as with a namespace named after the sandbox. */
  lemma RelocatesWorktree(p: Phase, flat: string, interim: string, to: string, rest: string)
    requires |flat| < |interim| && p.worktree != ""
    ensures p.inPlace || (!HasPrefix(p.worktree, flat) && !HasPrefix(p.worktree, interim)) ==>
      RelocatedPhase(p, flat, interim, to) == p
    ensures !p.inPlace && p.worktree == flat + rest ==>
      RelocatedPhase(p, flat, interim, to) == p.(worktree := to + rest)
    ensures !p.inPlace && p.worktree == interim + rest ==>
      (RelocatedPhase(p, flat, interim, to) == p.(worktree := to + rest) <==> !HasPrefix(interim + rest, flat))
  {
    assert (flat + rest)[..|flat|] == flat && (flat + rest)[|flat|..] == rest;
    assert (interim + rest)[..|interim|] == interim && (interim + rest)[|interim|..] == rest;
    if !p.inPlace && p.worktree == interim + rest && HasPrefix(interim + rest, flat) {
      assert |RelocatedPhase(p, flat, interim, to).worktree| > |to + rest|;
    }
  }

  /** A moved record's worktrees under its flat legacy directory follow it. */
  lemma RecordFollows(root: string, r: Record, i: nat, rest: string)
    requires i < |r.phases| && !r.phases[i].inPlace && r.phases[i].worktree == root + "/worktrees/" + r.name + rest
    ensures Relocated(root, r).phases[i].worktree ==
            root + "/namespaces/" + NamespaceName(r) + "/worktrees/" + r.name + rest
  {
    var flat := root + "/worktrees/" + r.name;
    assert (flat + rest)[..|flat|] == flat && (flat + rest)[|flat|..] == rest;
  }

  /** That does happen: a sandbox named like its namespace. */
  lemma NamesakeIsMisplaced(root: string)
    ensures var flat, interim := root + "/worktrees/" + "web", root + "/worktrees/" + "web" + "/" + "web";
            var to := root + "/namespaces/" + "web" + "/worktrees/" + "web";
            RelocatedPhase(Phase(false, interim), flat, interim, to) == Phase(false, to + "/web")
  {
    var flat, interim := root + "/worktrees/" + "web", root + "/worktrees/" + "web" + "/" + "web";
    assert interim == flat + "/web";
    assert interim[..|flat|] == flat && interim[|flat|..] == "/web";
  }

  /** The directory a sandbox is bound to survives relocation. */
  lemma {:induction false} RelocationKeepsAnchor(phases: seq<Phase>, flat: string, interim: string, to: string)
    ensures LegacyAnchor(RelocatedPhases(phases, flat, interim, to)) == LegacyAnchor(phases)
  {
    if phases != [] {
      RelocationKeepsAnchor(phases[1..], flat, interim, to);
      assert RelocatedPhases(phases, flat, interim, to)[1..] == RelocatedPhases(phases[1..], flat, interim, to);
    }
  }

  // ---------- field steps over the whole disk ----------

  /** Only an edit that changes something is saved. */
  function EditedRecord(r: Record, f: Record -> Record): Record {
    if f(r) != r then Saved(f(r)) else r
  }

  function EditedOption(o: Option<Record>, f: Record -> Record): Option<Record> {
    if o.Some? then Some(EditedRecord(o.value, f)) else None
  }

  function Edited(d: Disk, p: Path, f: Record -> Record): File
    requires p in d
  {
    if Listed(d, p) && f(RecordAt(d, p)) != RecordAt(d, p) then Stored(Saved(f(RecordAt(d, p)))) else d[p]
  }

  function RewrittenOn(d: Disk, f: Record -> Record, ps: set<Path>): Disk {
    map p | p in d :: if p in ps then Edited(d, p, f) else d[p]
  }

  function Rewritten(d: Disk, f: Record -> Record): Disk {
    RewrittenOn(d, f, d.Keys)
  }

  /** f edits fields that do not say where a record belongs. */
  ghost predicate Harmless(f: Record -> Record) {
    forall r ::
      && Key(f(r)) == Key(r) && f(r).running == r.running && f(r).flat == r.flat
      && f(r).phases == r.phases && f(r).saves == r.saves
  }

  lemma FieldStepsAreHarmless()
    ensures Harmless(NormalizedProvider) && Harmless(Backfilled)
  {
  }

  lemma SameResolve(d: Disk, e: Disk)
    requires d.Keys == e.Keys
    ensures forall k :: Resolve(e, k) == Resolve(d, k)
  {
  }

  lemma RewrittenListed(d: Disk, f: Record -> Record, p: Path)
    requires Harmless(f)
    ensures Listed(Rewritten(d, f), p) <==> Listed(d, p)
    ensures Listed(d, p) ==>
      RecordAt(Rewritten(d, f), p) == EditedRecord(RecordAt(d, p), f)
  {
  }

  lemma RewrittenKeepsHome(d: Disk, f: Record -> Record)
    requires Harmless(f) && Home(d)
    ensures Home(Rewritten(d, f))
    ensures forall k :: Found(Rewritten(d, f), k) == EditedOption(Found(d, k), f)
  {
    var e := Rewritten(d, f);
    SameResolve(d, e);
    forall p ensures Listed(e, p) <==> Listed(d, p)
             ensures Listed(d, p) ==> Key(e[p].rec) == Key(d[p].rec)
    {
      RewrittenListed(d, f, p);
    }
    forall k ensures Found(e, k) == EditedOption(Found(d, k), f) {
      RewrittenListed(d, f, Resolve(d, k));
    }
  }

  // ---------- nesting ----------

  function Dest(r: Record): Path {
    Current(Key(r))
  }

  predicate Moves(d: Disk, p: Path) {
    Listed(d, p) && !d[p].rec.running && p != Dest(d[p].rec)
  }

  predicate Defers(d: Disk, p: Path) {
    Listed(d, p) && d[p].rec.running && p != Dest(d[p].rec)
  }

  ghost predicate AnyDeferred(d: Disk) {
    exists p :: Defers(d, p)
  }

  /** q is where some record of ps moves to. */
  predicate Arrives(d: Disk, ps: set<Path>, q: Path) {
    q.Current? && var p := Resolve(d, q.id); p in ps && Moves(d, p) && Dest(d[p].rec) == q
  }

  function Arrivals(d: Disk, ps: set<Path>): set<Path> {
    set p | p in ps && Moves(d, p) :: Dest(d[p].rec)
  }

  function NestedOn(root: string, d: Disk, ps: set<Path>): Disk {
    map q | q in d.Keys + Arrivals(d, ps) && (Arrives(d, ps, q) || (q in d && !(q in ps && Moves(d, q)))) ::
      if Arrives(d, ps, q) then Stored(Relocated(root, RecordAt(d, Resolve(d, q.id)))) else d[q]
  }

  function Nested(root: string, d: Disk): Disk {
    NestedOn(root, d, d.Keys)
  }

  /** At home, what has been nested so far leaves p where it can be found. */
  lemma NotYetNested(root: string, d: Disk, ps: set<Path>, p: Path)
    requires Home(d) && Listed(d, p) && p !in ps
    ensures var e := NestedOn(root, d, ps);
            var k := Key(d[p].rec);
            && p in e && e[p] == d[p]
            && (Current(k) in e <==> p == Current(k))
            && Resolve(e, k) == p
  {
  }

  /** Moving one more record. */
  lemma NestOneMore(root: string, d: Disk, ps: set<Path>, p: Path)
    requires Home(d) && Listed(d, p) && p !in ps
    ensures !Moves(d, p) ==> NestedOn(root, d, ps + {p}) == NestedOn(root, d, ps)
    ensures Moves(d, p) ==>
      NestedOn(root, d, ps + {p}) ==
      NestedOn(root, d, ps)[Dest(d[p].rec) := Stored(Relocated(root, RecordAt(d, p)))] - {p}
  {
    var k := Key(d[p].rec);
    assert Resolve(d, k) == p;
    forall q ensures Arrives(d, ps + {p}, q) <==> Arrives(d, ps, q) || (Moves(d, p) && q == Current(k)) {
    }
    forall q: Path | Arrives(d, ps, q) ensures q in Arrivals(d, ps) && q != Current(k) {
    }
    assert Moves(d, p) ==> Current(k) !in d;
  }

  function Settled(root: string, r: Record, moved: bool): Record {
    if moved then Relocated(root, r) else r
  }

  function SettledOption(root: string, o: Option<Record>, moved: bool): Option<Record> {
    if o.Some? then Some(Settled(root, o.value, moved)) else None
  }

  /** Where the file at p is after nesting. */
  function After(d: Disk, p: Path): Path
    requires p in d
  {
    if Moves(d, p) then Dest(d[p].rec) else p
  }

  lemma NestedAt(root: string, d: Disk, p: Path)
    requires Home(d) && p in d
    ensures var e := Nested(root, d);
            && After(d, p) in e
            && (Moves(d, p) ==> p !in e && e[After(d, p)] == Stored(Relocated(root, RecordAt(d, p))))
            && (!Moves(d, p) ==> e[p] == d[p])
  {
  }

  lemma NestedFrom(root: string, d: Disk, q: Path) returns (p: Path)
    requires q in Nested(root, d)
    ensures p in d && After(d, p) == q
  {
    p := if Arrives(d, d.Keys, q) then Resolve(d, q.id) else q;
  }

  /** Nesting resolves every key to the same file, wherever that now is. */
  lemma NestedResolve(root: string, d: Disk, p: Path)
    requires Home(d) && Listed(d, p)
    ensures Resolve(Nested(root, d), Key(d[p].rec)) == After(d, p)
  {
    var e, k := Nested(root, d), Key(d[p].rec);
    NestedAt(root, d, p);
    assert Resolve(d, k) == p;
    if !Moves(d, p) && p != Current(k) {
      assert Current(k) !in d && !Arrives(d, d.Keys, Current(k));
      assert p != Interim(k) ==> Interim(k) !in d;
    }
  }

  lemma NestedListed(root: string, d: Disk, p: Path)
    requires Home(d) && p in d
    ensures Listed(Nested(root, d), After(d, p)) <==> Listed(d, p)
  {
    hide Nested, Home;
    var e := Nested(root, d);
    NestedAt(root, d, p);
    if Listed(d, p) && !Moves(d, p) {
      NestedKeepsTop(root, d, p);
    } else if !Listed(d, p) && d[p].Stored? {
      NestedKeepsHidden(root, d, p);
    }
  }

  /** Nothing arrives above a listed record that stays. */
  lemma NestedKeepsTop(root: string, d: Disk, p: Path)
    requires Home(d) && Listed(d, p) && !Moves(d, p)
    ensures Resolve(Nested(root, d), IdOf(p)) == p
  {
    var id := IdOf(p);
    NestedAt(root, d, p);
    assert Resolve(d, id) == p;
    assert Resolve(d, Key(d[p].rec)) == p;
  }

  /** What hides a record still hides it. */
  lemma NestedKeepsHidden(root: string, d: Disk, p: Path)
    requires Home(d) && p in d && !Listed(d, p) && d[p].Stored?
    ensures Resolve(Nested(root, d), IdOf(p)) != p
  {
    var q := Resolve(d, IdOf(p));
    assert q in d && IdOf(q) == IdOf(p);
    NestedAt(root, d, q);
    if Moves(d, q) {
      assert Resolve(d, Key(d[q].rec)) == q;
    }
  }

  lemma NestedKeepsHome(root: string, d: Disk)
    requires Home(d)
    ensures Home(Nested(root, d))
  {
    hide Nested;
    var e := Nested(root, d);
    forall q | Listed(e, q) ensures Resolve(e, Key(e[q].rec)) == q {
      var p := NestedFrom(root, d, q);
      NestedListed(root, d, p);
      NestedResolve(root, d, p);
      NestedAt(root, d, p);
    }
  }

  lemma NestedFound(root: string, d: Disk, k: Id)
    requires Home(d)
    ensures Found(Nested(root, d), k) == SettledOption(root, Found(d, k), Moves(d, Resolve(d, k)))
  {
    hide Nested, Relocated;
    var e := Nested(root, d);
    if Found(d, k).Some? {
      var p := Resolve(d, k);
      NestedListed(root, d, p);
      NestedResolve(root, d, p);
      NestedAt(root, d, p);
      RelocatedKey(root, RecordAt(d, p));
    } else if Found(e, k).Some? {
      NestedKeepsHome(root, d);
      var p := NestedFrom(root, d, Resolve(e, k));
      NestedListed(root, d, p);
      NestedAt(root, d, p);
      RelocatedKey(root, RecordAt(d, p));
    }
  }

  lemma RelocatedKey(root: string, r: Record)
    ensures Key(Relocated(root, r)) == Key(r) && Loaded(Relocated(root, Loaded(r))) == Relocated(root, Loaded(r))
  {
  }

  // ---------- the log ----------

  const CURRENT_VERSION: nat := 4
  const NESTING: nat := 3

  function StepDisk(root: string, d: Disk, i: nat): Disk {
    if i == 1 then Rewritten(d, NormalizedProvider)
    else if i == 2 then Rewritten(d, Backfilled)
    else if i == NESTING then Nested(root, d)
    else d
  }

  /** Steps i and on from recorded version v. */
  ghost function MigrateFrom(root: string, d: Disk, v: nat, i: nat): (Disk, nat)
    decreases CURRENT_VERSION + 1 - i
  {
    if i > CURRENT_VERSION then (d, v)
    else if i <= v then MigrateFrom(root, d, v, i + 1)
    else if i == NESTING && AnyDeferred(d) then (Nested(root, d), v)
    else MigrateFrom(root, StepDisk(root, d, i), i, i + 1)
  }

  ghost function Migrate(root: string, d: Disk, v: nat): (Disk, nat) {
    MigrateFrom(root, d, v, 1)
  }

  /** r and s are one sandbox, up to what migrations may fix. */
  predicate Kin(r: Record, s: Record) {
    && Key(s) == Key(r) && s.running == r.running && s.flat == r.flat && |s.phases| == |r.phases|
    && LegacyAnchor(s.phases) == LegacyAnchor(r.phases)
    && (forall i :: 0 <= i < |r.phases| && r.phases[i].inPlace ==> s.phases[i] == r.phases[i])
    && (s.anchor == r.anchor || (r.anchor == "" && s.anchor == LegacyAnchor(r.phases)))
    && (s.namespace == r.namespace || (r.namespace == "" && s.namespace == DEFAULT_NAMESPACE))
    && (s.provider == r.provider || (r.provider == RETIRED_PROVIDER && s.provider == VZ_PROVIDER))
  }

  predicate KinOption(o: Option<Record>, n: Option<Record>) {
    o.Some? == n.Some? && (o.Some? ==> Kin(o.value, n.value))
  }

  lemma StepKeepsListing(root: string, d: Disk, i: nat)
    requires Home(d)
    ensures Home(StepDisk(root, d, i))
    ensures forall k :: KinOption(Found(d, k), Found(StepDisk(root, d, i), k))
  {
    hide Found, Rewritten, Nested, Home, Relocated;
    FieldStepsAreHarmless();
    if i == 1 {
      RewrittenKeepsHome(d, NormalizedProvider);
    } else if i == 2 {
      RewrittenKeepsHome(d, Backfilled);
    } else if i == NESTING {
      NestedKeepsHome(root, d);
      forall k ensures KinOption(Found(d, k), Found(StepDisk(root, d, i), k)) {
        NestedFound(root, d, k);
        if Found(d, k).Some? {
          RelocatedKin(root, Found(d, k).value);
        }
      }
    }
  }

  lemma RelocatedKin(root: string, r: Record)
    ensures Kin(r, Relocated(root, r))
  {
    var flat, interim := root + "/worktrees/" + r.name, root + "/worktrees/" + NamespaceName(r) + "/" + r.name;
    RelocationKeepsAnchor(r.phases, flat, interim, root + "/namespaces/" + NamespaceName(r) + "/worktrees/" + r.name);
  }

  /** Whatever is deferred: every listed record is still listed, under the same
      key, as the same sandbox, and no other record appears. */
  lemma {:induction false} MigrationsKeepListing(root: string, d: Disk, v: nat, i: nat)
    requires Home(d)
    ensures Home(MigrateFrom(root, d, v, i).0)
    ensures forall k :: KinOption(Found(d, k), Found(MigrateFrom(root, d, v, i).0, k))
    decreases CURRENT_VERSION + 1 - i
  {
    hide Found, StepDisk, Home, AnyDeferred;
    if i <= v && i <= CURRENT_VERSION {
      MigrationsKeepListing(root, d, v, i + 1);
    } else if i <= CURRENT_VERSION {
      StepKeepsListing(root, d, i);
      var e := StepDisk(root, d, i);
      assert i == NESTING ==> e == Nested(root, d) by {
        NestingStep(root, d);
      }
      if i != NESTING || !AnyDeferred(d) {
        MigrationsKeepListing(root, e, i, i + 1);
        forall k ensures KinOption(Found(d, k), Found(MigrateFrom(root, e, i, i + 1).0, k)) {
          assert KinOption(Found(d, k), Found(e, k));
        }
      }
    }
  }

  lemma NestingStep(root: string, d: Disk)
    ensures StepDisk(root, d, NESTING) == Nested(root, d)
  {
  }

  // ---------- versions and repetition ----------

  lemma FieldStepKeepsDeferral(d: Disk, f: Record -> Record)
    requires Harmless(f)
    ensures AnyDeferred(Rewritten(d, f)) <==> AnyDeferred(d)
  {
    hide Rewritten;
    forall p ensures Defers(Rewritten(d, f), p) <==> Defers(d, p) {
      RewrittenListed(d, f, p);
      if Listed(d, p) {
        RewrittenKey(d, f, p);
      }
    }
  }

  lemma RewrittenKey(d: Disk, f: Record -> Record, p: Path)
    requires Harmless(f) && Listed(d, p)
    ensures var r := Rewritten(d, f)[p].rec; Key(r) == Key(d[p].rec) && r.running == d[p].rec.running
  {
  }

  lemma EarlyStepKeepsDeferral(root: string, d: Disk, i: nat)
    requires i == 1 || i == 2
    ensures AnyDeferred(StepDisk(root, d, i)) <==> AnyDeferred(d)
  {
    FieldStepsAreHarmless();
    FieldStepKeepsDeferral(d, if i == 1 then NormalizedProvider else Backfilled);
  }

  /** The version a run records: it never decreases, and stops short of the
      nesting step exactly when a running sandbox had to be left behind. */
  function VersionAfter(v: nat, deferred: bool): (w: nat)
    ensures w >= v && (w >= CURRENT_VERSION || (deferred && w == NESTING - 1))
  {
    if v >= CURRENT_VERSION then v else if v < NESTING && deferred then NESTING - 1 else CURRENT_VERSION
  }

  lemma {:induction false} VersionReached(root: string, d: Disk, v: nat, i: nat)
    requires 1 <= i <= v + 1
    ensures MigrateFrom(root, d, v, i).1 == VersionAfter(v, AnyDeferred(d))
    decreases CURRENT_VERSION + 1 - i
  {
    hide StepDisk, AnyDeferred;
    if i <= v && i <= CURRENT_VERSION {
      VersionReached(root, d, v, i + 1);
    } else if i <= CURRENT_VERSION && !(i == NESTING && AnyDeferred(d)) {
      VersionReached(root, StepDisk(root, d, i), i, i + 1);
      if i < NESTING {
        EarlyStepKeepsDeferral(root, d, i);
      }
    }
  }

  ghost predicate NothingMoves(d: Disk) {
    forall p :: !Moves(d, p)
  }

  lemma NestedSettles(root: string, d: Disk)
    requires Home(d)
    ensures NothingMoves(Nested(root, d))
    ensures AnyDeferred(Nested(root, d)) <==> AnyDeferred(d)
  {
    hide Nested, Relocated, Home;
    var e := Nested(root, d);
    forall q ensures !Moves(e, q) && (Defers(e, q) <==> Defers(d, q)) {
      if q in e {
        var p := NestedFrom(root, d, q);
        NestedListed(root, d, p);
        NestedAt(root, d, p);
        if Moves(d, p) {
          RelocatedKey(root, d[p].rec);
          RelocatedStopped(root, RecordAt(d, p));
        }
      }
      if q in d {
        NestedAt(root, d, q);
        NestedListed(root, d, q);
      }
    }
  }

  lemma RelocatedStopped(root: string, r: Record)
    ensures Relocated(root, r).running == r.running && Key(Relocated(root, r)) == Key(r)
  {
  }

  lemma NestedStill(root: string, d: Disk)
    requires NothingMoves(d)
    ensures Nested(root, d) == d
  {
  }

  lemma SkipAll(root: string, d: Disk, v: nat, i: nat)
    requires i <= v + 1 && v >= CURRENT_VERSION
    ensures MigrateFrom(root, d, v, i) == (d, v)
    decreases CURRENT_VERSION + 1 - i
  {
    if i <= CURRENT_VERSION {
      SkipAll(root, d, v, i + 1);
    }
  }

  /** A run either completes the log or stops at the nesting step with all that
      could be moved in its final place. */
  lemma {:induction false} RunEnds(root: string, d: Disk, v: nat, i: nat)
    requires Home(d) && 1 <= i <= v + 1
    ensures var (e, w) := MigrateFrom(root, d, v, i);
            && (w >= CURRENT_VERSION || (w == NESTING - 1 && AnyDeferred(e)))
            && (v < NESTING ==> NothingMoves(e) && (AnyDeferred(e) <==> w < CURRENT_VERSION))
    decreases CURRENT_VERSION + 1 - i
  {
    hide StepDisk, AnyDeferred, Home, NothingMoves;
    if i <= v && i <= CURRENT_VERSION {
      RunEnds(root, d, v, i + 1);
    } else if i <= CURRENT_VERSION {
      StepKeepsListing(root, d, i);
      var e := StepDisk(root, d, i);
      if i == NESTING {
        NestingStep(root, d);
        NestedSettles(root, d);
        LastStep(root, e);
      } else {
        RunEnds(root, e, i, i + 1);
      }
    }
  }

  lemma LastStep(root: string, d: Disk)
    ensures MigrateFrom(root, d, NESTING, NESTING + 1) == (d, CURRENT_VERSION)
  {
  }

  /** A second run changes nothing, whether or not the first one deferred. */
  lemma SecondRunChangesNothing(root: string, d: Disk, v: nat)
    requires Home(d)
    ensures var (e, w) := Migrate(root, d, v); Migrate(root, e, w) == (e, w)
  {
    hide StepDisk, AnyDeferred, NothingMoves;
    var (e, w) := Migrate(root, d, v);
    RunEnds(root, d, v, 1);
    VersionReached(root, d, v, 1);
    if w >= CURRENT_VERSION {
      SkipAll(root, e, w, 1);
    } else {
      NestedStill(root, e);
      assert MigrateFrom(root, e, w, NESTING) == (e, w);
      assert MigrateFrom(root, e, w, 2) == (e, w);
    }
  }

  /** A whole run: every listed record has what the steps it went through fix,
      and is in the current layout, except running ones the run had to leave. */
  lemma FullyMigrated(root: string, d: Disk, v: nat, p: Path)
    requires Home(d)
    ensures var (e, w) := Migrate(root, d, v);
            Listed(e, p) ==>
              && (v < 1 ==> e[p].rec.provider != RETIRED_PROVIDER)
              && (v < 2 ==> e[p].rec.namespace != "" && (e[p].rec.anchor == "" ==> LegacyAnchor(e[p].rec.phases) == ""))
              && (v < NESTING ==> p == Dest(e[p].rec) || (e[p].rec.running && w == NESTING - 1))
  {
    hide StepDisk, Home, Found, MigrateFrom;
    var (e, w) := Migrate(root, d, v);
    RunEnds(root, d, v, 1);
    MigrationsKeepListing(root, d, v, 1);
    FieldsFixed(root, d, v);
    if Listed(e, p) {
      ListedIffFound(e, Key(e[p].rec), RecordAt(e, p));
      if v < NESTING {
        assert !Moves(e, p);
        assert p != Dest(e[p].rec) ==> Defers(e, p);
      }
    }
  }

  predicate Fixed(r: Record, v: nat) {
    && (v < 1 ==> r.provider != RETIRED_PROVIDER)
    && (v < 2 ==> r.namespace != "" && (r.anchor == "" ==> LegacyAnchor(r.phases) == ""))
  }

  ghost predicate AllFixed(d: Disk, v: nat) {
    forall k :: Found(d, k).Some? ==> Fixed(Found(d, k).value, v)
  }

  /** The run goes through d2, on which the field steps it takes are done. */
  lemma FieldsFixed(root: string, d: Disk, v: nat)
    requires Home(d)
    ensures AllFixed(Migrate(root, d, v).0, v)
  {
    hide Home, Found, Rewritten, Fixed, AllFixed;
    FieldStepsAreHarmless();
    var d1 := if v < 1 then Rewritten(d, NormalizedProvider) else d;
    var d2 := if v < 2 then Rewritten(d1, Backfilled) else d1;
    RewrittenKeepsHome(d, NormalizedProvider);
    RewrittenKeepsHome(d1, Backfilled);
    ThroughFieldSteps(root, d, v);
    FixedByFields(d, v);
    MigrationsKeepListing(root, d2, if v < 2 then 2 else v, 3);
    StaysFixed(d2, Migrate(root, d, v).0, v);
  }

  lemma ThroughFieldSteps(root: string, d: Disk, v: nat)
    ensures var d1 := if v < 1 then Rewritten(d, NormalizedProvider) else d;
            var d2 := if v < 2 then Rewritten(d1, Backfilled) else d1;
            Migrate(root, d, v) == MigrateFrom(root, d2, if v < 2 then 2 else v, 3)
  {
    hide Rewritten, AnyDeferred, Nested;
    var d1 := if v < 1 then Rewritten(d, NormalizedProvider) else d;
    var d2 := if v < 2 then Rewritten(d1, Backfilled) else d1;
    var v1 := if v < 1 then 1 else v;
    assert Migrate(root, d, v) == MigrateFrom(root, d1, v1, 2);
    assert MigrateFrom(root, d1, v1, 2) == MigrateFrom(root, d2, if v < 2 then 2 else v, 3);
  }

  lemma FixedByFields(d: Disk, v: nat)
    requires Home(d)
    ensures var d1 := if v < 1 then Rewritten(d, NormalizedProvider) else d;
            AllFixed(if v < 2 then Rewritten(d1, Backfilled) else d1, v)
  {
    hide Home, Found, Rewritten;
    FieldStepsAreHarmless();
    var d1 := if v < 1 then Rewritten(d, NormalizedProvider) else d;
    RewrittenKeepsHome(d, NormalizedProvider);
    RewrittenKeepsHome(d1, Backfilled);
  }

  lemma StaysFixed(d: Disk, e: Disk, v: nat)
    requires AllFixed(d, v) && forall k :: KinOption(Found(d, k), Found(e, k))
    ensures AllFixed(e, v)
  {
    hide Found;
    forall k | Found(e, k).Some? ensures Fixed(Found(e, k).value, v) {
      assert KinOption(Found(d, k), Found(e, k));
    }
  }

  // ---------- files a migration never touches ----------

  /** A file of a legacy layout that no record which may still move resolves to. */
  ghost predicate Stray(d: Disk, p: Path) {
    && p in d && !p.Current?
    && forall q :: Listed(d, q) && Dest(d[q].rec) !in d ==> Resolve(d, Key(d[q].rec)) != p
  }

  /** At home a hidden file stays, through any run. */
  lemma {:induction false} HiddenFileStays(root: string, d: Disk, v: nat, i: nat, p: Path)
    requires Home(d) && p in d && !Listed(d, p)
    ensures var e := MigrateFrom(root, d, v, i).0; p in e && e[p] == d[p] && !Listed(e, p)
    decreases CURRENT_VERSION + 1 - i
  {
    hide StepDisk, Home, AnyDeferred, Listed;
    if i <= v && i <= CURRENT_VERSION {
      HiddenFileStays(root, d, v, i + 1, p);
    } else if i <= CURRENT_VERSION {
      HiddenInStep(root, d, i, p);
      StepKeepsListing(root, d, i);
      NestingStep(root, d);
      if i != NESTING || !AnyDeferred(d) {
        HiddenFileStays(root, StepDisk(root, d, i), i, i + 1, p);
      }
    }
  }

  lemma HiddenInStep(root: string, d: Disk, i: nat, p: Path)
    requires Home(d) && p in d && !Listed(d, p)
    ensures var e := StepDisk(root, d, i); p in e && e[p] == d[p] && !Listed(e, p)
  {
    hide Nested, Home;
    FieldStepsAreHarmless();
    RewrittenListed(d, NormalizedProvider, p);
    RewrittenListed(d, Backfilled, p);
    NestedListed(root, d, p);
    NestedAt(root, d, p);
  }

  /** The disk after a move cut short between writing the record at its new
      place and removing the old file. */
  function Cut(root: string, d: Disk, p: Path): Disk
    requires Listed(d, p)
  {
    d[Dest(d[p].rec) := Stored(Relocated(root, RecordAt(d, p)))]
  }

  /** After such a cut the record is found under its key, and the old file is
      stray. Where scans know it by the same id it is hidden, and no run of the
      migrations ever removes it; where by another, the sandbox is listed twice. */
  lemma InterruptedMoveStays(root: string, d: Disk, p: Path)
    requires Home(d) && Moves(d, p)
    ensures var k := Key(d[p].rec);
            var cut := Cut(root, d, p);
            && Found(cut, k) == Some(Relocated(root, RecordAt(d, p)))
            && Stray(cut, p) && cut[p] == d[p]
            && (IdOf(p) == k ==>
                  && Home(cut) && !Listed(cut, p)
                  && forall v :: p in Migrate(root, cut, v).0 && Migrate(root, cut, v).0[p] == d[p])
            && (IdOf(p) != k ==> Listed(cut, p) && Listed(cut, Current(k)))
  {
    hide Relocated, MigrateFrom;
    var k := Key(d[p].rec);
    var cut := Cut(root, d, p);
    RelocatedKey(root, RecordAt(d, p));
    RelocatedKey(root, d[p].rec);
    assert Resolve(d, k) == p && Current(k) !in d;
    forall id | id != k ensures Resolve(cut, id) == Resolve(d, id) {
    }
    forall q | Listed(cut, q) && q != Current(k) && q != p ensures Resolve(cut, Key(cut[q].rec)) == q {
      assert Listed(d, q) && Resolve(d, Key(d[q].rec)) == q;
    }
    if IdOf(p) == k {
      assert Resolve(cut, k) == Current(k);
      forall v ensures p in Migrate(root, cut, v).0 && Migrate(root, cut, v).0[p] == d[p] {
        HiddenFileStays(root, cut, v, 1, p);
      }
    }
  }
}
