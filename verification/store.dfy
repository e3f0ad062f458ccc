/** The store as an object: listing, saving, and the migration steps as the
    loops over a listing that they are, on any disk. */
module Stores {
  import opened Text
  import opened Migrations

  // ---------- listing ----------

  /** What a directory listing returns, with the files it came from. */
  ghost predicate Enumerates(d: Disk, list: seq<Record>, paths: seq<Path>) {
    && |list| == |paths|
    && (forall i :: 0 <= i < |paths| ==> Listed(d, paths[i]) && list[i] == RecordAt(d, paths[i]))
    && (forall i, j :: 0 <= i < j < |paths| ==> paths[i] != paths[j])
    && forall p :: Listed(d, p) ==> p in paths
  }

  /** Part of a listing: ids seen so far, and files still to be scanned. */
  ghost predicate Scanned(d: Disk, list: seq<Record>, paths: seq<Path>, seen: set<Id>, todo: set<Path>) {
    && |list| == |paths|
    && (forall i :: 0 <= i < |paths| ==>
          Listed(d, paths[i]) && list[i] == RecordAt(d, paths[i]) && IdOf(paths[i]) in seen)
    && (forall i, j :: 0 <= i < j < |paths| ==> paths[i] != paths[j])
    && (forall id :: id in seen ==> Resolve(d, id) in paths)
    && forall p :: Listed(d, p) ==> p in paths || p in todo
  }

  lemma ScanOne(d: Disk, list: seq<Record>, paths: seq<Path>, seen: set<Id>, todo: set<Path>, p: Path)
    requires Scanned(d, list, paths, seen, todo) && p in todo && p in d
    ensures var id := IdOf(p);
            var q := Resolve(d, id);
            if id in seen || !(q in d && d[q].Stored?) then Scanned(d, list, paths, seen, todo - {p})
            else Scanned(d, list + [Loaded(d[q].rec)], paths + [q], seen + {id}, todo - {p})
  {
    var id := IdOf(p);
    var q := Resolve(d, id);
    assert q in d && IdOf(q) == id;
    assert Listed(d, p) ==> p == q;
    assert forall x :: x in paths + [q] <==> x in paths || x == q;
  }

  // ---------- the steps as loops over a listing ----------

  /** Only the file that r's key resolves to differs, and it holds r. */
  ghost predicate SavedOver(d: Disk, r: Record, e: Disk) {
    var at := Resolve(d, Key(r));
    && at in e && e[at] == Stored(Saved(r))
    && forall p :: p != at ==> (p in e <==> p in d) && (p in e ==> e[p] == d[p])
  }

  lemma SavedOverIs(d: Disk, r: Record, e: Disk)
    requires SavedOver(d, r, e)
    ensures e == SaveTo(d, r)
  {
  }

  function EditOne(d: Disk, f: Record -> Record, r: Record): Disk {
    if f(r) != r then SaveTo(d, f(r)) else d
  }

  function EditAll(d: Disk, f: Record -> Record, list: seq<Record>): Disk {
    if list == [] then d else EditOne(EditAll(d, f, list[..|list| - 1]), f, list[|list| - 1])
  }

  /** Skips a record whose destination is taken, or that is running. */
  function NestOne(root: string, d: Disk, r: Record): Disk {
    var was := Resolve(d, Key(r));
    if Dest(r) in d || r.running then d
    else if was == Dest(r) then d[Dest(r) := Stored(Relocated(root, r))]
    else d[Dest(r) := Stored(Relocated(root, r))] - {was}
  }

  function NestAll(root: string, d: Disk, list: seq<Record>): Disk {
    if list == [] then d else NestOne(root, NestAll(root, d, list[..|list| - 1]), list[|list| - 1])
  }

  /** Every listed record that f changes is the one its key resolves to. */
  ghost predicate InPlace(d: Disk, f: Record -> Record) {
    forall p :: Listed(d, p) && f(RecordAt(d, p)) != RecordAt(d, p) ==> Resolve(d, Key(d[p].rec)) == p
  }

  lemma HomeIsInPlace(d: Disk, f: Record -> Record)
    requires Home(d)
    ensures InPlace(d, f)
  {
  }

  /** The "target taken" case: it is the file the record's key resolves to. */
  lemma TakenTargetIsOwn(d: Disk, r: Record)
    ensures Dest(r) in d ==> Resolve(d, Key(r)) == Dest(r)
  {
  }

  // ---------- a field step edits in place, or not ----------

  /** The record listed at j is changed and saved to p. */
  predicate Writes(d: Disk, f: Record -> Record, list: seq<Record>, j: nat, p: Path)
    requires j < |list|
  {
    f(list[j]) != list[j] && Resolve(d, Key(list[j])) == p
  }

  /** One of the first n listed records was changed and is what p holds. */
  ghost predicate WrittenAt(d: Disk, f: Record -> Record, list: seq<Record>, n: nat, e: Disk, p: Path)
    requires n <= |list|
  {
    p in e && exists j :: 0 <= j < n && Writes(d, f, list, j, p) && e[p] == Stored(Saved(f(list[j])))
  }

  /** What a prefix of the loop has done: no key resolves elsewhere, no file is
      gone, and a file differs only if some changed record was saved there. */
  ghost predicate EditedSoFar(d: Disk, f: Record -> Record, list: seq<Record>, n: nat, e: Disk)
    requires n <= |list|
  {
    && (forall k :: Resolve(e, k) == Resolve(d, k))
    && (forall p :: p in d ==> p in e)
    && forall p :: p in e ==> (p in d && e[p] == d[p]) || WrittenAt(d, f, list, n, e, p)
  }

  lemma {:induction false} EditSoFar(d: Disk, f: Record -> Record, list: seq<Record>, n: nat)
    requires Harmless(f) && n <= |list|
    ensures EditedSoFar(d, f, list, n, EditAll(d, f, list[..n]))
  {
    hide WrittenAt, EditOne, Resolve;
    if n > 0 {
      EditSoFar(d, f, list, n - 1);
      assert list[..n][..n - 1] == list[..n - 1];
      EditStep(d, f, list, n - 1, EditAll(d, f, list[..n - 1]));
    }
  }

  /** One more turn of the loop, seen from one file. */
  lemma EditStepAt(d: Disk, f: Record -> Record, list: seq<Record>, n: nat, e: Disk, p: Path)
    requires Harmless(f) && n < |list| && forall k :: Resolve(e, k) == Resolve(d, k)
    ensures var e' := EditOne(e, f, list[n]);
            && (Writes(d, f, list, n, p) ==> WrittenAt(d, f, list, n + 1, e', p))
            && (!Writes(d, f, list, n, p) ==> (p in e' <==> p in e) && (p in e ==> e'[p] == e[p]))
            && (WrittenAt(d, f, list, n, e, p) ==> WrittenAt(d, f, list, n + 1, e', p))
  {
    hide Resolve;
    var r := list[n];
    assert Key(f(r)) == Key(r);
    if Writes(d, f, list, n, p) {
      assert EditOne(e, f, r)[p] == Stored(Saved(f(list[n])));
    } else if WrittenAt(d, f, list, n, e, p) {
      var j :| 0 <= j < n && Writes(d, f, list, j, p) && e[p] == Stored(Saved(f(list[j])));
    }
  }

  lemma EditStep(d: Disk, f: Record -> Record, list: seq<Record>, n: nat, e: Disk)
    requires Harmless(f) && n < |list| && EditedSoFar(d, f, list, n, e)
    ensures EditedSoFar(d, f, list, n + 1, EditOne(e, f, list[n]))
  {
    hide Resolve, WrittenAt, Writes;
    var e' := EditOne(e, f, list[n]);
    SaveKeepsResolve(e, f(list[n]));
    forall p ensures p in d ==> p in e'
             ensures p in e' ==> (p in d && e'[p] == d[p]) || WrittenAt(d, f, list, n + 1, e', p)
    {
      EditStepAt(d, f, list, n, e, p);
      WrittenExists(d, f, list, n + 1, e', p);
    }
  }

  lemma WrittenExists(d: Disk, f: Record -> Record, list: seq<Record>, n: nat, e: Disk, p: Path)
    requires n <= |list|
    ensures WrittenAt(d, f, list, n, e, p) ==> p in e
  {
  }

  lemma {:induction false} EditInPlace(d: Disk, f: Record -> Record, list: seq<Record>, paths: seq<Path>, n: nat)
    requires InPlace(d, f) && Harmless(f) && Enumerates(d, list, paths) && n <= |list|
    ensures EditAll(d, f, list[..n]) == RewrittenOn(d, f, Taken(paths, n))
  {
    hide RewrittenOn, Enumerates, InPlace, EditOne;
    if n == 0 {
      NothingRewritten(d, f, paths);
    } else {
      EditInPlace(d, f, list, paths, n - 1);
      assert list[..n][..n - 1] == list[..n - 1];
      RewriteOneMore(d, f, list, paths, n - 1);
    }
  }

  lemma NothingRewritten(d: Disk, f: Record -> Record, paths: seq<Path>)
    ensures RewrittenOn(d, f, Taken(paths, 0)) == d
  {
  }

  /** Whatever order records are listed in, a field step leaves each listed
      record edited in its own file, and every other file alone, if and only if
      every record it changes has a key that resolves to its own file. */
  lemma FieldStepInPlaceIff(d: Disk, f: Record -> Record, list: seq<Record>, paths: seq<Path>)
    requires Harmless(f) && Enumerates(d, list, paths)
    ensures EditAll(d, f, list) == Rewritten(d, f) <==> InPlace(d, f)
  {
    hide Resolve, Rewritten, RewrittenOn;
    assert list[..|list|] == list;
    if InPlace(d, f) {
      EditInPlace(d, f, list, paths, |list|);
      RewriteDone(d, f, list, paths);
    } else {
      var p :| Listed(d, p) && f(RecordAt(d, p)) != RecordAt(d, p) && Resolve(d, Key(d[p].rec)) != p;
      EditSoFar(d, f, list, |list|);
      Misses(d, f, list, p, EditAll(d, f, list));
    }
  }

  /** A changed record that its key does not find is not saved to its file. */
  lemma Misses(d: Disk, f: Record -> Record, list: seq<Record>, p: Path, e: Disk)
    requires Harmless(f) && EditedSoFar(d, f, list, |list|, e)
    requires Listed(d, p) && f(RecordAt(d, p)) != RecordAt(d, p) && Resolve(d, Key(d[p].rec)) != p
    ensures e != Rewritten(d, f)
  {
    hide Resolve;
    var r := RecordAt(d, p);
    assert Rewritten(d, f)[p] == Stored(Saved(f(r)));
    if e[p] != d[p] {
      var j :| 0 <= j < |list| && Writes(d, f, list, j, p) && e[p] == Stored(Saved(f(list[j])));
      assert Key(f(list[j])) == Key(list[j]) && Key(f(r)) == Key(r);
    }
  }

  /** Two listed records, p and q, with one key that resolves to q: a step that
      changes only p's saves it over q's, which is lost. */
  lemma SharedKeyOverwrites(d: Disk, f: Record -> Record, list: seq<Record>, paths: seq<Path>, p: Path, q: Path)
    requires Harmless(f) && Enumerates(d, list, paths)
    requires Listed(d, p) && Listed(d, q) && p != q && Resolve(d, Key(d[p].rec)) == q
    requires f(RecordAt(d, p)) != RecordAt(d, p) && f(RecordAt(d, q)) == RecordAt(d, q)
    requires forall x :: Listed(d, x) && Resolve(d, Key(d[x].rec)) == q ==> x == p || x == q
    ensures q in EditAll(d, f, list) && EditAll(d, f, list)[q] == Stored(Saved(f(RecordAt(d, p))))
  {
    hide Resolve, EditAll;
    assert list[..|list|] == list;
    var i :| 0 <= i < |paths| && paths[i] == p;
    assert Listed(d, paths[i]) && list[i] == RecordAt(d, paths[i]) && Key(list[i]) == Key(d[p].rec);
    WrittenIsWritten(d, f, list, |list|, i);
    var e := EditAll(d, f, list);
    var j :| 0 <= j < |list| && Writes(d, f, list, j, q) && e[q] == Stored(Saved(f(list[j])));
    assert Listed(d, paths[j]) && list[j] == RecordAt(d, paths[j]) && Key(list[j]) == Key(d[paths[j]].rec);
  }

  /** What some listed record was saved to holds some such record at the end. */
  lemma {:induction false} WrittenIsWritten(d: Disk, f: Record -> Record, list: seq<Record>, n: nat, i: nat)
    requires Harmless(f) && i < n <= |list| && f(list[i]) != list[i]
    ensures WrittenAt(d, f, list, n, EditAll(d, f, list[..n]), Resolve(d, Key(list[i])))
  {
    hide Resolve, WrittenAt, EditOne;
    EditSoFar(d, f, list, n - 1);
    assert list[..n][..n - 1] == list[..n - 1];
    EditStepAt(d, f, list, n - 1, EditAll(d, f, list[..n - 1]), Resolve(d, Key(list[i])));
    if i < n - 1 {
      WrittenIsWritten(d, f, list, n - 1, i);
    }
  }

  // ---------- stray files survive ----------

  /** Every stray file of d is one of e too, unchanged. */
  ghost predicate StraysKept(d: Disk, e: Disk) {
    forall p :: Stray(d, p) ==> Stray(e, p) && e[p] == d[p]
  }

  lemma StraysKeptAgain(d: Disk, e: Disk, e': Disk)
    ensures StraysKept(d, d)
    ensures StraysKept(d, e) && StraysKept(e, e') ==> StraysKept(d, e')
  {
  }

  /** Field steps save nothing to a stray file, and none stops being stray. */
  lemma EditKeepsStrays(d: Disk, f: Record -> Record, list: seq<Record>, paths: seq<Path>)
    requires Harmless(f) && Enumerates(d, list, paths)
    ensures StraysKept(d, EditAll(d, f, list))
  {
    hide Resolve;
    assert list[..|list|] == list;
    EditSoFar(d, f, list, |list|);
    var e := EditAll(d, f, list);
    forall p | Stray(d, p) ensures Stray(e, p) && e[p] == d[p] {
      EditKeepsStray(d, f, list, paths, e, p);
    }
  }

  lemma EditKeepsStray(d: Disk, f: Record -> Record, list: seq<Record>, paths: seq<Path>, e: Disk, p: Path)
    requires Harmless(f) && Enumerates(d, list, paths) && EditedSoFar(d, f, list, |list|, e) && Stray(d, p)
    ensures Stray(e, p) && e[p] == d[p]
  {
    forall j | 0 <= j < |list| ensures !Writes(d, f, list, j, p) {
      assert Listed(d, paths[j]) && list[j] == RecordAt(d, paths[j]);
      assert Key(list[j]) == Key(d[paths[j]].rec);
    }
    forall q | Listed(e, q) && Dest(e[q].rec) !in e ensures Resolve(e, Key(e[q].rec)) != p {
      if q in d && e[q] == d[q] {
        assert Listed(d, q);
      } else {
        var j :| 0 <= j < |list| && Writes(d, f, list, j, q) && e[q] == Stored(Saved(f(list[j])));
        assert Key(e[q].rec) == Key(f(list[j])) == Key(list[j]);
      }
    }
  }

  /** The record listed at j moves, and p is what its key resolves to. */
  predicate Removes(d: Disk, list: seq<Record>, j: nat, p: Path)
    requires j < |list|
  {
    Dest(list[j]) !in d && !list[j].running && Resolve(d, Key(list[j])) == p
  }

  /** Files that are still there are unchanged, and what is new is in the
      current layout under its record's key. */
  ghost predicate Intact(d: Disk, e: Disk) {
    && (forall p :: p in d && p in e ==> e[p] == d[p])
    && (forall p :: p in e && p !in d ==> p.Current? && e[p].Stored? && Dest(e[p].rec) == p)
  }

  /** Only legacy files are removed, each by a record that moved. */
  ghost predicate RemovedOnly(d: Disk, list: seq<Record>, n: nat, e: Disk)
    requires n <= |list|
  {
    forall p :: p in d && p !in e ==> !p.Current? && exists j :: 0 <= j < n && Removes(d, list, j, p)
  }

  ghost predicate InterimMoved(d: Disk, e: Disk) {
    forall k :: Interim(k) in d && Interim(k) !in e ==> Current(k) in e
  }

  /** What a prefix of the nesting loop has done. */
  ghost predicate NestedSoFar(d: Disk, list: seq<Record>, n: nat, e: Disk)
    requires n <= |list|
  {
    Intact(d, e) && RemovedOnly(d, list, n, e) && InterimMoved(d, e)
  }

  lemma {:induction false} NestSoFar(root: string, d: Disk, list: seq<Record>, n: nat)
    requires n <= |list|
    ensures NestedSoFar(d, list, n, NestAll(root, d, list[..n]))
  {
    hide NestedSoFar, NestOne;
    if n == 0 {
      NothingNested(d, list);
    } else {
      NestSoFar(root, d, list, n - 1);
      assert list[..n][..n - 1] == list[..n - 1];
      NestStep(root, d, list, n - 1, NestAll(root, d, list[..n - 1]));
    }
  }

  lemma NothingNested(d: Disk, list: seq<Record>)
    ensures NestedSoFar(d, list, 0, d)
  {
  }

  /** What the next record's key resolves to is what it resolved to at first. */
  lemma ResolvesAsBefore(d: Disk, list: seq<Record>, n: nat, e: Disk, k: Id)
    requires n <= |list| && NestedSoFar(d, list, n, e) && Current(k) !in e
    ensures Current(k) !in d
    ensures Resolve(e, k) == Current(k) || (Resolve(e, k) == Resolve(d, k) && Resolve(e, k) in e && Resolve(e, k) in d)
  {
  }

  /** One record moves from was, if that is a file, to the current layout. */
  lemma MoveOne(d: Disk, list: seq<Record>, n: nat, e: Disk, r: Record, was: Path)
    requires n < |list| && NestedSoFar(d, list, n, e) && Dest(r) !in e && Dest(r) !in d
    requires was.Interim? ==> was.id == Key(r)
    requires was == Dest(r) || (!was.Current? && Removes(d, list, n, was))
    ensures var e1 := e[Dest(r) := Stored(r)];
            NestedSoFar(d, list, n + 1, if was == Dest(r) then e1 else e1 - {was})
  {
    hide NestedSoFar, Removes, Key;
    var e1 := e[Dest(r) := Stored(r)];
    var e' := if was == Dest(r) then e1 else e1 - {was};
    assert Intact(d, e') && InterimMoved(d, e') by {
      NestedParts(d, list, n, e);
    }
    assert RemovedOnly(d, list, n + 1, e') by {
      NestedParts(d, list, n, e);
      hide Intact, InterimMoved;
      forall p | p in d && p !in e' ensures !p.Current? && exists j :: 0 <= j < n + 1 && Removes(d, list, j, p) {
        if p in e {
          assert p == was && Removes(d, list, n, p);
        } else {
          var j :| 0 <= j < n && Removes(d, list, j, p);
        }
      }
    }
    NestedWhole(d, list, n + 1, e');
  }

  lemma NestedParts(d: Disk, list: seq<Record>, n: nat, e: Disk)
    requires n <= |list| && NestedSoFar(d, list, n, e)
    ensures Intact(d, e) && RemovedOnly(d, list, n, e) && InterimMoved(d, e)
  {
  }

  lemma NestedWhole(d: Disk, list: seq<Record>, n: nat, e: Disk)
    requires n <= |list| && Intact(d, e) && RemovedOnly(d, list, n, e) && InterimMoved(d, e)
    ensures NestedSoFar(d, list, n, e)
  {
  }

  lemma NestStep(root: string, d: Disk, list: seq<Record>, n: nat, e: Disk)
    requires n < |list| && NestedSoFar(d, list, n, e)
    ensures NestedSoFar(d, list, n + 1, NestOne(root, e, list[n]))
  {
    hide Relocated, NestedSoFar;
    var r := list[n];
    RelocatedKey(root, r);
    if Dest(r) in e || r.running {
      Weaken(d, list, n, e);
    } else {
      ResolvesAsBefore(d, list, n, e, Key(r));
      MoveOne(d, list, n, e, Relocated(root, r), Resolve(e, Key(r)));
    }
  }

  lemma Weaken(d: Disk, list: seq<Record>, n: nat, e: Disk)
    requires n < |list| && NestedSoFar(d, list, n, e)
    ensures NestedSoFar(d, list, n + 1, e)
  {
    hide Removes, Intact, InterimMoved;
    forall p | p in d && p !in e ensures exists j :: 0 <= j < n + 1 && Removes(d, list, j, p) {
      var j :| 0 <= j < n && Removes(d, list, j, p);
    }
  }

  lemma NestKeepsStrays(root: string, d: Disk, list: seq<Record>, paths: seq<Path>)
    requires Enumerates(d, list, paths)
    ensures StraysKept(d, NestAll(root, d, list))
  {
    hide NestedSoFar, Enumerates, NestAll;
    assert list[..|list|] == list;
    NestSoFar(root, d, list, |list|);
    var e := NestAll(root, d, list);
    forall p | Stray(d, p) ensures Stray(e, p) && e[p] == d[p] {
      NestKeepsStray(d, list, paths, e, p);
    }
  }

  /** The nesting step removes no stray file, and none stops being stray. */
  lemma NestKeepsStray(d: Disk, list: seq<Record>, paths: seq<Path>, e: Disk, p: Path)
    requires Enumerates(d, list, paths) && NestedSoFar(d, list, |list|, e) && Stray(d, p)
    ensures Stray(e, p) && e[p] == d[p]
  {
    forall j | 0 <= j < |list| ensures !Removes(d, list, j, p) {
      assert Listed(d, paths[j]) && list[j] == RecordAt(d, paths[j]);
    }
    forall q | Listed(e, q) && Dest(e[q].rec) !in e ensures Resolve(e, Key(e[q].rec)) != p {
      assert q in d && Listed(d, q);
      var k := Key(d[q].rec);
      assert Interim(k) in e <==> Interim(k) in d;
    }
  }

  // ---------- nesting at home ----------

  lemma {:induction false} NestAllIsNested(root: string, d: Disk, list: seq<Record>, paths: seq<Path>, n: nat)
    requires Home(d) && Enumerates(d, list, paths) && n <= |list|
    ensures n <= |paths| && NestAll(root, d, list[..n]) == NestedOn(root, d, Taken(paths, n))
  {
    hide NestedOn, Home, Relocated;
    if n == 0 {
      NoneNested(root, d, paths);
    } else {
      NestAllIsNested(root, d, list, paths, n - 1);
      assert list[..n][..n - 1] == list[..n - 1];
      NestNext(root, d, list, paths, n - 1);
    }
  }

  lemma NoneNested(root: string, d: Disk, paths: seq<Path>)
    ensures NestedOn(root, d, Taken(paths, 0)) == d
  {
  }

  function Taken(paths: seq<Path>, n: nat): set<Path>
    requires n <= |paths|
  {
    set i | 0 <= i < n :: paths[i]
  }

  lemma TakenNext(paths: seq<Path>, n: nat)
    requires n < |paths|
    ensures Taken(paths, n + 1) == Taken(paths, n) + {paths[n]}
    ensures (forall i, j :: 0 <= i < j < |paths| ==> paths[i] != paths[j]) ==> paths[n] !in Taken(paths, n)
  {
  }

  /** Handling the record listed at i, in a disk rewritten up to there. */
  lemma RewriteOneMore(d: Disk, f: Record -> Record, list: seq<Record>, paths: seq<Path>, i: nat)
    requires InPlace(d, f) && Harmless(f) && Enumerates(d, list, paths) && i < |list|
    ensures |list| == |paths|
    ensures RewrittenOn(d, f, Taken(paths, i + 1)) == EditOne(RewrittenOn(d, f, Taken(paths, i)), f, list[i])
  {
    var p := paths[i];
    var e := RewrittenOn(d, f, Taken(paths, i));
    TakenNext(paths, i);
    SameResolve(d, e);
    assert Listed(d, p) && list[i] == RecordAt(d, p);
    assert Key(f(list[i])) == Key(d[p].rec);
    assert e[p] == d[p];
  }

  lemma RewriteDone(d: Disk, f: Record -> Record, list: seq<Record>, paths: seq<Path>)
    requires Enumerates(d, list, paths)
    ensures |list| == |paths| && RewrittenOn(d, f, Taken(paths, |list|)) == Rewritten(d, f)
  {
  }

  ghost predicate SomeDefers(d: Disk, paths: seq<Path>, n: nat)
    requires n <= |paths|
  {
    exists i :: 0 <= i < n && Defers(d, paths[i])
  }

  lemma NoneDefers(d: Disk, paths: seq<Path>)
    ensures !SomeDefers(d, paths, 0)
  {
  }

  lemma NestNext(root: string, d: Disk, list: seq<Record>, paths: seq<Path>, i: nat)
    requires Home(d) && Enumerates(d, list, paths) && i < |list|
    ensures |list| == |paths|
    ensures SomeDefers(d, paths, i + 1) <==> SomeDefers(d, paths, i) || Defers(d, paths[i])
    ensures var e, e', r := NestedOn(root, d, Taken(paths, i)), NestedOn(root, d, Taken(paths, i + 1)), list[i];
            var p := paths[i];
            && (Dest(r) in e <==> p == Dest(r)) && Resolve(e, Key(r)) == p
            && (Defers(d, p) <==> Dest(r) !in e && r.running)
            && if Dest(r) in e || r.running then e' == e
               else p != Dest(r) && e' == e[Dest(r) := Stored(Relocated(root, r))] - {p}
  {
    hide NestedOn, Relocated;
    var p := paths[i];
    TakenNext(paths, i);
    assert Listed(d, p) && list[i] == RecordAt(d, p);
    NotYetNested(root, d, Taken(paths, i), p);
    NestOneMore(root, d, Taken(paths, i), p);
  }

  lemma NestDone(root: string, d: Disk, list: seq<Record>, paths: seq<Path>)
    requires Enumerates(d, list, paths)
    ensures |list| == |paths| && NestedOn(root, d, Taken(paths, |list|)) == Nested(root, d)
    ensures SomeDefers(d, paths, |list|) <==> AnyDeferred(d)
  {
    var ps := Taken(paths, |list|);
    forall p ensures p in ps <==> Listed(d, p) {
    }
    assert Arrivals(d, ps) == Arrivals(d, d.Keys);
    assert forall q :: Arrives(d, ps, q) <==> Arrives(d, d.Keys, q);
    if AnyDeferred(d) {
      var p :| Defers(d, p);
      assert p in paths;
    }
  }

  // ---------- the store ----------

  class Store {
    const root: string
    var disk: Disk
    var version: nat

    constructor (root: string, disk: Disk, version: nat)
      ensures this.root == root && this.disk == disk && this.version == version
    {
      this.root, this.disk, this.version := root, disk, version;
    }

    /** The current layout is scanned before the legacy ones. */
    method List() returns (list: seq<Record>, ghost paths: seq<Path>)
      ensures Enumerates(disk, list, paths)
      ensures forall r :: r in list <==> exists p :: Listed(disk, p) && RecordAt(disk, p) == r
    {
      var seen: set<Id> := {};
      var todo := disk.Keys;
      list, paths := [], [];
      while todo != {}
        invariant todo <= disk.Keys
        invariant Scanned(disk, list, paths, seen, todo)
        decreases todo
      {
        var p := PickNext(todo);
        var id := IdOf(p);
        var q := Resolve(disk, id);
        ScanOne(disk, list, paths, seen, todo, p);
        if id !in seen && disk[q].Stored? {
          seen := seen + {id};
          list := list + [Loaded(disk[q].rec)];
          paths := paths + [q];
        }
        todo := todo - {p};
      }
    }

    method PickNext(todo: set<Path>) returns (p: Path)
      requires todo != {}
      ensures p in todo && (!p.Current? ==> forall q :: q in todo ==> !q.Current?)
    {
      var current := set q | q in todo && q.Current?;
      if current != {} {
        p :| p in current;
      } else {
        p :| p in todo;
        assert forall q :: q in todo && q.Current? ==> q in current;
      }
    }

    /** What is saved is what its key loads. No key resolves elsewhere than
        before, and no other file changes, appears or goes. */
    method Save(r: Record)
      modifies this`disk
      ensures Load(disk, Key(r)) == Some(Loaded(Saved(r)))
      ensures forall k :: Resolve(disk, k) == Resolve(old(disk), k)
      ensures forall k :: Resolve(disk, k) != Resolve(disk, Key(r)) ==> Load(disk, k) == Load(old(disk), k)
      ensures SavedOver(old(disk), r, disk)
    {
      SaveKeepsResolve(disk, r);
      disk := disk[Resolve(disk, Key(r)) := Stored(Saved(r))];
    }

    method MigNormalizeProviders() returns (ghost list: seq<Record>, ghost paths: seq<Path>)
      modifies this`disk
      ensures Enumerates(old(disk), list, paths) && disk == EditAll(old(disk), NormalizedProvider, list)
      ensures disk == Rewritten(old(disk), NormalizedProvider) <==> InPlace(old(disk), NormalizedProvider)
    {
      hide Enumerates, InPlace, Rewritten, SaveTo;
      var todo;
      todo, paths := List();
      list := todo;
      FieldStepsAreHarmless();
      for i := 0 to |todo|
        invariant disk == EditAll(old(disk), NormalizedProvider, list[..i])
      {
        var sb := todo[i];
        assert list[..i + 1][..i] == list[..i];
        if sb.provider == RETIRED_PROVIDER {
          sb := sb.(provider := VZ_PROVIDER);
          ghost var before := disk;
          Save(sb);
          SavedOverIs(before, sb, disk);
        }
      }
      assert list[..|list|] == list;
      FieldStepInPlaceIff(old(disk), NormalizedProvider, list, paths);
    }

    method MigBackfillFields() returns (ghost list: seq<Record>, ghost paths: seq<Path>)
      modifies this`disk
      ensures Enumerates(old(disk), list, paths) && disk == EditAll(old(disk), Backfilled, list)
      ensures disk == Rewritten(old(disk), Backfilled) <==> InPlace(old(disk), Backfilled)
    {
      hide Enumerates, InPlace, Rewritten, SaveTo;
      var todo;
      todo, paths := List();
      list := todo;
      FieldStepsAreHarmless();
      for i := 0 to |todo|
        invariant disk == EditAll(old(disk), Backfilled, list[..i])
      {
        var sb := todo[i];
        assert list[..i + 1][..i] == list[..i];
        var dirty := false;
        if sb.anchor == "" {
          var a := FindAnchor(sb.phases);
          if a != "" {
            sb := sb.(anchor := a);
            dirty := true;
          }
        }
        if sb.namespace == "" {
          sb := sb.(namespace := DEFAULT_NAMESPACE);
          dirty := true;
        }
        if dirty {
          ghost var before := disk;
          Save(sb);
          SavedOverIs(before, sb, disk);
        }
      }
      assert list[..|list|] == list;
      FieldStepInPlaceIff(old(disk), Backfilled, list, paths);
    }

    method FindAnchor(phases: seq<Phase>) returns (a: string)
      ensures a == LegacyAnchor(phases)
    {
      for i := 0 to |phases|
        invariant LegacyAnchor(phases) == LegacyAnchor(phases[i..])
      {
        if phases[i].inPlace && phases[i].worktree != "" {
          return phases[i].worktree;
        }
        assert phases[i..][1..] == phases[i + 1..];
      }
      return "";
    }

    /** A taken destination is always what the record's key resolves to, so the
        only reason to defer is a running machine. */
    method MigNestNamespaces() returns (deferred: seq<string>, ghost list: seq<Record>, ghost paths: seq<Path>)
      modifies this`disk
      ensures Enumerates(old(disk), list, paths) && disk == NestAll(root, old(disk), list)
      ensures forall n :: n in deferred ==> exists i :: 0 <= i < |list| && list[i].running && list[i].name == n
      ensures Home(old(disk)) ==> disk == Nested(root, old(disk)) && (deferred != [] <==> AnyDeferred(old(disk)))
    {
      hide Enumerates, Home, NestedOn, Nested, Relocated, AnyDeferred, SomeDefers;
      var todo;
      todo, paths := List();
      list := todo;
      NoneDefers(disk, paths);
      deferred := [];
      for i := 0 to |todo|
        invariant disk == NestAll(root, old(disk), list[..i])
        invariant forall n :: n in deferred ==> exists j :: 0 <= j < i && list[j].running && list[j].name == n
        invariant Home(old(disk)) ==> i <= |paths| && (deferred != [] <==> SomeDefers(old(disk), paths, i))
      {
        var sb := todo[i];
        var dest := Dest(sb);
        assert list[..i + 1][..i] == list[..i];
        TakenTargetIsOwn(disk, sb);
        if Home(old(disk)) {
          NestAllIsNested(root, old(disk), list, paths, i);
          NestNext(root, old(disk), list, paths, i);
        }
        if dest in disk {
          if Resolve(disk, Key(sb)) != dest {
            deferred := deferred + [sb.name];
          }
        } else if sb.running {
          deferred := deferred + [sb.name];
        } else {
          var was := Resolve(disk, Key(sb));
          disk := disk[dest := Stored(Relocated(root, sb))];
          if was != dest {
            disk := disk - {was};
          }
        }
      }
      assert list[..|list|] == list;
      NestDone(root, old(disk), list, paths);
      if Home(old(disk)) {
        NestAllIsNested(root, old(disk), list, paths, |list|);
      }
    }

    /** Loading has already folded the lists this step looks for. */
    method MigNetworkBlocks()
      modifies this`disk
      ensures disk == old(disk)
    {
      var list, paths := List();
      for i := 0 to |list|
        invariant disk == old(disk)
      {
        var sb := list[i];
        disk := if sb.flat then SaveTo(disk, Loaded(sb)) else disk;
      }
    }

    /** A file no movable record resolves to survives every step, on any disk. */
    method RunMigrations()
      modifies this
      ensures version >= old(version)
      ensures Home(old(disk)) ==> (disk, version) == Migrate(root, old(disk), old(version))
      ensures StraysKept(old(disk), disk)
    {
      hide Home, StepDisk, AnyDeferred, StraysKept;
      StraysKeptAgain(disk, disk, disk);
      ghost var goal := Migrate(root, disk, version);
      for to := 1 to CURRENT_VERSION + 1
        invariant version >= old(version) && version + 1 >= to
        invariant Home(old(disk)) ==> Home(disk) && goal == MigrateFrom(root, disk, version, to)
        invariant StraysKept(old(disk), disk)
      {
        if to <= version {
          continue;
        }
        ghost var before := disk;
        var deferred := RunStep(to);
        StraysKeptAgain(old(disk), before, disk);
        if Home(before) {
          StepKeepsListing(root, before, to);
          NestingStep(root, before);
        }
        if to == NESTING && |deferred| > 0 {
          return;
        }
        version := to;
      }
    }

    method RunStep(to: nat) returns (deferred: seq<string>)
      requires 1 <= to <= CURRENT_VERSION
      modifies this`disk
      ensures Home(old(disk)) ==> disk == StepDisk(root, old(disk), to)
      ensures Home(old(disk)) ==> (to == NESTING && deferred != [] <==> to == NESTING && AnyDeferred(old(disk)))
      ensures StraysKept(old(disk), disk)
    {
      hide Home, Rewritten, Nested, AnyDeferred, StraysKept, Enumerates, EditAll, NestAll, InPlace;
      ghost var list, paths;
      deferred := [];
      FieldStepsAreHarmless();
      StraysKeptAgain(disk, disk, disk);
      if Home(disk) {
        HomeIsInPlace(disk, NormalizedProvider);
        HomeIsInPlace(disk, Backfilled);
      }
      match to
      case 1 =>
        list, paths := MigNormalizeProviders();
        EditKeepsStrays(old(disk), NormalizedProvider, list, paths);
      case 2 =>
        list, paths := MigBackfillFields();
        EditKeepsStrays(old(disk), Backfilled, list, paths);
      case 3 =>
        deferred, list, paths := MigNestNamespaces();
        NestKeepsStrays(root, old(disk), list, paths);
      case _ =>
        MigNetworkBlocks();
    }

    /** The migrations run again each time the store is opened: a stray file is
        still there, unchanged, after any number of runs. */
    method Reopen(times: nat)
      modifies this
      ensures version >= old(version)
      ensures StraysKept(old(disk), disk)
    {
      hide Home, Migrate, StraysKept;
      StraysKeptAgain(disk, disk, disk);
      for i := 0 to times
        invariant version >= old(version) && StraysKept(old(disk), disk)
      {
        ghost var before := disk;
        RunMigrations();
        StraysKeptAgain(old(disk), before, disk);
      }
    }
  }
}
