/** Suspend to disk and restore, across daemon crashes at any point. A saved
    memory image belongs to the exact disk contents at the save; the protocol
    must never restore it twice, nor onto a disk that has moved on. */
module Suspend {
  import opened Text

  /** disk is the version of the disk at the instant of the save. */
  datatype Image = Image(id: nat, disk: nat)

  datatype Disk = Missing | Present(version: nat)

  /** Where the daemon is in a boot, or what it is doing. */
  datatype Phase =
    | NoDaemon
    | ChooseRoot                  // about to look for a suspend state
    | Materialize(reuse: bool)    // about to create the machine's disk
    | Sweep                       // about to delete a stale consumed state
    | Inspect                     // about to look at the suspend state again
    | Consume                     // about to rename the state aside
    | Restoring                   // about to hand it to the hypervisor
    | Cleanup(restored: bool)     // about to delete the consumed state
    | ColdStart
    | Running
    | Saved

  /** One restore that happened: which image, and the disk it met. */
  datatype Restore = Restore(image: Image, onto: Disk)

  datatype State = State(
    phase: Phase,
    suspended: Option<Image>,
    consumed: Option<Image>,
    disk: Disk,
    guestUp: bool,
    nextImage: nat,
    nextVersion: nat,
    restores: seq<Restore>)

  const INITIAL := State(NoDaemon, None, None, Missing, false, 0, 0, [])

  datatype Op =
    | Boot
    | Choose
    | Prepare
    | SweepConsumed
    | Look(compatible: bool, snapshottable: bool)
    | RenameAside
    | TryRestore(ok: bool)
    | DeleteConsumed
    | Start(ok: bool)
    | GuestWrite
    | SaveMemory
    | Stop
    | Crash
    | Discard
    | LoseDisk
    | RenameFault
    | RemoveFault

  // ---------- steps ----------

  function Apply(s: State, op: Op): State {
    match op
    case Boot => if s.phase == NoDaemon then s.(phase := ChooseRoot) else s
    case Choose => if s.phase == ChooseRoot then Chosen(s) else s
    case Prepare => if s.phase.Materialize? then Prepared(s) else s
    case SweepConsumed => if s.phase == Sweep then s.(consumed := None, phase := Inspect) else s
    case Look(c, n) => if s.phase == Inspect then Looked(s, c && n) else s
    case RenameAside => if s.phase == Consume then Renamed(s) else s
    case TryRestore(ok) => if s.phase == Restoring && s.consumed.Some? then Tried(s, ok) else s
    case DeleteConsumed =>
      if s.phase.Cleanup? then s.(consumed := None, phase := if s.phase.restored then Running else ColdStart) else s
    case Start(ok) =>
      if s.phase != ColdStart then s
      else if ok then s.(guestUp := true, phase := Running) else s.(phase := NoDaemon)
    case GuestWrite =>
      if s.guestUp then s.(disk := Present(s.nextVersion), nextVersion := s.nextVersion + 1) else s
    case SaveMemory => if s.phase == Running && s.guestUp && s.disk.Present? then SavedAs(s) else s
    case Stop => if s.phase == Running then s.(guestUp := false, phase := NoDaemon) else s
    case Crash => s.(guestUp := false, phase := NoDaemon)
    case Discard => s.(suspended := None)
    case LoseDisk => if s.phase == NoDaemon then s.(disk := Missing) else s
    case RenameFault => if s.phase == Consume then s.(phase := ColdStart) else s
    case RemoveFault => RemoveFailed(s)
  }

  /** A removal that fails is logged and the boot goes on: of a state without
      its disk, of a stale consumed state, of a state this boot cannot restore,
      of the state just consumed. */
  function RemoveFailed(s: State): State {
    if s.phase == ChooseRoot && s.suspended.Some? && s.disk == Missing then s.(phase := Materialize(false))
    else if s.phase == Sweep then s.(phase := Inspect)
    else if s.phase == Inspect && s.suspended.Some? then s.(phase := ColdStart)
    else if s.phase.Cleanup? then s.(phase := if s.phase.restored then Running else ColdStart)
    else s
  }

  /** Reuse the suspended boot's disk when there is a state to restore and the
      disk is still there; a state without its disk is discarded. */
  function Chosen(s: State): State {
    if s.suspended.None? then s.(phase := Materialize(false))
    else if s.disk == Missing then s.(suspended := None, phase := Materialize(false))
    else s.(phase := Materialize(true))
  }

  /** Without reuse the disk becomes a fresh clone of the image. */
  function Prepared(s: State): State {
    if s.phase == Materialize(true) then s.(phase := Sweep)
    else s.(disk := Present(s.nextVersion), nextVersion := s.nextVersion + 1, phase := Sweep)
  }

  /** A state this boot cannot restore is discarded before the cold start. */
  function Looked(s: State, restorable: bool): State {
    if s.suspended.None? then s.(phase := ColdStart)
    else if !restorable then s.(suspended := None, phase := ColdStart)
    else s.(phase := Consume)
  }

  /** The rename fails when the state vanished meanwhile, or when a stale
      consumed state is in the way. */
  function Renamed(s: State): State {
    if s.suspended.None? || s.consumed.Some? then s.(phase := ColdStart)
    else s.(consumed := s.suspended, suspended := None, phase := Restoring)
  }

  function Tried(s: State, ok: bool): State
    requires s.consumed.Some?
  {
    if ok then s.(guestUp := true, restores := s.restores + [Restore(s.consumed.value, s.disk)], phase := Cleanup(true))
    else s.(phase := Cleanup(false))
  }

  function SavedAs(s: State): State
    requires s.disk.Present?
  {
    s.(suspended := Some(Image(s.nextImage, s.disk.version)), nextImage := s.nextImage + 1,
       guestUp := false, phase := Saved)
  }

  function Run(s: State, ops: seq<Op>): State
    decreases |ops|
  {
    if ops == [] then s else Run(Apply(s, ops[0]), ops[1..])
  }

  predicate FaultFree(ops: seq<Op>) {
    forall op :: op in ops ==> !op.RenameFault? && !op.RemoveFault?
  }

  // ---------- safety ----------

  /** Every restore met the disk it was saved with, and no image was restored
      twice. */
  predicate Safe(s: State) {
    && (forall k :: 0 <= k < |s.restores| ==> s.restores[k].onto == Present(s.restores[k].image.disk))
    && (forall j, k :: 0 <= j < k < |s.restores| ==> s.restores[j].image.id != s.restores[k].image.id)
  }

  predicate Unused(s: State, id: nat) {
    forall k :: 0 <= k < |s.restores| ==> s.restores[k].image.id != id
  }

  /** An image waiting to be restored: never used, and paired with the disk. */
  predicate Fresh(s: State, img: Image) {
    img.id < s.nextImage && img.disk < s.nextVersion && Unused(s, img.id)
  }

  predicate Inv(s: State) {
    && Safe(s)
    && (forall k :: 0 <= k < |s.restores| ==> s.restores[k].image.id < s.nextImage)
    && (s.disk.Present? ==> s.disk.version < s.nextVersion)
    && (s.guestUp ==> s.suspended.None? && s.phase in {Cleanup(true), Running})
    && (s.suspended.Some? ==>
          && Fresh(s, s.suspended.value)
          && s.phase in {NoDaemon, ChooseRoot, Materialize(true), Sweep, Inspect, Consume, Saved}
          && (s.disk == Present(s.suspended.value.disk) || (s.disk == Missing && s.phase in {NoDaemon, ChooseRoot})))
    && (s.phase in {Inspect, Consume} && s.suspended.Some? ==> s.consumed.None?)
    && (s.phase == Restoring ==>
          && s.consumed.Some? && s.suspended.None?
          && Fresh(s, s.consumed.value) && s.disk == Present(s.consumed.value.disk))
  }

  /** A fault that leaves a state on disk which the protocol meant to consume
      or discard. */
  predicate Bites(s: State, op: Op) {
    && s.suspended.Some?
    && ((op == RenameFault && s.phase == Consume)
        || (op == RemoveFault && s.phase == Inspect)
        || (op == RemoveFault && s.phase == Sweep && s.consumed.Some?)
        || (op == RemoveFault && s.phase == ChooseRoot && s.disk == Missing))
  }

  /** No fault bites when its turn comes. */
  predicate Unbitten(s: State, ops: seq<Op>)
    decreases |ops|
  {
    ops == [] || (!Bites(s, ops[0]) && Unbitten(Apply(s, ops[0]), ops[1..]))
  }

  lemma RestoreKeepsInv(s: State, ok: bool)
    requires Inv(s)
    ensures Inv(Apply(s, TryRestore(ok)))
  {
  }

  lemma BootKeepsInv(s: State, op: Op)
    requires Inv(s) && (op.Boot? || op.Choose? || op.Prepare? || op.SweepConsumed?)
    ensures Inv(Apply(s, op))
  {
  }

  lemma ConsumeKeepsInv(s: State, op: Op)
    requires Inv(s) && (op.Look? || op.RenameAside? || op.DeleteConsumed? || op.Start?)
    ensures Inv(Apply(s, op))
  {
  }

  lemma GuestKeepsInv(s: State, op: Op)
    requires Inv(s)
    requires op.GuestWrite? || op.SaveMemory? || op.Stop? || op.Crash? || op.Discard? || op.LoseDisk?
    ensures Inv(Apply(s, op))
  {
  }

  lemma FaultKeepsInv(s: State, op: Op)
    requires Inv(s) && !Bites(s, op) && (op.RenameFault? || op.RemoveFault?)
    ensures Inv(Apply(s, op))
  {
  }

  lemma StepKeepsInv(s: State, op: Op)
    requires Inv(s) && !Bites(s, op)
    ensures Inv(Apply(s, op))
  {
    hide Inv, Apply, Bites;
    if op.TryRestore? {
      RestoreKeepsInv(s, op.ok);
    } else if op.Boot? || op.Choose? || op.Prepare? || op.SweepConsumed? {
      BootKeepsInv(s, op);
    } else if op.Look? || op.RenameAside? || op.DeleteConsumed? || op.Start? {
      ConsumeKeepsInv(s, op);
    } else if op.RenameFault? || op.RemoveFault? {
      FaultKeepsInv(s, op);
    } else {
      GuestKeepsInv(s, op);
    }
  }

  lemma {:induction false} FaultFreeIsUnbitten(s: State, ops: seq<Op>)
    requires FaultFree(ops)
    ensures Unbitten(s, ops)
    decreases |ops|
  {
    if ops != [] {
      assert ops[0] in ops;
      FaultFreeIsUnbitten(Apply(s, ops[0]), ops[1..]);
    }
  }

  /** Over every interleaving of boots, restores, guest writes, saves, stops,
      discards, crashes and faults that do not bite, no image is restored twice
      or onto a disk that changed after the save. */
  lemma {:induction false} RunsAreSafe(s: State, ops: seq<Op>)
    requires Inv(s) && Unbitten(s, ops)
    ensures Inv(Run(s, ops)) && Safe(Run(s, ops))
    decreases |ops|
  {
    if ops != [] {
      StepKeepsInv(s, ops[0]);
      RunsAreSafe(Apply(s, ops[0]), ops[1..]);
    }
  }

  lemma SafeFromTheStart(ops: seq<Op>)
    requires Unbitten(INITIAL, ops)
    ensures Safe(Run(INITIAL, ops))
  {
    RunsAreSafe(INITIAL, ops);
  }

  // ---------- every guest has a disk of its own ----------

  predicate HasDisk(s: State) {
    s.guestUp || s.phase !in {NoDaemon, ChooseRoot, Materialize(false)} ==> s.disk.Present?
  }

  /** Versions of disks and images so far. */
  predicate Bounded(s: State, v: nat) {
    && (s.disk.Present? ==> s.disk.version < v)
    && (s.suspended.Some? ==> s.suspended.value.disk < v)
    && (s.consumed.Some? ==> s.consumed.value.disk < v)
    && forall k :: 0 <= k < |s.restores| ==> s.restores[k].image.disk < v
  }

  lemma DiskStep(s: State, op: Op)
    requires HasDisk(s) && (s.guestUp ==> s.phase in {Cleanup(true), Running})
    ensures HasDisk(Apply(s, op)) && (Apply(s, op).guestUp ==> Apply(s, op).phase in {Cleanup(true), Running})
  {
  }

  lemma VersionStep(s: State, op: Op)
    requires Bounded(s, s.nextVersion)
    ensures s.nextVersion <= Apply(s, op).nextVersion && Bounded(Apply(s, op), Apply(s, op).nextVersion)
  {
  }

  lemma {:induction false} RunsHaveDisks(s: State, ops: seq<Op>)
    requires HasDisk(s) && (s.guestUp ==> s.phase in {Cleanup(true), Running})
    ensures HasDisk(Run(s, ops))
    decreases |ops|
  {
    hide HasDisk, Apply;
    if ops != [] {
      DiskStep(s, ops[0]);
      RunsHaveDisks(Apply(s, ops[0]), ops[1..]);
    }
  }

  /** In every run, faults included, a guest runs on a disk. */
  lemma GuestHasDisk(ops: seq<Op>)
    ensures Run(INITIAL, ops).guestUp ==> Run(INITIAL, ops).disk.Present?
  {
    RunsHaveDisks(INITIAL, ops);
  }

  lemma {:induction false} VersionsGrow(s: State, ops: seq<Op>)
    requires Bounded(s, s.nextVersion)
    ensures s.nextVersion <= Run(s, ops).nextVersion && Bounded(Run(s, ops), Run(s, ops).nextVersion)
    decreases |ops|
  {
    hide Bounded, Apply;
    if ops != [] {
      VersionStep(s, ops[0]);
      VersionsGrow(Apply(s, ops[0]), ops[1..]);
    }
  }

  lemma BoundedUpTo(s: State, v: nat, w: nat)
    requires Bounded(s, v) && v <= w
    ensures Bounded(s, w)
  {
  }

  /** A boot with nothing to restore, or no disk to restore onto, starts on a
      disk that no disk or image of the whole past had. */
  lemma FreshDisk(ops: seq<Op>, n: nat)
    requires n <= |ops|
    ensures var s := Run(INITIAL, ops);
            s.phase == ChooseRoot && (s.suspended.None? || s.disk == Missing) ==>
              var t := Run(s, [Choose, Prepare]);
              && t.phase == Sweep && t.disk.Present? && t.suspended.None?
              && Bounded(Run(INITIAL, ops[..n]), t.disk.version)
  {
    hide Run, Bounded;
    var past, s := Run(INITIAL, ops[..n]), Run(INITIAL, ops);
    assert Bounded(INITIAL, INITIAL.nextVersion) by {
      NothingYet();
    }
    VersionsGrow(INITIAL, ops[..n]);
    VersionsGrow(past, ops[n..]);
    assert ops == ops[..n] + ops[n..];
    RunConcat(INITIAL, ops[..n], ops[n..]);
    BoundedUpTo(past, past.nextVersion, s.nextVersion);
    RunTwo(s, Choose, Prepare);
  }

  lemma NothingYet()
    ensures Bounded(INITIAL, INITIAL.nextVersion)
  {
  }

  // ---------- the saved image does come back ----------

  lemma RunStep(s: State, op: Op, rest: seq<Op>)
    ensures Run(s, [op] + rest) == Run(Apply(s, op), rest)
  {
  }

  lemma {:induction false} RunConcat(s: State, a: seq<Op>, b: seq<Op>)
    ensures Run(s, a + b) == Run(Run(s, a), b)
    decreases |a|
  {
    if a == [] {
      assert a + b == b;
    } else {
      assert a + b == [a[0]] + (a[1..] + b);
      RunStep(s, a[0], a[1..] + b);
      RunConcat(Apply(s, a[0]), a[1..], b);
    }
  }

  const TO_SWEEP: seq<Op> := [Boot, Choose, Prepare]
  const FROM_SWEEP: seq<Op> := [SweepConsumed, Look(true, true), RenameAside, TryRestore(true)]

  lemma RunThree(s: State, a: Op, b: Op, c: Op)
    ensures Run(s, [a, b, c]) == Apply(Apply(Apply(s, a), b), c)
  {
    assert [a, b, c] == [a] + ([b] + ([c] + []));
    RunStep(s, a, [b] + ([c] + []));
    RunStep(Apply(s, a), b, [c] + []);
    RunStep(Apply(Apply(s, a), b), c, []);
  }

  lemma RunTwo(s: State, a: Op, b: Op)
    ensures Run(s, [a, b]) == Apply(Apply(s, a), b)
  {
    assert [a, b] == [a] + ([b] + []);
    RunStep(s, a, [b] + []);
    RunStep(Apply(s, a), b, []);
  }

  lemma RestoresFromSweep(s: State)
    requires s.phase == Sweep && s.suspended.Some?
    ensures var r := Run(s, FROM_SWEEP);
            r.restores == s.restores + [Restore(s.suspended.value, s.disk)] && r.guestUp && r.suspended.None?
  {
    assert FROM_SWEEP == [SweepConsumed, Look(true, true), RenameAside] + [TryRestore(true)];
    RunConcat(s, [SweepConsumed, Look(true, true), RenameAside], [TryRestore(true)]);
    RunThree(s, SweepConsumed, Look(true, true), RenameAside);
    RunStep(Run(s, [SweepConsumed, Look(true, true), RenameAside]), TryRestore(true), []);
  }

  /** An undisturbed boot of a suspended sandbox whose disk is there restores
      the saved image, onto that disk. */
  lemma BootRestores(s: State)
    requires s.phase == NoDaemon && s.suspended.Some? && s.disk.Present?
    ensures var r := Run(s, TO_SWEEP + FROM_SWEEP);
            r.restores == s.restores + [Restore(s.suspended.value, s.disk)] && r.guestUp && r.suspended.None?
  {
    RunConcat(s, TO_SWEEP, FROM_SWEEP);
    RunThree(s, Boot, Choose, Prepare);
    RestoresFromSweep(Run(s, TO_SWEEP));
  }

  // ---------- why a deletion or rename that fails matters ----------

  lemma WrongDiskIsUnsafe(s: State, img: Image, v: nat, restores: seq<Restore>)
    requires s.restores == restores + [Restore(img, Present(v))] && v != img.disk
    ensures !Safe(s)
  {
    assert s.restores[|restores|] == Restore(img, Present(v));
  }

  /** A cold boot that left the state behind diverges the disk from it. */
  lemma StaleStateIsUnsafe(s: State) returns (ops: seq<Op>)
    requires s.phase == ColdStart && s.suspended.Some? && s.suspended.value.disk < s.nextVersion
    ensures FaultFree(ops) && !Safe(Run(s, ops))
  {
    hide Run;
    var dirty := [Start(true), GuestWrite, Crash];
    ops := dirty + (TO_SWEEP + FROM_SWEEP);
    RunConcat(s, dirty, TO_SWEEP + FROM_SWEEP);
    RunThree(s, Start(true), GuestWrite, Crash);
    BootRestores(Run(s, dirty));
    WrongDiskIsUnsafe(Run(s, ops), s.suspended.value, s.nextVersion, s.restores);
  }

  /** Safety rests on those calls succeeding: after any fault that bites, in any
      reachable state, some fault-free continuation restores the image onto a
      disk it does not belong to. */
  lemma FaultLosesSafety(s: State, fault: Op) returns (ops: seq<Op>)
    requires Inv(s) && Bites(s, fault)
    ensures FaultFree(ops) && !Safe(Run(Apply(s, fault), ops))
  {
    hide Run;
    var s0 := Apply(s, fault);
    if s.phase == ChooseRoot {
      ops := [Prepare] + FROM_SWEEP;
      RunStep(s0, Prepare, FROM_SWEEP);
      RestoresFromSweep(Apply(s0, Prepare));
      WrongDiskIsUnsafe(Run(s0, ops), s.suspended.value, s.nextVersion, s.restores);
    } else if s.phase == Sweep {
      var blocked := [Look(true, true), RenameAside];
      RunTwo(s0, Look(true, true), RenameAside);
      var rest := StaleStateIsUnsafe(Run(s0, blocked));
      ops := blocked + rest;
      RunConcat(s0, blocked, rest);
    } else {
      ops := StaleStateIsUnsafe(s0);
    }
  }

  /** Nothing that can still happen without a further fault is unsafe. */
  ghost predicate Secure(s: State) {
    forall ops :: FaultFree(ops) ==> Safe(Run(s, ops))
  }

  /** A run stays secure at every moment if and only if no fault bites in it. */
  lemma {:induction false} SecureIff(s: State, ops: seq<Op>)
    requires Inv(s)
    ensures Unbitten(s, ops) <==> forall n :: 0 <= n <= |ops| ==> Secure(Run(s, ops[..n]))
    decreases |ops|
  {
    hide Inv, Bites, Safe, Apply;
    forall more | FaultFree(more) ensures Safe(Run(s, more)) {
      FaultFreeIsUnbitten(s, more);
      RunsAreSafe(s, more);
    }
    assert Secure(s) && ops[..0] == [] && Run(s, []) == s;
    if ops != [] {
      var op, rest := ops[0], ops[1..];
      forall n | 0 <= n <= |rest| ensures Run(s, ops[..n + 1]) == Run(Apply(s, op), rest[..n]) {
        assert ops[..n + 1][0] == op && ops[..n + 1][1..] == rest[..n];
      }
      if Bites(s, op) {
        var unsafe := FaultLosesSafety(s, op);
        assert rest[..0] == [];
        assert Run(s, ops[..0 + 1]) == Apply(s, op);
        assert !Secure(Apply(s, op));
      } else {
        StepKeepsInv(s, op);
        SecureIff(Apply(s, op), rest);
        ShiftSecure(s, ops);
      }
    }
  }

  lemma ShiftSecure(s: State, ops: seq<Op>)
    requires ops != [] && Secure(s)
    ensures (forall n :: 0 <= n <= |ops| ==> Secure(Run(s, ops[..n]))) <==>
            forall n :: 0 <= n <= |ops| - 1 ==> Secure(Run(Apply(s, ops[0]), ops[1..][..n]))
  {
    hide Secure, Apply;
    var op, rest := ops[0], ops[1..];
    forall n | 0 <= n <= |rest| ensures Run(s, ops[..n + 1]) == Run(Apply(s, op), rest[..n]) {
      assert ops[..n + 1][0] == op && ops[..n + 1][1..] == rest[..n];
    }
    assert ops[..0] == [] && Run(s, []) == s;
    if forall n :: 0 <= n <= |ops| ==> Secure(Run(s, ops[..n])) {
      forall n | 0 <= n <= |rest| ensures Secure(Run(Apply(s, op), rest[..n])) {
        assert Secure(Run(s, ops[..n + 1]));
      }
    }
    if forall n :: 0 <= n <= |rest| ==> Secure(Run(Apply(s, op), rest[..n])) {
      forall n | 0 <= n <= |ops| ensures Secure(Run(s, ops[..n])) {
        if n > 0 {
          assert Secure(Run(Apply(s, op), rest[..n - 1]));
          assert ops[..(n - 1) + 1] == ops[..n];
        }
      }
    }
  }

  // ---------- the daemon's own sequence ----------

  /** The VM directory and the machine, as one daemon boot changes them. */
  class VMDir {
    var phase: Phase
    var suspended: Option<Image>
    var consumed: Option<Image>
    var disk: Disk
    var guestUp: bool
    var nextImage: nat
    var nextVersion: nat
    ghost var restores: seq<Restore>

    ghost function Value(): State
      reads this
    {
      State(phase, suspended, consumed, disk, guestUp, nextImage, nextVersion, restores)
    }

    /** Decides the root disk of a boot that may restore. */
    method SuspendBootRootFS() returns (reuse: bool)
      requires phase == ChooseRoot
      modifies this
      ensures Value() == Run(old(Value()), [Choose]) && phase == Materialize(reuse)
      ensures reuse <==> old(suspended).Some? && old(disk).Present?
      ensures suspended == if reuse then old(suspended) else None
    {
      RunStep(Value(), Choose, []);
      if suspended.None? {
        phase := Materialize(false);
        return false;
      }
      if disk == Missing {
        suspended := None;
        phase := Materialize(false);
        return false;
      }
      phase := Materialize(true);
      return true;
    }

    method CreateMachine(reuse: bool)
      requires phase == Materialize(reuse)
      modifies this
      ensures Value() == Run(old(Value()), [Prepare]) && phase == Sweep
      ensures disk == if reuse then old(disk) else Present(old(nextVersion))
    {
      RunStep(Value(), Prepare, []);
      if !reuse {
        disk := Present(nextVersion);
        nextVersion := nextVersion + 1;
      }
      phase := Sweep;
    }

    /** Deletes a stale consumed state and looks at the suspend state. */
    method Examine(compatible: bool, snapshottable: bool)
      requires phase == Sweep
      modifies this
      ensures Value() == Apply(Apply(old(Value()), SweepConsumed), Look(compatible, snapshottable))
    {
      consumed := None;
      phase := Inspect;
      if suspended.None? {
        phase := ColdStart;
      } else if !compatible || !snapshottable {
        suspended := None;
        phase := ColdStart;
      } else {
        phase := Consume;
      }
    }

    /** Consumption is committed by the rename before the guest can run. */
    method ConsumeState(restoreOk: bool)
      requires phase == Consume && suspended.Some? && consumed.None?
      modifies this
      ensures Value() == Apply(Apply(Apply(old(Value()), RenameAside), TryRestore(restoreOk)), DeleteConsumed)
    {
      consumed, suspended, phase := suspended, None, Restoring;
      if restoreOk {
        guestUp := true;
        restores := restores + [Restore(consumed.value, disk)];
      }
      phase := Cleanup(restoreOk);
      consumed := None;
      phase := if restoreOk then Running else ColdStart;
    }

    /** Restores when a usable state exists, else cold-starts. The inputs are
        what the environment answers: whether the state fits this boot, whether
        the backend can restore, whether the restore and the start succeed.
        The state changes by the protocol's steps, in this order and no other. */
    method RestoreOrStart(compatible: bool, snapshottable: bool, restoreOk: bool, startOk: bool)
      returns (restored: bool, ghost ops: seq<Op>)
      requires phase == Sweep && !guestUp
      modifies this
      ensures FaultFree(ops) && Value() == Run(old(Value()), ops)
      ensures restored <==> old(suspended).Some? && compatible && snapshottable && restoreOk
      ensures restored ==> restores == old(restores) + [Restore(old(suspended).value, old(disk))]
      ensures !restored ==> restores == old(restores)
      ensures suspended.None? && consumed.None?
      ensures guestUp == (restored || startOk)
    {
      hide Run;
      ghost var s := Value();
      Examine(compatible, snapshottable);
      ops := [SweepConsumed, Look(compatible, snapshottable)];
      RunTwo(s, SweepConsumed, Look(compatible, snapshottable));
      restored := false;
      if phase == Consume {
        ghost var mid := Value();
        ConsumeState(restoreOk);
        restored := restoreOk;
        RunThree(mid, RenameAside, TryRestore(restoreOk), DeleteConsumed);
        RunConcat(s, ops, [RenameAside, TryRestore(restoreOk), DeleteConsumed]);
        ops := ops + [RenameAside, TryRestore(restoreOk), DeleteConsumed];
      }
      if !restored {
        ops := Done(s, ops, Start(startOk));
        if startOk {
          guestUp := true;
          phase := Running;
        } else {
          phase := NoDaemon;
        }
      }
    }

    method Suspend()
      requires phase == Running && guestUp && disk.Present?
      modifies this
      ensures Value() == Run(old(Value()), [SaveMemory])
      ensures suspended == Some(Image(old(nextImage), disk.version)) && !guestUp && disk == old(disk)
    {
      RunStep(Value(), SaveMemory, []);
      suspended := Some(Image(nextImage, disk.version));
      nextImage := nextImage + 1;
      guestUp := false;
      phase := Saved;
    }
  }

  ghost function Done(s: State, ops: seq<Op>, op: Op): (r: seq<Op>)
    ensures r == ops + [op] && Run(s, r) == Apply(Run(s, ops), op)
  {
    RunConcat(s, ops, [op]);
    RunStep(Run(s, ops), op, []);
    ops + [op]
  }
}
