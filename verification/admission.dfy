/** Memory admission: no set of boxes that were let in can together take the
    host's reserve. Quantities are MiB; machine widths are written out. */
module Admission {

  const TWO_63: int := 0x8000_0000_0000_0000
  const TWO_64: int := 0x1_0000_0000_0000_0000

  /** uint64 addition. */
  function Add64(a: nat, b: nat): nat {
    (a + b) % TWO_64
  }

  /** The int64 with the same bits as x modulo 2^64. */
  function Int64(x: int): int {
    var m := x % TWO_64;
    if m < TWO_63 then m else m - TWO_64
  }

  function Sum(xs: seq<nat>): nat {
    if xs == [] then 0 else Sum(xs[..|xs| - 1]) + xs[|xs| - 1]
  }

  // ---------- resources ----------

  const DEFAULT_MEMORY: nat := 1024
  const DEFAULT_MEMORY_MAX: nat := 4096
  const LEAST_MEMORY: nat := 64

  predicate ValidResources(memory: nat, memoryMax: nat) {
    && !(memory > 0 && memoryMax > 0 && memory > memoryMax)
    && !(0 < memory < LEAST_MEMORY)
    && !(0 < memoryMax < LEAST_MEMORY)
  }

  /** Baseline and ceiling: validated input meets what a machine demands, and
      whatever was written is kept. */
  function SpecMemory(memory: nat, memoryMax: nat): (r: (nat, nat))
    ensures ValidResources(memory, memoryMax) ==> LEAST_MEMORY <= r.0 <= r.1
    ensures memory > 0 ==> r.0 == memory
    ensures memoryMax > 0 ==> r.1 == memoryMax
    ensures memory > 0 && memoryMax == 0 ==> r.1 == r.0
    ensures memory == 0 ==> r.0 <= DEFAULT_MEMORY && (r.0 < DEFAULT_MEMORY ==> r.0 == r.1)
    ensures memory == 0 && memoryMax == 0 ==> r.1 == DEFAULT_MEMORY_MAX
  {
    if memory == 0 && memoryMax == 0 then (DEFAULT_MEMORY, DEFAULT_MEMORY_MAX)
    else if memoryMax == 0 then (memory, memory)
    else if memory == 0 then (if DEFAULT_MEMORY > memoryMax then memoryMax else DEFAULT_MEMORY, memoryMax)
    else (memory, memoryMax)
  }

  // ---------- the test ----------

  const RESERVE_FLOOR: nat := 3072

  /** A parsed override is taken as it is. */
  function HostReserve(host: nat, override: int): (r: nat)
    ensures override >= 0 ==> r == override
    ensures override < 0 ==> r >= RESERVE_FLOOR && 4 * r >= host - 3
    ensures override < 0 && r > RESERVE_FLOOR ==> 4 * r <= host
  {
    if override >= 0 then override
    else if host / 4 > RESERVE_FLOOR then host / 4 else RESERVE_FLOOR
  }

  /** The running total wraps like the machine's. */
  function Committed(others: seq<nat>): nat {
    if others == [] then 0 else Add64(Committed(others[..|others| - 1]), others[|others| - 1])
  }

  predicate Admits(want: nat, committed: nat, host: nat, reserve: nat) {
    var avail := Int64(Int64(Int64(host) - Int64(reserve)) - Int64(committed));
    Int64(want) <= if avail < 0 then 0 else avail
  }

  method AdmitGuestMemory(want: nat, others: seq<nat>, host: nat, reserve: nat) returns (ok: bool)
    ensures ok == Admits(want, Committed(others), host, reserve)
  {
    var committed := 0;
    for i := 0 to |others|
      invariant committed == Committed(others[..i])
    {
      committed := Add64(committed, others[i]);
      assert others[..i + 1][..i] == others[..i];
    }
    assert others[..|others|] == others;
    var avail := Int64(Int64(Int64(host) - Int64(reserve)) - Int64(committed));
    if avail < 0 {
      avail := 0;
    }
    ok := Int64(want) <= avail;
  }

  lemma {:induction false} NoWrapBelow(others: seq<nat>)
    ensures Sum(others) < TWO_64 ==> Committed(others) == Sum(others)
  {
    if others != [] {
      NoWrapBelow(others[..|others| - 1]);
    }
  }

  lemma Int64Fits(x: int)
    requires -TWO_63 <= x < TWO_63
    ensures Int64(x) == x
  {
    if x < 0 {
      assert x + TWO_64 == x % TWO_64;
    }
  }

  lemma Int64Wraps(x: int)
    requires -TWO_64 <= x < -TWO_63
    ensures Int64(x) == x + TWO_64
  {
    assert x % TWO_64 == x + TWO_64;
  }

  /** For quantities below 2^63 the test is exactly the sum test, unless
      reserve and commitments together exceed the host by more than 2^63. */
  lemma AdmitsExactly(want: nat, others: seq<nat>, host: nat, reserve: nat)
    requires want < TWO_63 && Sum(others) < TWO_63 && host < TWO_63 && reserve < TWO_63
    ensures reserve + Sum(others) <= host + TWO_63 ==>
      (Admits(want, Committed(others), host, reserve) <==> want == 0 || want + Sum(others) + reserve <= host)
    ensures reserve + Sum(others) > host + TWO_63 ==>
      (Admits(want, Committed(others), host, reserve) <==> want + Sum(others) + reserve <= host + TWO_64)
  {
    NoWrapBelow(others);
    var committed := Sum(others);
    Int64Fits(want);
    Int64Fits(host);
    Int64Fits(reserve);
    Int64Fits(committed);
    Int64Fits(host - reserve);
    if reserve + committed <= host + TWO_63 {
      Int64Fits(host - reserve - committed);
    } else {
      Int64Wraps(host - reserve - committed);
    }
  }

  /** Such a wrap admits a box on a host with nothing to give. */
  lemma OvercommitWraps()
    ensures Admits(1, Committed([TWO_63 - 1]), 0, TWO_63 - 1)
  {
    NoWrapBelow([TWO_63 - 1]);
    AdmitsExactly(1, [TWO_63 - 1], 0, TWO_63 - 1);
  }

  // ---------- runs ----------

  datatype Box = Box(name: string, ceiling: nat)
  datatype Op = Start(name: string, memory: nat, memoryMax: nat) | Stop(name: string)

  function Others(boxes: seq<Box>, self: string): seq<Box> {
    if boxes == [] then []
    else
      var last := boxes[|boxes| - 1];
      Others(boxes[..|boxes| - 1], self) + if last.name == self then [] else [last]
  }

  function Ceilings(boxes: seq<Box>): seq<nat> {
    if boxes == [] then [] else Ceilings(boxes[..|boxes| - 1]) + [boxes[|boxes| - 1].ceiling]
  }

  function Total(boxes: seq<Box>): nat {
    Sum(Ceilings(boxes))
  }

  /** One start attempt or stop on a host of fixed size and reserve. */
  function Apply(boxes: seq<Box>, op: Op, host: nat, reserve: nat): seq<Box> {
    match op
    case Stop(name) => Others(boxes, name)
    case Start(name, memory, memoryMax) =>
      var want := SpecMemory(memory, memoryMax).1;
      var others := Others(boxes, name);
      if Admits(want, Committed(Ceilings(others)), host, reserve) then others + [Box(name, want)] else boxes
  }

  function Run(ops: seq<Op>, host: nat, reserve: nat): seq<Box> {
    if ops == [] then [] else Apply(Run(ops[..|ops| - 1], host, reserve), ops[|ops| - 1], host, reserve)
  }

  predicate Sane(op: Op) {
    op.Start? ==> ValidResources(op.memory, op.memoryMax) && op.memory < TWO_63 && op.memoryMax < TWO_63
  }

  lemma TotalAppend(boxes: seq<Box>, b: Box)
    ensures Total(boxes + [b]) == Total(boxes) + b.ceiling
  {
  }

  lemma {:induction false} OthersTakeLess(boxes: seq<Box>, self: string)
    ensures Total(Others(boxes, self)) <= Total(boxes)
  {
    hide Total;
    if boxes != [] {
      var init, last := boxes[..|boxes| - 1], boxes[|boxes| - 1];
      OthersTakeLess(init, self);
      assert boxes == init + [last];
      TotalAppend(init, last);
      TotalAppend(Others(init, self), last);
      assert Others(init, self) + [] == Others(init, self);
    }
  }

  lemma {:induction false} OthersAreAll(boxes: seq<Box>, self: string, b: Box)
    ensures b in Others(boxes, self) <==> b in boxes && b.name != self
  {
    if boxes != [] {
      OthersAreAll(boxes[..|boxes| - 1], self, b);
      assert boxes == boxes[..|boxes| - 1] + [boxes[|boxes| - 1]];
    }
  }

  /** A step concerns one box: every other keeps running as it did. A stopped box
      is gone, and one that was let in runs at its ceiling. */
  lemma StepsConcernOne(boxes: seq<Box>, op: Op, host: nat, reserve: nat, b: Box)
    ensures var after := Apply(boxes, op, host, reserve);
            && (b.name != op.name ==> (b in after <==> b in boxes))
            && (op.Stop? && b.name == op.name ==> b !in after)
            && (op.Start? && after != boxes && b.name == op.name ==>
                  (b in after <==> b.ceiling == SpecMemory(op.memory, op.memoryMax).1))
  {
    hide Others, Admits, Committed, Ceilings;
    OthersAreAll(boxes, op.name, b);
  }

  predicate Distinct(boxes: seq<Box>) {
    forall i, j :: 0 <= i < j < |boxes| ==> boxes[i].name != boxes[j].name
  }

  /** No box of that name is left, and no two of the rest share a name. */
  lemma {:induction false} OthersDistinct(boxes: seq<Box>, self: string)
    requires Distinct(boxes)
    ensures Distinct(Others(boxes, self))
    ensures forall i :: 0 <= i < |Others(boxes, self)| ==>
      Others(boxes, self)[i].name != self && Others(boxes, self)[i] in boxes
  {
    if boxes != [] {
      OthersDistinct(boxes[..|boxes| - 1], self);
    }
  }

  lemma StartFits(boxes: seq<Box>, name: string, memory: nat, memoryMax: nat, host: nat, reserve: nat)
    requires host < TWO_63 && reserve < TWO_63 && Sane(Start(name, memory, memoryMax))
    requires boxes == [] || Total(boxes) + reserve <= host
    ensures var r := Apply(boxes, Start(name, memory, memoryMax), host, reserve);
            r == boxes || Total(r) + reserve <= host
  {
    hide Sum, Ceilings, Others, Committed, Admits;
    var want := SpecMemory(memory, memoryMax).1;
    var others := Others(boxes, name);
    OthersTakeLess(boxes, name);
    NoneTakesNothing();
    AdmitsExactly(want, Ceilings(others), host, reserve);
    TotalAppend(others, Box(name, want));
  }

  /** A box that fits is let in, one that does not is not. */
  lemma StartsWhenItFits(boxes: seq<Box>, op: Op, host: nat, reserve: nat)
    requires host < TWO_63 && reserve < TWO_63 && Sane(op) && op.Start?
    requires boxes == [] || Total(boxes) + reserve <= host
    ensures var want := SpecMemory(op.memory, op.memoryMax).1;
            var others := Others(boxes, op.name);
            Apply(boxes, op, host, reserve) ==
            if want + Total(others) + reserve <= host then others + [Box(op.name, want)] else boxes
  {
    hide Sum, Ceilings, Others, Committed, Admits;
    OthersTakeLess(boxes, op.name);
    NoneTakesNothing();
    AdmitsExactly(SpecMemory(op.memory, op.memoryMax).1, Ceilings(Others(boxes, op.name)), host, reserve);
  }

  lemma NoneTakesNothing()
    ensures Total([]) == 0
  {
  }

  /** Over every run of starts and stops: nothing is committed, or everything
      that runs fits beside the reserve at its worst. */
  lemma {:induction false} NeverOvercommitted(ops: seq<Op>, host: nat, reserve: nat)
    requires host < TWO_63 && reserve < TWO_63 && forall i :: 0 <= i < |ops| ==> Sane(ops[i])
    ensures var boxes := Run(ops, host, reserve);
            Distinct(boxes) && (boxes == [] || Total(boxes) + reserve <= host)
  {
    hide Total, Others, Committed, Admits;
    if ops != [] {
      var op := ops[|ops| - 1];
      NeverOvercommitted(ops[..|ops| - 1], host, reserve);
      var boxes := Run(ops[..|ops| - 1], host, reserve);
      OthersTakeLess(boxes, op.name);
      OthersDistinct(boxes, op.name);
      NoneTakesNothing();
      if op.Start? {
        StartFits(boxes, op.name, op.memory, op.memoryMax, host, reserve);
      } else {
        NoOthers(op.name);
      }
    }
  }

  lemma NoOthers(self: string)
    ensures Others([], self) == []
  {
  }
}
