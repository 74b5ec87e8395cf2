/** The region-chain bump allocator of arena.c.
    A region's `memory` is the abstract address of its buffer; the chain
    `begin -> ... -> end` is the sequence `regions`, `begin` its first and
    `end` its last element. */
module Arena {

  /** `REGION_INIT_CAP` of include/arena.h. */
  const REGION_INIT_CAP: nat := 8 * 1024

  /** `align_forward`: round an address up to the next multiple of 8
      (`addr & 0x7` is `addr % 8` on unsigned addresses). */
  function AlignForward(addr: nat): (r: nat)
    ensures r % 8 == 0
    ensures addr <= r < addr + 8
    ensures addr % 8 == 0 ==> r == addr
  {
    var modulo := addr % 8;
    if modulo == 0 then addr else addr + 8 - modulo
  }

  /** No multiple of 8 lies between `addr` and `AlignForward(addr)`. */
  lemma AlignForwardIsLeast(addr: nat, m: nat)
    requires m % 8 == 0 && addr <= m
    ensures AlignForward(addr) <= m
  {
  }

  /** Aligning an offset from an 8-aligned base is aligning the offset alone. */
  lemma AlignForwardShift(base: nat, offset: nat)
    requires base % 8 == 0
    ensures AlignForward(base + offset) == base + AlignForward(offset)
  {
    assert (base + offset) % 8 == offset % 8;
  }

  /** A region: its buffer's address, its capacity and the bytes handed out so far. */
  datatype Region = Region(memory: nat, capacity: nat, used: nat)

  /** A block handed out since the last reset: the region it came from, its address and its size. */
  datatype Block = Block(region: nat, addr: nat, size: nat)

  /** The region `REGION_INIT` builds around a freshly obtained buffer. */
  function FreshRegion(memory: nat): Region {
    Region(memory, REGION_INIT_CAP, 0)
  }

  /** The test of `arena_alloc`'s search loop, negated: the request fits in the region. */
  predicate Fits(r: Region, size: nat) {
    r.used + size <= r.capacity
  }

  /** The index at which the search of `arena_alloc`, started at `from`, stops:
      the first region that fits, or the chain length when none does. */
  function FirstFit(regions: seq<Region>, size: nat, from: nat): (k: nat)
    requires from <= |regions|
    ensures from <= k <= |regions|
    ensures forall j :: from <= j < k ==> !Fits(regions[j], size)
    ensures k < |regions| ==> Fits(regions[k], size)
    decreases |regions| - from
  {
    if from == |regions| || Fits(regions[from], size) then from else FirstFit(regions, size, from + 1)
  }

  /** The chain after `arena_reset`: every cursor back to zero, nothing else changed. */
  function Emptied(regions: seq<Region>): (rs: seq<Region>)
    ensures |rs| == |regions|
    ensures forall i :: 0 <= i < |rs| ==>
              rs[i].used == 0 && rs[i].memory == regions[i].memory && rs[i].capacity == regions[i].capacity
  {
    seq(|regions|, i requires 0 <= i < |regions| => regions[i].(used := 0))
  }

  predicate Disjoint(a: nat, aSize: nat, b: nat, bSize: nat) {
    a + aSize <= b || b + bSize <= a
  }

  /** The invariant of one region: an aligned buffer of the default capacity
      whose cursor is aligned and within the capacity. */
  predicate RegionOk(r: Region) {
    r.memory % 8 == 0 && r.capacity == REGION_INIT_CAP && r.used % 8 == 0 && r.used <= r.capacity
  }

  predicate RegionsDisjoint(regions: seq<Region>) {
    forall i, j :: 0 <= i < j < |regions| ==>
      Disjoint(regions[i].memory, regions[i].capacity, regions[j].memory, regions[j].capacity)
  }

  /** The block lies in the handed-out prefix `[memory, memory + used)` of its region. */
  predicate BlockIn(b: Block, regions: seq<Region>) {
    b.region < |regions| &&
    regions[b.region].memory <= b.addr &&
    b.addr + b.size <= regions[b.region].memory + regions[b.region].used
  }

  predicate BlocksDisjoint(blocks: seq<Block>) {
    forall i, j :: 0 <= i < j < |blocks| ==> Disjoint(blocks[i].addr, blocks[i].size, blocks[j].addr, blocks[j].size)
  }

  /** The address just past every region, rounded up to a multiple of 8:
      a place where a new region's buffer overlaps none of the existing ones. */
  function EndOfRegions(regions: seq<Region>): (r: nat)
    ensures r % 8 == 0
    ensures forall i :: 0 <= i < |regions| ==> regions[i].memory + regions[i].capacity <= r
  {
    if regions == [] then 0
    else
      var rest := EndOfRegions(regions[1..]);
      var last := AlignForward(regions[0].memory + regions[0].capacity);
      assert forall i :: 1 <= i < |regions| ==> regions[i] == regions[1..][i - 1];
      if last < rest then rest else last
  }

  /** The arena invariant: a non-empty chain of well-formed regions whose buffers
      do not overlap, and blocks handed out since the last reset that lie in the
      used prefix of their region and do not overlap each other. */
  ghost predicate ArenaOk(regions: seq<Region>, blocks: seq<Block>) {
    |regions| >= 1 &&
    (forall i :: 0 <= i < |regions| ==> RegionOk(regions[i])) &&
    RegionsDisjoint(regions) &&
    (forall i :: 0 <= i < |blocks| ==> BlockIn(blocks[i], regions)) &&
    BlocksDisjoint(blocks)
  }

  /** The effect of one `arena_alloc`: the new chain, the index of the target region
      and the returned address. */
  datatype Allocation = Allocation(regions: seq<Region>, target: nat, addr: nat)

  /** `arena_alloc(size)` on a chain, with `newBase` the buffer a new region would get. */
  function AllocOn(regions: seq<Region>, size: nat, newBase: nat): (a: Allocation)
    ensures a.target == FirstFit(regions, size, 0)
    ensures a.target < |regions| ==> |a.regions| == |regions| && a.addr == regions[a.target].memory + regions[a.target].used
    ensures a.target == |regions| ==> |a.regions| == |regions| + 1 && a.addr == newBase &&
                                      a.regions[a.target].memory == newBase && a.regions[a.target].capacity == REGION_INIT_CAP
    ensures forall i :: 0 <= i < |regions| && i != a.target ==> a.regions[i] == regions[i]
    ensures a.regions[a.target].memory + a.regions[a.target].used == AlignForward(a.addr + size)
    ensures a.regions[a.target] == Searched(regions, size, newBase)[a.target].(used := a.regions[a.target].used)
  {
    var k := FirstFit(regions, size, 0);
    var rs := Searched(regions, size, newBase);
    var start := rs[k].memory + rs[k].used;
    var next := AlignForward(start + size);
    Allocation(rs[k := rs[k].(used := next - rs[k].memory)], k, start)
  }

  /** The chain `arena_alloc` works on once its search is over: the old chain,
      with a fresh region appended when no region fits. */
  function Searched(regions: seq<Region>, size: nat, newBase: nat): (rs: seq<Region>)
    ensures |rs| > FirstFit(regions, size, 0)
    ensures |rs| >= |regions| && rs[..|regions|] == regions
    ensures |rs| > |regions| ==> |rs| == |regions| + 1 && rs[|regions|] == FreshRegion(newBase)
  {
    if FirstFit(regions, size, 0) < |regions| then regions else regions + [FreshRegion(newBase)]
  }

  /** Appending the fresh region keeps every region well formed and the buffers apart. */
  lemma SearchedRegionsOk(regions: seq<Region>, blocks: seq<Block>, size: nat, newBase: nat)
    requires ArenaOk(regions, blocks)
    requires newBase % 8 == 0
    requires forall i :: 0 <= i < |regions| ==> Disjoint(newBase, REGION_INIT_CAP, regions[i].memory, regions[i].capacity)
    ensures var rs := Searched(regions, size, newBase);
            (forall i :: 0 <= i < |rs| ==> RegionOk(rs[i])) && RegionsDisjoint(rs) &&
            (forall i :: 0 <= i < |blocks| ==> BlockIn(blocks[i], rs)) &&
            (size <= REGION_INIT_CAP ==> Fits(rs[FirstFit(regions, size, 0)], size))
  {
    var rs := Searched(regions, size, newBase);
    forall i | 0 <= i < |blocks| ensures BlockIn(blocks[i], rs) {
      assert BlockIn(blocks[i], regions);
      assert rs[blocks[i].region] == regions[blocks[i].region];
    }
  }

  /** Moving one region's cursor forward to the aligned end of a block that fits keeps it well formed. */
  lemma BumpOk(r: Region, size: nat)
    requires RegionOk(r) && Fits(r, size)
    ensures var start := r.memory + r.used;
            var r' := r.(used := AlignForward(start + size) - r.memory);
            RegionOk(r') && r'.used == AlignForward(r.used + size) && r'.used >= r.used + size
  {
    AlignForwardShift(r.memory, r.used + size);
    AlignForwardIsLeast(r.used + size, r.capacity);
  }

  /** After one allocation every region is still well formed, the buffers are still apart,
      and the target's cursor sits at the aligned end of the new block. */
  lemma AllocRegionsOk(regions: seq<Region>, blocks: seq<Block>, size: nat, newBase: nat)
    requires ArenaOk(regions, blocks)
    requires size <= REGION_INIT_CAP
    requires newBase % 8 == 0
    requires forall i :: 0 <= i < |regions| ==> Disjoint(newBase, REGION_INIT_CAP, regions[i].memory, regions[i].capacity)
    ensures var a := AllocOn(regions, size, newBase);
            var rs := Searched(regions, size, newBase);
            a.addr % 8 == 0 &&
            (forall i :: 0 <= i < |a.regions| ==> RegionOk(a.regions[i])) && RegionsDisjoint(a.regions) &&
            a.regions == rs[a.target := rs[a.target].(used := AlignForward(rs[a.target].used + size))] &&
            a.addr + size <= a.regions[a.target].memory + a.regions[a.target].used
  {
    var a := AllocOn(regions, size, newBase);
    var k := a.target;
    var rs := Searched(regions, size, newBase);
    SearchedRegionsOk(regions, blocks, size, newBase);
    BumpOk(rs[k], size);
  }

  /** After one allocation the blocks handed out so far, the new one last, lie in their
      regions' used prefixes and overlap none of the others. */
  lemma AllocBlocksOk(regions: seq<Region>, blocks: seq<Block>, size: nat, newBase: nat)
    requires ArenaOk(regions, blocks)
    requires size <= REGION_INIT_CAP
    requires newBase % 8 == 0
    requires forall i :: 0 <= i < |regions| ==> Disjoint(newBase, REGION_INIT_CAP, regions[i].memory, regions[i].capacity)
    ensures var a := AllocOn(regions, size, newBase);
            var blocks' := blocks + [Block(a.target, a.addr, size)];
            (forall i :: 0 <= i < |blocks'| ==> BlockIn(blocks'[i], a.regions)) && BlocksDisjoint(blocks')
  {
    var a := AllocOn(regions, size, newBase);
    var k := a.target;
    var rs := Searched(regions, size, newBase);
    SearchedRegionsOk(regions, blocks, size, newBase);
    AllocRegionsOk(regions, blocks, size, newBase);
    forall i | 0 <= i < |blocks|
      ensures Disjoint(blocks[i].addr, blocks[i].size, a.addr, size)
    {
      var j := blocks[i].region;
      assert BlockIn(blocks[i], rs);
      if j != k {
        assert Disjoint(rs[j].memory, rs[j].capacity, rs[k].memory, rs[k].capacity);
      }
    }
    forall i | 0 <= i < |blocks| ensures BlockIn(blocks[i], a.regions) {
      assert BlockIn(blocks[i], rs);
    }
    var blocks' := blocks + [Block(k, a.addr, size)];
    assert forall i :: 0 <= i < |blocks| ==> blocks'[i] == blocks[i];
  }

  /** One allocation keeps the arena invariant and returns an 8-aligned address. */
  lemma AllocKeepsArenaOk(regions: seq<Region>, blocks: seq<Block>, size: nat, newBase: nat)
    requires ArenaOk(regions, blocks)
    requires size <= REGION_INIT_CAP
    requires newBase % 8 == 0
    requires forall i :: 0 <= i < |regions| ==> Disjoint(newBase, REGION_INIT_CAP, regions[i].memory, regions[i].capacity)
    ensures var a := AllocOn(regions, size, newBase);
            a.addr % 8 == 0 && ArenaOk(a.regions, blocks + [Block(a.target, a.addr, size)])
  {
    AllocRegionsOk(regions, blocks, size, newBase);
    AllocBlocksOk(regions, blocks, size, newBase);
  }

  class Arena {
    /** The region chain, `begin` first and `end` last. */
    var regions: seq<Region>
    /** The blocks returned since the arena was initialised or last reset, oldest first. */
    ghost var blocks: seq<Block>

    ghost predicate Valid()
      reads this
    {
      ArenaOk(regions, blocks)
    }

    /** `arena_init`: one empty region of the default capacity, at the address the allocator supplied. */
    constructor (memory: nat)
      requires memory % 8 == 0
      ensures Valid()
      ensures regions == [FreshRegion(memory)] && blocks == []
    {
      regions := [FreshRegion(memory)];
      blocks := [];
    }

    /** An 8-aligned address at which a new region's buffer overlaps no existing region;
        it stands for the buffer the system allocator would return. */
    function FreshBase(): (r: nat)
      reads this
      ensures r % 8 == 0
      ensures forall i :: 0 <= i < |regions| ==> Disjoint(r, REGION_INIT_CAP, regions[i].memory, regions[i].capacity)
    {
      EndOfRegions(regions)
    }

    /** `arena_alloc`: first fit from `begin`, or a fresh region at `newBase` appended
        after `end`; the target's cursor moves past the block and is realigned. */
    method Alloc(size: nat, newBase: nat) returns (addr: nat)
      requires Valid()
      requires size <= REGION_INIT_CAP
      requires newBase % 8 == 0
      requires forall i :: 0 <= i < |regions| ==> Disjoint(newBase, REGION_INIT_CAP, regions[i].memory, regions[i].capacity)
      modifies this
      ensures Valid()
      ensures var a := AllocOn(old(regions), size, newBase);
              regions == a.regions && addr == a.addr && blocks == old(blocks) + [Block(a.target, addr, size)]
      ensures addr % 8 == 0
    {
      AllocKeepsArenaOk(regions, blocks, size, newBase);
      ghost var a := AllocOn(regions, size, newBase);
      var k := 0;
      while k < |regions| && regions[k].used + size > regions[k].capacity
        invariant 0 <= k <= |regions|
        invariant forall j :: 0 <= j < k ==> !Fits(regions[j], size)
      {
        k := k + 1;
      }
      assert k == a.target;
      if k == |regions| {
        regions := regions + [FreshRegion(newBase)];
      }
      assert regions == Searched(old(regions), size, newBase);
      var start := regions[k].memory + regions[k].used;
      var next := AlignForward(start + size);
      regions := regions[k := regions[k].(used := next - regions[k].memory)];
      assert regions == a.regions && start == a.addr;
      blocks := blocks + [Block(k, start, size)];
      addr := start;
    }

    /** `arena_reset`: every region's cursor back to zero; chain, capacities and buffers kept. */
    method Reset()
      requires Valid()
      modifies this
      ensures Valid()
      ensures regions == Emptied(old(regions)) && blocks == []
    {
      var i := 0;
      while i < |regions|
        invariant 0 <= i <= |regions| == |old(regions)|
        invariant forall j :: 0 <= j < i ==> regions[j] == old(regions[j]).(used := 0)
        invariant forall j :: i <= j < |regions| ==> regions[j] == old(regions[j])
      {
        regions := regions[i := regions[i].(used := 0)];
        i := i + 1;
      }
      blocks := [];
    }
  }

  /** The chain after a run of `arena_alloc` calls, one per size, where the `i`-th
      call would get `bases[i]` for a new region, and the addresses returned. */
  function AllocRun(regions: seq<Region>, sizes: seq<nat>, bases: seq<nat>): (r: (seq<Region>, seq<nat>))
    requires |sizes| == |bases|
    ensures |r.1| == |sizes|
    decreases |sizes|
  {
    if sizes == [] then (regions, [])
    else
      var a := AllocOn(regions, sizes[0], bases[0]);
      var rest := AllocRun(a.regions, sizes[1..], bases[1..]);
      (rest.0, [a.addr] + rest.1)
  }

  /** A run keeps every region's buffer and capacity, only appends, and every region it
      appends has the default capacity. */
  lemma {:induction false} AllocRunKeepsRegions(regions: seq<Region>, sizes: seq<nat>, bases: seq<nat>)
    requires |sizes| == |bases|
    ensures var rs := AllocRun(regions, sizes, bases).0;
            |regions| <= |rs| &&
            (forall i :: 0 <= i < |regions| ==> rs[i].memory == regions[i].memory && rs[i].capacity == regions[i].capacity) &&
            (forall i :: |regions| <= i < |rs| ==> rs[i].capacity == REGION_INIT_CAP)
    decreases |sizes|
  {
    if sizes != [] {
      var a := AllocOn(regions, sizes[0], bases[0]);
      AllocRunKeepsRegions(a.regions, sizes[1..], bases[1..]);
    }
  }

  /** The search from `begin` ignores what lies behind the first region that fits. */
  lemma {:induction false} FirstFitPrefix(regions: seq<Region>, pad: seq<Region>, size: nat, from: nat)
    requires from <= |regions|
    requires FirstFit(regions, size, from) < |regions|
    ensures FirstFit(regions + pad, size, from) == FirstFit(regions, size, from)
    decreases |regions| - from
  {
    if !Fits(regions[from], size) {
      FirstFitPrefix(regions, pad, size, from + 1);
    }
  }

  /** When no region of the chain fits, the search over the chain followed by `pad` stops
      at the first region of `pad`, provided that one fits. */
  lemma {:induction false} FirstFitPastPrefix(regions: seq<Region>, pad: seq<Region>, size: nat, from: nat)
    requires from <= |regions|
    requires FirstFit(regions, size, from) == |regions|
    requires pad != [] && Fits(pad[0], size)
    ensures FirstFit(regions + pad, size, from) == |regions|
    decreases |regions| - from
  {
    if from < |regions| {
      FirstFitPastPrefix(regions, pad, size, from + 1);
    }
  }

  /** The bump `arena_alloc` applies to the region it takes. */
  function Bumped(r: Region, size: nat): Region {
    r.(used := AlignForward(r.memory + r.used + size) - r.memory)
  }

  /** An allocation that finds room in the chain takes the first region that fits. */
  lemma AllocOnFits(regions: seq<Region>, size: nat, base: nat)
    requires FirstFit(regions, size, 0) < |regions|
    ensures var k := FirstFit(regions, size, 0);
            AllocOn(regions, size, base) ==
            Allocation(regions[k := Bumped(regions[k], size)], k, regions[k].memory + regions[k].used)
  {
  }

  /** When a region of the chain fits, an allocation on the chain followed by `pad`
      leaves `pad` alone and otherwise does what it does on the chain. */
  lemma ReplayFits(regions: seq<Region>, pad: seq<Region>, size: nat, base: nat, replayBase: nat)
    requires FirstFit(regions, size, 0) < |regions|
    ensures var a := AllocOn(regions, size, base);
            var b := AllocOn(regions + pad, size, replayBase);
            b.addr == a.addr && b.regions == a.regions + pad
  {
    var k := FirstFit(regions, size, 0);
    FirstFitPrefix(regions, pad, size, 0);
    AllocOnFits(regions, size, base);
    AllocOnFits(regions + pad, size, replayBase);
    assert (regions + pad)[k] == regions[k];
    UpdateAppend(regions, pad, k, Bumped(regions[k], size));
  }

  lemma EmptiedTail(regions: seq<Region>)
    requires regions != []
    ensures Emptied(regions)[1..] == Emptied(regions[1..])
  {
  }

  lemma UpdateAppend(xs: seq<Region>, ys: seq<Region>, k: nat, v: Region)
    requires k < |xs|
    ensures (xs + ys)[k := v] == xs[k := v] + ys
  {
  }

  /** When no region of the chain fits and `pad` opens with the region the allocation
      would append, that region is used in place. */
  lemma ReplayAppends(regions: seq<Region>, pad: seq<Region>, size: nat, base: nat, replayBase: nat)
    requires size <= REGION_INIT_CAP
    requires FirstFit(regions, size, 0) == |regions|
    requires pad != [] && pad[0] == FreshRegion(base)
    ensures var a := AllocOn(regions, size, base);
            var b := AllocOn(regions + pad, size, replayBase);
            b.addr == a.addr && b.regions == a.regions + pad[1..]
  {
    var k := |regions|;
    FirstFitPastPrefix(regions, pad, size, 0);
    assert Searched(regions, size, base) == regions + [FreshRegion(base)];
    assert Searched(regions + pad, size, replayBase) == regions + pad;
    var r' := FreshRegion(base).(used := AlignForward(base + size) - base);
    assert (regions + [FreshRegion(base)])[k := r'] == regions + [r'];
    assert (regions + pad)[k := r'] == regions + [r'] + pad[1..];
  }

  /** Replaying a run on its chain followed by the emptied regions the run will append
      retraces the run: a region the run appends is instead found empty in place. */
  lemma {:induction false} ReplayRun(regions: seq<Region>, sizes: seq<nat>, bases: seq<nat>, replayBases: seq<nat>)
    requires |sizes| == |bases| == |replayBases|
    requires forall i :: 0 <= i < |sizes| ==> sizes[i] <= REGION_INIT_CAP
    ensures var run := AllocRun(regions, sizes, bases);
            |regions| <= |run.0| &&
            AllocRun(regions + Emptied(run.0[|regions|..]), sizes, replayBases) == run
    decreases |sizes|
  {
    var run := AllocRun(regions, sizes, bases);
    AllocRunKeepsRegions(regions, sizes, bases);
    var pad := Emptied(run.0[|regions|..]);
    if sizes == [] {
      assert regions + pad == regions;
    } else {
      var a := AllocOn(regions, sizes[0], bases[0]);
      var rest := AllocRun(a.regions, sizes[1..], bases[1..]);
      assert run == (rest.0, [a.addr] + rest.1);
      AllocRunKeepsRegions(a.regions, sizes[1..], bases[1..]);
      var b := AllocOn(regions + pad, sizes[0], replayBases[0]);
      if a.target < |regions| {
        ReplayFits(regions, pad, sizes[0], bases[0], replayBases[0]);
        assert b.regions == a.regions + Emptied(rest.0[|a.regions|..]);
      } else {
        assert rest.0[|regions|].memory == bases[0];
        assert pad[0] == FreshRegion(bases[0]);
        ReplayAppends(regions, pad, sizes[0], bases[0], replayBases[0]);
        EmptiedTail(run.0[|regions|..]);
        assert run.0[|regions|..][1..] == rest.0[|a.regions|..];
        assert b.regions == a.regions + Emptied(rest.0[|a.regions|..]);
      }
      ReplayRun(a.regions, sizes[1..], bases[1..], replayBases[1..]);
    }
  }

  /** Resetting after a run that began on an empty chain (right after `arena_init` or
      `arena_reset`) and repeating the same sizes appends no region and returns the same
      addresses: the replay ends on exactly the chain the first run built. */
  lemma ResetReplayAppendsNothing(regions: seq<Region>, sizes: seq<nat>, bases: seq<nat>, replayBases: seq<nat>)
    requires |sizes| == |bases| == |replayBases|
    requires forall i :: 0 <= i < |sizes| ==> sizes[i] <= REGION_INIT_CAP
    requires forall i :: 0 <= i < |regions| ==> regions[i].used == 0
    ensures var run := AllocRun(regions, sizes, bases);
            AllocRun(Emptied(run.0), sizes, replayBases) == run
    ensures var run := AllocRun(regions, sizes, bases);
            |AllocRun(Emptied(run.0), sizes, replayBases).0| == |Emptied(run.0)|
  {
    var run := AllocRun(regions, sizes, bases);
    AllocRunKeepsRegions(regions, sizes, bases);
    ReplayRun(regions, sizes, bases, replayBases);
    assert Emptied(run.0) == regions + Emptied(run.0[|regions|..]);
  }

  /** After a reset the first region takes any request the allocator accepts,
      so no region is appended. */
  lemma ResetAllocTakesBegin(regions: seq<Region>, size: nat)
    requires |regions| >= 1 && regions[0].capacity == REGION_INIT_CAP
    requires size <= REGION_INIT_CAP
    ensures FirstFit(Emptied(regions), size, 0) == 0
  {
  }

}
