/** VTable overlays: a private copy of an object's vtable with some entries replaced, an optional
    destruction hook, and slots for the caller's data in front of it.

      [ extras (n) ] [ hidden self pointer ] [ ABI prefix ] [ methods ]
                                                            ^ address point

    The ABI prefix follows section 2.5 (Virtual Table Layout) of the Itanium C++ ABI; the Microsoft
    ABI has one word there and a single deleting destructor. */
module VTableOverlay {
  import opened Wrappers

  datatype Abi = Itanium | Microsoft

  function AbiPrefix(abi: Abi): nat { if abi.Itanium? then 2 else 1 }
  function Prefix(abi: Abi): nat { AbiPrefix(abi) + 1 }
  function MinMethodSlots(abi: Abi): nat { if abi.Itanium? then 2 else 1 }
  function DeletingDtorSlot(abi: Abi): nat { if abi.Itanium? then 1 else 0 }

  type Inst = nat
  type OverlayId = nat
  type BlockId = nat

  /** One machine word of a vtable block. */
  datatype Word =
    | Nil
    | Data(d: nat)           // offset-to-top, type_info, or what a caller stores
    | Code(fn: nat)
    | DtorWrapper
    | SelfPtr(ov: OverlayId)

  datatype Addr = Addr(block: BlockId, off: int)

  /** `hook` is the caller's on_destroy data, `origDtor` the entry it displaced. */
  datatype Overlay = Overlay(block: BlockId, originalVptr: Addr, inst: Inst, nExtra: nat,
                             dtorFired: bool, origDtor: Word, hook: Option<nat>)

  datatype Memory = Memory(blocks: map<BlockId, seq<Word>>, vptr: map<Inst, Addr>,
                           overlays: map<OverlayId, Overlay>, nextBlock: nat, nextOverlay: nat)

  /** vptr[k] of an object; None is a read outside live memory. */
  function Slot(m: Memory, inst: Inst, k: int): Option<Word> {
    if inst !in m.vptr then None
    else
      var a := m.vptr[inst];
      if a.block in m.blocks && 0 <= a.off + k < |m.blocks[a.block]| then Some(m.blocks[a.block][a.off + k])
      else None
  }

  function AddressPoint(abi: Abi, nExtra: nat): nat {
    nExtra + Prefix(abi)
  }

  /** What lies at an index of a block. */
  datatype Region = Extra(i: nat) | Hidden | AbiWord(p: nat) | Method(k: nat)

  predicate InRegion(abi: Abi, nExtra: nat, total: nat, r: Region) {
    match r
    case Extra(i) => i < nExtra
    case Hidden => true
    case AbiWord(p) => p < AbiPrefix(abi)
    case Method(k) => k < total
  }

  /** The index relative to the address point; for extras, the one of VTableOverlayExtraSlot. */
  function Displacement(abi: Abi, r: Region): int {
    match r
    case Extra(i) => -(Prefix(abi) + 1 + i)
    case Hidden => 0 - Prefix(abi)
    case AbiWord(p) => -1 - p
    case Method(k) => k
  }

  function RegionAt(abi: Abi, nExtra: nat, j: nat): Region {
    if j < nExtra then Extra(nExtra - 1 - j)
    else if j == nExtra then Hidden
    else if j < AddressPoint(abi, nExtra) then AbiWord(AddressPoint(abi, nExtra) - 1 - j)
    else Method(j - AddressPoint(abi, nExtra))
  }

  /** Extras, hidden slot, ABI prefix and methods are in bounds, never overlap and fill the block:
      indices and places correspond one to one. */
  lemma LayoutIsExact(abi: Abi, nExtra: nat, total: nat, r: Region, j: nat)
    ensures InRegion(abi, nExtra, total, r) ==>
      var x := AddressPoint(abi, nExtra) + Displacement(abi, r);
      0 <= x < nExtra + Prefix(abi) + total && RegionAt(abi, nExtra, x) == r
    ensures j < nExtra + Prefix(abi) + total ==>
      var q := RegionAt(abi, nExtra, j);
      InRegion(abi, nExtra, total, q) && AddressPoint(abi, nExtra) + Displacement(abi, q) == j
  {
  }

  /** The last override of slot `j`, as an index into `slots`. */
  function LastOverride(slots: seq<int>, j: int): (r: Option<nat>)
    ensures r.Some? ==> r.value < |slots| && slots[r.value] == j && j !in slots[r.value + 1..]
    ensures r.None? ==> j !in slots
  {
    if slots == [] then None
    else if slots[|slots| - 1] == j then Some(|slots| - 1)
    else
      var r := LastOverride(slots[..|slots| - 1], j);
      assert slots == slots[..|slots| - 1] + [slots[|slots| - 1]];
      assert r.Some? ==> slots[r.value + 1..] == slots[..|slots| - 1][r.value + 1..] + [slots[|slots| - 1]];
      r
  }

  /** What a method slot holds once the overrides are applied, before any hook. */
  function Overridden(original: seq<Word>, slots: seq<int>, fns: seq<Word>, j: nat): Word
    requires j < |original| && |slots| == |fns|
  {
    var o := LastOverride(slots, j);
    if o.Some? then fns[o.value] else original[j]
  }

  lemma OneMoreOverride(original: seq<Word>, slots: seq<int>, fns: seq<Word>, i: nat, j: nat)
    requires j < |original| && |slots| == |fns| && i < |slots|
    ensures Overridden(original, slots[..i + 1], fns[..i + 1], j) ==
            if slots[i] == j then fns[i] else Overridden(original, slots[..i], fns[..i], j)
  {
  }

  predicate SlotsInRange(slots: seq<int>, total: int) {
    forall i :: 0 <= i < |slots| ==> 0 <= slots[i] < total
  }

  /** The block that is published: `source` is the ABI prefix and the methods of the old vtable. */
  function NewBlock(abi: Abi, source: seq<Word>, slots: seq<int>, fns: seq<Word>, nExtra: nat,
                    self: OverlayId): (r: seq<Word>)
    requires |source| >= AbiPrefix(abi) && |slots| == |fns|
    ensures |r| == nExtra + 1 + |source|
  {
    seq(nExtra, _ => Nil) + [SelfPtr(self)] + source[..AbiPrefix(abi)] +
    seq(|source| - AbiPrefix(abi), j requires 0 <= j < |source| - AbiPrefix(abi) =>
      Overridden(source[AbiPrefix(abi)..], slots, fns, j))
  }

  /** The words of `table` from `first` on are `original` with the overrides applied. */
  ghost predicate Holds(table: seq<Word>, first: nat, original: seq<Word>, slots: seq<int>, fns: seq<Word>)
    requires |slots| == |fns|
  {
    && |table| == first + |original|
    && forall j: nat :: j < |original| ==> table[first..][j] == Overridden(original, slots, fns, j)
  }

  /** Writes the replacement functions in order; the words before `first` stay. */
  method ApplyOverrides(block: array<Word>, first: nat, slots: seq<int>, fns: seq<Word>)
    requires first <= block.Length && |slots| == |fns|
    requires SlotsInRange(slots, block.Length - first)
    modifies block
    ensures block[..first] == old(block[..first])
    ensures Holds(block[..], first, old(block[first..]), slots, fns)
  {
    for i := 0 to |slots|
      invariant block[..first] == old(block[..first])
      invariant Holds(block[..], first, old(block[first..]), slots[..i], fns[..i])
    {
      ghost var prev := block[first..];
      ghost var slots1, fns1 := slots[..i + 1], fns[..i + 1];
      block[first + slots[i]] := fns[i];
      forall j: nat | j < |prev|
        ensures Overridden(old(block[first..]), slots1, fns1, j) == block[first..][j]
      {
        assert prev[j] == Overridden(old(block[first..]), slots[..i], fns[..i], j);
        OneMoreOverride(old(block[first..]), slots, fns, i, j);
      }
    }
    assert slots[..|slots|] == slots && fns[..|fns|] == fns;
  }

  /** The pointer surgery of applyVTableOverlay: zero, copy, override in order, self pointer. */
  method BuildBlock(abi: Abi, source: seq<Word>, slots: seq<int>, fns: seq<Word>, nExtra: nat, self: OverlayId)
    returns (block: array<Word>)
    requires |source| >= AbiPrefix(abi) && |slots| == |fns|
    requires SlotsInRange(slots, |source| - AbiPrefix(abi))
    ensures fresh(block)
    ensures block[..] == NewBlock(abi, source, slots, fns, nExtra, self)
  {
    var total := nExtra + 1 + |source|;
    block := new Word[total](_ => Nil);
    for k := 0 to |source|
      invariant forall j :: 0 <= j < total ==>
        block[j] == if nExtra < j <= nExtra + k then source[j - nExtra - 1] else Nil
    {
      block[nExtra + 1 + k] := source[k];
    }
    var first := nExtra + Prefix(abi);
    assert block[first..] == source[AbiPrefix(abi)..];
    ghost var head := block[..first];
    ApplyOverrides(block, first, slots, fns);
    assert block[..] == head + block[first..];
    block[nExtra] := SelfPtr(self);
    ghost var r := NewBlock(abi, source, slots, fns, nExtra, self);
    assert r[first..] == block[first..];
    assert r[..first] == block[..first];
    assert r == r[..first] + r[first..] && block[..] == block[..first] + block[first..];
  }

  /** What reflection reports about a class: vtableMethodSlotCount and hasComplexVTableLayout. */
  datatype Class = Class(polymorphic: bool, complexLayout: bool, slotCount: int)

  /** `methods` are the results of virtualMethodSlot, negative for a non-virtual method. */
  datatype Request = Request(inst: Option<Inst>, cls: Class, methods: seq<int>, fns: seq<Word>,
                             nExtra: nat, hook: Option<nat>)

  predicate Accepted(abi: Abi, r: Request) {
    && r.inst.Some? && r.cls.polymorphic && !r.cls.complexLayout
    && r.cls.slotCount >= MinMethodSlots(abi)
    && SlotsInRange(r.methods, r.cls.slotCount)
  }

  /** The words that the copy reads: the ABI prefix and the methods of the object's vtable. */
  predicate Readable(abi: Abi, m: Memory, inst: Inst, total: nat) {
    && inst in m.vptr && m.vptr[inst].block in m.blocks
    && AbiPrefix(abi) <= m.vptr[inst].off
    && m.vptr[inst].off + total <= |m.blocks[m.vptr[inst].block]|
  }

  function Source(abi: Abi, m: Memory, inst: Inst, total: nat): (r: seq<Word>)
    requires Readable(abi, m, inst, total)
    ensures |r| == AbiPrefix(abi) + total
  {
    var a := m.vptr[inst];
    m.blocks[a.block][a.off - AbiPrefix(abi)..a.off + total]
  }

  /** The block with the hook's wrapper, if there is a hook, in the deleting destructor's slot. */
  function Hooked(plain: seq<Word>, dtorAt: nat, hook: Option<nat>): seq<Word>
    requires dtorAt < |plain|
  {
    if hook.Some? then plain[dtorAt := DtorWrapper] else plain
  }

  lemma HookedWord(abi: Abi, nExtra: nat, total: nat, plain: seq<Word>, hook: Option<nat>, q: Region)
    requires total >= MinMethodSlots(abi) && InRegion(abi, nExtra, total, q) && |plain| == nExtra + Prefix(abi) + total
    ensures var j := AddressPoint(abi, nExtra) + Displacement(abi, q);
            && 0 <= j < |plain|
            && Hooked(plain, AddressPoint(abi, nExtra) + DeletingDtorSlot(abi), hook)[j] ==
               if hook.Some? && q == Method(DeletingDtorSlot(abi)) then DtorWrapper else plain[j]
  {
  }

  function Installed(abi: Abi, m: Memory, r: Request): (m': Memory)
    requires Accepted(abi, r) && Readable(abi, m, r.inst.value, r.cls.slotCount) && |r.methods| == |r.fns|
  {
    var inst := r.inst.value;
    var plain := NewBlock(abi, Source(abi, m, inst, r.cls.slotCount), r.methods, r.fns, r.nExtra, m.nextOverlay);
    var dtorAt := AddressPoint(abi, r.nExtra) + DeletingDtorSlot(abi);
    var block := Hooked(plain, dtorAt, r.hook);
    var orig := if r.hook.Some? then plain[dtorAt] else Nil;
    var ov := Overlay(m.nextBlock, m.vptr[inst], inst, r.nExtra, false, orig, r.hook);
    Memory(m.blocks[m.nextBlock := block],
           m.vptr[inst := Addr(m.nextBlock, AddressPoint(abi, r.nExtra))],
           m.overlays[m.nextOverlay := ov], m.nextBlock + 1, m.nextOverlay + 1)
  }

  lemma BlockWords(abi: Abi, source: seq<Word>, slots: seq<int>, fns: seq<Word>, nExtra: nat, self: OverlayId, j: nat)
    requires |source| >= AbiPrefix(abi) && |slots| == |fns| && j < nExtra + 1 + |source|
    ensures NewBlock(abi, source, slots, fns, nExtra, self)[j] ==
            match RegionAt(abi, nExtra, j)
            case Extra(_) => Nil
            case Hidden => SelfPtr(self)
            case AbiWord(p) => source[AbiPrefix(abi) - 1 - p]
            case Method(k) => Overridden(source[AbiPrefix(abi)..], slots, fns, k)
  {
  }

  lemma SlotOf(m: Memory, inst: Inst, b: BlockId, off: int, block: seq<Word>, d: int)
    requires inst in m.vptr && m.vptr[inst] == Addr(b, off) && b in m.blocks && m.blocks[b] == block
    requires 0 <= off + d < |block|
    ensures Slot(m, inst, d) == Some(block[off + d])
  {
  }

  /** A word of the published block, as the object sees it. */
  lemma InstalledWord(abi: Abi, m: Memory, r: Request, q: Region)
    requires Accepted(abi, r) && Readable(abi, m, r.inst.value, r.cls.slotCount) && |r.methods| == |r.fns|
    requires InRegion(abi, r.nExtra, r.cls.slotCount, q)
    ensures var src := Source(abi, m, r.inst.value, r.cls.slotCount);
            var j := AddressPoint(abi, r.nExtra) + Displacement(abi, q);
            Slot(Installed(abi, m, r), r.inst.value, Displacement(abi, q)) ==
            Some(if r.hook.Some? && q == Method(DeletingDtorSlot(abi)) then DtorWrapper
                 else NewBlock(abi, src, r.methods, r.fns, r.nExtra, m.nextOverlay)[j])
  {
    var src := Source(abi, m, r.inst.value, r.cls.slotCount);
    var plain := NewBlock(abi, src, r.methods, r.fns, r.nExtra, m.nextOverlay);
    HookedWord(abi, r.nExtra, r.cls.slotCount, plain, r.hook, q);
    var block := Hooked(plain, AddressPoint(abi, r.nExtra) + DeletingDtorSlot(abi), r.hook);
    SlotOf(Installed(abi, m, r), r.inst.value, m.nextBlock, AddressPoint(abi, r.nExtra), block, Displacement(abi, q));
  }

  /** The words that are copied are the ones the object sees around its address point. */
  lemma SourceWord(abi: Abi, m: Memory, inst: Inst, total: nat, d: int)
    requires Readable(abi, m, inst, total) && 0 <= AbiPrefix(abi) + d && d < total
    ensures Slot(m, inst, d) == Some(Source(abi, m, inst, total)[AbiPrefix(abi) + d])
  {
  }

  /** What a hook remembers is the entry it displaced. */
  lemma DisplacedEntry(abi: Abi, m: Memory, r: Request)
    requires Accepted(abi, r) && Readable(abi, m, r.inst.value, r.cls.slotCount) && |r.methods| == |r.fns|
    requires r.hook.Some?
    ensures var src := Source(abi, m, r.inst.value, r.cls.slotCount);
            var block := NewBlock(abi, src, r.methods, r.fns, r.nExtra, m.nextOverlay);
            m.nextOverlay in Installed(abi, m, r).overlays &&
            Installed(abi, m, r).overlays[m.nextOverlay].origDtor ==
              block[AddressPoint(abi, r.nExtra) + DeletingDtorSlot(abi)]
  {
  }

  /** Dispatch through a fresh overlay: the last override of a slot wins; the hook, if any, takes
      the deleting destructor's slot and remembers what would have been there. */
  lemma OverlayDispatches(abi: Abi, m: Memory, r: Request, k: nat)
    requires Accepted(abi, r) && Readable(abi, m, r.inst.value, r.cls.slotCount) && |r.methods| == |r.fns|
    requires k < r.cls.slotCount
    ensures var m' := Installed(abi, m, r); var inst := r.inst.value;
            var o := LastOverride(r.methods, k);
            var entry := if o.Some? then Some(r.fns[o.value]) else Slot(m, inst, k);
            if r.hook.Some? && k == DeletingDtorSlot(abi) then
              Slot(m', inst, k) == Some(DtorWrapper) && entry == Some(m'.overlays[m.nextOverlay].origDtor)
            else Slot(m', inst, k) == entry
  {
    var src := Source(abi, m, r.inst.value, r.cls.slotCount);
    InstalledWord(abi, m, r, Method(k));
    BlockWords(abi, src, r.methods, r.fns, r.nExtra, m.nextOverlay, AddressPoint(abi, r.nExtra) + k);
    SourceWord(abi, m, r.inst.value, r.cls.slotCount, k);
    assert src[AbiPrefix(abi)..][k] == src[AbiPrefix(abi) + k];
    if r.hook.Some? { DisplacedEntry(abi, m, r); }
  }

  /** The rest of the block: ABI prefix copied, hidden slot pointing home, extras null. */
  lemma OverlayPrefix(abi: Abi, m: Memory, r: Request, q: Region)
    requires Accepted(abi, r) && Readable(abi, m, r.inst.value, r.cls.slotCount) && |r.methods| == |r.fns|
    requires InRegion(abi, r.nExtra, r.cls.slotCount, q) && !q.Method?
    ensures Slot(Installed(abi, m, r), r.inst.value, Displacement(abi, q)) ==
            match q
            case Extra(_) => Some(Nil)
            case Hidden => Some(SelfPtr(m.nextOverlay))
            case AbiWord(_) => Slot(m, r.inst.value, Displacement(abi, q))
  {
    var src := Source(abi, m, r.inst.value, r.cls.slotCount);
    InstalledWord(abi, m, r, q);
    LayoutIsExact(abi, r.nExtra, r.cls.slotCount, q, 0);
    BlockWords(abi, src, r.methods, r.fns, r.nExtra, m.nextOverlay, AddressPoint(abi, r.nExtra) + Displacement(abi, q));
    if q.AbiWord? { SourceWord(abi, m, r.inst.value, r.cls.slotCount, Displacement(abi, q)); }
  }

  /** The words in front of the address point, counted out.  Itanium: type_info at -1 and offset-to-top
      at -2 are what they were, the way home is at -3, the extras lie below.  Microsoft: one word less.
      The hook sits in slot 1, the deleting destructor, or in the only destructor slot 0. */
  lemma WordsCountedOut(abi: Abi, m: Memory, r: Request, i: nat)
    requires Accepted(abi, r) && Readable(abi, m, r.inst.value, r.cls.slotCount) && |r.methods| == |r.fns|
    ensures var m', inst := Installed(abi, m, r), r.inst.value;
            && Slot(m', inst, -1) == Slot(m, inst, -1)
            && (abi.Itanium? ==> Slot(m', inst, -2) == Slot(m, inst, -2))
            && Slot(m', inst, if abi.Itanium? then -3 else -2) == Some(SelfPtr(m.nextOverlay))
            && (i < r.nExtra ==> Slot(m', inst, (if abi.Itanium? then -4 else -3) - i) == Some(Nil))
            && (r.hook.Some? ==> Slot(m', inst, if abi.Itanium? then 1 else 0) == Some(DtorWrapper))
  {
    OverlayPrefix(abi, m, r, AbiWord(0));
    if abi.Itanium? { OverlayPrefix(abi, m, r, AbiWord(1)); }
    OverlayPrefix(abi, m, r, Hidden);
    if i < r.nExtra { OverlayPrefix(abi, m, r, Extra(i)); }
    if r.hook.Some? { OverlayDispatches(abi, m, r, DeletingDtorSlot(abi)); }
  }

  /** Every other object sees what it saw. */
  lemma OthersUntouched(abi: Abi, m: Memory, r: Request, other: Inst, k: int)
    requires Accepted(abi, r) && Readable(abi, m, r.inst.value, r.cls.slotCount) && |r.methods| == |r.fns|
    requires other != r.inst.value && (other in m.vptr ==> m.vptr[other].block != m.nextBlock)
    ensures Slot(Installed(abi, m, r), other, k) == Slot(m, other, k)
  {
  }

  /** ~VTableOverlay; the second result tells whether it wrote to an object that is gone. */
  function Destroyed(m: Memory, ov: OverlayId): (Memory, bool)
    requires ov in m.overlays
  {
    var o := m.overlays[ov];
    var m1 := m.(overlays := m.overlays - {ov}, blocks := m.blocks - {o.block});
    if o.dtorFired then (m1, false)
    else if o.inst in m.vptr then (m1.(vptr := m.vptr[o.inst := o.originalVptr]), false)
    else (m1, true)
  }

  /** Creating an overlay and destroying it, with writes to its extra slots in between, restores the
      exact old vptr and the old memory. */
  lemma DestroyUndoesInstall(abi: Abi, m: Memory, r: Request, block: seq<Word>)
    requires Accepted(abi, r) && Readable(abi, m, r.inst.value, r.cls.slotCount) && |r.methods| == |r.fns|
    requires m.nextBlock !in m.blocks && m.nextOverlay !in m.overlays
    ensures var m1 := Installed(abi, m, r);
            var m2 := m1.(blocks := m1.blocks[m.nextBlock := block]);
            Destroyed(m2, m.nextOverlay) == (m.(nextBlock := m.nextBlock + 1, nextOverlay := m.nextOverlay + 1), false)
  {
    var m1 := Installed(abi, m, r);
    var m2 := m1.(blocks := m1.blocks[m.nextBlock := block]);
    var m3 := Destroyed(m2, m.nextOverlay).0;
    assert m3.blocks == m.blocks;
    assert m3.overlays == m.overlays;
    assert m3.vptr == m.vptr;
  }

  /** The library's calls on the memory they mutate. */
  class Heap {
    const abi: Abi
    var blocks: map<BlockId, seq<Word>>
    var vptr: map<Inst, Addr>
    var overlays: map<OverlayId, Overlay>
    var nextBlock: nat
    var nextOverlay: nat

    constructor (abi: Abi, m: Memory)
      ensures this.abi == abi && View() == m
    {
      this.abi := abi;
      blocks, vptr, overlays, nextBlock, nextOverlay := m.blocks, m.vptr, m.overlays, m.nextBlock, m.nextOverlay;
    }

    ghost function View(): Memory
      reads this
    {
      Memory(blocks, vptr, overlays, nextBlock, nextOverlay)
    }

    /** A refused request changes nothing. */
    method MakeVTableOverlay(r: Request) returns (ov: Option<OverlayId>)
      requires |r.methods| == |r.fns|
      requires Accepted(abi, r) ==> Readable(abi, View(), r.inst.value, r.cls.slotCount)
      modifies this
      ensures ov.Some? <==> Accepted(abi, r)
      ensures ov.None? <==>
        || r.inst.None? || !r.cls.polymorphic || r.cls.complexLayout
        || r.cls.slotCount < (if abi.Itanium? then 2 else 1)
        || exists i :: 0 <= i < |r.methods| && (r.methods[i] < 0 || r.methods[i] >= r.cls.slotCount)
      ensures ov.None? ==> View() == old(View())
      ensures ov.Some? ==> ov.value == old(nextOverlay) && View() == Installed(abi, old(View()), r)
    {
      if r.inst.None? || !r.cls.polymorphic || r.cls.complexLayout || r.cls.slotCount < MinMethodSlots(abi) {
        return None;
      }
      for i := 0 to |r.methods|
        invariant SlotsInRange(r.methods[..i], r.cls.slotCount)
      {
        if r.methods[i] < 0 || r.methods[i] >= r.cls.slotCount {
          return None;
        }
      }
      assert r.methods[..|r.methods|] == r.methods;
      ov := Some(nextOverlay);
      ApplyVTableOverlay(r);
    }

    /** applyVTableOverlay and the hook: the block, the hook fields and the new vptr. */
    method ApplyVTableOverlay(r: Request)
      requires |r.methods| == |r.fns| && Accepted(abi, r) && Readable(abi, View(), r.inst.value, r.cls.slotCount)
      modifies this
      ensures View() == Installed(abi, old(View()), r)
    {
      var inst := r.inst.value;
      var a := vptr[inst];
      var source := blocks[a.block][a.off - AbiPrefix(abi)..a.off + r.cls.slotCount];
      var block := BuildBlock(abi, source, r.methods, r.fns, r.nExtra, nextOverlay);
      var o := Overlay(nextBlock, a, inst, r.nExtra, false, Nil, None);
      if r.hook.Some? {
        // The fields are set before the wrapper becomes reachable.
        var dtorAt := AddressPoint(abi, r.nExtra) + DeletingDtorSlot(abi);
        o := o.(origDtor := block[dtorAt], hook := r.hook);
        block[dtorAt] := DtorWrapper;
      }
      blocks := blocks[nextBlock := block[..]];
      vptr := vptr[inst := Addr(nextBlock, AddressPoint(abi, r.nExtra))];
      overlays := overlays[nextOverlay := o];
      nextBlock, nextOverlay := nextBlock + 1, nextOverlay + 1;
    }

    /** Deleting a null overlay does nothing. */
    method DestroyVTableOverlay(overlay: Option<OverlayId>) returns (fault: bool)
      requires overlay.Some? ==> overlay.value in overlays
      modifies this
      ensures (View(), fault) == if overlay.None? then (old(View()), false) else Destroyed(old(View()), overlay.value)
    {
      fault := false;
      if overlay.None? {
        return;
      }
      var ov := overlay.value;
      var o := overlays[ov];
      if !o.dtorFired {
        if o.inst in vptr {
          vptr := vptr[o.inst := o.originalVptr];
        } else {
          fault := true;
        }
      }
      blocks := blocks - {o.block};
      overlays := overlays - {ov};
    }
  }
}
