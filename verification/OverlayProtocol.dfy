/** The destruction protocol of vtable overlays as a state machine: any client, any order of
    creating and destroying overlays, writing extra slots and deleting objects, and any client
    action inside a cleanup callback.  At most one overlay per object is live at a time. */
module OverlayProtocol {
  import opened Wrappers
  import opened VTableOverlay

  datatype Event =
    | Called(ov: OverlayId, inst: Inst)                              // the cleanup callback starts
    | Dtor(inst: Inst, entry: Word, via: Option<OverlayId>)          // a deleting destructor runs
    | Restored(ov: OverlayId, inst: Inst)                            // the old vptr is written back

  /** An object whose wrapper has started: the destructor saved on the wrapper's stack. */
  datatype Dying = Dying(entry: Word, via: OverlayId)

  /** `home`, `slots` and `made` are history: the class vtable of each object, its size, and what
      each overlay was when it was made. */
  datatype State = State(mem: Memory, dying: map<Inst, Dying>, log: seq<Event>, fault: bool,
                         home: map<Inst, Addr>, slots: map<Inst, nat>, made: map<OverlayId, Overlay>)

  datatype Step =
    | Make(r: Request)
    | Destroy(ov: OverlayId)
    | WriteExtra(ov: OverlayId, i: nat, w: Word)
    | BeginDelete(inst: Inst)     // delete of a live object: virtual call of the deleting destructor
    | EndDelete(inst: Inst)       // the callback returned: the wrapper calls the saved destructor

  ghost predicate NoOverlay(m: Memory, inst: Inst) {
    forall ov :: ov in m.overlays ==> m.overlays[ov].inst != inst
  }

  ghost predicate Enabled(abi: Abi, s: State, step: Step) {
    match step
    case Make(r) =>
      && |r.methods| == |r.fns| && (forall f :: f in r.fns ==> f.Code?)
      && (Accepted(abi, r) ==>
           && r.inst.value in s.mem.vptr && r.inst.value !in s.dying && NoOverlay(s.mem, r.inst.value)
           && r.inst.value in s.slots && r.cls.slotCount == s.slots[r.inst.value]
           && Readable(abi, s.mem, r.inst.value, r.cls.slotCount))
    case Destroy(ov) => ov in s.mem.overlays
    case WriteExtra(ov, i, w) =>
      && ov in s.mem.overlays && s.mem.overlays[ov].block in s.mem.blocks
      && i < s.mem.overlays[ov].nExtra <= |s.mem.blocks[s.mem.overlays[ov].block]| && (w.Nil? || w.Data?)
    case BeginDelete(inst) => inst in s.mem.vptr && inst !in s.dying
    case EndDelete(inst) => inst in s.dying
  }

  ghost function Next(abi: Abi, s: State, step: Step): State
    requires Enabled(abi, s, step)
  {
    match step
    case Make(r) =>
      if !Accepted(abi, r) then s
      else
        var m := Installed(abi, s.mem, r);
        s.(mem := m, made := s.made[s.mem.nextOverlay := m.overlays[s.mem.nextOverlay]])
    case Destroy(ov) =>
      var o := s.mem.overlays[ov];
      var (m, bad) := Destroyed(s.mem, ov);
      s.(mem := m, fault := s.fault || bad,
         log := if o.dtorFired || bad then s.log else s.log + [Restored(ov, o.inst)])
    case WriteExtra(ov, i, w) =>
      var o := s.mem.overlays[ov];
      var block := s.mem.blocks[o.block];
      s.(mem := s.mem.(blocks := s.mem.blocks[o.block := block[o.nExtra - 1 - i := w]]))
    case BeginDelete(inst) =>
      var entry := Slot(s.mem, inst, DeletingDtorSlot(abi));
      if entry.Some? && entry.value.Code? then Dies(s, inst, entry.value, None)
      else
        var hidden := Slot(s.mem, inst, Displacement(abi, Hidden));
        if entry == Some(DtorWrapper) && hidden.Some? && hidden.value.SelfPtr? && hidden.value.ov in s.mem.overlays then
          StartsDying(s, inst, hidden.value.ov)
        else s.(fault := true)
    case EndDelete(inst) => Dies(s, inst, s.dying[inst].entry, Some(s.dying[inst].via))
  }

  /** A deleting destructor runs to its end: the object is gone. */
  ghost function Dies(s: State, inst: Inst, entry: Word, via: Option<OverlayId>): State {
    s.(mem := s.mem.(vptr := s.mem.vptr - {inst}), dying := s.dying - {inst},
       log := s.log + [Dtor(inst, entry, via)])
  }

  /** The wrapper: save the destructor, note that it started, call back. */
  ghost function StartsDying(s: State, inst: Inst, ov: OverlayId): State
    requires ov in s.mem.overlays
  {
    var o := s.mem.overlays[ov];
    s.(mem := s.mem.(overlays := s.mem.overlays[ov := o.(dtorFired := true)]),
       dying := s.dying[inst := Dying(o.origDtor, ov)],
       log := if o.hook.Some? then s.log + [Called(ov, inst)] else s.log)
  }

  // ----- invariants -----

  ghost predicate AliveNow(s: State, inst: Inst) {
    inst in s.mem.vptr && inst !in s.dying
  }

  /** The class vtable of an object: live, large enough, and with real code for deletion. */
  ghost predicate HomeOk(abi: Abi, s: State, inst: Inst)
    requires inst in s.home
  {
    var a := s.home[inst];
    && inst in s.slots && s.slots[inst] >= MinMethodSlots(abi)
    && a.block in s.mem.blocks && AbiPrefix(abi) <= a.off
    && a.off + s.slots[inst] <= |s.mem.blocks[a.block]|
    && s.mem.blocks[a.block][a.off + DeletingDtorSlot(abi)].Code?
    && forall ov :: ov in s.mem.overlays ==> s.mem.overlays[ov].block != a.block
  }

  /** The block of an overlay: self pointer, and the wrapper or real code for deletion. */
  ghost predicate BlockOk(abi: Abi, block: seq<Word>, ov: OverlayId, o: Overlay, total: nat)
    requires total >= MinMethodSlots(abi)
  {
    && |block| == o.nExtra + Prefix(abi) + total
    && block[o.nExtra] == SelfPtr(ov)
    && (if o.hook.Some? then
          o.origDtor.Code? && block[AddressPoint(abi, o.nExtra) + DeletingDtorSlot(abi)] == DtorWrapper
        else block[AddressPoint(abi, o.nExtra) + DeletingDtorSlot(abi)].Code?)
  }

  ghost predicate OverlayOk(abi: Abi, s: State, ov: OverlayId)
    requires ov in s.mem.overlays
  {
    var o := s.mem.overlays[ov];
    && ov in s.made && s.made[ov] == o.(dtorFired := false)
    && o.inst in s.home && o.inst in s.slots && o.originalVptr == s.home[o.inst]
    && s.slots[o.inst] >= MinMethodSlots(abi)
    && o.block in s.mem.blocks
    && BlockOk(abi, s.mem.blocks[o.block], ov, o, s.slots[o.inst])
    && (if o.hook.Some? then o.dtorFired <==> !AliveNow(s, o.inst) else !o.dtorFired && o.inst !in s.dying)
    && (AliveNow(s, o.inst) ==> s.mem.vptr[o.inst] == Addr(o.block, AddressPoint(abi, o.nExtra)))
  }

  ghost predicate Separate(m: Memory) {
    forall v, w :: v in m.overlays && w in m.overlays && v != w ==>
      m.overlays[v].block != m.overlays[w].block && m.overlays[v].inst != m.overlays[w].inst
  }

  ghost predicate Counted(s: State) {
    && (forall b :: b in s.mem.blocks ==> b < s.mem.nextBlock)
    && (forall ov :: ov in s.mem.overlays ==> ov < s.mem.nextOverlay)
    && (forall ov :: ov in s.made ==> ov < s.mem.nextOverlay)
  }

  ghost predicate Shaped(s: State) {
    Counted(s) && Separate(s.mem) && s.mem.vptr.Keys <= s.home.Keys && s.dying.Keys <= s.mem.vptr.Keys
  }

  ghost predicate HomesOk(abi: Abi, s: State) {
    forall inst :: inst in s.home ==> HomeOk(abi, s, inst)
  }

  ghost predicate OverlaysOk(abi: Abi, s: State) {
    forall ov :: ov in s.mem.overlays ==> OverlayOk(abi, s, ov)
  }

  /** A live object without an overlay has its class vtable. */
  ghost predicate BareAtHome(s: State) {
    forall inst :: AliveNow(s, inst) && NoOverlay(s.mem, inst) ==> inst in s.home && s.mem.vptr[inst] == s.home[inst]
  }

  ghost predicate MemoryOk(abi: Abi, s: State) {
    Shaped(s) && HomesOk(abi, s) && OverlaysOk(abi, s) && BareAtHome(s)
  }

  /** What one log entry says about the present. */
  ghost predicate EventOk(s: State, e: Event) {
    match e
    case Called(ov, inst) =>
      ov in s.made && s.made[ov].inst == inst && !AliveNow(s, inst) &&
      (ov in s.mem.overlays ==> s.mem.overlays[ov].dtorFired)
    case Dtor(inst, entry, via) =>
      inst !in s.mem.vptr && (via.Some? ==>
        via.value in s.made && s.made[via.value].inst == inst && entry == s.made[via.value].origDtor)
    case Restored(ov, _) => ov !in s.mem.overlays && ov in s.made
  }

  /** The order of events. */
  ghost predicate OrderOk(log: seq<Event>) {
    && (forall i, j :: 0 <= i < j < |log| && log[i].Called? && log[j].Called? ==> log[i].ov != log[j].ov)
    && (forall i, j :: 0 <= i < j < |log| && log[i].Dtor? && log[j].Dtor? ==> log[i].inst != log[j].inst)
    && (forall i, j :: 0 <= i < j < |log| && log[i].Dtor? && log[j].Called? ==> log[i].inst != log[j].inst)
    && (forall i, j :: 0 <= i < |log| && 0 <= j < |log| && log[i].Called? && log[j].Restored? ==>
         log[i].ov != log[j].ov)
    && (forall j :: 0 <= j < |log| && log[j].Dtor? && log[j].via.Some? ==>
         Called(log[j].via.value, log[j].inst) in log[..j])
  }

  /** A dying object's callback was called, and its overlay's destructor is the one saved. */
  ghost predicate DyingOk(s: State) {
    forall inst :: inst in s.dying ==>
      var d := s.dying[inst];
      Called(d.via, inst) in s.log && d.via in s.made && s.made[d.via].inst == inst && d.entry == s.made[d.via].origDtor
  }

  ghost predicate LogOk(s: State) {
    && (forall e :: e in s.log ==> EventOk(s, e))
    && OrderOk(s.log)
    && DyingOk(s)
  }

  ghost predicate Inv(abi: Abi, s: State) {
    MemoryOk(abi, s) && LogOk(s)
  }

  /** Any number of live objects with proper class vtables, and no overlay yet. */
  ghost predicate Init(abi: Abi, s: State) {
    && s.mem.overlays == map[] && s.dying == map[] && s.log == [] && !s.fault && s.made == map[]
    && s.home == s.mem.vptr && Counted(s)
    && forall inst :: inst in s.home ==> HomeOk(abi, s, inst)
  }

  // ----- frames -----

  /** Nothing that OverlayOk(ov) looks at has changed. */
  lemma OverlayFrame(abi: Abi, s: State, s': State, ov: OverlayId)
    requires ov in s.mem.overlays && OverlayOk(abi, s, ov)
    requires ov in s'.mem.overlays && s'.mem.overlays[ov] == s.mem.overlays[ov]
    requires s'.home == s.home && s'.slots == s.slots && ov in s'.made && s'.made[ov] == s.made[ov]
    requires var o := s.mem.overlays[ov];
             && o.block in s'.mem.blocks && s'.mem.blocks[o.block] == s.mem.blocks[o.block]
             && (o.inst in s'.dying <==> o.inst in s.dying)
             && (o.inst in s'.mem.vptr <==> o.inst in s.mem.vptr)
             && (o.inst in s.mem.vptr ==> s'.mem.vptr[o.inst] == s.mem.vptr[o.inst])
    ensures OverlayOk(abi, s', ov)
  {
  }

  lemma HomeFrame(abi: Abi, s: State, s': State)
    requires HomesOk(abi, s) && s'.home == s.home && s'.slots == s.slots
    requires forall b :: b in s.mem.blocks && (forall ov :: ov in s.mem.overlays ==> s.mem.overlays[ov].block != b) ==>
      b in s'.mem.blocks && s'.mem.blocks[b] == s.mem.blocks[b]
    requires forall ov :: ov in s'.mem.overlays ==>
      s'.mem.overlays[ov].block !in s.mem.blocks ||
      (ov in s.mem.overlays && s'.mem.overlays[ov].block == s.mem.overlays[ov].block)
    ensures HomesOk(abi, s')
  {
    forall inst | inst in s'.home
      ensures HomeOk(abi, s', inst)
    {
      assert HomeOk(abi, s, inst);
    }
  }

  /** Objects only move towards death, overlays towards being fired and being gone. */
  ghost predicate Progress(s: State, s': State) {
    && (forall ov :: ov in s.made ==> ov in s'.made && s'.made[ov] == s.made[ov])
    && s'.mem.vptr.Keys <= s.mem.vptr.Keys
    && (forall inst :: AliveNow(s', inst) ==> AliveNow(s, inst))
    && (forall ov :: ov in s.made && ov in s'.mem.overlays ==>
         ov in s.mem.overlays && (s.mem.overlays[ov].dtorFired ==> s'.mem.overlays[ov].dtorFired))
  }

  lemma EventsKept(s: State, s': State)
    requires LogOk(s) && Progress(s, s')
    ensures forall e :: e in s.log ==> EventOk(s', e)
  {
    forall e | e in s.log
      ensures EventOk(s', e)
    {
      assert EventOk(s, e);
    }
  }

  lemma OrderExtends(log: seq<Event>, e: Event)
    requires OrderOk(log)
    requires forall c :: c in log && c.Called? && e.Called? ==> c.ov != e.ov
    requires forall c :: c in log && c.Dtor? && (e.Dtor? || e.Called?) ==> c.inst != e.inst
    requires forall c :: c in log && c.Called? && e.Restored? ==> c.ov != e.ov
    requires forall c :: c in log && c.Restored? && e.Called? ==> c.ov != e.ov
    requires e.Dtor? && e.via.Some? ==> Called(e.via.value, e.inst) in log
    ensures OrderOk(log + [e])
  {
    var log' := log + [e];
    assert forall j :: 0 <= j < |log| ==> log'[j] == log[j] && log'[..j] == log[..j];
    assert log'[..|log|] == log;
  }

  // ----- one step -----

  lemma MakeMemory(abi: Abi, s: State, r: Request)
    requires MemoryOk(abi, s) && Enabled(abi, s, Make(r)) && Accepted(abi, r)
    ensures MemoryOk(abi, Next(abi, s, Make(r)))
  {
    MakeOverlays(abi, s, r);
    MakeHomes(abi, s, r);
    MakeShape(abi, s, r);
    MakeBare(abi, s, r);
  }

  lemma MakeOverlays(abi: Abi, s: State, r: Request)
    requires MemoryOk(abi, s) && Enabled(abi, s, Make(r)) && Accepted(abi, r)
    ensures OverlaysOk(abi, Next(abi, s, Make(r)))
  {
    var s' := Next(abi, s, Make(r));
    MadeIsOk(abi, s, r);
    forall w | w in s'.mem.overlays
      ensures OverlayOk(abi, s', w)
    {
      if w != s.mem.nextOverlay { MakeFrame(abi, s, r, w); }
    }
  }

  lemma MakeHomes(abi: Abi, s: State, r: Request)
    requires Shaped(s) && HomesOk(abi, s) && Enabled(abi, s, Make(r)) && Accepted(abi, r)
    ensures HomesOk(abi, Next(abi, s, Make(r)))
  {
    HomeFrame(abi, s, Next(abi, s, Make(r)));
  }

  lemma MakeFrame(abi: Abi, s: State, r: Request, w: OverlayId)
    requires Shaped(s) && Enabled(abi, s, Make(r)) && Accepted(abi, r)
    requires w in s.mem.overlays && OverlayOk(abi, s, w)
    ensures OverlayOk(abi, Next(abi, s, Make(r)), w)
  {
    OverlayFrame(abi, s, Next(abi, s, Make(r)), w);
  }

  lemma MakeShape(abi: Abi, s: State, r: Request)
    requires Shaped(s) && OverlaysOk(abi, s) && Enabled(abi, s, Make(r)) && Accepted(abi, r)
    ensures Shaped(Next(abi, s, Make(r)))
  {
    assert forall w :: w in s.mem.overlays ==> OverlayOk(abi, s, w);
  }

  lemma MakeBare(abi: Abi, s: State, r: Request)
    requires Counted(s) && BareAtHome(s) && Enabled(abi, s, Make(r)) && Accepted(abi, r)
    ensures BareAtHome(Next(abi, s, Make(r)))
  {
    var s' := Next(abi, s, Make(r));
    forall i | AliveNow(s', i) && NoOverlay(s'.mem, i)
      ensures i in s'.home && s'.mem.vptr[i] == s'.home[i]
    {
      assert s'.mem.overlays[s.mem.nextOverlay].inst == r.inst.value;
      assert forall w :: w in s.mem.overlays ==> s'.mem.overlays[w] == s.mem.overlays[w];
      assert NoOverlay(s.mem, i);
    }
  }

  /** The entry that deletion used to find, or would find without the hook, is real code. */
  lemma EntryIsCode(abi: Abi, s: State, r: Request)
    requires MemoryOk(abi, s) && Enabled(abi, s, Make(r)) && Accepted(abi, r)
    ensures var last := LastOverride(r.methods, DeletingDtorSlot(abi));
            if last.Some? then r.fns[last.value].Code?
            else Slot(s.mem, r.inst.value, DeletingDtorSlot(abi)).Some? &&
                 Slot(s.mem, r.inst.value, DeletingDtorSlot(abi)).value.Code?
  {
    var last := LastOverride(r.methods, DeletingDtorSlot(abi));
    if last.Some? {
      assert r.fns[last.value] in r.fns;
    } else {
      assert HomeOk(abi, s, r.inst.value);
    }
  }

  lemma MadeBlock(abi: Abi, m: Memory, r: Request)
    requires Accepted(abi, r) && Readable(abi, m, r.inst.value, r.cls.slotCount) && |r.methods| == |r.fns|
    requires var last := LastOverride(r.methods, DeletingDtorSlot(abi));
             if last.Some? then r.fns[last.value].Code?
             else Slot(m, r.inst.value, DeletingDtorSlot(abi)).Some? &&
                  Slot(m, r.inst.value, DeletingDtorSlot(abi)).value.Code?
    ensures var m' := Installed(abi, m, r);
            BlockOk(abi, m'.blocks[m.nextBlock], m.nextOverlay, m'.overlays[m.nextOverlay], r.cls.slotCount)
  {
    var m' := Installed(abi, m, r);
    var block := m'.blocks[m.nextBlock];
    var at := AddressPoint(abi, r.nExtra);
    assert |block| == r.nExtra + Prefix(abi) + r.cls.slotCount;
    OverlayPrefix(abi, m, r, Hidden);
    SlotOf(m', r.inst.value, m.nextBlock, at, block, Displacement(abi, Hidden));
    OverlayDispatches(abi, m, r, DeletingDtorSlot(abi));
    SlotOf(m', r.inst.value, m.nextBlock, at, block, DeletingDtorSlot(abi));
  }

  lemma MadeIsOk(abi: Abi, s: State, r: Request)
    requires MemoryOk(abi, s) && Enabled(abi, s, Make(r)) && Accepted(abi, r)
    ensures s.mem.nextOverlay in Next(abi, s, Make(r)).mem.overlays
    ensures OverlayOk(abi, Next(abi, s, Make(r)), s.mem.nextOverlay)
  {
    assert HomeOk(abi, s, r.inst.value);
    EntryIsCode(abi, s, r);
    MadeBlock(abi, s.mem, r);
  }

  lemma MakeLog(abi: Abi, s: State, r: Request)
    requires Inv(abi, s) && Enabled(abi, s, Make(r)) && Accepted(abi, r)
    ensures LogOk(Next(abi, s, Make(r)))
  {
    EventsKept(s, Next(abi, s, Make(r)));
  }

  lemma DestroyMemory(abi: Abi, s: State, ov: OverlayId)
    requires MemoryOk(abi, s) && Enabled(abi, s, Destroy(ov))
    ensures MemoryOk(abi, Next(abi, s, Destroy(ov)))
  {
    var s' := Next(abi, s, Destroy(ov));
    forall w | w in s'.mem.overlays
      ensures OverlayOk(abi, s', w)
    {
      DestroyFrame(abi, s, ov, w);
    }
    HomeFrame(abi, s, s');
    assert OverlayOk(abi, s, ov);
    DestroyShape(abi, s, ov);
  }

  lemma DestroyFrame(abi: Abi, s: State, ov: OverlayId, w: OverlayId)
    requires Shaped(s) && Enabled(abi, s, Destroy(ov)) && w != ov
    requires w in s.mem.overlays && OverlayOk(abi, s, w)
    ensures OverlayOk(abi, Next(abi, s, Destroy(ov)), w)
  {
    OverlayFrame(abi, s, Next(abi, s, Destroy(ov)), w);
  }

  lemma DestroyShape(abi: Abi, s: State, ov: OverlayId)
    requires Shaped(s) && BareAtHome(s) && Enabled(abi, s, Destroy(ov)) && OverlayOk(abi, s, ov)
    ensures var s' := Next(abi, s, Destroy(ov)); Shaped(s') && BareAtHome(s')
  {
    var s' := Next(abi, s, Destroy(ov));
    var o := s.mem.overlays[ov];
    forall i | AliveNow(s', i) && NoOverlay(s'.mem, i)
      ensures i in s'.home && s'.mem.vptr[i] == s'.home[i]
    {
      if i != o.inst {
        assert forall w :: w in s.mem.overlays && w != ov ==>
          w in s'.mem.overlays && s'.mem.overlays[w] == s.mem.overlays[w];
        assert NoOverlay(s.mem, i);
      }
    }
  }

  lemma DestroyLog(abi: Abi, s: State, ov: OverlayId)
    requires Inv(abi, s) && Enabled(abi, s, Destroy(ov))
    ensures LogOk(Next(abi, s, Destroy(ov)))
  {
    var s' := Next(abi, s, Destroy(ov));
    assert OverlayOk(abi, s, ov);
    EventsKept(s, s');
    if s'.log != s.log {
      forall c | c in s.log && c.Called?
        ensures c.ov != ov
      {
        assert EventOk(s, c);
      }
      OrderExtends(s.log, Restored(ov, s.mem.overlays[ov].inst));
    }
  }

  /** What a client stores in an extra slot is found there by the object, and no other slot changes. */
  lemma ExtraIsKept(abi: Abi, s: State, ov: OverlayId, i: nat, w: Word, k: int)
    requires OverlaysOk(abi, s) && Enabled(abi, s, WriteExtra(ov, i, w)) && AliveNow(s, s.mem.overlays[ov].inst)
    ensures var inst := s.mem.overlays[ov].inst;
            Slot(Next(abi, s, WriteExtra(ov, i, w)).mem, inst, k) ==
            if k == (if abi.Itanium? then -4 else -3) - i then Some(w) else Slot(s.mem, inst, k)
  {
    assert OverlayOk(abi, s, ov);
  }

  lemma WriteExtraMemory(abi: Abi, s: State, ov: OverlayId, i: nat, w: Word)
    requires MemoryOk(abi, s) && Enabled(abi, s, WriteExtra(ov, i, w))
    ensures MemoryOk(abi, Next(abi, s, WriteExtra(ov, i, w)))
  {
    WriteExtraOverlays(abi, s, ov, i, w);
    WriteExtraHomes(abi, s, ov, i, w);
    WriteExtraShape(abi, s, ov, i, w);
  }

  lemma WriteExtraHomes(abi: Abi, s: State, ov: OverlayId, i: nat, w: Word)
    requires HomesOk(abi, s) && Enabled(abi, s, WriteExtra(ov, i, w))
    ensures HomesOk(abi, Next(abi, s, WriteExtra(ov, i, w)))
  {
    HomeFrame(abi, s, Next(abi, s, WriteExtra(ov, i, w)));
  }

  lemma WriteExtraShape(abi: Abi, s: State, ov: OverlayId, i: nat, w: Word)
    requires Shaped(s) && BareAtHome(s) && Enabled(abi, s, WriteExtra(ov, i, w))
    ensures var s' := Next(abi, s, WriteExtra(ov, i, w)); Shaped(s') && BareAtHome(s')
  {
  }

  lemma WriteExtraOverlays(abi: Abi, s: State, ov: OverlayId, i: nat, w: Word)
    requires Separate(s.mem) && OverlaysOk(abi, s) && Enabled(abi, s, WriteExtra(ov, i, w))
    ensures OverlaysOk(abi, Next(abi, s, WriteExtra(ov, i, w)))
  {
    var s' := Next(abi, s, WriteExtra(ov, i, w));
    forall v | v in s'.mem.overlays
      ensures OverlayOk(abi, s', v)
    {
      assert OverlayOk(abi, s, v);
      WriteExtraFrame(abi, s, ov, i, w, v);
    }
  }

  lemma WriteExtraFrame(abi: Abi, s: State, ov: OverlayId, i: nat, w: Word, v: OverlayId)
    requires Enabled(abi, s, WriteExtra(ov, i, w)) && v in s.mem.overlays && OverlayOk(abi, s, v)
    requires v != ov ==> s.mem.overlays[v].block != s.mem.overlays[ov].block
    ensures OverlayOk(abi, Next(abi, s, WriteExtra(ov, i, w)), v)
  {
    if v != ov { OverlayFrame(abi, s, Next(abi, s, WriteExtra(ov, i, w)), v); }
  }

  lemma WriteExtraLog(abi: Abi, s: State, ov: OverlayId, i: nat, w: Word)
    requires Inv(abi, s) && Enabled(abi, s, WriteExtra(ov, i, w))
    ensures LogOk(Next(abi, s, WriteExtra(ov, i, w)))
  {
    EventsKept(s, Next(abi, s, WriteExtra(ov, i, w)));
  }

  /** What the wrapper's fixed-offset load finds: code, or the object's own live overlay. */
  lemma DeleteFinds(abi: Abi, s: State, inst: Inst) returns (ov: Option<OverlayId>)
    requires MemoryOk(abi, s) && AliveNow(s, inst)
    ensures Found(abi, s, inst, ov)
  {
    ov := None;
    if NoOverlay(s.mem, inst) {
      assert HomeOk(abi, s, inst);
    } else {
      var v :| v in s.mem.overlays && s.mem.overlays[v].inst == inst;
      assert forall w :: w in s.mem.overlays && s.mem.overlays[w].inst == inst ==> w == v;
      FoundOverlay(abi, s, inst, v);
      if s.mem.overlays[v].hook.Some? { ov := Some(v); }
    }
  }

  lemma FoundOverlay(abi: Abi, s: State, inst: Inst, v: OverlayId)
    requires v in s.mem.overlays && OverlayOk(abi, s, v) && AliveNow(s, inst) && s.mem.overlays[v].inst == inst
    requires forall w :: w in s.mem.overlays && s.mem.overlays[w].inst == inst ==> w == v
    ensures Found(abi, s, inst, if s.mem.overlays[v].hook.Some? then Some(v) else None)
  {
  }

  /** The outcome of DeleteFinds. */
  ghost predicate Found(abi: Abi, s: State, inst: Inst, ov: Option<OverlayId>) {
    match ov
    case None =>
      && Slot(s.mem, inst, DeletingDtorSlot(abi)).Some? && Slot(s.mem, inst, DeletingDtorSlot(abi)).value.Code?
      && forall v :: v in s.mem.overlays && s.mem.overlays[v].inst == inst ==> s.mem.overlays[v].hook.None?
    case Some(v) =>
      && Slot(s.mem, inst, DeletingDtorSlot(abi)) == Some(DtorWrapper)
      && Slot(s.mem, inst, Displacement(abi, Hidden)) == Some(SelfPtr(v))
      && v in s.mem.overlays && s.mem.overlays[v].inst == inst && s.mem.overlays[v].hook.Some?
  }

  /** The object may go: it is dying, or no hook watches it. */
  ghost predicate Unwatched(s: State, inst: Inst) {
    inst in s.dying ||
    forall v :: v in s.mem.overlays && s.mem.overlays[v].inst == inst ==> s.mem.overlays[v].hook.None?
  }

  lemma DiesMemory(abi: Abi, s: State, inst: Inst, entry: Word, via: Option<OverlayId>)
    requires MemoryOk(abi, s) && inst in s.mem.vptr && Unwatched(s, inst)
    ensures MemoryOk(abi, Dies(s, inst, entry, via))
  {
    var s' := Dies(s, inst, entry, via);
    forall v | v in s'.mem.overlays
      ensures OverlayOk(abi, s', v)
    {
      DiesFrame(abi, s, inst, entry, via, v);
    }
    HomeFrame(abi, s, s');
  }

  lemma DiesFrame(abi: Abi, s: State, inst: Inst, entry: Word, via: Option<OverlayId>, v: OverlayId)
    requires inst in s.mem.vptr && Unwatched(s, inst) && v in s.mem.overlays && OverlayOk(abi, s, v)
    ensures OverlayOk(abi, Dies(s, inst, entry, via), v)
  {
    if s.mem.overlays[v].inst != inst { OverlayFrame(abi, s, Dies(s, inst, entry, via), v); }
  }

  lemma DiesLog(abi: Abi, s: State, inst: Inst, entry: Word, via: Option<OverlayId>)
    requires LogOk(s) && inst in s.mem.vptr
    requires via.Some? ==> inst in s.dying && s.dying[inst] == Dying(entry, via.value)
    ensures LogOk(Dies(s, inst, entry, via))
  {
    EventsKept(s, Dies(s, inst, entry, via));
    forall c | c in s.log && c.Dtor?
      ensures c.inst != inst
    {
      assert EventOk(s, c);
    }
    OrderExtends(s.log, Dtor(inst, entry, via));
  }

  lemma StartsDyingMemory(abi: Abi, s: State, inst: Inst, ov: OverlayId)
    requires MemoryOk(abi, s) && AliveNow(s, inst) && Found(abi, s, inst, Some(ov))
    ensures MemoryOk(abi, StartsDying(s, inst, ov))
  {
    StartsDyingOverlays(abi, s, inst, ov);
    StartsDyingHomes(abi, s, inst, ov);
    StartsDyingShape(s, inst, ov);
  }

  lemma StartsDyingHomes(abi: Abi, s: State, inst: Inst, ov: OverlayId)
    requires HomesOk(abi, s) && ov in s.mem.overlays
    ensures HomesOk(abi, StartsDying(s, inst, ov))
  {
    HomeFrame(abi, s, StartsDying(s, inst, ov));
  }

  lemma StartsDyingOverlays(abi: Abi, s: State, inst: Inst, ov: OverlayId)
    requires Separate(s.mem) && OverlaysOk(abi, s) && AliveNow(s, inst) && ov in s.mem.overlays
    requires s.mem.overlays[ov].inst == inst && s.mem.overlays[ov].hook.Some?
    ensures OverlaysOk(abi, StartsDying(s, inst, ov))
  {
    var s' := StartsDying(s, inst, ov);
    forall v | v in s'.mem.overlays
      ensures OverlayOk(abi, s', v)
    {
      assert OverlayOk(abi, s, v);
      StartsDyingFrame(abi, s, inst, ov, v);
    }
  }

  lemma StartsDyingFrame(abi: Abi, s: State, inst: Inst, ov: OverlayId, v: OverlayId)
    requires AliveNow(s, inst) && ov in s.mem.overlays && s.mem.overlays[ov].inst == inst
    requires s.mem.overlays[ov].hook.Some?
    requires v in s.mem.overlays && OverlayOk(abi, s, v)
    requires v != ov ==> s.mem.overlays[v].inst != inst
    ensures OverlayOk(abi, StartsDying(s, inst, ov), v)
  {
    if v != ov { OverlayFrame(abi, s, StartsDying(s, inst, ov), v); }
  }

  lemma StartsDyingShape(s: State, inst: Inst, ov: OverlayId)
    requires Shaped(s) && BareAtHome(s) && AliveNow(s, inst) && ov in s.mem.overlays
    ensures var s' := StartsDying(s, inst, ov); Shaped(s') && BareAtHome(s')
  {
    var s' := StartsDying(s, inst, ov);
    forall i | AliveNow(s', i) && NoOverlay(s'.mem, i)
      ensures i in s'.home && s'.mem.vptr[i] == s'.home[i]
    {
      forall w | w in s.mem.overlays
        ensures s.mem.overlays[w].inst != i
      {
        assert s'.mem.overlays[w].inst == s.mem.overlays[w].inst;
      }
      assert NoOverlay(s.mem, i);
    }
  }

  lemma StartsDyingLog(abi: Abi, s: State, inst: Inst, ov: OverlayId)
    requires LogOk(s) && AliveNow(s, inst) && ov in s.mem.overlays && OverlayOk(abi, s, ov)
    requires s.mem.overlays[ov].inst == inst && s.mem.overlays[ov].hook.Some?
    ensures LogOk(StartsDying(s, inst, ov))
  {
    var s' := StartsDying(s, inst, ov);
    EventsKept(s, s');
    forall c | c in s.log
      ensures (c.Called? || c.Dtor?) ==> c.inst != inst
      ensures c.Called? || c.Restored? ==> c.ov != ov
    {
      assert EventOk(s, c);
    }
    OrderExtends(s.log, Called(ov, inst));
  }

  lemma BeginDeleteKeeps(abi: Abi, s: State, inst: Inst)
    requires Inv(abi, s) && Enabled(abi, s, BeginDelete(inst))
    ensures Inv(abi, Next(abi, s, BeginDelete(inst)))
  {
    var ov := DeleteFinds(abi, s, inst);
    if ov.None? {
      var entry := Slot(s.mem, inst, DeletingDtorSlot(abi)).value;
      DiesMemory(abi, s, inst, entry, None);
      DiesLog(abi, s, inst, entry, None);
    } else {
      StartsDyingMemory(abi, s, inst, ov.value);
      StartsDyingLog(abi, s, inst, ov.value);
    }
  }

  lemma EndDeleteKeeps(abi: Abi, s: State, inst: Inst)
    requires Inv(abi, s) && Enabled(abi, s, EndDelete(inst))
    ensures Inv(abi, Next(abi, s, EndDelete(inst)))
  {
    var d := s.dying[inst];
    DiesMemory(abi, s, inst, d.entry, Some(d.via));
    DiesLog(abi, s, inst, d.entry, Some(d.via));
  }

  lemma StepKeeps(abi: Abi, s: State, step: Step)
    requires Inv(abi, s) && Enabled(abi, s, step)
    ensures Inv(abi, Next(abi, s, step))
  {
    match step
    case Make(r) => if Accepted(abi, r) { MakeMemory(abi, s, r); MakeLog(abi, s, r); }
    case Destroy(ov) => DestroyMemory(abi, s, ov); DestroyLog(abi, s, ov);
    case WriteExtra(ov, i, w) => WriteExtraMemory(abi, s, ov, i, w); WriteExtraLog(abi, s, ov, i, w);
    case BeginDelete(inst) => BeginDeleteKeeps(abi, s, inst);
    case EndDelete(inst) => EndDeleteKeeps(abi, s, inst);
  }

  // ----- runs -----

  ghost predicate IsRun(abi: Abi, states: seq<State>, steps: seq<Step>) {
    && |states| == |steps| + 1 && Init(abi, states[0])
    && forall i :: 0 <= i < |steps| ==>
         Enabled(abi, states[i], steps[i]) && states[i + 1] == Next(abi, states[i], steps[i])
  }

  lemma {:induction false} RunKeeps(abi: Abi, states: seq<State>, steps: seq<Step>, n: nat)
    requires IsRun(abi, states, steps) && n < |states|
    ensures Inv(abi, states[n])
  {
    if n == 0 {
    } else {
      RunKeeps(abi, states, steps, n - 1);
      StepKeeps(abi, states[n - 1], steps[n - 1]);
    }
  }

  /** In every run: a callback fires at most once per overlay and before the object's destructor;
      a destructor reached through a wrapper is the saved one and comes after the callback; and
      once the wrapper has started the vptr is never restored. */
  lemma DestructionProtocol(abi: Abi, states: seq<State>, steps: seq<Step>, n: nat)
    requires IsRun(abi, states, steps) && n < |states|
    ensures var log := states[n].log;
            && OrderOk(log)
            && forall e :: e in log && e.Dtor? && e.via.Some? ==>
                 e.via.value in states[n].made && e.entry == states[n].made[e.via.value].origDtor
  {
    RunKeeps(abi, states, steps, n);
    var s := states[n];
    forall e | e in s.log && e.Dtor? && e.via.Some?
      ensures e.via.value in s.made && e.entry == s.made[e.via.value].origDtor
    {
      assert EventOk(s, e);
    }
  }

  /** Deleting an object whose overlay has a hook always fires the callback and saves the destructor
      on the wrapper's stack. */
  lemma HookAlwaysFires(abi: Abi, states: seq<State>, steps: seq<Step>, n: nat, ov: OverlayId)
    requires IsRun(abi, states, steps) && n < |states|
    requires ov in states[n].mem.overlays && states[n].mem.overlays[ov].hook.Some?
    requires AliveNow(states[n], states[n].mem.overlays[ov].inst)
    ensures var s := states[n]; var inst := s.mem.overlays[ov].inst;
            var s' := Next(abi, s, BeginDelete(inst));
            && s'.log == s.log + [Called(ov, inst)] && s'.fault == s.fault && ov in s.made
            && s'.dying == s.dying[inst := Dying(s.made[ov].origDtor, ov)]
  {
    RunKeeps(abi, states, steps, n);
    var s := states[n];
    var found := DeleteFinds(abi, s, s.mem.overlays[ov].inst);
    assert OverlayOk(abi, s, ov);
  }

  lemma DyingKept(abi: Abi, s: State, step: Step, inst: Inst)
    requires Enabled(abi, s, step) && inst in s.dying && step != EndDelete(inst)
    ensures var s' := Next(abi, s, step); inst in s'.dying && s'.dying[inst] == s.dying[inst]
  {
  }

  /** Whatever runs inside the callback, a dying object keeps the destructor saved for it. */
  lemma {:induction false} DyingPersists(abi: Abi, states: seq<State>, steps: seq<Step>, i: nat, j: nat, inst: Inst)
    requires IsRun(abi, states, steps) && i <= j < |states| && inst in states[i].dying
    requires forall k :: i <= k < j ==> steps[k] != EndDelete(inst)
    ensures inst in states[j].dying && states[j].dying[inst] == states[i].dying[inst]
    decreases j
  {
    if i < j {
      DyingPersists(abi, states, steps, i, j - 1, inst);
      DyingKept(abi, states[j - 1], steps[j - 1], inst);
    }
  }

  /** A deletion from its start, step `i`, to its end, step `j`, with anything in between, also the
      destruction of the overlay: the callback is called at `i`, and at `j` the object dies by the
      destructor that the overlay displaced, through the wrapper. */
  lemma SavedDestructorRuns(abi: Abi, states: seq<State>, steps: seq<Step>, i: nat, j: nat, ov: OverlayId)
    requires IsRun(abi, states, steps) && i < j < |steps|
    requires ov in states[i].mem.overlays && states[i].mem.overlays[ov].hook.Some?
    requires var inst := states[i].mem.overlays[ov].inst;
             && steps[i] == BeginDelete(inst) && steps[j] == EndDelete(inst)
             && forall k :: i < k < j ==> steps[k] != EndDelete(inst)
    ensures var o := states[i].mem.overlays[ov];
            && states[i + 1].log == states[i].log + [Called(ov, o.inst)]
            && states[j + 1].log == states[j].log + [Dtor(o.inst, o.origDtor, Some(ov))]
            && o.inst !in states[j + 1].mem.vptr && states[j + 1].fault == states[j].fault
  {
    var inst := states[i].mem.overlays[ov].inst;
    assert Enabled(abi, states[i], steps[i]) && Enabled(abi, states[j], steps[j]);
    HookAlwaysFires(abi, states, steps, i, ov);
    DyingPersists(abi, states, steps, i + 1, j, inst);
    RunKeeps(abi, states, steps, i);
    assert OverlayOk(abi, states[i], ov);
    assert states[j + 1] == Next(abi, states[j], steps[j]);
  }

  /** The only access outside live memory: destroying an overlay without a hook after its object
      is gone.  With a hook it cannot happen. */
  lemma FaultExactly(abi: Abi, states: seq<State>, steps: seq<Step>, n: nat, step: Step)
    requires IsRun(abi, states, steps) && n < |states| && Enabled(abi, states[n], step) && !states[n].fault
    ensures var s := states[n];
            Next(abi, s, step).fault <==>
              step.Destroy? && s.mem.overlays[step.ov].hook.None? && s.mem.overlays[step.ov].inst !in s.mem.vptr
  {
    RunKeeps(abi, states, steps, n);
    var s := states[n];
    match step
    case BeginDelete(inst) => var found := DeleteFinds(abi, s, inst);
    case Destroy(ov) => assert OverlayOk(abi, s, ov);
    case _ =>
  }
}
