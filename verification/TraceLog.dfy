/** The reproducer log of the tracer: which names its lines declare and use.  Lines are taken as the
    names they mention; the rest of their text does not matter here. */
module TraceLog {
  import opened Wrappers

  type Ptr = nat         // 0 is null
  type Address = nat     // of an OUT container object

  /** vN, _retN and _outN. */
  datatype Name = V(n: nat) | Ret(n: nat) | Out(n: nat)

  datatype Line = Line(decl: Option<Name>, uses: set<Name>)

  function Declared(log: seq<Line>): set<Name> {
    set i | 0 <= i < |log| && log[i].decl.Some? :: log[i].decl.value
  }

  /** Every name used is declared on an earlier line, and no name is declared twice. */
  ghost predicate WellScoped(log: seq<Line>) {
    && (forall i, n :: 0 <= i < |log| && n in log[i].uses ==> n in Declared(log[..i]))
    && (forall i, j :: 0 <= i < j < |log| && log[i].decl.Some? ==> log[i].decl != log[j].decl)
  }

  lemma DeclaredAppend(log: seq<Line>, line: Line)
    ensures Declared(log + [line]) == Declared(log) + if line.decl.Some? then {line.decl.value} else {}
  {
    var log' := log + [line];
    forall n | n in Declared(log)
      ensures n in Declared(log')
    {
      var i :| 0 <= i < |log| && log[i].decl.Some? && log[i].decl.value == n;
      assert log'[i] == log[i];
    }
    if line.decl.Some? { assert log'[|log|] == line; }
  }

  /** Appending a line that uses declared names and declares a new one. */
  lemma AppendScoped(log: seq<Line>, line: Line)
    requires WellScoped(log) && line.uses <= Declared(log)
    requires line.decl.Some? ==> line.decl.value !in Declared(log)
    ensures WellScoped(log + [line])
  {
    var log' := log + [line];
    assert forall i :: 0 <= i < |log| ==> log'[..i] == log[..i] && log'[i] == log[i];
    assert log'[..|log|] == log;
    forall i | 0 <= i < |log| && log[i].decl.Some?
      ensures log[i].decl != line.decl
    {
      assert log[i].decl.value in Declared(log);
    }
  }

  /** Rewriting the last line, a placeholder that declares nothing, into one that declares a new name. */
  lemma RewriteScoped(log: seq<Line>, decl: Option<Name>)
    requires WellScoped(log) && log != [] && log[|log| - 1].decl == None
    requires decl.Some? ==> decl.value !in Declared(log)
    ensures var log' := log[|log| - 1 := log[|log| - 1].(decl := decl)];
            WellScoped(log') && Declared(log') == Declared(log) + if decl.Some? then {decl.value} else {}
  {
    var k := |log| - 1;
    var init := log[..k];
    var log' := log[k := log[k].(decl := decl)];
    assert log == init + [log[k]] && log' == init + [log'[k]];
    DeclaredAppend(init, log[k]);
    DeclaredAppend(init, log'[k]);
    assert WellScoped(init) by {
      assert forall i :: 0 <= i < k ==> init[..i] == log[..i] && init[i] == log[i];
    }
    AppendScoped(init, log'[k]);
  }

  /** A block of new declarations that use declared names. */
  lemma {:induction false} AppendBlock(log: seq<Line>, block: seq<Line>)
    requires WellScoped(log)
    requires forall i :: 0 <= i < |block| ==> block[i].decl.Some? && block[i].uses <= Declared(log)
    requires forall i :: 0 <= i < |block| ==> block[i].decl.value !in Declared(log)
    requires forall i, j :: 0 <= i < j < |block| ==> block[i].decl != block[j].decl
    ensures WellScoped(log + block) && Declared(log + block) == Declared(log) + Declared(block)
    decreases |block|
  {
    if block == [] {
      assert log + block == log;
    } else {
      var k := |block| - 1;
      var front, last := block[..k], block[k];
      AppendBlock(log, front);
      assert log + block == (log + front) + [last] && block == front + [last];
      DeclaredAppend(front, last);
      DeclaredAppend(log + front, last);
      assert last.decl.value !in Declared(front);
      AppendScoped(log + front, last);
    }
  }

  // ----- what the log is, for any traced program -----

  /** An argument as the tracer sees it. */
  datatype Arg = Pointer(p: Ptr) | OutContainer(addr: Address) | PlainArg

  /** What a call returned; a vector result keeps its element pointers. */
  datatype Returned = NoPointer | OnePointer(p: Ptr) | PointerVector(ptrs: seq<Ptr>)

  /** The handle names given out: v1 to v`count`. */
  datatype Handles = Handles(table: map<Ptr, nat>, count: nat)

  function Named(hs: Handles, p: Ptr): Handles {
    if p == 0 || p in hs.table then hs else Handles(hs.table[p := hs.count + 1], hs.count + 1)
  }

  function NamedAll(hs: Handles, ptrs: seq<Ptr>): (r: Handles)
    ensures r.count >= hs.count
  {
    if ptrs == [] then hs else Named(NamedAll(hs, ptrs[..|ptrs| - 1]), ptrs[|ptrs| - 1])
  }

  /** The buffers given out: _out0 up to below `count`. */
  datatype Buffers = Buffers(table: map<Address, nat>, count: nat)

  /** After the arguments of a call: a container seen before keeps its buffer, a new one gets the next. */
  function Buffered(bs: Buffers, args: seq<Arg>): (r: Buffers)
    ensures r.count >= bs.count
  {
    if args == [] then bs
    else
      var b, a := Buffered(bs, args[..|args| - 1]), args[|args| - 1];
      if !a.OutContainer? || a.addr in b.table then b else Buffers(b.table[a.addr := b.count], b.count + 1)
  }

  /** The buffers of the containers among the arguments, in order. */
  function Indices(table: map<Address, nat>, args: seq<Arg>): seq<nat> {
    if args == [] then []
    else
      var a := args[|args| - 1];
      Indices(table, args[..|args| - 1]) + if a.OutContainer? && a.addr in table then [table[a.addr]] else []
  }

  /** The names in the formatted argument list: known handles and the containers' buffers. */
  function ArgNames(args: seq<Arg>, handles: map<Ptr, nat>, outs: map<Address, nat>): set<Name> {
    (set i | 0 <= i < |args| && args[i].Pointer? && args[i].p in handles :: V(handles[args[i].p])) +
    (set i | 0 <= i < |args| && args[i].OutContainer? && args[i].addr in outs :: Out(outs[args[i].addr]))
  }

  /** `std::vector<void*> _outN;` for the buffers from `lo` up to below `hi`. */
  function OutDecls(lo: nat, hi: nat): seq<Line>
    requires lo <= hi
  {
    seq(hi - lo, k requires 0 <= k < hi - lo => Line(Some(Out(lo + k)), {}))
  }

  /** `void* vN = ...[i]` for the handles behind v`lo` up to v`hi`, all read from one container. */
  function HandleDecls(lo: nat, hi: nat, from: Name): seq<Line>
    requires lo <= hi
  {
    seq(hi - lo, k requires 0 <= k < hi - lo => Line(Some(V(lo + 1 + k)), {from}))
  }

  /** TraceData of an active call. */
  datatype Region = Region(nested: bool, outIndices: seq<nat>, logIndex: nat)

  datatype State = State(handles: Handles, rets: nat, buffers: Buffers, log: seq<Line>, active: seq<Region>)

  const START: State := State(Handles(map[], 0), 0, Buffers(map[], 0), [], [])

  /** A traced program: calls begin and end like brackets.  `outs` are the contents of the call's OUT
      containers when it ends. */
  datatype Event = Enter(args: seq<Arg>) | Leave(result: Returned, outs: seq<seq<Ptr>>)

  predicate Enabled(s: State, e: Event) {
    e.Leave? ==> s.active != [] && (|s.active| > 1 || |e.outs| == |s.active[0].outIndices|)
  }

  /** An outermost call contributes the declarations of its new buffers and a line with its
      arguments; a nested one nothing. */
  function Entered(s: State, args: seq<Arg>): State {
    if s.active != [] then s.(active := s.active + [Region(true, [], 0)])
    else
      var bs := Buffered(s.buffers, args);
      var log := s.log + OutDecls(s.buffers.count, bs.count) + [Line(None, ArgNames(args, s.handles.table, bs.table))];
      s.(buffers := bs, log := log, active := [Region(false, Indices(bs.table, args), |log| - 1)])
  }

  /** What naming the result of a call gives: the handles, the number of vectors returned so far, and
      the declaration on the call's line. */
  datatype Naming = Naming(handles: Handles, rets: nat, decl: Option<Name>)

  function ResultNamed(hs: Handles, rets: nat, result: Returned): Naming {
    match result
    case NoPointer => Naming(hs, rets, None)
    case OnePointer(p) =>
      var hs1 := Named(hs, p);
      Naming(hs1, rets, if hs1.count > hs.count then Some(V(hs1.count)) else None)
    case PointerVector(ptrs) => Naming(NamedAll(hs, ptrs), rets + 1, Some(Ret(rets)))
  }

  /** The handles after the OUT containers have been read, */
  function OutHandles(hs: Handles, outs: seq<seq<Ptr>>): (r: Handles)
    ensures r.count >= hs.count
    decreases |outs|
  {
    if outs == [] then hs else OutHandles(NamedAll(hs, outs[0]), outs[1..])
  }

  /** and the declarations this adds. */
  function OutLines(hs: Handles, indices: seq<nat>, outs: seq<seq<Ptr>>): seq<Line>
    requires |indices| == |outs|
    decreases |outs|
  {
    if outs == [] then []
    else
      var hs1 := NamedAll(hs, outs[0]);
      HandleDecls(hs.count, hs1.count, Out(indices[0])) + OutLines(hs1, indices[1..], outs[1..])
  }

  function Complete(log: seq<Line>, idx: nat, decl: Option<Name>): seq<Line> {
    if idx < |log| then log[idx := log[idx].(decl := decl)] else log
  }

  /** The end of an outermost call completes its line with the declaration of its result; the new
      elements of its containers and of its result follow. */
  function Left(s: State, result: Returned, outs: seq<seq<Ptr>>): State
    requires Enabled(s, Leave(result, outs))
  {
    if |s.active| > 1 then s.(active := s.active[..|s.active| - 1])
    else
      var region := s.active[0];
      var n := ResultNamed(s.handles, s.rets, result);
      var lines := OutLines(n.handles, region.outIndices, outs);
      var elements := if result.PointerVector? then HandleDecls(s.handles.count, n.handles.count, Ret(s.rets)) else [];
      var log := Complete(s.log, region.logIndex, n.decl) + lines + elements;
      State(OutHandles(n.handles, outs), n.rets, s.buffers, log, [])
  }

  function Next(s: State, e: Event): State
    requires Enabled(s, e)
  {
    match e
    case Enter(args) => Entered(s, args)
    case Leave(result, outs) => Left(s, result, outs)
  }

  /** A whole program; an end without a beginning cannot happen and is left out. */
  function Run(events: seq<Event>): State {
    if events == [] then START
    else
      var s, e := Run(events[..|events| - 1]), events[|events| - 1];
      if Enabled(s, e) then Next(s, e) else s
  }

  // ----- what the names stand for -----

  function NonNull(ptrs: seq<Ptr>): set<Ptr> {
    set p | p in ptrs && p != 0
  }

  function NonNullOne(p: Ptr): set<Ptr> {
    if p == 0 then {} else {p}
  }

  function NonNullIn(outs: seq<seq<Ptr>>): set<Ptr> {
    if outs == [] then {} else NonNull(outs[0]) + NonNullIn(outs[1..])
  }

  function NonNullOf(result: Returned): set<Ptr> {
    match result
    case NoPointer => {}
    case OnePointer(p) => NonNullOne(p)
    case PointerVector(ptrs) => NonNull(ptrs)
  }

  /** The pointers that outermost calls have handed out so far. */
  function HandedOut(events: seq<Event>): set<Ptr> {
    if events == [] then {}
    else
      var before, e := events[..|events| - 1], events[|events| - 1];
      var s := Run(before);
      HandedOut(before) +
      if Enabled(s, e) && e.Leave? && |s.active| == 1 then NonNullOf(e.result) + NonNullIn(e.outs) else {}
  }

  /** The table has a name for each of these pointers, for each its own, and no names are left over. */
  ghost predicate Names(hs: Handles, ptrs: set<Ptr>) {
    && hs.table.Keys == ptrs && hs.count == |ptrs|
    && (forall p :: p in hs.table ==> 1 <= hs.table[p] <= hs.count)
    && forall p, q :: p in hs.table && q in hs.table && hs.table[p] == hs.table[q] ==> p == q
  }

  ghost function Namings(ptrs: set<Ptr>): iset<Handles> {
    iset hs | Names(hs, ptrs)
  }

  lemma InThreeParts(a: set<Ptr>, b: set<Ptr>, c: set<Ptr>)
    ensures a + (b + c) == (a + b) + c && a + {} == a
  {
  }

  lemma NonNullSnoc(front: seq<Ptr>, p: Ptr)
    ensures NonNull([]) == {} && NonNull(front + [p]) == NonNull(front) + NonNullOne(p)
  {
  }

  lemma {:induction false} NamedAllNames(hs: Handles, known: set<Ptr>, ptrs: seq<Ptr>)
    requires hs in Namings(known)
    ensures NamedAll(hs, ptrs) in Namings(known + NonNull(ptrs)) && hs.table.Items <= NamedAll(hs, ptrs).table.Items
  {
    if ptrs == [] {
      NonNullSnoc([], 0);
      InThreeParts(known, {}, {});
    } else {
      var front, p := ptrs[..|ptrs| - 1], ptrs[|ptrs| - 1];
      NamedAllNames(hs, known, front);
      assert ptrs == front + [p];
      NonNullSnoc(front, p);
      InThreeParts(known, NonNull(front), NonNullOne(p));
      NamedNames(NamedAll(hs, front), known + NonNull(front), p);
    }
  }

  lemma NamedNames(hs: Handles, known: set<Ptr>, p: Ptr)
    requires hs in Namings(known)
    ensures Named(hs, p) in Namings(known + NonNullOne(p)) && hs.table.Items <= Named(hs, p).table.Items
  {
    if p == 0 || p in known {
      assert known + NonNullOne(p) == known;
    } else {
      assert Named(hs, p).table.Keys == known + {p};
    }
  }

  lemma {:induction false} OutNames(hs: Handles, known: set<Ptr>, outs: seq<seq<Ptr>>)
    requires hs in Namings(known)
    ensures OutHandles(hs, outs) in Namings(known + NonNullIn(outs))
    ensures hs.table.Items <= OutHandles(hs, outs).table.Items
    decreases |outs|
  {
    InThreeParts(known, {}, {});
    if outs != [] {
      NamedAllNames(hs, known, outs[0]);
      OutNames(NamedAll(hs, outs[0]), known + NonNull(outs[0]), outs[1..]);
      InThreeParts(known, NonNull(outs[0]), NonNullIn(outs[1..]));
    }
  }

  lemma ResultNames(hs: Handles, rets: nat, known: set<Ptr>, result: Returned)
    requires hs in Namings(known)
    ensures var hs' := ResultNamed(hs, rets, result).handles;
            hs' in Namings(known + NonNullOf(result)) && hs.table.Items <= hs'.table.Items
  {
    match result
    case NoPointer => InThreeParts(known, {}, {});
    case OnePointer(p) => NamedNames(hs, known, p);
    case PointerVector(ptrs) => NamedAllNames(hs, known, ptrs);
  }

  lemma NextNames(s: State, e: Event, known: set<Ptr>)
    requires s.handles in Namings(known) && Enabled(s, e)
    ensures var more := if e.Leave? && |s.active| == 1 then NonNullOf(e.result) + NonNullIn(e.outs) else {};
            Next(s, e).handles in Namings(known + more) && s.handles.table.Items <= Next(s, e).handles.table.Items
  {
    if e.Leave? && |s.active| == 1 {
      ResultNames(s.handles, s.rets, known, e.result);
      OutNames(ResultNamed(s.handles, s.rets, e.result).handles, known + NonNullOf(e.result), e.outs);
      InThreeParts(known, NonNullOf(e.result), NonNullIn(e.outs));
    } else {
      InThreeParts(known, {}, {});
    }
  }

  /** Exactly the non-null pointers that outermost calls have handed out have a name, each its own. */
  lemma {:induction false} HandedOutAreNamed(events: seq<Event>)
    ensures Run(events).handles in Namings(HandedOut(events))
  {
    if events != [] {
      var before, e := events[..|events| - 1], events[|events| - 1];
      HandedOutAreNamed(before);
      if Enabled(Run(before), e) {
        NextNames(Run(before), e, HandedOut(before));
      } else {
        assert HandedOut(events) == HandedOut(before);
      }
    }
  }

  /** A name stands for the same pointer for good. */
  lemma NamesStay(events: seq<Event>, e: Event)
    ensures Run(events).handles.table.Items <= Run(events + [e]).handles.table.Items
  {
    assert (events + [e])[..|events|] == events;
    HandedOutAreNamed(events);
    if Enabled(Run(events), e) { NextNames(Run(events), e, HandedOut(events)); }
  }

  /** The line of an outermost call uses the names of just those of its pointer arguments that were
      handed out before, and the buffers of its containers. */
  lemma CallUsesItsArguments(events: seq<Event>, args: seq<Arg>, n: nat)
    requires Run(events).active == []
    ensures var s, s' := Run(events), Run(events + [Enter(args)]); var uses := s'.log[|s'.log| - 1].uses;
            && |s'.log| > |s.log| && |s'.active| == 1
            && (V(n) in uses <==>
                 exists p: Ptr :: Pointer(p) in args && p in HandedOut(events) && (p, n) in s.handles.table.Items)
            && (Out(n) in uses <==> n in s'.active[0].outIndices)
            && Ret(n) !in uses
  {
    var s := Run(events);
    assert (events + [Enter(args)])[..|events|] == events;
    HandedOutAreNamed(events);
    var outs := Buffered(s.buffers, args).table;
    ArgNamesExactly(args, s.handles.table, outs, n);
    IndexIff(outs, args, n);
  }

  lemma ArgNamesExactly(args: seq<Arg>, handles: map<Ptr, nat>, outs: map<Address, nat>, n: nat)
    ensures var uses := ArgNames(args, handles, outs);
            && (V(n) in uses <==> exists p: Ptr :: Pointer(p) in args && (p, n) in handles.Items)
            && (Out(n) in uses <==>
                 exists i :: 0 <= i < |args| && args[i].OutContainer? && args[i].addr in outs &&
                   outs[args[i].addr] == n)
            && Ret(n) !in uses
  {
    if V(n) in ArgNames(args, handles, outs) {
      var i :| 0 <= i < |args| && args[i].Pointer? && args[i].p in handles && handles[args[i].p] == n;
      assert Pointer(args[i].p) in args && (args[i].p, n) in handles.Items;
    }
  }

  lemma {:induction false} IndexIff(table: map<Address, nat>, args: seq<Arg>, n: nat)
    ensures n in Indices(table, args) <==>
            exists i :: 0 <= i < |args| && args[i].OutContainer? && args[i].addr in table && table[args[i].addr] == n
  {
    if args != [] {
      var k := |args| - 1;
      IndexIff(table, args[..k], n);
      assert n in Indices(table, args) <==>
             n in Indices(table, args[..k]) ||
             (args[k].OutContainer? && args[k].addr in table && table[args[k].addr] == n);
    }
  }

  // ----- the log is well scoped -----

  /** Exactly the names given out are declared, except the handles in (lo, hi], which still wait. */
  ghost predicate Declares(log: seq<Line>, vars: nat, lo: nat, hi: nat, rets: nat, outs: nat) {
    && WellScoped(log)
    && (forall n: nat :: V(n) in Declared(log) <==> 1 <= n <= vars && !(lo < n <= hi))
    && (forall n: nat :: Ret(n) in Declared(log) <==> n < rets)
    && (forall n: nat :: Out(n) in Declared(log) <==> n < outs)
  }

  ghost predicate HandlesOk(hs: Handles) {
    forall p :: p in hs.table ==> 1 <= hs.table[p] <= hs.count
  }

  ghost predicate BuffersOk(bs: Buffers) {
    forall a :: a in bs.table ==> bs.table[a] < bs.count
  }

  ghost predicate RegionsOk(s: State) {
    && (forall i :: 0 <= i < |s.active| ==> s.active[i].nested == (i > 0))
    && (s.active != [] ==>
         && s.active[0].logIndex + 1 == |s.log| && s.log[|s.log| - 1].decl == None
         && forall i :: 0 <= i < |s.active[0].outIndices| ==> s.active[0].outIndices[i] < s.buffers.count)
  }

  ghost predicate Ok(s: State) {
    && Declares(s.log, s.handles.count, 0, 0, s.rets, s.buffers.count)
    && HandlesOk(s.handles) && BuffersOk(s.buffers) && RegionsOk(s)
  }

  lemma {:induction false} NamedAllOk(hs: Handles, ptrs: seq<Ptr>)
    requires HandlesOk(hs)
    ensures HandlesOk(NamedAll(hs, ptrs))
  {
    if ptrs != [] {
      NamedAllOk(hs, ptrs[..|ptrs| - 1]);
    }
  }

  lemma {:induction false} BufferedOk(bs: Buffers, args: seq<Arg>)
    requires BuffersOk(bs)
    ensures BuffersOk(Buffered(bs, args))
  {
    if args != [] {
      BufferedOk(bs, args[..|args| - 1]);
    }
  }

  lemma {:induction false} IndicesBelow(bs: Buffers, args: seq<Arg>)
    requires BuffersOk(bs)
    ensures forall i :: 0 <= i < |Indices(bs.table, args)| ==> Indices(bs.table, args)[i] < bs.count
  {
    if args != [] {
      IndicesBelow(bs, args[..|args| - 1]);
    }
  }

  /** The preamble declares the new buffers. */
  lemma OutsDeclared(log: seq<Line>, vars: nat, rets: nat, lo: nat, hi: nat)
    requires Declares(log, vars, 0, 0, rets, lo) && lo <= hi
    ensures Declares(log + OutDecls(lo, hi), vars, 0, 0, rets, hi)
  {
    var block := OutDecls(lo, hi);
    AppendBlock(log, block);
    forall n: nat
      ensures Out(n) in Declared(block) <==> lo <= n < hi
    {
      if lo <= n < hi { assert block[n - lo].decl == Some(Out(n)); }
    }
  }

  /** A block that declares the handles in (lo, hi], none of them declared before, from a declared container. */
  lemma HandlesDeclared(log: seq<Line>, lo: nat, hi: nat, from: Name)
    requires WellScoped(log) && from in Declared(log) && lo <= hi
    requires forall n: nat :: lo < n <= hi ==> V(n) !in Declared(log)
    ensures var log' := log + HandleDecls(lo, hi, from);
            && WellScoped(log')
            && forall x :: x in Declared(log') <==> x in Declared(log) || (x.V? && lo < x.n <= hi)
  {
    var block := HandleDecls(lo, hi, from);
    AppendBlock(log, block);
    forall n: nat
      ensures V(n) in Declared(block) <==> lo < n <= hi
    {
      if lo < n <= hi { assert block[n - lo - 1].decl == Some(V(n)); }
    }
  }

  lemma {:induction false} OutsNamedOk(log: seq<Line>, hs: Handles, lo: nat, hi: nat, rets: nat, outs: nat,
                                       indices: seq<nat>, contents: seq<seq<Ptr>>)
    requires Declares(log, hs.count, lo, hi, rets, outs) && HandlesOk(hs) && lo <= hi <= hs.count
    requires |indices| == |contents| && forall i :: 0 <= i < |indices| ==> indices[i] < outs
    ensures var hs' := OutHandles(hs, contents);
            Declares(log + OutLines(hs, indices, contents), hs'.count, lo, hi, rets, outs) && HandlesOk(hs')
    decreases |contents|
  {
    if contents == [] {
      assert log + [] == log;
    } else {
      var hs1 := NamedAll(hs, contents[0]);
      var block := HandleDecls(hs.count, hs1.count, Out(indices[0]));
      var rest := OutLines(hs1, indices[1..], contents[1..]);
      NamedAllOk(hs, contents[0]);
      HandlesDeclared(log, hs.count, hs1.count, Out(indices[0]));
      OutsNamedOk(log + block, hs1, lo, hi, rets, outs, indices[1..], contents[1..]);
      assert log + (block + rest) == (log + block) + rest;
    }
  }

  lemma EnteredOk(s: State, args: seq<Arg>)
    requires Ok(s)
    ensures Ok(Entered(s, args))
  {
    if s.active == [] {
      var bs := Buffered(s.buffers, args);
      var log := s.log + OutDecls(s.buffers.count, bs.count);
      var line := Line(None, ArgNames(args, s.handles.table, bs.table));
      BufferedOk(s.buffers, args);
      IndicesBelow(bs, args);
      OutsDeclared(s.log, s.handles.count, s.rets, s.buffers.count, bs.count);
      assert line.uses <= Declared(log);
      AppendScoped(log, line);
      DeclaredAppend(log, line);
    }
  }

  /** The completed line declares the result; the elements of a returned vector wait. */
  lemma CompletedOk(s: State, result: Returned)
    requires Ok(s) && s.active != []
    ensures var n := ResultNamed(s.handles, s.rets, result); var hi := n.handles.count;
            var lo := if result.PointerVector? then s.handles.count else hi;
            && Declares(Complete(s.log, s.active[0].logIndex, n.decl), hi, lo, hi, n.rets, s.buffers.count)
            && HandlesOk(n.handles)
  {
    var n := ResultNamed(s.handles, s.rets, result);
    RewriteScoped(s.log, n.decl);
    if result.PointerVector? { NamedAllOk(s.handles, result.ptrs); }
  }

  lemma LeftOk(s: State, result: Returned, outs: seq<seq<Ptr>>)
    requires Ok(s) && Enabled(s, Leave(result, outs))
    ensures Ok(Left(s, result, outs))
  {
    if |s.active| == 1 {
      var region, n := s.active[0], ResultNamed(s.handles, s.rets, result);
      var log, hi := Complete(s.log, region.logIndex, n.decl), n.handles.count;
      var lo := if result.PointerVector? then s.handles.count else hi;
      CompletedOk(s, result);
      OutsNamedOk(log, n.handles, lo, hi, n.rets, s.buffers.count, region.outIndices, outs);
      var lines, vars := OutLines(n.handles, region.outIndices, outs), OutHandles(n.handles, outs).count;
      if result.PointerVector? {
        HandlesDeclared(log + lines, lo, hi, Ret(s.rets));
      } else {
        assert log + lines + [] == log + lines;
      }
    }
  }

  /** In every traced program, at every moment, every name used in the log is declared exactly once,
      on an earlier line; and exactly the names given out are declared. */
  lemma {:induction false} TraceScoped(events: seq<Event>)
    ensures Ok(Run(events)) && WellScoped(Run(events).log)
  {
    if events != [] {
      var s, e := Run(events[..|events| - 1]), events[|events| - 1];
      TraceScoped(events[..|events| - 1]);
      if Enabled(s, e) {
        match e
        case Enter(args) => EnteredOk(s, args);
        case Leave(result, outs) => LeftOk(s, result, outs);
      }
    }
  }

  /** `log` is a part of the log that no active call can touch. */
  ghost predicate Settled(s: State, log: seq<Line>) {
    log <= s.log && (s.active != [] ==> s.active[0].logIndex >= |log|)
  }

  /** What is in the log when no call is active stays there as it is. */
  lemma {:induction false} LogOnlyGrows(events: seq<Event>, more: seq<Event>)
    requires Run(events).active == []
    ensures Settled(Run(events + more), Run(events).log)
    decreases |more|
  {
    if more == [] {
      assert events + more == events;
    } else {
      var k := |more| - 1;
      var longer := events + more;
      assert longer[..|longer| - 1] == events + more[..k];
      LogOnlyGrows(events, more[..k]);
      TraceScoped(events + more[..k]);
    }
  }

  // ----- the code -----

  function Count(flags: seq<bool>): nat {
    if flags == [] then 0 else Count(flags[..|flags| - 1]) + if flags[|flags| - 1] then 1 else 0
  }

  /** The buffers used for the first time are numbered from `lo` on. */
  ghost predicate Consecutive(outIndices: seq<nat>, firstUse: seq<bool>, lo: nat) {
    && |outIndices| == |firstUse|
    && forall i :: 0 <= i < |outIndices| && firstUse[i] ==> outIndices[i] == lo + Count(firstUse[..i])
  }

  lemma OneMoreUse(outIndices: seq<nat>, firstUse: seq<bool>, lo: nat, idx: nat, first: bool)
    requires Consecutive(outIndices, firstUse, lo) && (first ==> idx == lo + Count(firstUse))
    ensures Consecutive(outIndices + [idx], firstUse + [first], lo)
    ensures Count(firstUse + [first]) == Count(firstUse) + if first then 1 else 0
  {
    var longer := firstUse + [first];
    assert longer[..|firstUse|] == firstUse;
    assert forall i :: 0 <= i < |firstUse| ==> longer[..i] == firstUse[..i];
  }

  class TraceInfo {
    var handleMap: map<Ptr, nat>
    var varCount: nat
    var retCount: nat
    var outCount: nat
    var outAliases: map<Address, nat>
    var log: seq<Line>
    var active: seq<Region>

    constructor ()
      ensures View() == START
    {
      handleMap, outAliases, log, active := map[], map[], [], [];
      varCount, retCount, outCount := 0, 0, 0;
    }

    ghost function View(): State
      reads this
    {
      State(Known(), retCount, Given(), log, active)
    }

    ghost function Known(): Handles
      reads this
    {
      Handles(handleMap, varCount)
    }

    ghost function Given(): Buffers
      reads this
    {
      Buffers(outAliases, outCount)
    }

    /** outIndexFor: the buffer of a container, and whether it is new. */
    method OutIndexFor(addr: Address) returns (idx: nat, first: bool)
      modifies this`outAliases, this`outCount
      ensures Given() == Buffered(old(Given()), [OutContainer(addr)])
      ensures addr in outAliases && idx == outAliases[addr] && first == (addr !in old(outAliases))
      ensures outAliases == if first then old(outAliases)[addr := old(outCount)] else old(outAliases)
      ensures outCount == old(outCount) + if first then 1 else 0
    {
      assert [OutContainer(addr)][..0] == [];
      first := addr !in outAliases;
      if first {
        outAliases := outAliases[addr := outCount];
        outCount := outCount + 1;
      }
      idx := outAliases[addr];
    }

    /** outIndexFor over all arguments, left to right: the buffers, and which of them are new. */
    method CaptureArgs(args: seq<Arg>) returns (outIndices: seq<nat>, firstUse: seq<bool>)
      modifies this`outAliases, this`outCount
      ensures Given() == Buffered(old(Given()), args) && outIndices == Indices(outAliases, args)
      ensures Consecutive(outIndices, firstUse, old(outCount)) && outCount == old(outCount) + Count(firstUse)
    {
      outIndices, firstUse := [], [];
      for k := 0 to |args|
        invariant Given() == Buffered(old(Given()), args[..k]) && outIndices == Indices(outAliases, args[..k])
        invariant forall i :: 0 <= i < k && args[i].OutContainer? ==> args[i].addr in outAliases
        invariant Consecutive(outIndices, firstUse, old(outCount)) && outCount == old(outCount) + Count(firstUse)
      {
        assert args[..k + 1][..k] == args[..k];
        if args[k].OutContainer? {
          ghost var table, n := outAliases, outCount;
          var idx, first := OutIndexFor(args[k].addr);
          if first { IndicesKept(table, args[k].addr, n, args[..k]); }
          OneMoreUse(outIndices, firstUse, old(outCount), idx, first);
          outIndices, firstUse := outIndices + [idx], firstUse + [first];
        }
      }
      assert args[..|args|] == args;
    }

    /** The preamble: one declaration per container used for the first time. */
    method EmitPreamble(outIndices: seq<nat>, firstUse: seq<bool>, lo: nat)
      requires Consecutive(outIndices, firstUse, lo)
      modifies this`log
      ensures log == old(log) + OutDecls(lo, lo + Count(firstUse))
    {
      assert log == log + OutDecls(lo, lo);
      for i := 0 to |outIndices|
        invariant log == old(log) + OutDecls(lo, lo + Count(firstUse[..i]))
      {
        assert firstUse[..i + 1][..i] == firstUse[..i];
        if firstUse[i] {
          ghost var n := lo + Count(firstUse[..i]);
          assert OutDecls(lo, n + 1) == OutDecls(lo, n) + [Line(Some(Out(n)), {})];
          log := log + [Line(Some(Out(outIndices[i])), {})];
        }
      }
      assert firstUse[..|firstUse|] == firstUse;
    }

    /** The TraceRegion constructor.  Only an outermost call reaches the log. */
    method Begin(args: seq<Arg>)
      modifies this
      ensures View() == Entered(old(View()), args)
    {
      if active != [] {
        active := active + [Region(true, [], 0)];
        return;
      }
      var lo := outCount;
      var outIndices, firstUse := CaptureArgs(args);
      EmitPreamble(outIndices, firstUse, lo);
      log := log + [Line(None, ArgNames(args, handleMap, outAliases))];
      active := [Region(false, outIndices, |log| - 1)];
    }

    /** lookupHandle and getOrRegisterHandle. */
    method Register(p: Ptr) returns (isNew: bool)
      modifies this`handleMap, this`varCount
      ensures Known() == Named(old(Known()), p) && isNew == (varCount > old(varCount))
    {
      isNew := p != 0 && p !in handleMap;
      if isNew {
        varCount := varCount + 1;
        handleMap := handleMap[p := varCount];
      }
    }

    /** Registers the elements of a returned vector; their declarations come later. */
    method RegisterVector(ptrs: seq<Ptr>)
      modifies this`handleMap, this`varCount
      ensures Known() == NamedAll(old(Known()), ptrs)
    {
      for i := 0 to |ptrs|
        invariant Known() == NamedAll(old(Known()), ptrs[..i])
      {
        assert ptrs[..i + 1][..i] == ptrs[..i];
        var _ := Register(ptrs[i]);
      }
      assert ptrs[..|ptrs|] == ptrs;
    }

    /** The OUT callback: registers a container's elements and declares the new ones. */
    method RegisterOut(idx: nat, elems: seq<Ptr>)
      modifies this`handleMap, this`varCount, this`log
      ensures Known() == NamedAll(old(Known()), elems)
      ensures log == old(log) + HandleDecls(old(varCount), varCount, Out(idx))
    {
      assert log == log + HandleDecls(varCount, varCount, Out(idx));
      for i := 0 to |elems|
        invariant Known() == NamedAll(old(Known()), elems[..i]) && varCount >= old(varCount)
        invariant log == old(log) + HandleDecls(old(varCount), varCount, Out(idx))
      {
        assert elems[..i + 1][..i] == elems[..i];
        ghost var n := varCount;
        var isNew := Register(elems[i]);
        if isNew {
          assert HandleDecls(old(varCount), n + 1, Out(idx)) ==
                 HandleDecls(old(varCount), n, Out(idx)) + [Line(Some(V(n + 1)), {Out(idx)})];
          log := log + [Line(Some(V(varCount)), {Out(idx)})];
        }
      }
      assert elems[..|elems|] == elems;
    }

    /** The OUT callbacks of all containers of a call. */
    method RegisterOuts(outIndices: seq<nat>, outs: seq<seq<Ptr>>)
      requires |outs| == |outIndices|
      modifies this`handleMap, this`varCount, this`log
      ensures Known() == OutHandles(old(Known()), outs) && log == old(log) + OutLines(old(Known()), outIndices, outs)
    {
      ghost var all := OutLines(Known(), outIndices, outs);
      assert outs[0..] == outs && outIndices[0..] == outIndices;
      for i := 0 to |outs|
        invariant OutHandles(Known(), outs[i..]) == OutHandles(old(Known()), outs)
        invariant log + OutLines(Known(), outIndices[i..], outs[i..]) == old(log) + all
      {
        ghost var before, rest := Known(), outs[i..];
        assert rest[1..] == outs[i + 1..] && outIndices[i..][1..] == outIndices[i + 1..];
        RegisterOut(outIndices[i], outs[i]);
      }
    }

    /** Declares the handles behind `lo` up to `hi` as elements of the returned vector. */
    method EmitRetDecls(ret: nat, lo: nat, hi: nat)
      requires lo <= hi
      modifies this`log
      ensures log == old(log) + HandleDecls(lo, hi, Ret(ret))
    {
      assert log == log + HandleDecls(lo, lo, Ret(ret));
      for n := lo to hi
        invariant log == old(log) + HandleDecls(lo, n, Ret(ret))
      {
        assert HandleDecls(lo, n + 1, Ret(ret)) == HandleDecls(lo, n, Ret(ret)) + [Line(Some(V(n + 1)), {Ret(ret)})];
        log := log + [Line(Some(V(n + 1)), {Ret(ret)})];
      }
    }

    /** Names the result of the call. */
    method NameResult(result: Returned) returns (decl: Option<Name>)
      modifies this`handleMap, this`varCount, this`retCount
      ensures Naming(Known(), retCount, decl) == ResultNamed(old(Known()), old(retCount), result)
    {
      decl := None;
      match result
      case NoPointer =>
      case OnePointer(p) =>
        var isNew := Register(p);
        if isNew {
          decl := Some(V(varCount));
        }
      case PointerVector(ptrs) =>
        decl := Some(Ret(retCount));
        retCount := retCount + 1;
        RegisterVector(ptrs);
    }

    /** The TraceRegion destructor. */
    method End(result: Returned, outs: seq<seq<Ptr>>)
      requires Enabled(View(), Leave(result, outs)) && RegionsOk(View())
      modifies this
      ensures View() == Left(old(View()), result, outs)
    {
      var region := active[|active| - 1];
      active := active[..|active| - 1];
      if region.nested {
        return;
      }
      var lo, ret := varCount, retCount;
      var decl := NameResult(result);
      var hi := varCount;
      log := log[region.logIndex := log[region.logIndex].(decl := decl)];
      RegisterOuts(region.outIndices, outs);
      if result.PointerVector? {
        EmitRetDecls(ret, lo, hi);
      }
    }
  }

  lemma {:induction false} IndicesKept(table: map<Address, nat>, a: Address, n: nat, args: seq<Arg>)
    requires a !in table && forall i :: 0 <= i < |args| && args[i].OutContainer? ==> args[i].addr in table
    ensures Indices(table[a := n], args) == Indices(table, args)
  {
    if args != [] {
      IndicesKept(table, a, n, args[..|args| - 1]);
    }
  }

  /** Any traced program: the tracer writes exactly the log defined above, and it is well scoped. */
  method Trace(events: seq<Event>) returns (t: TraceInfo)
    ensures t.View() == Run(events) && WellScoped(t.log)
  {
    t := new TraceInfo();
    for i := 0 to |events|
      invariant fresh(t) && t.View() == Run(events[..i])
    {
      assert events[..i + 1][..i] == events[..i];
      TraceScoped(events[..i]);
      match events[i]
      case Enter(args) => t.Begin(args);
      case Leave(result, outs) =>
        if t.active != [] && (|t.active| > 1 || |outs| == |t.active[0].outIndices|) {
          t.End(result, outs);
        }
    }
    assert events[..|events|] == events;
    TraceScoped(events);
  }
}
