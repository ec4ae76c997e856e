/** Two rewriting passes over modules before they reach the JIT: weak globals that the process
    already has are bound to the process, and repeated weak thread_locals keep one definer. */
module IrPasses {
  import opened Wrappers

  datatype Linkage =
    | External | Internal | Private | Appending | AvailableExternally
    | LinkOnceAny | LinkOnceODR | WeakAny | WeakODR | Common | ExternalWeak

  predicate WeakForLinker(l: Linkage) {
    l.LinkOnceAny? || l.LinkOnceODR? || l.WeakAny? || l.WeakODR? || l.Common? || l.ExternalWeak?
  }

  /** `init` is the initializer; a global without one is a declaration. */
  datatype Global = Global(name: string, init: Option<nat>, linkage: Linkage, threadLocal: bool, constant: bool,
                           comdat: Option<string>, defaultVisibility: bool, dsoLocal: bool)

  /** An entry of a used list: the symbol under the pointer casts, and the cast constant itself. */
  datatype Use = Use(target: string, cast: nat)

  predicate StartsWith(s: string, prefix: string) {
    prefix <= s
  }

  /** The guard variable of section 2.8 of the Itanium C++ ABI. */
  function GuardName(name: string): (g: string)
    requires StartsWith(name, "_Z")
    ensures StartsWith(g, "_ZGV")
  {
    "_ZGV" + name[2..]
  }

  lemma GuardNameInjective(a: string, b: string)
    requires StartsWith(a, "_Z") && StartsWith(b, "_Z") && GuardName(a) == GuardName(b)
    ensures a == b
  {
    assert a[2..] == GuardName(a)[4..] && b[2..] == GuardName(b)[4..];
    assert a == "_Z" + a[2..] && b == "_Z" + b[2..];
  }

  /** The symbol table of a module: names are unique; only local globals go without one. */
  predicate UniqueNames(gs: seq<Global>) {
    forall i, j :: 0 <= i < j < |gs| && gs[i].name == gs[j].name ==>
      gs[i].name == "" && !WeakForLinker(gs[i].linkage) && !WeakForLinker(gs[j].linkage)
  }

  /** The module defines a global of this name. */
  predicate Defines(gs: seq<Global>, name: string) {
    exists i :: 0 <= i < |gs| && gs[i].name == name && gs[i].init.Some?
  }

  predicate GuardAllows(gs: seq<Global>, process: set<string>, name: string) {
    StartsWith(name, "_Z") && Defines(gs, GuardName(name)) ==> GuardName(name) in process
  }

  predicate Demotable(gs: seq<Global>, process: set<string>, g: Global) {
    && g.init.Some? && WeakForLinker(g.linkage) && !g.threadLocal && !g.constant
    && !StartsWith(g.name, "_ZGV") && g.name in process && GuardAllows(gs, process, g.name)
  }

  /** The variable of a guard that is demoted with it. */
  predicate GuardOf(gs: seq<Global>, g: Global, name: string) {
    StartsWith(g.name, "_Z") && name == GuardName(g.name) && Defines(gs, name)
  }

  /** The names that get bound to the process. */
  ghost predicate Bound(gs: seq<Global>, process: set<string>, name: string) {
    exists i :: 0 <= i < |gs| && Demotable(gs, process, gs[i]) &&
      (gs[i].name == name || GuardOf(gs, gs[i], name))
  }

  /** What binding does to a global: a plain external declaration is left. */
  function Unbind(g: Global): Global {
    g.(init := None, linkage := External, comdat := None, defaultVisibility := true, dsoLocal := false)
  }

  ghost predicate Rewritten(gs: seq<Global>, process: set<string>, gs': seq<Global>) {
    |gs'| == |gs| && forall i :: 0 <= i < |gs| ==>
      gs'[i] == if Bound(gs, process, gs[i].name) then Unbind(gs[i]) else gs[i]
  }

  // ----- what the pass guarantees -----

  /** Everything bound is exported by the process. */
  lemma BoundIsInProcess(gs: seq<Global>, process: set<string>, name: string)
    requires Bound(gs, process, name)
    ensures name in process
  {
  }

  /** A variable and its guard, both defined in the module, end up on the same side. */
  lemma GuardFollowsVariable(gs: seq<Global>, process: set<string>, name: string)
    requires UniqueNames(gs) && StartsWith(name, "_Z") && !StartsWith(name, "_ZGV")
    requires Defines(gs, name) && Defines(gs, GuardName(name))
    ensures Bound(gs, process, name) <==> Bound(gs, process, GuardName(name))
  {
    if Bound(gs, process, name) {
      var i :| 0 <= i < |gs| && Demotable(gs, process, gs[i]) && (gs[i].name == name || GuardOf(gs, gs[i], name));
      assert GuardOf(gs, gs[i], GuardName(name));
    }
    if Bound(gs, process, GuardName(name)) {
      var i :| 0 <= i < |gs| && Demotable(gs, process, gs[i]) &&
               (gs[i].name == GuardName(name) || GuardOf(gs, gs[i], GuardName(name)));
      GuardNameInjective(gs[i].name, name);
    }
  }

  lemma DefinesAfter(gs: seq<Global>, process: set<string>, gs': seq<Global>, name: string)
    requires UniqueNames(gs) && Rewritten(gs, process, gs')
    ensures Defines(gs', name) <==> Defines(gs, name) && !Bound(gs, process, name)
  {
  }

  predicate IsGuardOf(guard: string, name: string) {
    "_Z" <= name && guard == "_ZGV" + name[2..]
  }

  /** What gets bound, told by the fields of a global that is no guard: a mutable weak definition, not
      thread-local, that the process has, and whose guard, if the module defines one, it has too. */
  lemma BoundExactly(gs: seq<Global>, process: set<string>, i: nat)
    requires UniqueNames(gs) && i < |gs| && !StartsWith(gs[i].name, "_ZGV")
    ensures var g := gs[i];
            Bound(gs, process, g.name) <==>
              && g.init.Some? && !g.threadLocal && !g.constant && g.name in process
              && g.linkage in {LinkOnceAny, LinkOnceODR, WeakAny, WeakODR, Common, ExternalWeak}
              && forall j :: 0 <= j < |gs| && gs[j].init.Some? && IsGuardOf(gs[j].name, g.name) ==>
                   gs[j].name in process
  {
    var g := gs[i];
    if Bound(gs, process, g.name) {
      var k :| 0 <= k < |gs| && Demotable(gs, process, gs[k]) && (gs[k].name == g.name || GuardOf(gs, gs[k], g.name));
      assert k == i;
      if "_Z" <= g.name {
        forall j | 0 <= j < |gs| && gs[j].init.Some? && IsGuardOf(gs[j].name, g.name)
          ensures gs[j].name in process
        {
          assert Defines(gs, GuardName(g.name));
        }
      }
    }
  }

  /** After the pass what was bound is a plain external declaration, in no group, that any other image
      may define; everything else is as it was. */
  lemma BoundBecomesDeclaration(gs: seq<Global>, process: set<string>, gs': seq<Global>, i: nat)
    requires Rewritten(gs, process, gs') && i < |gs|
    ensures var g, g' := gs[i], gs'[i];
            if Bound(gs, process, g.name) then
              && g'.init.None? && g'.linkage == External && g'.comdat.None? && g'.defaultVisibility && !g'.dsoLocal
              && g'.name == g.name && g'.threadLocal == g.threadLocal && g'.constant == g.constant
            else g' == g
  {
  }

  /** A second run finds nothing to bind. */
  lemma SecondRunIsIdle(gs: seq<Global>, process: set<string>, gs': seq<Global>, name: string)
    requires UniqueNames(gs) && Rewritten(gs, process, gs')
    ensures !Bound(gs', process, name)
  {
  }

  // ----- the passes -----

  class IrModule {
    const isElf: bool
    var globals: seq<Global>
    var used: map<string, seq<Use>>     // "llvm.used" and "llvm.compiler.used", when present

    constructor (isElf: bool, globals: seq<Global>, used: map<string, seq<Use>>)
      ensures this.isElf == isElf && this.globals == globals && this.used == used
    {
      this.isElf, this.globals, this.used := isElf, globals, used;
    }

    /** M.getNamedGlobal, for a defined global; |globals| if there is none. */
    method FindDefined(name: string) returns (k: nat)
      ensures k < |globals| ==> globals[k].name == name && globals[k].init.Some?
      ensures k >= |globals| ==> !Defines(globals, name)
    {
      k := 0;
      while k < |globals| && !(globals[k].name == name && globals[k].init.Some?)
        invariant k <= |globals|
        invariant forall j :: 0 <= j < k ==> !(globals[j].name == name && globals[j].init.Some?)
      {
        k := k + 1;
      }
    }

    /** One turn of the first loop: should the global go, and its guard with it? */
    method Check(i: nat, process: set<string>) returns (yes: bool, guard: nat)
      requires i < |globals|
      ensures yes <==> Demotable(globals, process, globals[i])
      ensures guard < |globals| ==> yes && GuardOf(globals, globals[i], globals[guard].name)
      ensures yes && guard >= |globals| ==> forall n :: !GuardOf(globals, globals[i], n)
    {
      var g := globals[i];
      guard := |globals|;
      if g.init.None? || !WeakForLinker(g.linkage) || g.threadLocal || g.constant {
        return false, guard;
      }
      if StartsWith(g.name, "_ZGV") || g.name !in process {
        return false, guard;
      }
      if StartsWith(g.name, "_Z") {
        guard := FindDefined(GuardName(g.name));
        assert guard < |globals| ==> Defines(globals, GuardName(g.name));
        if guard < |globals| && GuardName(g.name) !in process {
          return false, |globals|;
        }
      }
      yes := true;
    }

    /** The first loop: the globals to demote, variables with their guards. */
    method CollectDemoted(process: set<string>) returns (demoted: seq<nat>)
      requires UniqueNames(globals)
      ensures forall k :: 0 <= k < |demoted| ==> demoted[k] < |globals|
      ensures forall d: nat :: d < |globals| ==> (d in demoted <==> Bound(globals, process, globals[d].name))
    {
      demoted := [];
      for i := 0 to |globals|
        invariant forall k :: 0 <= k < |demoted| ==> demoted[k] < |globals|
        invariant forall d: nat :: d < |globals| ==> (d in demoted <==> BoundBy(globals, process, i, globals[d].name))
      {
        var yes, guard := Check(i, process);
        ghost var before := demoted;
        if yes {
          demoted := demoted + [i];
          if guard < |globals| {
            demoted := demoted + [guard];
          }
        }
        forall d: nat | d < |globals|
          ensures d in demoted <==> BoundBy(globals, process, i + 1, globals[d].name)
        {
          OneMoreBound(globals, process, i, d, guard);
          assert d in demoted <==> d in before || (yes && d == i) || d == guard;
        }
      }
    }

    /** The second loop: unbind every demoted global in place. */
    method UnbindAll(demoted: seq<nat>)
      requires forall k :: 0 <= k < |demoted| ==> demoted[k] < |globals|
      modifies this`globals
      ensures |globals| == |old(globals)|
      ensures forall i :: 0 <= i < |globals| ==>
        globals[i] == if i in demoted then Unbind(old(globals)[i]) else old(globals)[i]
    {
      for k := 0 to |demoted|
        invariant |globals| == |old(globals)|
        invariant forall i :: 0 <= i < |globals| ==>
          globals[i] == if i in demoted[..k] then Unbind(old(globals)[i]) else old(globals)[i]
      {
        globals := globals[demoted[k] := Unbind(globals[demoted[k]])];
      }
      assert demoted[..|demoted|] == demoted;
    }

    method IsDemoted(name: string, demoted: seq<nat>) returns (gone: bool)
      requires forall k :: 0 <= k < |demoted| ==> demoted[k] < |globals|
      ensures gone <==> name in NamesAt(globals, demoted)
    {
      gone := false;
      for k := 0 to |demoted|
        invariant gone <==> name in NamesAt(globals, demoted[..k])
      {
        gone := gone || globals[demoted[k]].name == name;
      }
      assert demoted[..|demoted|] == demoted;
    }

    /** Rebuilds one used list without the demoted globals; an emptied list disappears. */
    method FilterUsed(list: string, demoted: seq<nat>)
      requires forall k :: 0 <= k < |demoted| ==> demoted[k] < |globals|
      modifies this`used
      ensures used == UsedAfter(old(used), list, NamesAt(globals, demoted))
    {
      if list !in used {
        return;
      }
      var entries := used[list];
      var kept: seq<Use> := [];
      for i := 0 to |entries|
        invariant used == old(used)
        invariant kept == Kept(entries[..i], NamesAt(globals, demoted))
      {
        assert entries[..i + 1][..i] == entries[..i];
        var gone := IsDemoted(entries[i].target, demoted);
        if !gone {
          kept := kept + [entries[i]];
        }
      }
      assert entries[..|entries|] == entries;
      if |kept| == |entries| {
        KeptAll(entries, NamesAt(globals, demoted));
        assert used == used[list := kept];
        return;
      }
      used := used - {list};
      if kept != [] {
        used := used[list := kept];
      }
    }

    /** bindProcessWeakGlobals; `process` is what dlsym finds. */
    method BindProcessWeakGlobals(process: set<string>) returns (changed: bool)
      requires UniqueNames(globals)
      modifies this
      ensures !isElf ==> !changed && globals == old(globals) && used == old(used)
      ensures isElf ==> Rewritten(old(globals), process, globals)
      ensures isElf ==> (changed <==>
        exists i :: 0 <= i < |old(globals)| && Bound(old(globals), process, old(globals)[i].name))
      ensures !changed ==> globals == old(globals) && used == old(used)
      ensures changed ==>
        var names := BoundNames(old(globals), process);
        used == UsedAfter(UsedAfter(old(used), "llvm.used", names), "llvm.compiler.used", names)
    {
      if !isElf {
        return false;
      }
      var demoted := CollectDemoted(process);
      if demoted == [] {
        assert forall i: nat :: i < |globals| ==> (i in demoted <==> Bound(globals, process, globals[i].name));
        return false;
      }
      assert demoted[0] in demoted;
      ghost var names := BoundNames(globals, process);
      UnbindAll(demoted);
      assert NamesAt(globals, demoted) == names;
      FilterUsed("llvm.used", demoted);
      FilterUsed("llvm.compiler.used", demoted);
      return true;
    }

    /** The pass run twice: the second run reports no change and leaves what the first one made. */
    method BindTwice(process: set<string>) returns (first: bool, second: bool)
      requires UniqueNames(globals)
      modifies this
      ensures !second
      ensures isElf ==> Rewritten(old(globals), process, globals)
      ensures first ==>
        var names := BoundNames(old(globals), process);
        used == UsedAfter(UsedAfter(old(used), "llvm.used", names), "llvm.compiler.used", names)
    {
      first := BindProcessWeakGlobals(process);
      if isElf {
        forall i | 0 <= i < |globals|
          ensures !Bound(globals, process, globals[i].name)
        {
          SecondRunIsIdle(old(globals), process, globals, globals[i].name);
        }
      }
      second := BindProcessWeakGlobals(process);
    }

    /** dedupeWeakEmulatedTLS; `defined` is shared by all modules of an interpreter. */
    method DedupeWeakEmulatedTLS(defined: DefinedSet)
      requires UniqueNames(globals)
      modifies this`globals, defined
      ensures !isElf ==> globals == old(globals) && defined.names == old(defined.names)
      ensures isElf ==> globals == Deduped(old(globals), old(defined.names))
      ensures isElf ==> defined.names == old(defined.names) + WeakTlsNames(old(globals))
    {
      if !isElf {
        return;
      }
      ghost var gs := globals;
      for i := 0 to |globals|
        invariant |globals| == |gs|
        invariant forall k :: 0 <= k < i ==> globals[k] == DedupeOne(gs[k], old(defined.names))
        invariant forall k :: i <= k < |gs| ==> globals[k] == gs[k]
        invariant defined.names == old(defined.names) + WeakTlsNames(gs[..i])
      {
        var g := globals[i];
        assert gs[..i + 1] == gs[..i] + [g];
        assert WeakTls(g) ==> g.name !in WeakTlsNames(gs[..i]);
        if WeakTls(g) {
          if g.name in defined.names {
            globals := globals[i := g.(linkage := AvailableExternally, comdat := None)];
          } else {
            defined.names := defined.names + {g.name};
          }
        }
      }
      assert gs[..|gs|] == gs;
    }
  }

  class DefinedSet {
    var names: set<string>

    constructor ()
      ensures names == {}
    {
      names := {};
    }
  }

  // ----- weak thread_locals over all modules -----

  /** A weak definition of a thread_local. */
  predicate WeakTls(g: Global) {
    g.threadLocal && g.init.Some? && WeakForLinker(g.linkage)
  }

  function WeakTlsNames(gs: seq<Global>): set<string> {
    set i | 0 <= i < |gs| && WeakTls(gs[i]) :: gs[i].name
  }

  function DedupeOne(g: Global, defined: set<string>): Global {
    if WeakTls(g) && g.name in defined then g.(linkage := AvailableExternally, comdat := None) else g
  }

  function Deduped(gs: seq<Global>, defined: set<string>): seq<Global> {
    seq(|gs|, i requires 0 <= i < |gs| => DedupeOne(gs[i], defined))
  }

  /** All modules in the order in which they reach the JIT. */
  function DedupeAll(modules: seq<seq<Global>>, defined: set<string>): (r: seq<seq<Global>>)
    ensures |r| == |modules| && forall i :: 0 <= i < |r| ==> |r[i]| == |modules[i]|
  {
    if modules == [] then []
    else [Deduped(modules[0], defined)] + DedupeAll(modules[1..], defined + WeakTlsNames(modules[0]))
  }

  /** The thread_local was defined weakly before module `i`. */
  predicate DefinedBefore(modules: seq<seq<Global>>, i: nat, name: string, defined: set<string>) {
    name in defined || exists j :: 0 <= j < i && j < |modules| && name in WeakTlsNames(modules[j])
  }

  /** Exactly the repeated weak definitions are demoted; everything else is untouched. */
  lemma {:induction false} DedupeIsExact(modules: seq<seq<Global>>, defined: set<string>, i: nat, k: nat)
    requires i < |modules| && k < |modules[i]|
    ensures var out := DedupeAll(modules, defined)[i]; var g := modules[i][k];
            out[k] == if WeakTls(g) && DefinedBefore(modules, i, g.name, defined)
                      then g.(linkage := AvailableExternally, comdat := None) else g
    decreases |modules|
  {
    if i > 0 {
      var rest := modules[1..];
      var defined1 := defined + WeakTlsNames(modules[0]);
      DedupeIsExact(rest, defined1, i - 1, k);
      var name := modules[i][k].name;
      if j :| 0 <= j < i && j < |modules| && name in WeakTlsNames(modules[j]) && j > 0 {
        assert name in WeakTlsNames(rest[j - 1]);
      }
      if j :| 0 <= j < i - 1 && j < |rest| && name in WeakTlsNames(rest[j]) {
        assert rest[j] == modules[j + 1];
      }
    }
  }

  /** The same told by the fields of one global: in the first module that reaches the JIT nothing is
      demoted, in the second what the first defines weakly. */
  lemma DedupeByFields(first: seq<Global>, second: seq<Global>, k: nat, l: nat)
    requires k < |first| && l < |second|
    ensures var out := DedupeAll([first, second], {}); var g := second[l];
            && out[0][k] == first[k]
            && (out[1][l] != g ==> g.threadLocal && out[1][l] == g.(linkage := AvailableExternally, comdat := None))
            && (first[k].name == g.name && first[k].threadLocal && first[k].init.Some? && g.threadLocal && g.init.Some?
                && first[k].linkage in {LinkOnceAny, LinkOnceODR, WeakAny, WeakODR, Common, ExternalWeak}
                && g.linkage in {LinkOnceAny, LinkOnceODR, WeakAny, WeakODR, Common, ExternalWeak}
                ==> out[1][l].linkage == AvailableExternally)
            && (g.init.None? || g.linkage in {External, Internal, Private, Appending, AvailableExternally} ==>
                 out[1][l] == g)
  {
    var modules := [first, second];
    DedupeIsExact(modules, {}, 0, k);
    DedupeIsExact(modules, {}, 1, l);
    if WeakTls(first[k]) { assert first[k].name in WeakTlsNames(modules[0]); }
  }

  /** After the pass every thread_local name has at most one weak definer over all modules. */
  lemma OneWeakDefiner(modules: seq<seq<Global>>, i: nat, k: nat, j: nat, l: nat)
    requires forall n :: 0 <= n < |modules| ==> UniqueNames(modules[n])
    requires i < |modules| && k < |modules[i]| && j < |modules| && l < |modules[j]| && (i != j || k != l)
    ensures var out := DedupeAll(modules, {});
            !(WeakTls(out[i][k]) && WeakTls(out[j][l]) && out[i][k].name == out[j][l].name)
  {
    DedupeIsExact(modules, {}, i, k);
    DedupeIsExact(modules, {}, j, l);
    var g, h := modules[i][k], modules[j][l];
    if WeakTls(g) && WeakTls(h) && g.name == h.name {
      assert g.name in WeakTlsNames(modules[i]) && h.name in WeakTlsNames(modules[j]);
      assert UniqueNames(modules[i]);
    }
  }

  /** The names found by the first `n` globals. */
  ghost predicate BoundBy(gs: seq<Global>, process: set<string>, n: nat, name: string) {
    exists i :: 0 <= i < n && i < |gs| && Demotable(gs, process, gs[i]) &&
      (gs[i].name == name || GuardOf(gs, gs[i], name))
  }

  lemma OneMoreBound(gs: seq<Global>, process: set<string>, i: nat, d: nat, guard: nat)
    requires UniqueNames(gs) && i < |gs| && d < |gs|
    requires guard < |gs| ==> Demotable(gs, process, gs[i]) && GuardOf(gs, gs[i], gs[guard].name)
    requires Demotable(gs, process, gs[i]) && guard >= |gs| ==> forall n :: !GuardOf(gs, gs[i], n)
    ensures BoundBy(gs, process, i + 1, gs[d].name) <==>
            BoundBy(gs, process, i, gs[d].name) || (Demotable(gs, process, gs[i]) && d == i) || d == guard
  {
  }

  ghost function BoundNames(gs: seq<Global>, process: set<string>): set<string> {
    set i | 0 <= i < |gs| && Bound(gs, process, gs[i].name) :: gs[i].name
  }

  function NamesAt(gs: seq<Global>, at: seq<nat>): set<string>
    requires forall k :: 0 <= k < |at| ==> at[k] < |gs|
  {
    set k | 0 <= k < |at| :: gs[at[k]].name
  }

  /** The entries not naming a demoted global, in order. */
  function Kept(entries: seq<Use>, names: set<string>): seq<Use> {
    if entries == [] then []
    else
      var front, last := Kept(entries[..|entries| - 1], names), entries[|entries| - 1];
      if last.target in names then front else front + [last]
  }

  lemma KeptSnoc(front: seq<Use>, u: Use, names: set<string>)
    ensures Kept(front + [u], names) == Kept(front, names) + if u.target in names then [] else [u]
  {
    assert (front + [u])[..|front|] == front;
  }

  lemma Regrouped(a: seq<Use>, b: seq<Use>, c: seq<Use>)
    ensures a + (b + c) == (a + b) + c
  {
  }

  /** Filtering can be done piece by piece, so what is kept stays in order; one entry goes or stays. */
  lemma {:induction false} KeptInOrder(a: seq<Use>, b: seq<Use>, u: Use, names: set<string>)
    ensures Kept(a + b, names) == Kept(a, names) + Kept(b, names)
    ensures Kept([u], names) == if u.target in names then [] else [u]
    decreases |b|
  {
    KeptSnoc([], u, names);
    if b == [] {
      assert a + b == a;
    } else {
      var front, last := b[..|b| - 1], b[|b| - 1];
      assert b == front + [last];
      Regrouped(a, front, [last]);
      Regrouped(Kept(a, names), Kept(front, names), if last.target in names then [] else [last]);
      KeptInOrder(a, front, u, names);
      KeptSnoc(a + front, last, names);
      KeptSnoc(front, last, names);
    }
  }

  lemma {:induction false} KeptHas(entries: seq<Use>, names: set<string>, u: Use)
    ensures u in Kept(entries, names) <==> u in entries && u.target !in names
  {
    if entries != [] {
      var front, last := entries[..|entries| - 1], entries[|entries| - 1];
      KeptHas(front, names, u);
      assert entries == front + [last];
    }
  }

  /** A used list stays unless all its entries go, without the entries that name a bound global; other
      lists are not touched. */
  lemma UsedListsAfter(used: map<string, seq<Use>>, list: string, names: set<string>, l: string)
    ensures var r := UsedAfter(used, list, names);
            && (l in r <==>
                 l in used && (l == list && used[l] != [] ==> exists u :: u in used[l] && u.target !in names))
            && (l in r ==> r[l] == if l == list then Kept(used[l], names) else used[l])
  {
    if l in used {
      forall u | u in used[l]
        ensures u in Kept(used[l], names) <==> u.target !in names
      {
        KeptHas(used[l], names, u);
      }
      if Kept(used[l], names) != [] { KeptHas(used[l], names, Kept(used[l], names)[0]); }
    }
  }

  lemma {:induction false} KeptAll(entries: seq<Use>, names: set<string>)
    ensures |Kept(entries, names)| <= |entries|
    ensures |Kept(entries, names)| == |entries| ==> Kept(entries, names) == entries
  {
    if entries != [] {
      KeptAll(entries[..|entries| - 1], names);
    }
  }

  function UsedAfter(used: map<string, seq<Use>>, list: string, names: set<string>): map<string, seq<Use>> {
    if list !in used then used
    else if Kept(used[list], names) == [] && used[list] != [] then used - {list}
    else used[list := Kept(used[list], names)]
  }
}
