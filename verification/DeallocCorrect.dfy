/** The marks of the deallocation analysis against the frees of real runs. */
module DeallocCorrect {
  import opened Wrappers
  import opened Ast
  import opened Dealloc
  import opened DeallocRuns
  import opened DeallocMemo

  // ----- what expressions really hold -----

  /** The parameter whose entry value an expression has, followed through calls, placement new and
      whatever the world says; `Resolve` only looks at variables. */
  function Deep(fn: Fn, world: World, nm: Names, e: Expr): Option<nat>
    requires fn.Has(e)
    decreases fn.n, 0, e
  {
    match e
    case Exposed(x, site) =>
      if site in world.found then world.Found(site, |fn.params|) else ResolveVar(fn.params, nm, x)
    case Global(site) => world.Found(site, |fn.params|)
    case Binding(site) => world.Found(site, |fn.params|)
    case OtherExpr(site, _) => world.Found(site, |fn.params|)
    case IndirectCall(site, _) => world.Found(site, |fn.params|)
    case PlacementNew(at) => Deep(fn, world, nm, at)
    case Call(f, args) =>
      var r := DeepFunc(fn.c, world, f);
      if r.Some? && r.value < |args| then Deep(fn, world, nm, args[r.value]) else None
    case _ => Resolve(fn.params, nm, e)
  }

  /** The parameter that a function hands back. */
  function DeepFunc(c: Code, world: World, f: FuncId): Option<nat>
    requires c.Straight() && f in c.prog
    decreases c.rank[f], 2
  {
    if c.prog[f].body.None? then (if f in world.returned then Some(world.returned[f]) else None)
    else DeepReturn(c.Inside(f), world, START, c.prog[f].body.value)
  }

  function DeepReturn(fn: Fn, world: World, nm: Names, s: Stmt): Option<nat>
    requires fn.HasStmt(s)
    decreases fn.n, 1, s
  {
    match s
    case Return(e) => Deep(fn, world, nm, e)
    case Seq(s1, s2) => DeepReturn(fn, world, NamesAfter(fn.params, nm, s1), s2)
    case _ => None
  }

  // ----- tidy: the analysis sees all of it -----

  /** The analysis sees what is passed on.  It looks at an argument under the names `seen`, the run
      under the names `nm`.  Nothing with an entry value goes to an indirect call, and none is freed
      through its address or handed to unseen code by another expression. */
  predicate TidyExpr(fn: Fn, world: World, seen: Names, nm: Names, e: Expr)
    requires fn.Has(e)
    decreases e
  {
    match e
    case AddressOf(x, site) => site in world.through ==> ResolveVar(fn.params, nm, x) == None
    case PlacementNew(at) => TidyExpr(fn, world, seen, nm, at)
    case Call(_, args) => forall i :: 0 <= i < |args| ==>
      Resolve(fn.params, seen, args[i]) == Deep(fn, world, nm, args[i]) && TidyExpr(fn, world, seen, nm, args[i])
    case IndirectCall(_, args) => forall i :: 0 <= i < |args| ==>
      Deep(fn, world, nm, args[i]) == None && TidyExpr(fn, world, seen, nm, args[i])
    case NewExpr(_, parts) => forall i :: 0 <= i < |parts| ==> TidyExpr(fn, world, seen, nm, parts[i])
    case OtherExpr(site, parts) => forall i :: 0 <= i < |parts| ==>
      (site in world.through ==> Deep(fn, world, nm, parts[i]) == None) && TidyExpr(fn, world, seen, nm, parts[i])
    case _ => true
  }

  predicate TidyStore(fn: Fn, world: World, nm: Names, x: Var, e: Expr)
    requires fn.Has(e)
  {
    var nm1 := UpdateMap(fn.params, nm, x, Some(e));
    ResolveVar(fn.params, nm1, x) == Deep(fn, world, nm, e) && TidyExpr(fn, world, nm1, nm, e)
  }

  predicate TidyFree(fn: Fn, world: World, nm: Names, e: Expr)
    requires fn.Has(e)
  {
    Resolve(fn.params, nm, e) == Deep(fn, world, nm, e) && TidyExpr(fn, world, nm, nm, e)
  }

  /** The analysis sees what is stored, freed and passed on: variables resolve to what they hold. */
  predicate TidyStmt(fn: Fn, world: World, nm: Names, s: Stmt)
    requires fn.HasStmt(s)
    decreases s
  {
    match s
    case CompoundAssign(x) => world.exact ==> ResolveVar(fn.params, nm, x) == None
    case Decl(x, Some(e)) => TidyStore(fn, world, nm, x, e)
    case Assign(x, e) => TidyStore(fn, world, nm, x, e)
    case Return(e) => TidyExpr(fn, world, nm, nm, e)
    case ExprStmt(e) => TidyExpr(fn, world, nm, nm, e)
    case Delete(e, _) => TidyFree(fn, world, nm, e)
    case Free(e) => TidyFree(fn, world, nm, e)
    case Seq(s1, s2) => TidyStmt(fn, world, nm, s1) && TidyStmt(fn, world, NamesAfter(fn.params, nm, s1), s2)
    case _ => true
  }

  // ----- calm: the analysis sees nothing that is not there -----

  /** A variable that has been written through its address, and is taken to hold an entry value, does.
      Without a world: in every world. */
  predicate Steady(fn: Fn, w: Option<World>, seen: Names, e: Expr) {
    e.Exposed? && (w.None? || e.site in w.value.found) ==>
      var r := Resolve(fn.params, seen, e);
      r == None || (w.Some? && w.value.Found(e.site, |fn.params|) == r)
  }

  predicate CalmExpr(fn: Fn, w: Option<World>, seen: Names, e: Expr) {
    match e
    case PlacementNew(at) => CalmExpr(fn, w, seen, at)
    case Call(_, args) => forall i :: 0 <= i < |args| ==> Steady(fn, w, seen, args[i]) && CalmExpr(fn, w, seen, args[i])
    case IndirectCall(_, args) => forall i :: 0 <= i < |args| ==> CalmExpr(fn, w, seen, args[i])
    case NewExpr(_, parts) => forall i :: 0 <= i < |parts| ==> CalmExpr(fn, w, seen, parts[i])
    case OtherExpr(_, parts) => forall i :: 0 <= i < |parts| ==> CalmExpr(fn, w, seen, parts[i])
    case _ => true
  }

  predicate CalmStmt(fn: Fn, w: Option<World>, nm: Names, s: Stmt)
    decreases s
  {
    match s
    case CompoundAssign(x) => (w.None? || w.value.exact) ==> ResolveVar(fn.params, nm, x) == None
    case Decl(x, Some(e)) => Steady(fn, w, nm, e) && CalmExpr(fn, w, NamesAfter(fn.params, nm, s), e)
    case Assign(x, e) => Steady(fn, w, nm, e) && CalmExpr(fn, w, NamesAfter(fn.params, nm, s), e)
    case Return(e) => CalmExpr(fn, w, nm, e)
    case ExprStmt(e) => CalmExpr(fn, w, nm, e)
    case Delete(e, _) => Steady(fn, w, nm, e) && CalmExpr(fn, w, nm, e)
    case Free(e) => Steady(fn, w, nm, e) && CalmExpr(fn, w, nm, e)
    case If(thn, els) =>
      CalmStmt(fn, w, nm, thn) && (els.Some? ==> CalmStmt(fn, w, NamesAfter(fn.params, nm, thn), els.value))
    case Seq(s1, s2) => CalmStmt(fn, w, nm, s1) && CalmStmt(fn, w, NamesAfter(fn.params, nm, s1), s2)
    case _ => true
  }

  lemma {:induction false} CalmExprIn(fn: Fn, world: World, seen: Names, e: Expr)
    requires CalmExpr(fn, None, seen, e)
    ensures CalmExpr(fn, Some(world), seen, e)
    decreases e
  {
    match e
    case PlacementNew(at) => CalmExprIn(fn, world, seen, at);
    case Call(_, args) => forall i | 0 <= i < |args| { CalmExprIn(fn, world, seen, args[i]); }
    case IndirectCall(_, args) => forall i | 0 <= i < |args| { CalmExprIn(fn, world, seen, args[i]); }
    case NewExpr(_, parts) => forall i | 0 <= i < |parts| { CalmExprIn(fn, world, seen, parts[i]); }
    case OtherExpr(_, parts) => forall i | 0 <= i < |parts| { CalmExprIn(fn, world, seen, parts[i]); }
    case _ =>
  }

  lemma {:induction false} CalmStmtIn(fn: Fn, world: World, nm: Names, s: Stmt)
    requires CalmStmt(fn, None, nm, s)
    ensures CalmStmt(fn, Some(world), nm, s)
    decreases s
  {
    match s
    case Decl(x, Some(e)) => CalmExprIn(fn, world, NamesAfter(fn.params, nm, s), e);
    case Assign(x, e) => CalmExprIn(fn, world, NamesAfter(fn.params, nm, s), e);
    case Return(e) => CalmExprIn(fn, world, nm, e);
    case ExprStmt(e) => CalmExprIn(fn, world, nm, e);
    case Delete(e, _) => CalmExprIn(fn, world, nm, e);
    case Free(e) => CalmExprIn(fn, world, nm, e);
    case If(thn, els) =>
      CalmStmtIn(fn, world, nm, thn);
      if els.Some? { CalmStmtIn(fn, world, NamesAfter(fn.params, nm, thn), els.value); }
    case Seq(s1, s2) =>
      CalmStmtIn(fn, world, nm, s1);
      CalmStmtIn(fn, world, NamesAfter(fn.params, nm, s1), s2);
    case _ =>
  }

  /** The statement is tidy, or where that is not asked for, calm. */
  predicate StmtOk(tidy: bool, fn: Fn, world: World, nm: Names, s: Stmt)
    requires fn.HasStmt(s)
  {
    if tidy then TidyStmt(fn, world, nm, s) else CalmStmt(fn, Some(world), nm, s)
  }

  predicate ExprOk(tidy: bool, fn: Fn, world: World, seen: Names, nm: Names, e: Expr)
    requires fn.Has(e)
  {
    if tidy then TidyExpr(fn, world, seen, nm, e) else CalmExpr(fn, Some(world), seen, e)
  }

  /** A condition on the function `f` and on those ranked with or below it, which include all that it
      calls. */
  predicate FuncsOk(tidy: bool, c: Code, world: World, f: FuncId)
    requires c.Straight() && f in c.prog
  {
    forall g :: g in c.prog && c.rank[g] <= c.rank[f] && c.prog[g].body.Some? ==>
      StmtOk(tidy, c.Inside(g), world, START, c.prog[g].body.value)
  }

  ghost predicate CalleesOk(tidy: bool, fn: Fn, world: World)
    requires fn.c.Straight()
  {
    forall g :: g in fn.c.prog && fn.c.rank[g] < fn.n ==> FuncsOk(tidy, fn.c, world, g)
  }

  // ----- names and runs -----

  /** What the names say about the run: a resolved variable holds that entry value; when `tidy`, a
      variable that does not resolve holds none. */
  ghost predicate Rel(tidy: bool, params: seq<Var>, nm: Names, env: Env) {
    forall x: Var :: RelAt(tidy, params, nm, env, x)
  }

  predicate RelAt(tidy: bool, params: seq<Var>, nm: Names, env: Env, x: Var) {
    var r := ResolveVar(params, nm, x);
    var v := Lookup(env, x);
    && (v.Entry? ==> v.i < |params|)
    && (r.Some? ==> v == Entry(r.value))
    && (tidy ==> v == Valued(r))
  }

  lemma RelWeaker(tidy: bool, params: seq<Var>, nm: Names, env: Env)
    requires Rel(tidy, params, nm, env)
    ensures Rel(false, params, nm, env)
  {
    forall x: Var
      ensures RelAt(false, params, nm, env, x)
    {
      assert RelAt(tidy, params, nm, env, x);
    }
  }

  ghost predicate Covers(tidy: bool, seen1: Seen, seen: Seen, frees: seq<FreeEvent>) {
    && |seen1| == |seen|
    && (forall ev :: ev in frees ==> ev.i < |seen|)
    && forall i :: 0 <= i < |seen| ==>
         && seen1[i] <= seen[i] + KindsAt(frees, i)
         && (tidy ==> seen1[i] == seen[i] + KindsAt(frees, i))
  }

  lemma CoversThen(tidy: bool, s2: Seen, s1: Seen, s0: Seen, f1: seq<FreeEvent>, f2: seq<FreeEvent>)
    requires Covers(tidy, s1, s0, f1) && Covers(tidy, s2, s1, f2)
    ensures Covers(tidy, s2, s0, f1 + f2) && Covers(tidy, s2, s0, f2 + f1)
  {
  }

  lemma {:induction false} MappedFree(frees: seq<FreeEvent>, args: seq<Val>, ev: FreeEvent)
    ensures ev in MapFrees(frees, args) <==>
            exists j: nat :: j < |args| && args[j] == Entry(ev.i) && FreeEvent(j, ev.kind) in frees
  {
    if frees != [] {
      MappedFree(frees[1..], args, ev);
      assert frees == [frees[0]] + frees[1..];
      forall j: nat | j < |args| && args[j] == Entry(ev.i)
        ensures FreeEvent(j, ev.kind) in frees <==>
                FreeEvent(j, ev.kind) in frees[1..] || frees[0] == FreeEvent(j, ev.kind)
      {
      }
    }
  }

  lemma {:induction false} NotedKind(params: seq<Var>, nm: Names, callee: Seen, args: seq<Expr>, seen: Seen,
                                     k: nat, i: nat, d: DeallocType)
    requires i < |seen|
    ensures d in NoteArgs(params, nm, callee, args, seen, k)[i] <==>
            d in seen[i] ||
            exists j: nat ::
              k <= j < |callee| && j < |args| && Resolve(params, nm, args[j]) == Some(i) && d in callee[j]
    decreases |callee| - k
  {
    if k < |callee| && k < |args| {
      NotedKind(params, nm, callee, args, Note(seen, Resolve(params, nm, args[k]), callee[k]), k + 1, i, d);
    }
  }

  /** The arguments as the analysis resolves them against their values in the run. */
  ghost predicate ArgsRel(tidy: bool, params: seq<Var>, nm: Names, args: seq<Expr>, vs: seq<Val>) {
    && |args| == |vs|
    && forall j :: 0 <= j < |args| ==>
         && (vs[j].Entry? ==> vs[j].i < |params|)
         && (Resolve(params, nm, args[j]).Some? ==> vs[j] == Entry(Resolve(params, nm, args[j]).value))
         && (tidy ==> vs[j] == Valued(Resolve(params, nm, args[j])))
  }

  lemma CallCovers(tidy: bool, params: seq<Var>, nm: Names, callee: Seen, frees: seq<FreeEvent>, args: seq<Expr>,
                   vs: seq<Val>, seen: Seen)
    requires |seen| == |params| && ArgsRel(tidy, params, nm, args, vs)
    requires Covers(tidy, callee, seq(|callee|, _ => {}), frees)
    ensures Covers(tidy, NoteArgs(params, nm, callee, args, seen, 0), seen, MapFrees(frees, vs))
  {
    var seen1 := NoteArgs(params, nm, callee, args, seen, 0);
    forall ev | ev in MapFrees(frees, vs)
      ensures ev.i < |seen|
    {
      MappedFree(frees, vs, ev);
    }
    forall i: nat, d | i < |seen|
      ensures d in seen1[i] ==> d in seen[i] + KindsAt(MapFrees(frees, vs), i)
      ensures tidy ==> (d in seen1[i] <==> d in seen[i] + KindsAt(MapFrees(frees, vs), i))
    {
      NotedKind(params, nm, callee, args, seen, 0, i, d);
      MappedFree(frees, vs, FreeEvent(i, d));
      if d !in seen[i] {
        if j: nat :| j < |callee| && j < |args| && Resolve(params, nm, args[j]) == Some(i) && d in callee[j] {
          assert FreeEvent(j, d) in frees;
        }
        if tidy && FreeEvent(i, d) in MapFrees(frees, vs) {
          var j: nat :| j < |vs| && vs[j] == Entry(i) && FreeEvent(j, d) in frees;
          assert d in callee[j];
        }
      }
    }
  }

  lemma {:induction false} HandedOverHas(vs: seq<Val>, ev: FreeEvent)
    ensures ev in HandedOver(vs) ==> ev.kind == Opaque && Entry(ev.i) in vs
  {
    if vs != [] {
      HandedOverHas(vs[1..], ev);
    }
  }

  /** What goes to an indirect call is freed, unseen by the analysis. */
  lemma HandedOverCovers(tidy: bool, params: seq<Var>, vs: seq<Val>, seen: Seen)
    requires |seen| == |params| && forall j :: 0 <= j < |vs| ==> vs[j].Entry? ==> vs[j].i < |params|
    requires tidy ==> forall j :: 0 <= j < |vs| ==> vs[j] == Foreign
    ensures Covers(tidy, seen, seen, HandedOver(vs))
  {
    forall ev | ev in HandedOver(vs)
      ensures ev.i < |seen| && !tidy
    {
      HandedOverHas(vs, ev);
    }
    if tidy {
      assert forall i :: 0 <= i < |seen| ==> KindsAt(HandedOver(vs), i) == {};
    }
  }

  /** The state in which an expression is evaluated: the analysis uses the names `seen`. */
  ghost predicate Situation(tidy: bool, fn: Fn, world: World, seen: Names, nm: Names, env: Env) {
    && fn.c.Straight() && CalleesOk(tidy, fn, world)
    && Rel(false, fn.params, seen, env) && Rel(tidy, fn.params, nm, env)
  }

  /** What is proved about an expression. */
  ghost predicate ExprCovered(tidy: bool, fn: Fn, world: World, seen: Names, nm: Names, e: Expr, marks: Seen, env: Env)
    requires fn.Has(e)
  {
    var a := EvalExpr(fn, world, e, env);
    && Covers(tidy, CollectExpr(fn, seen, e, marks), marks, a.frees)
    && (a.v.Entry? ==> a.v.i < |fn.params|)
    && (tidy ==> a.v == Valued(Deep(fn, world, nm, e)))
  }

  lemma {:induction false} ExprCovers(tidy: bool, fn: Fn, world: World, seen: Names, nm: Names, e: Expr,
                                      marks: Seen, env: Env)
    requires fn.Has(e) && ExprOk(tidy, fn, world, seen, nm, e)
    requires Situation(tidy, fn, world, seen, nm, env) && |marks| == |fn.params|
    ensures ExprCovered(tidy, fn, world, seen, nm, e, marks, env)
    decreases fn.n, 0, e
  {
    match e
    case PlacementNew(at) => ExprCovers(tidy, fn, world, seen, nm, at, marks, env);
    case Call(f, args) => CallExprCovers(tidy, fn, world, seen, nm, f, args, marks, env);
    case IndirectCall(_, args) => PartsCover(tidy, fn, world, seen, nm, e, args, marks, env);
    case NewExpr(_, parts) => PartsCover(tidy, fn, world, seen, nm, e, parts, marks, env);
    case OtherExpr(_, parts) => PartsCover(tidy, fn, world, seen, nm, e, parts, marks, env);
    case AddressOf(x, _) => AddressCovers(tidy, fn, world, seen, nm, e, marks, env);
    case _ => LeafCovers(tidy, fn, world, seen, nm, e, marks, env);
  }

  lemma LeafCovers(tidy: bool, fn: Fn, world: World, seen: Names, nm: Names, e: Expr, marks: Seen, env: Env)
    requires fn.Has(e) && !e.PlacementNew? && !e.Call? && !e.AddressOf? && Parts(e) == None
    requires Rel(tidy, fn.params, nm, env) && |marks| == |fn.params|
    ensures ExprCovered(tidy, fn, world, seen, nm, e, marks, env)
  {
    if ResolveExpr(e).Some? { assert RelAt(tidy, fn.params, nm, env, e.x); }
    assert forall i :: 0 <= i < |marks| ==> KindsAt([], i) == {};
  }

  lemma AddressCovers(tidy: bool, fn: Fn, world: World, seen: Names, nm: Names, e: Expr, marks: Seen, env: Env)
    requires e.AddressOf? && fn.Has(e) && ExprOk(tidy, fn, world, seen, nm, e)
    requires Rel(tidy, fn.params, nm, env) && |marks| == |fn.params|
    ensures ExprCovered(tidy, fn, world, seen, nm, e, marks, env)
  {
    assert RelAt(tidy, fn.params, nm, env, e.x);
    var v := Lookup(env, e.x);
    assert forall i :: 0 <= i < |marks| && v == Foreign ==> KindsAt(FreeOf(v, Opaque), i) == {};
    assert forall i :: 0 <= i < |marks| ==> KindsAt([], i) == {};
  }

  lemma {:induction false} CallExprCovers(tidy: bool, fn: Fn, world: World, seen: Names, nm: Names, f: FuncId,
                                          args: seq<Expr>, marks: Seen, env: Env)
    requires fn.Has(Call(f, args)) && ExprOk(tidy, fn, world, seen, nm, Call(f, args))
    requires Situation(tidy, fn, world, seen, nm, env) && |marks| == |fn.params|
    ensures ExprCovered(tidy, fn, world, seen, nm, Call(f, args), marks, env)
    decreases fn.n, 0, Call(f, args), 0
  {
    var callee, r := CollectFunc(fn.c, f), RunFunc(fn.c, world, f);
    var a := EvalArgs(fn, world, args, env);
    var marks1 := NoteArgs(fn.params, seen, callee, args, marks, 0);
    FuncCovers(tidy, fn.c, world, f);
    ArgsCover(tidy, fn, world, seen, nm, args, marks1, env);
    ArgsHold(tidy, fn, world, seen, nm, args, marks, env, true);
    CallCovers(tidy, fn.params, seen, callee, r.frees, args, a.vs, marks);
    CoversThen(tidy, CollectArgs(fn, seen, args, marks1), marks1, marks, MapFrees(r.frees, a.vs), a.frees);
  }

  /** The parts of an expression that is neither a direct call nor a leaf. */
  function Parts(e: Expr): Option<seq<Expr>> {
    match e
    case IndirectCall(_, args) => Some(args)
    case NewExpr(_, parts) => Some(parts)
    case OtherExpr(_, parts) => Some(parts)
    case _ => None
  }

  /** Such an expression hands its parts over, in this world. */
  predicate Hands(world: World, e: Expr) {
    e.IndirectCall? || (e.OtherExpr? && e.site in world.through)
  }

  lemma {:induction false} PartsCover(tidy: bool, fn: Fn, world: World, seen: Names, nm: Names, e: Expr,
                                      parts: seq<Expr>, marks: Seen, env: Env)
    requires Parts(e) == Some(parts) && fn.Has(e) && fn.HasAll(parts) && ExprOk(tidy, fn, world, seen, nm, e)
    requires Situation(tidy, fn, world, seen, nm, env) && |marks| == |fn.params|
    ensures ExprCovered(tidy, fn, world, seen, nm, e, marks, env)
    decreases fn.n, 0, e, 0
  {
    assert if e.IndirectCall? then parts == e.args else parts == e.parts;
    var a := EvalArgs(fn, world, parts, env);
    var marks1 := CollectArgs(fn, seen, parts, marks);
    assert ArgsOk(tidy, fn, world, seen, nm, parts, false);
    ArgsCover(tidy, fn, world, seen, nm, parts, marks, env);
    if Hands(world, e) {
      ArgsHold(tidy, fn, world, seen, nm, parts, marks, env, false);
      HandedOverCovers(tidy, fn.params, a.vs, marks1);
      CoversThen(tidy, marks1, marks1, marks, a.frees, HandedOver(a.vs));
    } else {
      assert a.frees + [] == a.frees;
    }
  }

  /** The arguments of a call: of a direct one, as the analysis looks at them too. */
  predicate ArgsOk(tidy: bool, fn: Fn, world: World, seen: Names, nm: Names, args: seq<Expr>, direct: bool)
    requires fn.HasAll(args)
  {
    forall i :: 0 <= i < |args| ==>
      && ExprOk(tidy, fn, world, seen, nm, args[i])
      && (direct && !tidy ==> Steady(fn, Some(world), seen, args[i]))
      && (direct && tidy ==> Resolve(fn.params, seen, args[i]) == Deep(fn, world, nm, args[i]))
  }

  lemma {:induction false} ArgsCover(tidy: bool, fn: Fn, world: World, seen: Names, nm: Names, args: seq<Expr>,
                                     marks: Seen, env: Env)
    requires fn.HasAll(args) && ArgsOk(tidy, fn, world, seen, nm, args, false)
    requires Situation(tidy, fn, world, seen, nm, env) && |marks| == |fn.params|
    ensures Covers(tidy, CollectArgs(fn, seen, args, marks), marks, EvalArgs(fn, world, args, env).frees)
    decreases fn.n, 0, args
  {
    if args != [] {
      var a := EvalExpr(fn, world, args[0], env);
      var marks1 := CollectExpr(fn, seen, args[0], marks);
      ExprCovers(tidy, fn, world, seen, nm, args[0], marks, env);
      ArgsCover(tidy, fn, world, seen, nm, args[1..], marks1, env);
      var rest := EvalArgs(fn, world, args[1..], env);
      CoversThen(tidy, CollectArgs(fn, seen, args[1..], marks1), marks1, marks, a.frees, rest.frees);
    }
  }

  lemma {:induction false} ArgValue(fn: Fn, world: World, args: seq<Expr>, env: Env, j: nat)
    requires fn.HasAll(args) && j < |args|
    ensures EvalArgs(fn, world, args, env).vs[j] == EvalExpr(fn, world, args[j], env).v
    decreases |args|
  {
    if j > 0 { ArgValue(fn, world, args[1..], env, j - 1); }
  }

  /** The values of the arguments, and what the analysis takes them for. */
  lemma {:induction false} ArgsHold(tidy: bool, fn: Fn, world: World, seen: Names, nm: Names, args: seq<Expr>,
                                    marks: Seen, env: Env, direct: bool)
    requires fn.HasAll(args) && ArgsOk(tidy, fn, world, seen, nm, args, direct)
    requires Situation(tidy, fn, world, seen, nm, env) && |marks| == |fn.params|
    ensures var vs := EvalArgs(fn, world, args, env).vs;
            && (forall j :: 0 <= j < |args| ==> ArgCovered(tidy, fn, world, nm, args[j], vs[j]))
            && (direct ==> ArgsRel(tidy, fn.params, seen, args, vs))
    decreases fn.n, 0, args
  {
    var vs := EvalArgs(fn, world, args, env).vs;
    forall j: nat | j < |args|
      ensures ArgCovered(tidy, fn, world, nm, args[j], vs[j])
      ensures direct ==> var r := Resolve(fn.params, seen, args[j]);
                         (r.Some? ==> vs[j] == Entry(r.value)) && (tidy ==> vs[j] == Valued(r))
    {
      ArgValue(fn, world, args, env, j);
      ExprCovers(tidy, fn, world, seen, nm, args[j], marks, env);
      if direct { ArgRel(tidy, fn, world, seen, nm, args[j], env); }
    }
  }

  /** What is proved about the value of an argument. */
  ghost predicate ArgCovered(tidy: bool, fn: Fn, world: World, nm: Names, e: Expr, v: Val)
    requires fn.Has(e)
  {
    (v.Entry? ==> v.i < |fn.params|) && (tidy ==> v == Valued(Deep(fn, world, nm, e)))
  }

  lemma ArgRel(tidy: bool, fn: Fn, world: World, seen: Names, nm: Names, e: Expr, env: Env)
    requires fn.Has(e) && Rel(false, fn.params, seen, env)
    requires ArgCovered(tidy, fn, world, nm, e, EvalExpr(fn, world, e, env).v)
    requires if tidy then Resolve(fn.params, seen, e) == Deep(fn, world, nm, e) else Steady(fn, Some(world), seen, e)
    ensures var r := Resolve(fn.params, seen, e); var v := EvalExpr(fn, world, e, env).v;
            (r.Some? ==> v == Entry(r.value)) && (tidy ==> v == Valued(r))
  {
    if ResolveExpr(e).Some? { assert RelAt(false, fn.params, seen, env, e.x); }
  }

  /** The collected frees are frees of the run, and when the text is tidy all of them. */
  lemma {:induction false} FuncCovers(tidy: bool, c: Code, world: World, f: FuncId)
    requires c.Straight() && f in c.prog && FuncsOk(tidy, c, world, f)
    ensures var k := |c.prog[f].params|; var r := RunFunc(c, world, f);
            && Covers(tidy, CollectFunc(c, f), seq(k, _ => {}), r.frees)
            && (tidy ==> r.v == Valued(DeepFunc(c, world, f)))
    decreases c.rank[f], 3
  {
    var fn := c.prog[f];
    var empty: Seen := seq(|fn.params|, _ => {});
    if fn.body.None? {
      var frees := RunFunc(c, world, f).frees;
      forall i | 0 <= i < |fn.params|
        ensures KindsAt(frees, i) == {Opaque}
      {
        assert frees[i] == FreeEvent(i, Opaque);
      }
    } else {
      StmtCovers(tidy, c.Inside(f), world, START, fn.body.value, empty, EntryEnv(fn.params));
    }
  }

  // ----- statements -----

  /** What recording an assignment achieves: names and run agree afterwards on every variable.  While
      the right side, if it is no variable, is still being evaluated the names may know less, but
      nothing wrong. */
  lemma AssignRel(tidy: bool, params: seq<Var>, nm: Names, env: Env, x: Var, e: Option<Expr>, v: Val)
    requires Rel(tidy, params, nm, env)
    requires v.Entry? ==> v.i < |params|
    requires var r := ResolveVar(params, UpdateMap(params, nm, x, e), x);
             (r.Some? ==> v == Entry(r.value)) && (tidy ==> v == Valued(r))
    ensures var nm1 := UpdateMap(params, nm, x, e);
            Rel(tidy, params, nm1, env[x := v]) &&
            (e.None? || ResolveExpr(e.value).None? ==> Rel(false, params, nm1, env))
  {
    var nm1, env1 := UpdateMap(params, nm, x, e), env[x := v];
    forall y: Var
      ensures RelAt(tidy, params, nm1, env1, y)
    {
      assert RelAt(tidy, params, nm, env, y);
    }
    if e.None? || ResolveExpr(e.value).None? {
      forall y: Var
        ensures RelAt(false, params, nm1, env, y)
      {
        assert RelAt(tidy, params, nm, env, y);
      }
    }
  }

  lemma MoveRel(tidy: bool, params: seq<Var>, nm: Names, env: Env, x: Var, world: World)
    requires Rel(tidy, params, nm, env) && (world.exact ==> ResolveVar(params, nm, x) == None)
    ensures Rel(tidy, params, nm, if world.exact then env[x := Foreign] else env)
  {
    var env1 := if world.exact then env[x := Foreign] else env;
    forall y: Var
      ensures RelAt(tidy, params, nm, env1, y)
    {
      assert RelAt(tidy, params, nm, env, y);
    }
  }

  /** What is proved about a statement. */
  ghost predicate StmtCovered(tidy: bool, fn: Fn, world: World, nm: Names, s: Stmt, marks: Seen, env: Env)
    requires fn.HasStmt(s)
  {
    var r := ExecStmt(fn, world, s, env);
    && Covers(tidy, CollectStmt(fn, nm, s, marks), marks, r.frees)
    && Rel(tidy, fn.params, NamesAfter(fn.params, nm, s), r.env)
    && (tidy ==> r.ret == Valued(DeepReturn(fn, world, nm, s)))
  }

  lemma {:induction false} StmtCovers(tidy: bool, fn: Fn, world: World, nm: Names, s: Stmt, marks: Seen, env: Env)
    requires fn.HasStmt(s) && CalleesOk(tidy, fn, world) && StmtOk(tidy, fn, world, nm, s)
    requires |marks| == |fn.params| && Rel(tidy, fn.params, nm, env)
    ensures StmtCovered(tidy, fn, world, nm, s, marks, env)
    decreases fn.n, 2, s
  {
    if s.Seq? {
      SeqCovers(tidy, fn, world, nm, s, marks, env);
    } else if s.Decl? || s.Assign? {
      StoreStmtCovers(tidy, fn, world, nm, s, marks, env);
    } else if s.Return? || s.ExprStmt? {
      ReadStmtCovers(tidy, fn, world, nm, s, marks, env);
    } else if s.Delete? || s.Free? {
      FreeStmtCovers(tidy, fn, world, nm, s, marks, env);
    } else {
      MoveStmtCovers(tidy, fn, world, nm, s, marks, env);
    }
  }

  lemma MoveStmtCovers(tidy: bool, fn: Fn, world: World, nm: Names, s: Stmt, marks: Seen, env: Env)
    requires (s.CompoundAssign? || s.Skip?) && fn.HasStmt(s) && StmtOk(tidy, fn, world, nm, s)
    requires |marks| == |fn.params| && Rel(tidy, fn.params, nm, env)
    ensures StmtCovered(tidy, fn, world, nm, s, marks, env)
  {
    if s.CompoundAssign? { MoveRel(tidy, fn.params, nm, env, s.x, world); }
  }

  lemma {:induction false} StoreStmtCovers(tidy: bool, fn: Fn, world: World, nm: Names, s: Stmt, marks: Seen, env: Env)
    requires (s.Decl? || s.Assign?) && fn.HasStmt(s) && CalleesOk(tidy, fn, world) && StmtOk(tidy, fn, world, nm, s)
    requires |marks| == |fn.params| && Rel(tidy, fn.params, nm, env)
    ensures StmtCovered(tidy, fn, world, nm, s, marks, env)
    decreases fn.n, 2, s, 0
  {
    match s
    case Decl(x, None) => AssignRel(tidy, fn.params, nm, env, x, None, Foreign);
    case Decl(x, Some(e)) => StoreCovers(tidy, fn, world, nm, x, e, marks, env);
    case Assign(x, e) => StoreCovers(tidy, fn, world, nm, x, e, marks, env);
  }

  lemma {:induction false} ReadStmtCovers(tidy: bool, fn: Fn, world: World, nm: Names, s: Stmt, marks: Seen, env: Env)
    requires (s.Return? || s.ExprStmt?) && fn.HasStmt(s) && CalleesOk(tidy, fn, world) && StmtOk(tidy, fn, world, nm, s)
    requires |marks| == |fn.params| && Rel(tidy, fn.params, nm, env)
    ensures StmtCovered(tidy, fn, world, nm, s, marks, env)
    decreases fn.n, 2, s, 0
  {
    ReadCovers(tidy, fn, world, nm, s.e, marks, env);
  }

  lemma {:induction false} FreeStmtCovers(tidy: bool, fn: Fn, world: World, nm: Names, s: Stmt, marks: Seen, env: Env)
    requires (s.Delete? || s.Free?) && fn.HasStmt(s) && CalleesOk(tidy, fn, world) && StmtOk(tidy, fn, world, nm, s)
    requires |marks| == |fn.params| && Rel(tidy, fn.params, nm, env)
    ensures StmtCovered(tidy, fn, world, nm, s, marks, env)
    decreases fn.n, 2, s, 0
  {
    var dt := if s.Free? then FreeCall else if s.isArray then DeleteArr else DeleteOne;
    FreedCovers(tidy, fn, world, nm, s.e, dt, marks, env);
  }

  lemma {:induction false} SeqCovers(tidy: bool, fn: Fn, world: World, nm: Names, s: Stmt, marks: Seen, env: Env)
    requires s.Seq? && fn.HasStmt(s) && CalleesOk(tidy, fn, world) && StmtOk(tidy, fn, world, nm, s)
    requires |marks| == |fn.params| && Rel(tidy, fn.params, nm, env)
    ensures StmtCovered(tidy, fn, world, nm, s, marks, env)
    decreases fn.n, 2, s, 0
  {
    var r1 := ExecStmt(fn, world, s.s1, env);
    var r2 := ExecStmt(fn, world, s.s2, r1.env);
    var marks1, nm1 := CollectStmt(fn, nm, s.s1, marks), NamesAfter(fn.params, nm, s.s1);
    StmtCovers(tidy, fn, world, nm, s.s1, marks, env);
    StmtCovers(tidy, fn, world, nm1, s.s2, marks1, r1.env);
    CoversThen(tidy, CollectStmt(fn, nm1, s.s2, marks1), marks1, marks, r1.frees, r2.frees);
  }

  lemma {:induction false} ReadCovers(tidy: bool, fn: Fn, world: World, nm: Names, e: Expr, marks: Seen, env: Env)
    requires fn.Has(e) && CalleesOk(tidy, fn, world) && ExprOk(tidy, fn, world, nm, nm, e)
    requires |marks| == |fn.params| && Rel(tidy, fn.params, nm, env)
    ensures ExprCovered(tidy, fn, world, nm, nm, e, marks, env)
    decreases fn.n, 1
  {
    RelWeaker(tidy, fn.params, nm, env);
    ExprCovers(tidy, fn, world, nm, nm, e, marks, env);
  }

  /** What an expression resolves to it has, where it is steady or its text tidy. */
  lemma ResolvedIsHeld(tidy: bool, fn: Fn, world: World, nm: Names, e: Expr, env: Env)
    requires fn.Has(e) && Rel(false, fn.params, nm, env)
    requires if tidy then EvalExpr(fn, world, e, env).v == Valued(Resolve(fn.params, nm, e))
             else Steady(fn, Some(world), nm, e)
    ensures var r := Resolve(fn.params, nm, e); r.Some? ==> EvalExpr(fn, world, e, env).v == Entry(r.value)
  {
    if ResolveExpr(e).Some? { assert RelAt(false, fn.params, nm, env, e.x); }
  }

  lemma {:induction false} StoreCovers(tidy: bool, fn: Fn, world: World, nm: Names, x: Var, e: Expr, marks: Seen,
                                       env: Env)
    requires fn.Has(e) && CalleesOk(tidy, fn, world) && |marks| == |fn.params| && Rel(tidy, fn.params, nm, env)
    requires if tidy then TidyStore(fn, world, nm, x, e)
             else Steady(fn, Some(world), nm, e) && CalmExpr(fn, Some(world), UpdateMap(fn.params, nm, x, Some(e)), e)
    ensures var nm1 := UpdateMap(fn.params, nm, x, Some(e)); var a := EvalExpr(fn, world, e, env);
            && Covers(tidy, CollectExpr(fn, nm1, e, marks), marks, a.frees)
            && Rel(tidy, fn.params, nm1, env[x := a.v])
    decreases fn.n, 1
  {
    var nm1 := UpdateMap(fn.params, nm, x, Some(e));
    var a := EvalExpr(fn, world, e, env);
    RelWeaker(tidy, fn.params, nm, env);
    if ResolveExpr(e).Some? {
      ExprCovers(tidy, fn, world, nm, nm, e, marks, env);
    } else {
      AssignRel(false, fn.params, nm, env, x, Some(e), Foreign);
      ExprCovers(tidy, fn, world, nm1, nm, e, marks, env);
    }
    if !tidy { ResolvedIsHeld(false, fn, world, nm, e, env); }
    AssignRel(tidy, fn.params, nm, env, x, Some(e), a.v);
  }

  lemma {:induction false} FreedCovers(tidy: bool, fn: Fn, world: World, nm: Names, e: Expr, dt: DeallocType,
                                       marks: Seen, env: Env)
    requires fn.Has(e) && CalleesOk(tidy, fn, world) && |marks| == |fn.params| && Rel(tidy, fn.params, nm, env)
    requires if tidy then TidyFree(fn, world, nm, e)
             else Steady(fn, Some(world), nm, e) && CalmExpr(fn, Some(world), nm, e)
    ensures var a := EvalExpr(fn, world, e, env);
            Covers(tidy, CollectFreed(fn, nm, e, dt, marks), marks, a.frees + FreeOf(a.v, dt))
    decreases fn.n, 1
  {
    var a := EvalExpr(fn, world, e, env);
    var marks1 := Note(marks, Resolve(fn.params, nm, e), {dt});
    RelWeaker(tidy, fn.params, nm, env);
    ExprCovers(tidy, fn, world, nm, nm, e, marks1, env);
    ResolvedIsHeld(tidy, fn, world, nm, e, env);
    CoversThen(tidy, CollectFreed(fn, nm, e, dt, marks), marks1, marks, FreeOf(a.v, dt), a.frees);
  }

  // ----- the two results -----

  lemma MarkIsVerdict(c: Code, f: FuncId, i: nat)
    requires c.Acyclic() && f in c.prog && i < |c.prog[f].params| && c.prog[f].body.Some?
    ensures GetDeallocType(c.prog, f).1[i] == Verdict(CollectFunc(c, f)[i]) && Basic(CollectFunc(c, f)[i])
  {
    FuncMatches(c, f, map[f := None]);
  }

  /** A mark is never invented: the run frees the entry value of that parameter, or where pointers
      are moved a pointer derived from it, and when the mark names a way of freeing, in just that
      way. */
  lemma MarksAreReal(c: Code, world: World, f: FuncId, i: nat)
    requires c.Straight() && f in c.prog && i < |c.prog[f].params| && c.prog[f].body.Some?
    requires FuncsOk(false, c, world, f)
    ensures var mark := GetDeallocType(c.prog, f).1[i];
            var kinds := KindsAt(RunFunc(c, world, f).frees, i);
            && (mark != NotFreed ==> kinds != {})
            && (mark in {DeleteOne, DeleteArr, FreeCall} ==> mark in kinds)
            && mark != Opaque
  {
    MarkIsVerdict(c, f, i);
    FuncCovers(false, c, world, f);
    assert CollectFunc(c, f)[i] <= KindsAt(RunFunc(c, world, f).frees, i);
  }

  /** When the text is tidy the mark is the verdict on all frees of the entry value. */
  lemma TidyMarksAreExact(c: Code, world: World, f: FuncId, i: nat)
    requires c.Straight() && f in c.prog && i < |c.prog[f].params| && c.prog[f].body.Some?
    requires FuncsOk(true, c, world, f)
    ensures GetDeallocType(c.prog, f).1[i] == Verdict(KindsAt(RunFunc(c, world, f).frees, i))
  {
    MarkIsVerdict(c, f, i);
    FuncCovers(true, c, world, f);
    assert CollectFunc(c, f)[i] == {} + KindsAt(RunFunc(c, world, f).frees, i);
  }

  /** A condition on the text alone: in `f` and the functions ranked with or below it no variable that
      counts as an entry value has its address taken where it is stored, freed or passed on, or is
      moved with += and the like. */
  predicate TextCalm(c: Code, f: FuncId)
    requires c.Acyclic() && f in c.prog
  {
    forall g :: g in c.prog && c.rank[g] <= c.rank[f] && c.prog[g].body.Some? ==>
      CalmStmt(c.Inside(g), None, START, c.prog[g].body.value)
  }

  /** Under that condition marks are real in every world. */
  lemma TextCalmSuffices(c: Code, world: World, f: FuncId)
    requires c.Straight() && f in c.prog && TextCalm(c, f)
    ensures FuncsOk(false, c, world, f)
  {
    forall g | g in c.prog && c.rank[g] <= c.rank[f] && c.prog[g].body.Some?
      ensures StmtOk(false, c.Inside(g), world, START, c.prog[g].body.value)
    {
      CalmStmtIn(c.Inside(g), world, START, c.prog[g].body.value);
    }
  }
}
