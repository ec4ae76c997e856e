/** Bodies with branches and early returns.  What a run of such code does is straight-line code: the
    statements on its way, and for each call the statements on the way through the callee.  So a run
    of a program is the run of a straight-line program that unfolds it. */
module DeallocWays {
  import opened Wrappers
  import opened Ast
  import opened Dealloc
  import opened DeallocRuns
  import opened DeallocMemo
  import opened DeallocCorrect

  // ----- ways through a program -----

  /** For each function of an unfolding the function it is a copy of. */
  type Copies = map<FuncId, FuncId>

  /** The same expression, with calls to copies.  Sites may differ: what is found in memory can
      change from one execution to the next. */
  predicate CopyOf(of: Copies, e': Expr, e: Expr)
    decreases e
  {
    match e
    case PlacementNew(at) => e'.PlacementNew? && CopyOf(of, e'.at, at)
    case Exposed(x, _) => e'.Exposed? && e'.x == x
    case AddressOf(x, _) => e'.AddressOf? && e'.x == x
    case Global(_) => e'.Global?
    case Binding(_) => e'.Binding?
    case Call(f, args) =>
      && e'.Call? && e'.callee in of && of[e'.callee] == f
      && |e'.args| == |args| && forall i :: 0 <= i < |args| ==> CopyOf(of, e'.args[i], args[i])
    case IndirectCall(_, args) =>
      e'.IndirectCall? && |e'.args| == |args| && forall i :: 0 <= i < |args| ==> CopyOf(of, e'.args[i], args[i])
    case NewExpr(arr, parts) =>
      && e'.NewExpr? && e'.isArray == arr
      && |e'.parts| == |parts| && forall i :: 0 <= i < |parts| ==> CopyOf(of, e'.parts[i], parts[i])
    case OtherExpr(_, parts) =>
      e'.OtherExpr? && |e'.parts| == |parts| && forall i :: 0 <= i < |parts| ==> CopyOf(of, e'.parts[i], parts[i])
    case _ => e' == e
  }

  predicate LeafCopy(of: Copies, p: Stmt, s: Stmt) {
    match s
    case Decl(x, None) => p == s
    case Decl(x, Some(e)) => p.Decl? && p.x == x && p.init.Some? && CopyOf(of, p.init.value, e)
    case Assign(x, e) => p.Assign? && p.x == x && CopyOf(of, p.e, e)
    case Return(e) => p.Return? && CopyOf(of, p.e, e)
    case ExprStmt(e) => p.ExprStmt? && CopyOf(of, p.e, e)
    case Delete(e, arr) => p.Delete? && p.isArray == arr && CopyOf(of, p.e, e)
    case Free(e) => p.Free? && CopyOf(of, p.e, e)
    case _ => p == s
  }

  /** The variables in scope resolve to the same parameters. */
  predicate Same(params: seq<Var>, scope: set<Var>, nm1: Names, nm2: Names) {
    forall x :: x in scope ==> ResolveVar(params, nm1, x) == ResolveVar(params, nm2, x)
  }

  /** The ways through `s`, straight-line code.  The analysis walks over all branches, one after the
      other, starting with the names `nm`; those that a way leaves out must not change what the
      variables in scope resolve to. */
  ghost function Ways(of: Copies, params: seq<Var>, nm: Names, scope: set<Var>, s: Stmt): iset<Stmt>
    decreases s
  {
    match s
    case If(thn, els) =>
      var nm1 := NamesAfter(params, nm, thn);
      var first, still := Ways(of, params, nm, scope, thn), Same(params, scope, nm1, nm);
      if els.None? then first + (if still then iset{Skip} else iset{})
      else
        var nm2 := NamesAfter(params, nm1, els.value);
        (iset p | p in first && (NoReturn(p) ==> Same(params, scope, nm2, nm1)))
        + (if still then Ways(of, params, nm1, scope, els.value) else iset{})
    case Seq(s1, s2) =>
      var first := Ways(of, params, nm, scope, s1);
      var second := Ways(of, params, NamesAfter(params, nm, s1), ScopeAfter(s1, scope), s2);
      iset p | (p in first && !NoReturn(p)) || (p.Seq? && p.s1 in first && NoReturn(p.s1) && p.s2 in second)
    case _ => iset p | LeafCopy(of, p, s)
  }

  /** The straight-line program `c` unfolds `b`: its functions are ways through functions of `b`.  There
      can be any number of them for one function, one for each execution. */
  ghost predicate Unfolds(b: Code, c: Code, of: Copies) {
    forall f :: f in c.prog ==> f in of && of[f] in b.prog && WayThrough(of, c.prog[f], b.prog[of[f]])
  }

  ghost predicate WayThrough(of: Copies, fn': Func, fn: Func) {
    && fn'.params == fn.params && (fn'.body.Some? <==> fn.body.Some?)
    && (fn.body.Some? ==> fn'.body.value in Ways(of, fn.params, START, ToSet(fn.params), fn.body.value))
  }

  // ----- names along a way -----

  lemma ResolvesAlike(of: Copies, params: seq<Var>, scope: set<Var>, nm': Names, nm: Names, e': Expr, e: Expr)
    requires CopyOf(of, e', e) && ExprScoped(e, scope) && Same(params, scope, nm', nm)
    ensures Resolve(params, nm', e') == Resolve(params, nm, e)
  {
  }

  lemma StoreSame(of: Copies, params: seq<Var>, scope: set<Var>, nm': Names, nm: Names, x: Var, e': Option<Expr>,
                  e: Option<Expr>)
    requires Same(params, scope, nm', nm) && (e'.Some? <==> e.Some?)
    requires e.Some? ==> CopyOf(of, e'.value, e.value) && ExprScoped(e.value, scope)
    ensures Same(params, scope + {x}, UpdateMap(params, nm', x, e'), UpdateMap(params, nm, x, e))
  {
    if e.Some? { ResolvesAlike(of, params, scope, nm', nm, e'.value, e.value); }
  }

  /** Where a way falls out at the end, its own names agree with those of the whole walk. */
  lemma {:induction false} WaySame(of: Copies, params: seq<Var>, nm: Names, scope: set<Var>, nm': Names, p: Stmt,
                                   s: Stmt)
    requires p in Ways(of, params, nm, scope, s) && Scoped(s, scope) && Same(params, scope, nm', nm)
    ensures NoReturn(p) ==>
      Same(params, ScopeAfter(s, scope), NamesAfter(params, nm', p), NamesAfter(params, nm, s))
    decreases s
  {
    match s
    case If(thn, els) =>
      var nm1 := NamesAfter(params, nm, thn);
      if p in Ways(of, params, nm, scope, thn) {
        WaySame(of, params, nm, scope, nm', p, thn);
      }
      if els.Some? && p in Ways(of, params, nm1, scope, els.value) && Same(params, scope, nm1, nm) {
        WaySame(of, params, nm1, scope, nm', p, els.value);
      }
    case Seq(s1, s2) =>
      if NoReturn(p) {
        WaySame(of, params, nm, scope, nm', p.s1, s1);
        WaySame(of, params, NamesAfter(params, nm, s1), ScopeAfter(s1, scope), NamesAfter(params, nm', p.s1), p.s2, s2);
      }
    case Decl(x, init) => StoreSame(of, params, scope, nm', nm, x, p.init, init);
    case Assign(x, e) => StoreSame(of, params, scope, nm', nm, x, Some(p.e), Some(e));
    case _ =>
  }

  // ----- collecting is adding -----

  /** `more` is added to `seen`. */
  ghost predicate Adds(seen1: Seen, seen: Seen, more: Seen) {
    |seen1| == |seen| == |more| && forall i :: 0 <= i < |seen| ==> seen1[i] == seen[i] + more[i]
  }

  function Nothing(k: nat): Seen {
    seq(k, _ => {})
  }

  lemma AddsThen(seen2: Seen, seen1: Seen, seen: Seen, first: Seen, both: Seen, second: Seen)
    requires Adds(seen1, seen, first) && Adds(seen2, seen1, second) && Adds(both, first, second)
    ensures Adds(seen2, seen, both)
  {
    forall i | 0 <= i < |seen|
      ensures seen2[i] == seen[i] + both[i]
    {
      assert (seen[i] + first[i]) + second[i] == seen[i] + (first[i] + second[i]);
    }
  }

  lemma {:induction false} NoteArgsAdds(params: seq<Var>, nm: Names, callee: Seen, args: seq<Expr>, seen: Seen, k: nat)
    ensures Adds(NoteArgs(params, nm, callee, args, seen, k), seen,
                 NoteArgs(params, nm, callee, args, Nothing(|seen|), k))
  {
    var r0, r1 := NoteArgs(params, nm, callee, args, Nothing(|seen|), k), NoteArgs(params, nm, callee, args, seen, k);
    forall i: nat | i < |seen|
      ensures r1[i] == seen[i] + r0[i]
    {
      forall d
        ensures d in r1[i] <==> d in seen[i] + r0[i]
      {
        NotedKind(params, nm, callee, args, Nothing(|seen|), k, i, d);
        NotedKind(params, nm, callee, args, seen, k, i, d);
      }
    }
  }

  lemma {:induction false} ExprAdds(fn: Fn, nm: Names, e: Expr, seen: Seen)
    requires fn.Walks(e)
    ensures Adds(CollectExpr(fn, nm, e, seen), seen, CollectExpr(fn, nm, e, Nothing(|seen|)))
    decreases e
  {
    match e
    case PlacementNew(at) => ExprAdds(fn, nm, at, seen);
    case Call(f, args) =>
      var callee, none := CollectFunc(fn.c, f), Nothing(|seen|);
      var seen1 := NoteArgs(fn.params, nm, callee, args, seen, 0);
      var none1 := NoteArgs(fn.params, nm, callee, args, none, 0);
      NoteArgsAdds(fn.params, nm, callee, args, seen, 0);
      ArgsAdd(fn, nm, args, seen1);
      ArgsAdd(fn, nm, args, none1);
      AddsThen(CollectExpr(fn, nm, e, seen), seen1, seen, none1, CollectExpr(fn, nm, e, none),
               CollectArgs(fn, nm, args, none));
    case IndirectCall(_, args) => ArgsAdd(fn, nm, args, seen);
    case NewExpr(_, parts) => ArgsAdd(fn, nm, parts, seen);
    case OtherExpr(_, parts) => ArgsAdd(fn, nm, parts, seen);
    case _ =>
  }

  lemma {:induction false} ArgsAdd(fn: Fn, nm: Names, args: seq<Expr>, seen: Seen)
    requires fn.WalksAll(args)
    ensures Adds(CollectArgs(fn, nm, args, seen), seen, CollectArgs(fn, nm, args, Nothing(|seen|)))
    decreases args
  {
    if args != [] {
      var none := Nothing(|seen|);
      var seen1, none1 := CollectExpr(fn, nm, args[0], seen), CollectExpr(fn, nm, args[0], none);
      ExprAdds(fn, nm, args[0], seen);
      ArgsAdd(fn, nm, args[1..], seen1);
      ArgsAdd(fn, nm, args[1..], none1);
      AddsThen(CollectArgs(fn, nm, args, seen), seen1, seen, none1, CollectArgs(fn, nm, args, none),
               CollectArgs(fn, nm, args[1..], none));
    }
  }

  lemma {:induction false} FreedAdds(fn: Fn, nm: Names, e: Expr, kind: DeallocType, seen: Seen)
    requires fn.Walks(e)
    ensures Adds(CollectFreed(fn, nm, e, kind, seen), seen, CollectFreed(fn, nm, e, kind, Nothing(|seen|)))
  {
    var none, i := Nothing(|seen|), Resolve(fn.params, nm, e);
    var seen1, none1 := Note(seen, i, {kind}), Note(none, i, {kind});
    ExprAdds(fn, nm, e, seen1);
    ExprAdds(fn, nm, e, none1);
    AddsThen(CollectExpr(fn, nm, e, seen1), seen1, seen, none1, CollectExpr(fn, nm, e, none1),
             CollectExpr(fn, nm, e, none));
  }

  lemma {:induction false} StmtAdds(fn: Fn, nm: Names, s: Stmt, seen: Seen)
    requires fn.WalksStmt(s)
    ensures Adds(CollectStmt(fn, nm, s, seen), seen, CollectStmt(fn, nm, s, Nothing(|seen|)))
    decreases s
  {
    match s
    case Decl(_, Some(e)) => ExprAdds(fn, NamesAfter(fn.params, nm, s), e, seen);
    case Assign(_, e) => ExprAdds(fn, NamesAfter(fn.params, nm, s), e, seen);
    case Return(e) => ExprAdds(fn, nm, e, seen);
    case ExprStmt(e) => ExprAdds(fn, nm, e, seen);
    case Delete(e, arr) => FreedAdds(fn, nm, e, if arr then DeleteArr else DeleteOne, seen);
    case Free(e) => FreedAdds(fn, nm, e, FreeCall, seen);
    case If(thn, None) => StmtAdds(fn, nm, thn, seen);
    case If(thn, Some(els)) => BothAdd(fn, nm, s, thn, els, seen);
    case Seq(s1, s2) => BothAdd(fn, nm, s, s1, s2, seen);
    case _ =>
  }

  lemma {:induction false} BothAdd(fn: Fn, nm: Names, s: Stmt, s1: Stmt, s2: Stmt, seen: Seen)
    requires fn.WalksStmt(s) && (s == Seq(s1, s2) || s == If(s1, Some(s2)))
    ensures Adds(CollectStmt(fn, nm, s, seen), seen, CollectStmt(fn, nm, s, Nothing(|seen|)))
    decreases s, 0
  {
    var none, nm1 := Nothing(|seen|), NamesAfter(fn.params, nm, s1);
    var seen1, none1 := CollectStmt(fn, nm, s1, seen), CollectStmt(fn, nm, s1, none);
    StmtAdds(fn, nm, s1, seen);
    StmtAdds(fn, nm1, s2, seen1);
    StmtAdds(fn, nm1, s2, none1);
    AddsThen(CollectStmt(fn, nm1, s2, seen1), seen1, seen, none1, CollectStmt(fn, nm1, s2, none1),
             CollectStmt(fn, nm1, s2, none));
  }

  // ----- no free on any way is missed -----

  ghost predicate Within(seen': Seen, seen: Seen) {
    |seen'| == |seen| && forall i :: 0 <= i < |seen| ==> seen'[i] <= seen[i]
  }

  /** A function and a copy of it, whose callees are dealt with; the walk over the one, with the names
      `nm`, and over the other. */
  ghost predicate Looks(of: Copies, b: Fn, c: Fn, scope: set<Var>, nm: Names, nm': Names) {
    && b.params == c.params && b.c.Acyclic() && c.c.Acyclic() && Same(b.params, scope, nm', nm)
    && forall g :: g in c.c.prog && c.c.rank[g] < c.n ==> CalleeWithin(of, b.c, c.c, g)
  }

  ghost predicate CalleeWithin(of: Copies, b: Code, c: Code, f: FuncId)
    requires b.Acyclic() && c.Acyclic() && f in c.prog
  {
    f in of && of[f] in b.prog && Within(CollectFunc(c, f), CollectFunc(b, of[f]))
  }

  /** A statement and a way through it. */
  ghost predicate OnTheWay(of: Copies, b: Fn, c: Fn, scope: set<Var>, nm: Names, nm': Names, p: Stmt, s: Stmt) {
    && p in Ways(of, b.params, nm, scope, s) && Scoped(s, scope)
    && Looks(of, b, c, scope, nm, nm') && b.WalksStmt(s) && c.WalksStmt(p)
  }

  lemma SeqSplit(of: Copies, b: Fn, c: Fn, scope: set<Var>, nm: Names, nm': Names, p: Stmt, s1: Stmt, s2: Stmt)
    requires OnTheWay(of, b, c, scope, nm, nm', p, Seq(s1, s2))
    ensures
      || OnTheWay(of, b, c, scope, nm, nm', p, s1)
      || (&& p.Seq? && OnTheWay(of, b, c, scope, nm, nm', p.s1, s1)
          && OnTheWay(of, b, c, ScopeAfter(s1, scope), NamesAfter(b.params, nm, s1), NamesAfter(c.params, nm', p.s1),
                      p.s2, s2))
  {
    if p !in Ways(of, b.params, nm, scope, s1) {
      WaySame(of, b.params, nm, scope, nm', p.s1, s1);
    }
  }

  lemma {:induction false} NotesWithin(params: seq<Var>, nm': Names, nm: Names, callee': Seen, callee: Seen,
                                       args': seq<Expr>, args: seq<Expr>, seen': Seen, seen: Seen, k: nat)
    requires |args'| == |args| && Within(callee', callee) && Within(seen', seen)
    requires forall j :: 0 <= j < |args| ==> Resolve(params, nm', args'[j]) == Resolve(params, nm, args[j])
    ensures Within(NoteArgs(params, nm', callee', args', seen', k), NoteArgs(params, nm, callee, args, seen, k))
    decreases |callee| - k
  {
    if k < |callee| && k < |args| {
      var i := Resolve(params, nm, args[k]);
      NotesWithin(params, nm', nm, callee', callee, args', args, Note(seen', i, callee'[k]), Note(seen, i, callee[k]),
                  k + 1);
    }
  }

  lemma {:induction false} ExprWithin(of: Copies, b: Fn, c: Fn, scope: set<Var>, nm: Names, nm': Names, e': Expr,
                                      e: Expr, seen': Seen, seen: Seen)
    requires Looks(of, b, c, scope, nm, nm') && b.Walks(e) && c.Walks(e')
    requires CopyOf(of, e', e) && ExprScoped(e, scope) && Within(seen', seen)
    ensures Within(CollectExpr(c, nm', e', seen'), CollectExpr(b, nm, e, seen))
    decreases e
  {
    match e
    case PlacementNew(at) => ExprWithin(of, b, c, scope, nm, nm', e'.at, at, seen', seen);
    case Call(f, args) =>
      assert CalleeWithin(of, b.c, c.c, e'.callee);
      forall j | 0 <= j < |args|
        ensures Resolve(b.params, nm', e'.args[j]) == Resolve(b.params, nm, args[j])
      {
        ResolvesAlike(of, b.params, scope, nm', nm, e'.args[j], args[j]);
      }
      var callee', callee := CollectFunc(c.c, e'.callee), CollectFunc(b.c, f);
      NotesWithin(b.params, nm', nm, callee', callee, e'.args, args, seen', seen, 0);
      ArgsWithin(of, b, c, scope, nm, nm', e'.args, args, NoteArgs(b.params, nm', callee', e'.args, seen', 0),
                 NoteArgs(b.params, nm, callee, args, seen, 0));
    case IndirectCall(_, args) => ArgsWithin(of, b, c, scope, nm, nm', e'.args, args, seen', seen);
    case NewExpr(_, parts) => ArgsWithin(of, b, c, scope, nm, nm', e'.parts, parts, seen', seen);
    case OtherExpr(_, parts) => ArgsWithin(of, b, c, scope, nm, nm', e'.parts, parts, seen', seen);
    case _ =>
  }

  lemma {:induction false} ArgsWithin(of: Copies, b: Fn, c: Fn, scope: set<Var>, nm: Names, nm': Names,
                                      args': seq<Expr>, args: seq<Expr>, seen': Seen, seen: Seen)
    requires Looks(of, b, c, scope, nm, nm') && b.WalksAll(args) && c.WalksAll(args') && |args'| == |args|
    requires forall j :: 0 <= j < |args| ==> CopyOf(of, args'[j], args[j]) && ExprScoped(args[j], scope)
    requires Within(seen', seen)
    ensures Within(CollectArgs(c, nm', args', seen'), CollectArgs(b, nm, args, seen))
    decreases args
  {
    if args != [] {
      ExprWithin(of, b, c, scope, nm, nm', args'[0], args[0], seen', seen);
      ArgsWithin(of, b, c, scope, nm, nm', args'[1..], args[1..], CollectExpr(c, nm', args'[0], seen'),
                 CollectExpr(b, nm, args[0], seen));
    }
  }

  ghost predicate WithinOn(b: Fn, c: Fn, nm: Names, nm': Names, p: Stmt, s: Stmt, seen': Seen, seen: Seen) {
    && b.WalksStmt(s) && c.WalksStmt(p)
    && Within(CollectStmt(c, nm', p, seen'), CollectStmt(b, nm, s, seen))
  }

  lemma {:induction false} LeafWithin(of: Copies, b: Fn, c: Fn, scope: set<Var>, nm: Names, nm': Names, p: Stmt,
                                      s: Stmt, seen': Seen, seen: Seen)
    requires !s.If? && !s.Seq? && OnTheWay(of, b, c, scope, nm, nm', p, s) && Within(seen', seen)
    ensures WithinOn(b, c, nm, nm', p, s, seen', seen)
  {
    match s
    case Decl(x, Some(e)) => StoreWithin(of, b, c, scope, nm, nm', x, p.init.value, e, seen', seen);
    case Assign(x, e) => StoreWithin(of, b, c, scope, nm, nm', x, p.e, e, seen', seen);
    case Return(e) => ExprWithin(of, b, c, scope, nm, nm', p.e, e, seen', seen);
    case ExprStmt(e) => ExprWithin(of, b, c, scope, nm, nm', p.e, e, seen', seen);
    case Delete(e, arr) =>
      FreedWithin(of, b, c, scope, nm, nm', p.e, e, if arr then DeleteArr else DeleteOne, seen', seen);
    case Free(e) => FreedWithin(of, b, c, scope, nm, nm', p.e, e, FreeCall, seen', seen);
    case _ =>
  }

  lemma {:induction false} StoreWithin(of: Copies, b: Fn, c: Fn, scope: set<Var>, nm: Names, nm': Names, x: Var,
                                       e': Expr, e: Expr, seen': Seen, seen: Seen)
    requires Looks(of, b, c, scope, nm, nm') && b.Walks(e) && c.Walks(e')
    requires CopyOf(of, e', e) && ExprScoped(e, scope) && Within(seen', seen)
    ensures Within(CollectExpr(c, UpdateMap(c.params, nm', x, Some(e')), e', seen'),
                   CollectExpr(b, UpdateMap(b.params, nm, x, Some(e)), e, seen))
  {
    StoreSame(of, b.params, scope, nm', nm, x, Some(e'), Some(e));
    ExprWithin(of, b, c, scope, UpdateMap(b.params, nm, x, Some(e)), UpdateMap(c.params, nm', x, Some(e')), e', e,
               seen', seen);
  }

  lemma {:induction false} FreedWithin(of: Copies, b: Fn, c: Fn, scope: set<Var>, nm: Names, nm': Names, e': Expr,
                                       e: Expr, kind: DeallocType, seen': Seen, seen: Seen)
    requires Looks(of, b, c, scope, nm, nm') && b.Walks(e) && c.Walks(e')
    requires CopyOf(of, e', e) && ExprScoped(e, scope) && Within(seen', seen)
    ensures Within(CollectFreed(c, nm', e', kind, seen'), CollectFreed(b, nm, e, kind, seen))
  {
    ResolvesAlike(of, b.params, scope, nm', nm, e', e);
    var i := Resolve(b.params, nm, e);
    ExprWithin(of, b, c, scope, nm, nm', e', e, Note(seen', i, {kind}), Note(seen, i, {kind}));
  }

  /** A branch or a rest that the way leaves out, walked over last or first. */
  lemma EndsWithin(b: Fn, c: Fn, nm: Names, nm': Names, p: Stmt, s1: Stmt, s2: Stmt, seen': Seen, seen: Seen)
    requires WithinOn(b, c, nm, nm', p, s1, seen', seen) && b.WalksStmt(s2)
    ensures WithinOn(b, c, nm, nm', p, Seq(s1, s2), seen', seen)
    ensures WithinOn(b, c, nm, nm', p, If(s1, Some(s2)), seen', seen)
  {
    StmtAdds(b, NamesAfter(b.params, nm, s1), s2, CollectStmt(b, nm, s1, seen));
  }

  lemma StartsWithin(b: Fn, nm: Names, s: Stmt, seen': Seen, seen: Seen)
    requires b.WalksStmt(s) && Within(seen', seen)
    ensures Within(seen', CollectStmt(b, nm, s, seen))
  {
    StmtAdds(b, nm, s, seen);
  }

  lemma {:induction false} WayWithin(of: Copies, b: Fn, c: Fn, scope: set<Var>, nm: Names, nm': Names, p: Stmt,
                                     s: Stmt, seen': Seen, seen: Seen)
    requires OnTheWay(of, b, c, scope, nm, nm', p, s) && Within(seen', seen)
    ensures WithinOn(b, c, nm, nm', p, s, seen', seen)
    decreases s
  {
    match s
    case Seq(s1, s2) =>
      SeqSplit(of, b, c, scope, nm, nm', p, s1, s2);
      if OnTheWay(of, b, c, scope, nm, nm', p, s1) {
        WayWithin(of, b, c, scope, nm, nm', p, s1, seen', seen);
        EndsWithin(b, c, nm, nm', p, s1, s2, seen', seen);
      } else {
        WayWithin(of, b, c, scope, nm, nm', p.s1, s1, seen', seen);
        WayWithin(of, b, c, ScopeAfter(s1, scope), NamesAfter(b.params, nm, s1), NamesAfter(c.params, nm', p.s1), p.s2,
                  s2, CollectStmt(c, nm', p.s1, seen'), CollectStmt(b, nm, s1, seen));
      }
    case If(thn, els) =>
      if OnTheWay(of, b, c, scope, nm, nm', p, thn) {
        WayWithin(of, b, c, scope, nm, nm', p, thn, seen', seen);
        if els.Some? { EndsWithin(b, c, nm, nm', p, thn, els.value, seen', seen); }
      } else {
        StartsWithin(b, nm, thn, seen', seen);
        if els.Some? {
          WayWithin(of, b, c, scope, NamesAfter(b.params, nm, thn), nm', p, els.value, seen',
                    CollectStmt(b, nm, thn, seen));
        }
      }
    case _ => LeafWithin(of, b, c, scope, nm, nm', p, s, seen', seen);
  }

  /** What is collected on a way is collected over all. */
  lemma {:induction false} FuncWithin(of: Copies, b: Code, c: Code, f: FuncId)
    requires b.Acyclic() && c.Acyclic() && ProgramScoped(b.prog) && Unfolds(b, c, of) && f in c.prog
    ensures CalleeWithin(of, b, c, f)
    decreases c.rank[f]
  {
    var fn', fn := c.prog[f], b.prog[of[f]];
    assert FuncScoped(fn);
    var none := Nothing(|fn.params|);
    if fn.body.Some? {
      forall g | g in c.prog && c.rank[g] < c.rank[f]
        ensures CalleeWithin(of, b, c, g)
      {
        FuncWithin(of, b, c, g);
      }
      WayWithin(of, b.Inside(of[f]), c.Inside(f), ToSet(fn.params), START, START, fn'.body.value, fn.body.value, none,
                none);
    }
  }

  /** No free is missed: whatever branches are taken, and if the same function takes different branches
      each time it is called, a way of freeing is the mark or the mark is a contradiction. */
  lemma FreesAreMarked(b: Code, c: Code, of: Copies, world: World, f: FuncId, i: nat, d: DeallocType)
    requires b.Acyclic() && ProgramScoped(b.prog) && Unfolds(b, c, of) && c.Straight()
    requires f in c.prog && i < |c.prog[f].params| && c.prog[f].body.Some? && FuncsOk(true, c, world, f)
    requires d in KindsAt(RunFunc(c, world, f).frees, i)
    ensures GetDeallocType(b.prog, of[f]).1[i] in {d, Contradiction} - {NotFreed, Opaque}
  {
    FuncCovers(true, c, world, f);
    FuncWithin(of, b, c, f);
    MarkIsVerdict(b, of[f], i);
  }
}
