/** Recursion in the deallocation analysis: while a function is looked at, calls back to it count for
    nothing. */
module DeallocRecursion {
  import opened Wrappers
  import opened Ast
  import opened Dealloc

  /** The expression with the calls of `f` taken out; their arguments stay. */
  function Cut(f: FuncId, e: Expr): Expr {
    match e
    case PlacementNew(at) => PlacementNew(Cut(f, at))
    case Call(g, args) => if g == f then OtherExpr(0, CutAll(f, args)) else Call(g, CutAll(f, args))
    case IndirectCall(site, args) => IndirectCall(site, CutAll(f, args))
    case NewExpr(arr, parts) => NewExpr(arr, CutAll(f, parts))
    case OtherExpr(site, parts) => OtherExpr(site, CutAll(f, parts))
    case _ => e
  }

  function CutAll(f: FuncId, args: seq<Expr>): (r: seq<Expr>)
    ensures |r| == |args| && forall i :: 0 <= i < |args| ==> r[i] == Cut(f, args[i])
  {
    if args == [] then [] else [Cut(f, args[0])] + CutAll(f, args[1..])
  }

  function CutStmt(f: FuncId, s: Stmt): Stmt {
    match s
    case Decl(x, Some(e)) => Decl(x, Some(Cut(f, e)))
    case Assign(x, e) => Assign(x, Cut(f, e))
    case Return(e) => Return(Cut(f, e))
    case Delete(e, arr) => Delete(Cut(f, e), arr)
    case Free(e) => Free(Cut(f, e))
    case ExprStmt(e) => ExprStmt(Cut(f, e))
    case If(thn, els) => If(CutStmt(f, thn), if els.None? then None else Some(CutStmt(f, els.value)))
    case Seq(s1, s2) => Seq(CutStmt(f, s1), CutStmt(f, s2))
    case _ => s
  }

  /** The program in which `f` does not call itself; its callees still call it. */
  function Unrecursive(prog: Program, f: FuncId): Program
    requires f in prog
  {
    var fn := prog[f];
    prog[f := fn.(body := if fn.body.None? then None else Some(CutStmt(f, fn.body.value)))]
  }

  /** `f` is being looked at. */
  predicate Inside(f: FuncId, w: Walk) {
    f in w.visited && w.visited[f] == None
  }

  function CutIf(cut: bool, f: FuncId, e: Expr): Expr {
    if cut then Cut(f, e) else e
  }

  function CutAllIf(cut: bool, f: FuncId, args: seq<Expr>): seq<Expr> {
    if cut then CutAll(f, args) else args
  }

  lemma {:induction false} JoinCut(f: FuncId, cut: bool, params: seq<Var>, nm: Names, vec: Vector, args: seq<Expr>,
                                   vpp: Vector, k: nat)
    ensures JoinVectors(params, nm, vec, CutAllIf(cut, f, args), vpp, k) == JoinVectors(params, nm, vec, args, vpp, k)
    decreases |vec| - k
  {
    if k < |vec| && k < |args| {
      var vpp1 := if vec[k] == NotFreed then vpp else Mark(vpp, Resolve(params, nm, args[k]), vec[k]);
      JoinCut(f, cut, params, nm, vec, args, vpp1, k + 1);
    }
  }

  lemma {:induction false} CallCut(prog: Program, f: FuncId, cut: bool, params: seq<Var>, nm: Names, g: FuncId,
                                   args: seq<Expr>, w: Walk)
    requires f in prog && Inside(f, w)
    ensures var r := VisitCall(prog, params, nm, g, args, w);
            && r == VisitCall(Unrecursive(prog, f), params, nm, g, CutAllIf(cut, f, args), w)
            && Inside(f, r) && (g == f ==> r == w)
    decreases prog.Keys - w.visited.Keys, 0
  {
    if g in w.visited {
      if w.visited[g].Some? { JoinCut(f, cut, params, nm, w.visited[g].value, args, w.vpp, 0); }
    } else if g !in prog {
      var vec := seq(|args|, _ => Opaque);
      assert seq(|CutAllIf(cut, f, args)|, _ => Opaque) == vec;
      JoinCut(f, cut, params, nm, vec, args, w.vpp, 0);
    } else {
      assert g in prog.Keys - w.visited.Keys;
      FuncCut(prog, f, g, w.visited[g := None]);
      JoinCut(f, cut, params, nm, Analyze(prog, g, w.visited[g := None]).vpp, args, w.vpp, 0);
    }
  }

  lemma {:induction false} ExprCut(prog: Program, f: FuncId, cut: bool, params: seq<Var>, nm: Names, e: Expr, w: Walk)
    requires f in prog && Inside(f, w)
    ensures var r := VisitExpr(prog, params, nm, e, w);
            r == VisitExpr(Unrecursive(prog, f), params, nm, CutIf(cut, f, e), w) && Inside(f, r)
    decreases prog.Keys - w.visited.Keys, 1, e
  {
    match e
    case PlacementNew(at) => ExprCut(prog, f, cut, params, nm, at, w);
    case Call(g, args) =>
      CallCut(prog, f, cut, params, nm, g, args, w);
      ArgsCut(prog, f, cut, params, nm, args, VisitCall(prog, params, nm, g, args, w));
    case IndirectCall(_, args) => ArgsCut(prog, f, cut, params, nm, args, w);
    case NewExpr(_, parts) => ArgsCut(prog, f, cut, params, nm, parts, w);
    case OtherExpr(_, parts) => ArgsCut(prog, f, cut, params, nm, parts, w);
    case _ =>
  }

  lemma {:induction false} ArgsCut(prog: Program, f: FuncId, cut: bool, params: seq<Var>, nm: Names, args: seq<Expr>,
                                   w: Walk)
    requires f in prog && Inside(f, w)
    ensures var r := VisitArgs(prog, params, nm, args, w);
            r == VisitArgs(Unrecursive(prog, f), params, nm, CutAllIf(cut, f, args), w) && Inside(f, r)
    decreases prog.Keys - w.visited.Keys, 1, args
  {
    if args != [] {
      ExprCut(prog, f, cut, params, nm, args[0], w);
      ArgsCut(prog, f, cut, params, nm, args[1..], VisitExpr(prog, params, nm, args[0], w));
      assert CutAllIf(cut, f, args)[1..] == CutAllIf(cut, f, args[1..]);
    }
  }

  function CutStmtIf(cut: bool, f: FuncId, s: Stmt): Stmt {
    if cut then CutStmt(f, s) else s
  }

  lemma {:induction false} NamesCut(f: FuncId, params: seq<Var>, nm: Names, s: Stmt)
    ensures NamesAfter(params, nm, CutStmt(f, s)) == NamesAfter(params, nm, s)
    decreases s
  {
    match s
    case If(thn, els) =>
      NamesCut(f, params, nm, thn);
      if els.Some? { NamesCut(f, params, NamesAfter(params, nm, thn), els.value); }
    case Seq(s1, s2) =>
      NamesCut(f, params, nm, s1);
      NamesCut(f, params, NamesAfter(params, nm, s1), s2);
    case _ =>
  }

  lemma {:induction false} WalkCut(prog: Program, f: FuncId, cut: bool, params: seq<Var>, nm: Names, s: Stmt, w: Walk)
    requires f in prog && Inside(f, w)
    ensures var r := WalkStmt(prog, params, nm, s, w);
            r == WalkStmt(Unrecursive(prog, f), params, nm, CutStmtIf(cut, f, s), w) && Inside(f, r)
    decreases prog.Keys - w.visited.Keys, 2, s
  {
    match s
    case Decl(_, Some(e)) => ExprCut(prog, f, cut, params, NamesAfter(params, nm, s), e, w);
    case Assign(_, e) => ExprCut(prog, f, cut, params, NamesAfter(params, nm, s), e, w);
    case Return(e) => ExprCut(prog, f, cut, params, nm, e, w);
    case ExprStmt(e) => ExprCut(prog, f, cut, params, nm, e, w);
    case Delete(e, arr) =>
      ExprCut(prog, f, cut, params, nm, e,
              w.(vpp := Mark(w.vpp, Resolve(params, nm, e), if arr then DeleteArr else DeleteOne)));
    case Free(e) =>
      ExprCut(prog, f, cut, params, nm, e, w.(vpp := Mark(w.vpp, Resolve(params, nm, e), FreeCall)));
    case If(thn, els) =>
      WalkCut(prog, f, cut, params, nm, thn, w);
      NamesCut(f, params, nm, thn);
      if els.Some? {
        WalkCut(prog, f, cut, params, NamesAfter(params, nm, thn), els.value, WalkStmt(prog, params, nm, thn, w));
      }
    case Seq(s1, s2) =>
      WalkCut(prog, f, cut, params, nm, s1, w);
      NamesCut(f, params, nm, s1);
      WalkCut(prog, f, cut, params, NamesAfter(params, nm, s1), s2, WalkStmt(prog, params, nm, s1, w));
    case _ =>
  }

  /** Any other function, looked at from inside `f`. */
  lemma {:induction false} FuncCut(prog: Program, f: FuncId, g: FuncId, visited: Visited)
    requires f in prog && g in prog && g != f && g in visited && f in visited && visited[f] == None
    ensures var r := Analyze(prog, g, visited); r == Analyze(Unrecursive(prog, f), g, visited) && Inside(f, r)
    decreases prog.Keys - visited.Keys, 3
  {
    var fn := prog[g];
    if fn.body.Some? {
      WalkCut(prog, f, false, fn.params, START, fn.body.value, Walk(Unmarked(|fn.params|), visited));
    }
  }

  /** The marks of a recursive function are those of the function without its calls of itself, whether
      its callees call it back or not. */
  lemma RecursionCountsForNothing(prog: Program, f: FuncId)
    requires f in prog
    ensures GetDeallocType(prog, f) == GetDeallocType(Unrecursive(prog, f), f)
  {
    var fn := prog[f];
    if fn.body.Some? {
      WalkCut(prog, f, true, fn.params, START, fn.body.value, Walk(Unmarked(|fn.params|), map[f := None]));
    }
  }
}
