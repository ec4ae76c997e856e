/** Verdicts and memo table: the deallocation analysis computes the verdicts of the sets of frees
    that an analysis without memo table would collect. */
module DeallocMemo {
  import opened Wrappers
  import opened Ast
  import opened Dealloc
  import opened DeallocRuns

  predicate AllBasic(seen: Seen) {
    forall i :: 0 <= i < |seen| ==> Basic(seen[i])
  }

  function Verdicts(seen: Seen): (r: Vector)
    ensures |r| == |seen|
    ensures forall i :: 0 <= i < |seen| ==> r[i] == Verdict(seen[i])
  {
    seq(|seen|, i requires 0 <= i < |seen| => Verdict(seen[i]))
  }

  /** A callee's entry stands for a set of frees; code without a body is spelled Opaque. */
  predicate Stands(dt: DeallocType, kinds: Kinds) {
    Basic(kinds) && (dt == Verdict(kinds) || (dt == Opaque && kinds == {Opaque}))
  }

  predicate AllStand(vec: Vector, seen: Seen) {
    |vec| == |seen| && forall i :: 0 <= i < |vec| ==> Stands(vec[i], seen[i])
  }

  /** Joining verdicts one after the other is the verdict on the union. */
  lemma CombineIsUnion(a: Kinds, b: Kinds, dt: DeallocType)
    requires Basic(a) && Stands(dt, b) && dt != NotFreed
    ensures Combine(Verdict(a), dt) == Verdict(a + b) && Basic(a + b)
  {
  }

  lemma MarkIsNote(seen: Seen, i: Option<nat>, kinds: Kinds, dt: DeallocType)
    requires AllBasic(seen) && Stands(dt, kinds)
    ensures AllBasic(Note(seen, i, kinds))
    ensures Verdicts(Note(seen, i, kinds)) == if dt == NotFreed then Verdicts(seen) else Mark(Verdicts(seen), i, dt)
  {
  }

  lemma {:induction false} JoinIsNote(params: seq<Var>, nm: Names, vec: Vector, callee: Seen, args: seq<Expr>,
                                      seen: Seen, k: nat)
    requires AllBasic(seen) && AllStand(vec, callee)
    ensures AllBasic(NoteArgs(params, nm, callee, args, seen, k))
    ensures JoinVectors(params, nm, vec, args, Verdicts(seen), k) ==
            Verdicts(NoteArgs(params, nm, callee, args, seen, k))
    decreases |vec| - k
  {
    if k < |vec| && k < |args| {
      var i := Resolve(params, nm, args[k]);
      MarkIsNote(seen, i, callee[k], vec[k]);
      JoinIsNote(params, nm, vec, callee, args, Note(seen, i, callee[k]), k + 1);
    }
  }

  // ----- the memo table -----

  ghost predicate Exact(c: Code, f: FuncId, entry: Option<Vector>)
    requires c.Acyclic()
  {
    f in c.prog ==> entry.Some? && AllStand(entry.value, CollectFunc(c, f))
  }

  ghost predicate VisitedExact(c: Code, visited: Visited, n: nat)
    requires c.Acyclic()
  {
    forall f :: f in visited && f in c.prog && c.rank[f] < n ==> Exact(c, f, visited[f])
  }

  ghost predicate Grows(c: Code, v0: Visited, v1: Visited)
    requires c.Acyclic()
  {
    v0.Keys <= v1.Keys && forall f :: f in v1 ==> if f in v0 then v1[f] == v0[f] else Exact(c, f, v1[f])
  }

  /** The memo table is right for all callees, and the marks are the verdicts of `seen`. */
  ghost predicate Ready(fn: Fn, w: Walk, seen: Seen)
    requires fn.c.Acyclic()
  {
    VisitedExact(fn.c, w.visited, fn.n) && AllBasic(seen) && w.vpp == Verdicts(seen)
  }

  /** The memoised walk ends in the verdicts of `seen`. */
  ghost predicate Matches(c: Code, w: Walk, w1: Walk, seen: Seen)
    requires c.Acyclic()
  {
    AllBasic(seen) && w1.vpp == Verdicts(seen) && Grows(c, w.visited, w1.visited)
  }

  lemma {:induction false} CallMatches(fn: Fn, nm: Names, f: FuncId, args: seq<Expr>, w: Walk, seen: Seen)
    requires fn.c.Acyclic() && f in fn.c.prog && fn.c.rank[f] < fn.n && Ready(fn, w, seen)
    ensures Matches(fn.c, w, VisitCall(fn.c.prog, fn.params, nm, f, args, w),
                    NoteArgs(fn.params, nm, CollectFunc(fn.c, f), args, seen, 0))
    decreases fn.n, 0
  {
    if f in w.visited {
      JoinIsNote(fn.params, nm, w.visited[f].value, CollectFunc(fn.c, f), args, seen, 0);
    } else {
      FuncMatches(fn.c, f, w.visited[f := None]);
      var r := Analyze(fn.c.prog, f, w.visited[f := None]);
      JoinIsNote(fn.params, nm, r.vpp, CollectFunc(fn.c, f), args, seen, 0);
    }
  }

  lemma {:induction false} ExprMatches(fn: Fn, nm: Names, e: Expr, w: Walk, seen: Seen)
    requires fn.Walks(e) && Ready(fn, w, seen)
    ensures Matches(fn.c, w, VisitExpr(fn.c.prog, fn.params, nm, e, w), CollectExpr(fn, nm, e, seen))
    decreases fn.n, 1, e
  {
    match e
    case PlacementNew(at) => ExprMatches(fn, nm, at, w, seen);
    case Call(f, args) =>
      CallMatches(fn, nm, f, args, w, seen);
      ArgsMatch(fn, nm, args, VisitCall(fn.c.prog, fn.params, nm, f, args, w),
                NoteArgs(fn.params, nm, CollectFunc(fn.c, f), args, seen, 0));
    case IndirectCall(_, args) => ArgsMatch(fn, nm, args, w, seen);
    case NewExpr(_, parts) => ArgsMatch(fn, nm, parts, w, seen);
    case OtherExpr(_, parts) => ArgsMatch(fn, nm, parts, w, seen);
    case _ =>
  }

  lemma {:induction false} ArgsMatch(fn: Fn, nm: Names, args: seq<Expr>, w: Walk, seen: Seen)
    requires fn.WalksAll(args) && Ready(fn, w, seen)
    ensures Matches(fn.c, w, VisitArgs(fn.c.prog, fn.params, nm, args, w), CollectArgs(fn, nm, args, seen))
    decreases fn.n, 1, args
  {
    if args != [] {
      ExprMatches(fn, nm, args[0], w, seen);
      ArgsMatch(fn, nm, args[1..], VisitExpr(fn.c.prog, fn.params, nm, args[0], w), CollectExpr(fn, nm, args[0], seen));
    }
  }

  lemma {:induction false} StmtMatches(fn: Fn, nm: Names, s: Stmt, w: Walk, seen: Seen)
    requires fn.WalksStmt(s) && Ready(fn, w, seen)
    ensures Matches(fn.c, w, WalkStmt(fn.c.prog, fn.params, nm, s, w), CollectStmt(fn, nm, s, seen))
    decreases fn.n, 3, s
  {
    match s
    case Decl(_, Some(e)) => ExprMatches(fn, NamesAfter(fn.params, nm, s), e, w, seen);
    case Assign(_, e) => ExprMatches(fn, NamesAfter(fn.params, nm, s), e, w, seen);
    case Return(e) => ExprMatches(fn, nm, e, w, seen);
    case ExprStmt(e) => ExprMatches(fn, nm, e, w, seen);
    case Delete(e, arr) => FreedMatches(fn, nm, e, if arr then DeleteArr else DeleteOne, w, seen);
    case Free(e) => FreedMatches(fn, nm, e, FreeCall, w, seen);
    case If(thn, els) =>
      StmtMatches(fn, nm, thn, w, seen);
      if els.Some? {
        StmtMatches(fn, NamesAfter(fn.params, nm, thn), els.value, WalkStmt(fn.c.prog, fn.params, nm, thn, w),
                    CollectStmt(fn, nm, thn, seen));
      }
    case Seq(s1, s2) =>
      StmtMatches(fn, nm, s1, w, seen);
      StmtMatches(fn, NamesAfter(fn.params, nm, s1), s2, WalkStmt(fn.c.prog, fn.params, nm, s1, w),
                  CollectStmt(fn, nm, s1, seen));
    case _ =>
  }

  lemma {:induction false} FreedMatches(fn: Fn, nm: Names, e: Expr, dt: DeallocType, w: Walk, seen: Seen)
    requires dt in {DeleteOne, DeleteArr, FreeCall} && fn.Walks(e) && Ready(fn, w, seen)
    ensures var marked := w.(vpp := Mark(w.vpp, Resolve(fn.params, nm, e), dt));
            Matches(fn.c, w, VisitExpr(fn.c.prog, fn.params, nm, e, marked), CollectFreed(fn, nm, e, dt, seen))
    decreases fn.n, 2
  {
    var i := Resolve(fn.params, nm, e);
    MarkIsNote(seen, i, {dt}, dt);
    ExprMatches(fn, nm, e, w.(vpp := Mark(w.vpp, i, dt)), Note(seen, i, {dt}));
  }

  /** On acyclic graphs the marks are the verdicts of the collected sets, and so is every new entry of
      the memo table. */
  lemma {:induction false} FuncMatches(c: Code, f: FuncId, visited: Visited)
    requires c.Acyclic() && f in c.prog && f in visited
    requires VisitedExact(c, visited, c.rank[f])
    ensures var r := Analyze(c.prog, f, visited);
            && AllStand(r.vpp, CollectFunc(c, f))
            && (c.prog[f].body.Some? ==> r.vpp == Verdicts(CollectFunc(c, f)))
            && r.visited.Keys >= visited.Keys && r.visited[f] == Some(r.vpp)
            && forall g :: g in r.visited && g != f ==>
                 if g in visited then r.visited[g] == visited[g] else Exact(c, g, r.visited[g])
    decreases c.rank[f], 4
  {
    var k := |c.prog[f].params|;
    if c.prog[f].body.Some? {
      var empty: Seen := seq(k, _ => {});
      assert Unmarked(k) == Verdicts(empty);
      StmtMatches(c.Inside(f), START, c.prog[f].body.value, Walk(Unmarked(k), visited), empty);
    }
  }
}
