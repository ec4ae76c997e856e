/** Where branches lead the deallocation analysis astray: it walks over one branch after the other, and
    what it notes in the first is still in force in the second and behind. */
module DeallocBranchLimits {
  import opened Wrappers
  import opened Ast
  import opened Dealloc
  import opened DeallocRuns
  import opened DeallocBranches
  import opened DeallocLimits

  /** void f(T* p) { T* q = nullptr; if (c) q = p; else delete q; } */
  function ElseSees(p: Var, q: Var): Code {
    Ranked(map[0 := Func([p], Some(Seq(Decl(q, Some(NullLit)), If(Assign(q, Local(p)), Some(Delete(Local(q), false))))),
                         false, Unknown)])
  }

  /** The two ways through it. */
  function ElseSeesWay(p: Var, q: Var, taken: bool): Code {
    var branch := if taken then Assign(q, Local(p)) else Delete(Local(q), false);
    Ranked(map[0 := Func([p], Some(Seq(Decl(q, Some(NullLit)), branch)), false, Unknown)])
  }

  /** void f(T* p) { if (c) p = nullptr; delete p; } */
  function BranchStores(p: Var): Code {
    Ranked(map[0 := Func([p], Some(Seq(If(Assign(p, NullLit), None), Delete(Local(p), false))), false, Unknown)])
  }

  /** The way that leaves the branch out. */
  function BranchLeftOut(p: Var): Code {
    Ranked(map[0 := Func([p], Some(Seq(Skip, Delete(Local(p), false))), false, Unknown)])
  }

  /** The else branch is looked at with what the other branch stored: a mark for a free that no way
      through the function makes. */
  lemma ElseSeesThen(p: Var, q: Var, taken: bool)
    requires p != q
    ensures var b := ElseSees(p, q); var c := ElseSeesWay(p, q, taken);
            && b.Acyclic() && GetDeallocType(b.prog, 0).1 == [DeleteOne] && !AllClear(b, 0)
            && c.Straight() && KindsAt(RunFunc(c, EXACT, 0).frees, 0) == {}
  {
    ElseSeesMark(p, q);
    ElseSeesRun(p, q, taken);
  }

  lemma ElseSeesShape(p: Var, q: Var)
    ensures ElseSees(p, q).Acyclic()
  {
    var b, s1, thn, els := ElseSees(p, q), Decl(q, Some(NullLit)), Assign(q, Local(p)), Delete(Local(q), false);
    assert TakenIn(thn) == {} && TakenIn(els) == {} && b.StmtBelow(thn, 0) && b.StmtBelow(els, 0);
    assert StmtMarked(thn, {}) && StmtMarked(els, {});
    var s2 := If(thn, Some(els));
    assert TakenIn(s1) == {} && TakenIn(s2) == {} && StmtMarked(s1, {}) && StmtMarked(s2, {});
    assert b.StmtBelow(s1, 0) && b.StmtBelow(s2, 0);
    assert TakenIn(Seq(s1, s2)) == {} && StmtMarked(Seq(s1, s2), {});
    assert b.BodyBelow(Seq(s1, s2), 0);
  }

  lemma ElseSeesMark(p: Var, q: Var)
    requires p != q
    ensures var b := ElseSees(p, q);
            b.Acyclic() && GetDeallocType(b.prog, 0).1 == [DeleteOne] && !AllClear(b, 0)
  {
    var b, w := ElseSees(p, q), Walk([NotFreed], map[0 := None]);
    var s1, s2 := Decl(q, Some(NullLit)), If(Assign(q, Local(p)), Some(Delete(Local(q), false)));
    Index(p, q);
    var nm1 := NamesAfter([p], START, s1);
    var nm2 := NamesAfter([p], nm1, s2.thn);
    assert ResolveVar([p], nm1, q) == None && ResolveVar([p], nm2, q) == Some(0);
    assert WalkStmt(b.prog, [p], START, s1, w) == w;
    assert WalkStmt(b.prog, [p], nm1, s2.thn, w) == w;
    assert WalkStmt(b.prog, [p], nm2, s2.els.value, w).vpp == [DeleteOne];
    assert WalkStmt(b.prog, [p], nm1, s2, w).vpp == [DeleteOne];
    assert Analyze(b.prog, 0, map[0 := None]).vpp == WalkStmt(b.prog, [p], START, Seq(s1, s2), w).vpp;
    assert !Clear([p], nm1, ToSet([p]) + {q}, s2);
    ElseSeesShape(p, q);
  }

  lemma ElseSeesRun(p: Var, q: Var, taken: bool)
    requires p != q
    ensures var c := ElseSeesWay(p, q, taken); c.Straight() && KindsAt(RunFunc(c, EXACT, 0).frees, 0) == {}
  {
    var c, env := ElseSeesWay(p, q, taken), EntryEnv([p]);
    var s1, s2 := Decl(q, Some(NullLit)), if taken then Assign(q, Local(p)) else Delete(Local(q), false);
    BothBelow(c, s1, s2, 0);
    var r1 := ExecStmt(c.Inside(0), EXACT, s1, env);
    assert EvalExpr(c.Inside(0), EXACT, NullLit, env) == Effect(Foreign, []);
    assert r1.frees == [] && Lookup(r1.env, q) == Foreign;
    assert ExecStmt(c.Inside(0), EXACT, s2, r1.env).frees == [];
    BothRun(c.Inside(0), EXACT, s1, s2, env);
  }

  /** A parameter stored in a branch counts as overwritten behind it, although the branch may have been
      left out. */
  lemma BranchStoreIsMissed(p: Var)
    ensures var b := BranchStores(p); var c := BranchLeftOut(p);
            && b.Acyclic() && GetDeallocType(b.prog, 0).1 == [NotFreed]
            && c.Straight() && KindsAt(RunFunc(c, EXACT, 0).frees, 0) == {DeleteOne}
  {
    BranchStoreMark(p);
    BranchStoreRun(p);
  }

  lemma BranchStoreShape(p: Var)
    ensures BranchStores(p).Acyclic()
  {
    var b, thn, s2 := BranchStores(p), Assign(p, NullLit), Delete(Local(p), false);
    assert TakenIn(thn) == {} && b.StmtBelow(thn, 0) && StmtMarked(thn, {});
    var s1 := If(thn, None);
    assert TakenIn(s1) == {} && TakenIn(s2) == {} && StmtMarked(s1, {}) && StmtMarked(s2, {});
    assert b.StmtBelow(s1, 0) && b.StmtBelow(s2, 0);
    assert TakenIn(Seq(s1, s2)) == {} && StmtMarked(Seq(s1, s2), {});
    assert b.BodyBelow(Seq(s1, s2), 0);
  }

  lemma BranchStoreMark(p: Var)
    ensures var b := BranchStores(p); b.Acyclic() && GetDeallocType(b.prog, 0).1 == [NotFreed]
  {
    var b, w := BranchStores(p), Walk([NotFreed], map[0 := None]);
    var s1, s2 := If(Assign(p, NullLit), None), Delete(Local(p), false);
    Index(p, p);
    var nm1 := NamesAfter([p], START, s1);
    assert NamesAfter([p], START, s1.thn) == nm1 == START.(over := {0});
    assert WalkStmt(b.prog, [p], START, s1.thn, w) == w;
    assert WalkStmt(b.prog, [p], START, s1, w) == w;
    assert WalkStmt(b.prog, [p], nm1, s2, w) == w;
    assert Analyze(b.prog, 0, map[0 := None]).vpp == WalkStmt(b.prog, [p], START, Seq(s1, s2), w).vpp;
    BranchStoreShape(p);
  }

  lemma BranchStoreRun(p: Var)
    ensures var c := BranchLeftOut(p); c.Straight() && KindsAt(RunFunc(c, EXACT, 0).frees, 0) == {DeleteOne}
  {
    var c, env := BranchLeftOut(p), EntryEnv([p]);
    var s2 := Delete(Local(p), false);
    Index(p, p);
    BothBelow(c, Skip, s2, 0);
    assert EvalExpr(c.Inside(0), EXACT, Local(p), env) == Effect(Entry(0), []);
    assert ExecStmt(c.Inside(0), EXACT, s2, env).frees == [FreeEvent(0, DeleteOne)];
    BothRun(c.Inside(0), EXACT, Skip, s2, env);
  }
}
