/** Where the deallocation analysis goes wrong: one program for each way in which its text can be
    untidy, and one that is tidy although it looks alike. */
module DeallocLimits {
  import opened Wrappers
  import opened Ast
  import opened Dealloc
  import opened DeallocRuns
  import opened DeallocMemo
  import opened DeallocCorrect

  /** Nothing is found in memory or freed through an address, and moved pointers do not count. */
  const EXACT: World := World(map[], map[], {}, true)

  /** A program in which function 1 may call function 0. */
  function Ranked(prog: Program): Code {
    Code(prog, map[0 := 0, 1 := 1])
  }

  /** void f(T* p) { p += 1; delete p; } */
  function Moved(p: Var): Code {
    Ranked(map[0 := Func([p], Some(Seq(CompoundAssign(p), Delete(Local(p), false))), false, Unknown)])
  }

  /** T* g(T* p) { delete p; return nullptr; }   void f(T* p) { T* q = p; q = g(q); } */
  function SelfAssigned(p: Var, q: Var): Code {
    Ranked(map[0 := Func([p], Some(Seq(Delete(Local(p), false), Return(NullLit))), true, Unknown),
               1 := Func([p], Some(Seq(Decl(q, Some(Local(p))), Assign(q, Call(0, [Local(q)])))), false, Unknown)])
  }

  /** T* id(T* p) { return p; }   void f(T* p) { delete id(p); } */
  function HandedBack(p: Var): Code {
    Ranked(map[0 := Func([p], Some(Return(Local(p))), true, Unknown),
               1 := Func([p], Some(Delete(Call(0, [Local(p)]), false)), false, Unknown)])
  }

  /** void f(T* p) { delete new (p) T; } */
  function Placed(p: Var): Code {
    Ranked(map[0 := Func([p], Some(Delete(PlacementNew(Local(p)), false)), false, Unknown)])
  }

  /** void f(T* p, T* q) { q = p; delete q; } */
  function Reassigned(p: Var, q: Var): Code {
    Ranked(map[0 := Func([p, q], Some(Seq(Assign(q, Local(p)), Delete(Local(q), false))), false, Unknown)])
  }

  /** void f(T* p, void (*fp)(T*)) { fp(p); } */
  function Callback(p: Var, fp: Var): Code {
    Ranked(map[0 := Func([p, fp], Some(ExprStmt(IndirectCall(0, [Local(p)]))), false, Unknown)])
  }

  /** void take(T** q);   void f(T* p) { take(&p); delete p; } */
  function Taken(p: Var): Code {
    Ranked(map[0 := Func([p], None, false, Unknown),
               1 := Func([p], Some(Seq(ExprStmt(Call(0, [AddressOf(p, 0)])), Delete(Exposed(p, 1), false))),
                         false, Unknown)])
  }

  /** void f(T* p) { T** q = &p; delete *q; } */
  function ThroughPointer(p: Var, q: Var): Code {
    Ranked(map[0 := Func([p], Some(Seq(Decl(q, Some(AddressOf(p, 0))), Delete(OtherExpr(1, []), false))),
                         false, Unknown)])
  }

  /** T* make(T* p) { T* q = new T; return q; }   void f(T* p) { T* q = make(p); delete p; } */
  function Making(p: Var, q: Var): Code {
    Ranked(map[0 := Func([p], Some(Seq(Decl(q, Some(NewExpr(false, []))), Return(Local(q)))), true, Unknown),
               1 := Func([p], Some(Seq(Decl(q, Some(Call(0, [Local(p)]))), Delete(Local(p), false))), false, Unknown)])
  }

  // ----- steps that several programs share -----

  lemma Index(p: Var, q: Var)
    ensures IndexOf([p], p) == Some(0) && Unmarked(1) == [NotFreed]
    ensures p != q ==> IndexOf([p], q) == None && IndexOf([p, q], p) == Some(0) && IndexOf([p, q], q) == Some(1)
  {
    assert [p, q][1..] == [q] && [p][1..] == [];
    assert IndexOf([q], q) == Some(0) && IndexOf([], q) == None;
  }

  /** The run of a call with one argument. */
  lemma OneArgument(fn: Fn, world: World, f: FuncId, e: Expr, env: Env)
    requires fn.Has(Call(f, [e])) && fn.Has(e) && EvalExpr(fn, world, e, env).frees == []
    ensures var a := EvalExpr(fn, world, Call(f, [e]), env); var r := RunFunc(fn.c, world, f);
            var v := EvalExpr(fn, world, e, env).v;
            a == Effect(ThroughArgs(r.v, [v]), MapFrees(r.frees, [v]))
  {
    var args := [e];
    assert args[1..] == [];
    var rest := EvalArgs(fn, world, args[1..], env);
    assert rest == ArgsEffect([], []);
    var first := EvalExpr(fn, world, args[0], env);
    var a := EvalArgs(fn, world, args, env);
    assert a == ArgsEffect([first.v] + rest.vs, first.frees + rest.frees);
    var r := RunFunc(fn.c, world, f);
    assert a.vs == [first.v];
    assert [] + MapFrees(r.frees, a.vs) == MapFrees(r.frees, a.vs);
  }

  /** The analysis of such a call: no mark if the argument resolves to nothing or is not freed. */
  lemma OneArgumentUnmarked(prog: Program, p: Var, nm: Names, f: FuncId, e: Expr, w: Walk)
    requires f in prog && f !in w.visited && |prog[f].params| == 1 && w.vpp == [NotFreed]
    requires e.Local? || e.AddressOf?
    requires Resolve([p], nm, e) == None || Analyze(prog, f, w.visited[f := None]).vpp == [NotFreed]
    ensures VisitExpr(prog, [p], nm, Call(f, [e]), w).vpp == [NotFreed]
  {
    var args, vec := [e], Analyze(prog, f, w.visited[f := None]).vpp;
    assert JoinVectors([p], nm, vec, args, [NotFreed], 1) == [NotFreed];
    assert JoinVectors([p], nm, vec, args, [NotFreed], 0) == [NotFreed];
    var w1 := VisitCall(prog, [p], nm, f, args, w);
    assert args[1..] == [];
    assert VisitExpr(prog, [p], nm, args[0], w1) == w1;
    assert VisitArgs(prog, [p], nm, args[1..], w1) == w1;
    assert VisitArgs(prog, [p], nm, args, w1) == w1;
  }

  lemma NoneTaken(f: FuncId, x: Var)
    ensures TakenBy(Call(f, [Local(x)])) == {} && TakenBy(IndirectCall(f, [Local(x)])) == {}
  {
    assert [Local(x)][1..] == [] && TakenByAll([]) == {} && TakenBy(Local(x)) == {};
    assert TakenByAll([Local(x)]) == {};
  }

  /** The frees of two statements, one after the other. */
  lemma BothRun(fn: Fn, world: World, s1: Stmt, s2: Stmt, env: Env)
    requires fn.HasStmt(Seq(s1, s2))
    ensures var r1 := ExecStmt(fn, world, s1, env);
            ExecStmt(fn, world, Seq(s1, s2), env).frees == r1.frees + ExecStmt(fn, world, s2, r1.env).frees
  {
  }

  /** A body of two statements. */
  lemma BothBelow(c: Code, s1: Stmt, s2: Stmt, n: nat)
    requires NoReturn(s1) && c.StmtBelow(s1, n) && c.StmtBelow(s2, n)
    requires StmtMarked(s1, TakenIn(s1) + TakenIn(s2)) && StmtMarked(s2, TakenIn(s1) + TakenIn(s2))
    ensures c.BodyBelow(Seq(s1, s2), n)
  {
    assert TakenIn(Seq(s1, s2)) == TakenIn(s1) + TakenIn(s2);
  }

  // ----- moved -----

  /** A pointer moved off its entry value is marked although the entry value is not freed. */
  lemma MovedPointerIsMarked(p: Var)
    ensures var c := Moved(p);
            c.Straight() && GetDeallocType(c.prog, 0).1 == [DeleteOne] && KindsAt(RunFunc(c, EXACT, 0).frees, 0) == {}
  {
    MovedMark(p);
    var c, env := Moved(p), EntryEnv([p]);
    var s1, s2 := CompoundAssign(p), Delete(Local(p), false);
    BothBelow(c, s1, s2, 0);
    var r1 := ExecStmt(c.Inside(0), EXACT, s1, env);
    assert r1.frees == [] && Lookup(r1.env, p) == Foreign;
    assert ExecStmt(c.Inside(0), EXACT, s2, r1.env).frees == [];
    BothRun(c.Inside(0), EXACT, s1, s2, env);
  }

  lemma MovedMark(p: Var)
    ensures GetDeallocType(Moved(p).prog, 0).1 == [DeleteOne]
  {
    var prog, w := Moved(p).prog, Walk([NotFreed], map[0 := None]);
    var s1, s2 := CompoundAssign(p), Delete(Local(p), false);
    Index(p, p);
    assert WalkStmt(prog, [p], START, s1, w) == w;
    assert WalkStmt(prog, [p], START, s2, w).vpp == [DeleteOne];
    assert Analyze(prog, 0, map[0 := None]).vpp == WalkStmt(prog, [p], START, Seq(s1, s2), w).vpp;
  }

  // ----- self-assigned -----

  /** The assignment is recorded before the call in its right side is looked at, so the callee's
      free of the old value is missed. */
  lemma SelfAssignedCallIsMissed(p: Var, q: Var)
    requires p != q
    ensures var c := SelfAssigned(p, q);
            && c.Straight() && GetDeallocType(c.prog, 1).1 == [NotFreed]
            && KindsAt(RunFunc(c, EXACT, 1).frees, 0) == {DeleteOne}
  {
    SelfAssignedMark(p, q);
    var c, env := SelfAssigned(p, q), EntryEnv([p]);
    var s1, s2 := Decl(q, Some(Local(p))), Assign(q, Call(0, [Local(q)]));
    Index(p, q);
    SelfAssignedStraight(p, q);
    var fn := c.Inside(1);
    assert EvalExpr(fn, EXACT, Local(p), env) == Effect(Entry(0), []);
    var r1 := ExecStmt(fn, EXACT, s1, env);
    assert r1 == Run(env[q := Entry(0)], [], Foreign);
    SelfAssignedSecond(p, q, r1.env);
    BothRun(fn, EXACT, s1, s2, env);
  }

  lemma SelfAssignedMark(p: Var, q: Var)
    requires p != q
    ensures GetDeallocType(SelfAssigned(p, q).prog, 1).1 == [NotFreed]
  {
    var prog := SelfAssigned(p, q).prog;
    var s1, s2 := Decl(q, Some(Local(p))), Assign(q, Call(0, [Local(q)]));
    var w := Walk([NotFreed], map[1 := None]);
    Index(p, q);
    var nm1 := NamesAfter([p], START, s1);
    OneArgumentUnmarked(prog, p, NamesAfter([p], nm1, s2), 0, Local(q), w);
    assert WalkStmt(prog, [p], START, s1, w) == w;
    assert WalkStmt(prog, [p], nm1, s2, w).vpp == [NotFreed];
    assert Analyze(prog, 1, map[1 := None]).vpp == WalkStmt(prog, [p], START, Seq(s1, s2), w).vpp;
  }

  lemma SelfAssignedStraight(p: Var, q: Var)
    ensures SelfAssigned(p, q).Straight()
  {
    var c := SelfAssigned(p, q);
    assert c.ExprBelow(Call(0, [Local(q)]), 1);
    NoneTaken(0, q);
    BothBelow(c, Decl(q, Some(Local(p))), Assign(q, Call(0, [Local(q)])), 1);
    BothBelow(c, Delete(Local(p), false), Return(NullLit), 0);
  }

  lemma SelfAssignedCallee(p: Var, q: Var)
    requires SelfAssigned(p, q).Straight()
    ensures MapFrees(RunFunc(SelfAssigned(p, q), EXACT, 0).frees, [Entry(0)]) == [FreeEvent(0, DeleteOne)]
  {
    var c, env := SelfAssigned(p, q), EntryEnv([p]);
    var t1, t2 := Delete(Local(p), false), Return(NullLit);
    Index(p, q);
    var r1 := ExecStmt(c.Inside(0), EXACT, t1, env);
    assert EvalExpr(c.Inside(0), EXACT, Local(p), env) == Effect(Entry(0), []);
    assert r1.frees == [FreeEvent(0, DeleteOne)];
    assert ExecStmt(c.Inside(0), EXACT, t2, r1.env).frees == [];
    BothRun(c.Inside(0), EXACT, t1, t2, env);
    var g := RunFunc(c, EXACT, 0);
    assert g.frees == [FreeEvent(0, DeleteOne)];
    assert MapFrees(g.frees[1..], [Entry(0)]) == [];
  }

  lemma SelfAssignedSecond(p: Var, q: Var, env: Env)
    requires SelfAssigned(p, q).Straight() && Lookup(env, q) == Entry(0)
    ensures var fn := SelfAssigned(p, q).Inside(1); var s2 := Assign(q, Call(0, [Local(q)]));
            fn.HasStmt(s2) && ExecStmt(fn, EXACT, s2, env).frees == [FreeEvent(0, DeleteOne)]
  {
    var fn := SelfAssigned(p, q).Inside(1);
    SelfAssignedCallee(p, q);
    assert fn.Has(Call(0, [Local(q)])) && fn.Has(Local(q));
    assert EvalExpr(fn, EXACT, Local(q), env) == Effect(Entry(0), []);
    OneArgument(fn, EXACT, 0, Local(q), env);
  }

  // ----- handed back -----

  /** What a callee hands back is not followed. */
  lemma HandedBackIsMissed(p: Var)
    ensures var c := HandedBack(p);
            && c.Straight() && GetDeallocType(c.prog, 1).1 == [NotFreed]
            && KindsAt(RunFunc(c, EXACT, 1).frees, 0) == {DeleteOne}
  {
    HandedBackMark(p);
    var c, env := HandedBack(p), EntryEnv([p]);
    Index(p, p);
    HandedBackStraight(p);
    assert EvalExpr(c.Inside(0), EXACT, Local(p), env) == Effect(Entry(0), []);
    assert ExecStmt(c.Inside(0), EXACT, Return(Local(p)), env) == Run(env, [], Entry(0));
    assert EvalExpr(c.Inside(1), EXACT, Local(p), env) == Effect(Entry(0), []);
    OneArgument(c.Inside(1), EXACT, 0, Local(p), env);
    assert RunFunc(c, EXACT, 1).frees == [FreeEvent(0, DeleteOne)];
  }

  lemma HandedBackMark(p: Var)
    ensures GetDeallocType(HandedBack(p).prog, 1).1 == [NotFreed]
  {
    var prog, w := HandedBack(p).prog, Walk([NotFreed], map[1 := None][0 := None]);
    var e, w1 := Call(0, [Local(p)]), Walk([NotFreed], map[1 := None]);
    Index(p, p);
    assert WalkStmt(prog, [p], START, Return(Local(p)), w) == w;
    assert Analyze(prog, 0, map[1 := None][0 := None]).vpp == [NotFreed];
    OneArgumentUnmarked(prog, p, START, 0, Local(p), w1);
    assert WalkStmt(prog, [p], START, Delete(e, false), w1) == VisitExpr(prog, [p], START, e, w1);
  }

  lemma HandedBackStraight(p: Var)
    ensures HandedBack(p).Straight()
  {
    var c, e := HandedBack(p), Call(0, [Local(p)]);
    NoneTaken(0, p);
    assert c.ExprBelow(e, 1) && ExprMarked(e, TakenBy(e));
    assert c.BodyBelow(Delete(e, false), 1);
    assert c.BodyBelow(Return(Local(p)), 0);
  }

  // ----- placed, reassigned -----

  /** Neither is what placement new gives back. */
  lemma PlacedIsMissed(p: Var)
    ensures var c := Placed(p);
            && c.Straight() && GetDeallocType(c.prog, 0).1 == [NotFreed]
            && KindsAt(RunFunc(c, EXACT, 0).frees, 0) == {DeleteOne}
  {
    var c, w, e := Placed(p), Walk([NotFreed], map[0 := None]), PlacementNew(Local(p));
    Index(p, p);
    assert VisitExpr(c.prog, [p], START, e, w) == w;
    assert WalkStmt(c.prog, [p], START, Delete(e, false), w) == w;
    assert TakenBy(e) == TakenBy(Local(p));
    assert c.ExprBelow(e, 0) && ExprMarked(e, TakenBy(e));
    assert c.BodyBelow(Delete(e, false), 0);
    assert EvalExpr(c.Inside(0), EXACT, e, EntryEnv([p])) == Effect(Entry(0), []);
    assert RunFunc(c, EXACT, 0).frees == [FreeEvent(0, DeleteOne)];
  }

  /** Nor a parameter that was given the entry value of another. */
  lemma ReassignedIsMissed(p: Var, q: Var)
    requires p != q
    ensures var c := Reassigned(p, q);
            && c.Straight() && GetDeallocType(c.prog, 0).1 == [NotFreed, NotFreed]
            && KindsAt(RunFunc(c, EXACT, 0).frees, 0) == {DeleteOne}
  {
    ReassignedMark(p, q);
    ReassignedFree(p, q);
  }

  lemma ReassignedMark(p: Var, q: Var)
    requires p != q
    ensures GetDeallocType(Reassigned(p, q).prog, 0).1 == [NotFreed, NotFreed]
  {
    var prog, params := Reassigned(p, q).prog, [p, q];
    var s1, s2, w := Assign(q, Local(p)), Delete(Local(q), false), Walk(Unmarked(2), map[0 := None]);
    Index(p, q);
    var nm := NamesAfter(params, START, s1);
    assert Resolve(params, nm, Local(q)) == None;
    assert WalkStmt(prog, params, START, s1, w) == w;
    assert WalkStmt(prog, params, nm, s2, w) == w;
    assert Analyze(prog, 0, map[0 := None]).vpp == WalkStmt(prog, params, START, Seq(s1, s2), w).vpp;
    assert w.vpp == [NotFreed, NotFreed];
  }

  lemma ReassignedFree(p: Var, q: Var)
    requires p != q
    ensures var c := Reassigned(p, q); c.Straight() && KindsAt(RunFunc(c, EXACT, 0).frees, 0) == {DeleteOne}
  {
    var c, env := Reassigned(p, q), EntryEnv([p, q]);
    var s1, s2 := Assign(q, Local(p)), Delete(Local(q), false);
    Index(p, q);
    BothBelow(c, s1, s2, 0);
    var fn := c.Inside(0);
    assert EvalExpr(fn, EXACT, Local(p), env) == Effect(Entry(0), []);
    var r1 := ExecStmt(fn, EXACT, s1, env);
    assert r1 == Run(env[q := Entry(0)], [], Foreign);
    assert ExecStmt(fn, EXACT, s2, r1.env).frees == [FreeEvent(0, DeleteOne)];
    assert RunFunc(c, EXACT, 0).frees == [FreeEvent(0, DeleteOne)];
  }

  // ----- unseen code -----

  /** What goes to a function pointer is not marked, although the same to a function without a body is. */
  lemma CallbackIsMissed(p: Var, fp: Var, world: World)
    requires p != fp
    ensures var c := Callback(p, fp);
            && c.Straight() && GetDeallocType(c.prog, 0).1 == [NotFreed, NotFreed]
            && KindsAt(RunFunc(c, world, 0).frees, 0) == {Opaque} && !FuncsOk(true, c, world, 0)
  {
    CallbackMark(p, fp);
    var c, e := Callback(p, fp), IndirectCall(0, [Local(p)]);
    NoneTaken(0, p);
    assert c.ExprBelow(e, 0) && ExprMarked(e, TakenBy(e));
    assert c.BodyBelow(ExprStmt(e), 0);
    CallbackRun(p, fp, world);
    CallbackUntidy(p, fp, world);
  }

  lemma CallbackMark(p: Var, fp: Var)
    ensures GetDeallocType(Callback(p, fp).prog, 0).1 == [NotFreed, NotFreed]
  {
    var prog, params, w := Callback(p, fp).prog, [p, fp], Walk(Unmarked(2), map[0 := None]);
    var args := [Local(p)];
    assert args[1..] == [];
    assert VisitExpr(prog, params, START, args[0], w) == w;
    assert VisitArgs(prog, params, START, args[1..], w) == w;
    assert VisitArgs(prog, params, START, args, w) == w;
    assert VisitExpr(prog, params, START, IndirectCall(0, args), w) == w;
    assert WalkStmt(prog, params, START, ExprStmt(IndirectCall(0, args)), w) == w;
    assert w.vpp == [NotFreed, NotFreed];
  }

  lemma CallbackRun(p: Var, fp: Var, world: World)
    requires p != fp && Callback(p, fp).Straight()
    ensures RunFunc(Callback(p, fp), world, 0).frees == [FreeEvent(0, Opaque)]
  {
    var fn, env, args := Callback(p, fp).Inside(0), EntryEnv([p, fp]), [Local(p)];
    Index(p, fp);
    assert args[1..] == [] && EvalExpr(fn, world, args[0], env) == Effect(Entry(0), []);
    assert EvalArgs(fn, world, args[1..], env) == ArgsEffect([], []);
    var vs := EvalArgs(fn, world, args, env).vs;
    assert vs == [Entry(0)] && vs[1..] == [];
    assert HandedOver(vs) == [FreeEvent(0, Opaque)] + HandedOver(vs[1..]);
    assert EvalExpr(fn, world, IndirectCall(0, args), env).frees == [FreeEvent(0, Opaque)];
  }

  lemma CallbackUntidy(p: Var, fp: Var, world: World)
    requires p != fp && Callback(p, fp).Straight()
    ensures !FuncsOk(true, Callback(p, fp), world, 0)
  {
    var fn, args := Callback(p, fp).Inside(0), [Local(p)];
    Index(p, fp);
    assert fn.Has(args[0]) && Deep(fn, world, START, args[0]) == Some(0);
    assert !TidyExpr(fn, world, START, START, IndirectCall(0, args));
  }

  // ----- through an address -----

  /** A parameter that was changed through its address is marked although its entry value, replaced by
      something else, is not freed here. */
  lemma TakenIsMarked(p: Var)
    ensures var c := Taken(p); var world := EXACT.(found := map[1 := None]);
            && c.Straight() && GetDeallocType(c.prog, 1).1 == [DeleteOne]
            && KindsAt(RunFunc(c, world, 1).frees, 0) == {} && !TextCalm(c, 1)
  {
    TakenMark(p);
    var c, world, env := Taken(p), EXACT.(found := map[1 := None]), EntryEnv([p]);
    var s1, s2 := ExprStmt(Call(0, [AddressOf(p, 0)])), Delete(Exposed(p, 1), false);
    TakenStraight(p);
    TakenCall(p, world, env);
    var fn := c.Inside(1);
    assert EvalExpr(fn, world, Exposed(p, 1), env) == Effect(Foreign, []);
    assert ExecStmt(fn, world, s2, env).frees == [];
    BothRun(fn, world, s1, s2, env);
  }

  lemma TakenMark(p: Var)
    ensures GetDeallocType(Taken(p).prog, 1).1 == [DeleteOne]
  {
    var prog, w := Taken(p).prog, Walk([NotFreed], map[1 := None]);
    var s1, s2 := ExprStmt(Call(0, [AddressOf(p, 0)])), Delete(Exposed(p, 1), false);
    Index(p, p);
    OneArgumentUnmarked(prog, p, START, 0, AddressOf(p, 0), w);
    var w1 := WalkStmt(prog, [p], START, s1, w);
    assert w1.vpp == [NotFreed];
    assert WalkStmt(prog, [p], START, s2, w1).vpp == [DeleteOne];
    assert Analyze(prog, 1, map[1 := None]).vpp == WalkStmt(prog, [p], START, Seq(s1, s2), w).vpp;
  }

  lemma TakenStraight(p: Var)
    ensures Taken(p).Straight() && !TextCalm(Taken(p), 1)
  {
    var c, e := Taken(p), Call(0, [AddressOf(p, 0)]);
    var s1, s2 := ExprStmt(e), Delete(Exposed(p, 1), false);
    Index(p, p);
    assert c.ExprBelow(e, 1) && ExprMarked(e, TakenIn(s1) + TakenIn(s2));
    BothBelow(c, s1, s2, 1);
    assert !Steady(c.Inside(1), None, START, s2.e);
    assert !CalmStmt(c.Inside(1), None, START, s2);
    assert NamesAfter([p], START, s1) == START;
  }

  lemma {:induction false} NothingThrough(frees: seq<FreeEvent>)
    ensures MapFrees(frees, [Foreign]) == []
  {
    if frees != [] { NothingThrough(frees[1..]); }
  }

  lemma TakenCall(p: Var, world: World, env: Env)
    requires Taken(p).Straight() && world.through == {}
    ensures var fn, s1 := Taken(p).Inside(1), ExprStmt(Call(0, [AddressOf(p, 0)]));
            fn.HasStmt(s1) && ExecStmt(fn, world, s1, env) == Run(env, [], Foreign)
  {
    var fn, e := Taken(p).Inside(1), AddressOf(p, 0);
    assert fn.Has(Call(0, [e])) && fn.Has(e);
    assert EvalExpr(fn, world, e, env) == Effect(Foreign, []);
    OneArgument(fn, world, 0, e, env);
    NothingThrough(RunFunc(fn.c, world, 0).frees);
  }

  /** A free through a pointer to the parameter is missed. */
  lemma ThroughPointerIsMissed(p: Var, q: Var)
    requires p != q
    ensures var c := ThroughPointer(p, q); var world := EXACT.(found := map[1 := Some(0)]);
            && c.Straight() && GetDeallocType(c.prog, 0).1 == [NotFreed]
            && KindsAt(RunFunc(c, world, 0).frees, 0) == {DeleteOne} && !FuncsOk(true, c, world, 0)
  {
    ThroughPointerMark(p, q);
    var c, world := ThroughPointer(p, q), EXACT.(found := map[1 := Some(0)]);
    var s1, s2 := Decl(q, Some(AddressOf(p, 0))), Delete(OtherExpr(1, []), false);
    BothBelow(c, s1, s2, 0);
    ThroughPointerRun(p, q);
    assert !TidyStmt(c.Inside(0), world, NamesAfter([p], START, s1), s2);
    assert !TidyStmt(c.Inside(0), world, START, Seq(s1, s2));
  }

  lemma ThroughPointerMark(p: Var, q: Var)
    requires p != q
    ensures GetDeallocType(ThroughPointer(p, q).prog, 0).1 == [NotFreed]
  {
    var prog, w := ThroughPointer(p, q).prog, Walk([NotFreed], map[0 := None]);
    var s1, s2 := Decl(q, Some(AddressOf(p, 0))), Delete(OtherExpr(1, []), false);
    Index(p, q);
    assert WalkStmt(prog, [p], START, s1, w) == w;
    var nm := NamesAfter([p], START, s1);
    assert VisitExpr(prog, [p], nm, OtherExpr(1, []), w) == w;
    assert WalkStmt(prog, [p], nm, s2, w) == w;
    assert Analyze(prog, 0, map[0 := None]).vpp == WalkStmt(prog, [p], START, Seq(s1, s2), w).vpp;
  }

  lemma ThroughPointerRun(p: Var, q: Var)
    requires ThroughPointer(p, q).Straight()
    ensures var c := ThroughPointer(p, q); var world := EXACT.(found := map[1 := Some(0)]);
            RunFunc(c, world, 0).frees == [FreeEvent(0, DeleteOne)]
  {
    var fn, world, env := ThroughPointer(p, q).Inside(0), EXACT.(found := map[1 := Some(0)]), EntryEnv([p]);
    var s1, s2 := Decl(q, Some(AddressOf(p, 0))), Delete(OtherExpr(1, []), false);
    assert EvalExpr(fn, world, AddressOf(p, 0), env) == Effect(Foreign, []);
    var r1 := ExecStmt(fn, world, s1, env);
    assert EvalArgs(fn, world, [], r1.env) == ArgsEffect([], []);
    assert EvalExpr(fn, world, OtherExpr(1, []), r1.env) == Effect(Entry(0), []);
    assert ExecStmt(fn, world, s2, r1.env).frees == [FreeEvent(0, DeleteOne)];
    BothRun(fn, world, s1, s2, env);
  }

  // ----- tidy after all -----

  /** A callee that returns a local of its own is no obstacle. */
  lemma MakingIsTidy(p: Var, q: Var, world: World)
    requires p != q
    ensures Making(p, q).Straight() && FuncsOk(true, Making(p, q), world, 1)
  {
    var c := Making(p, q);
    MakingStraight(p, q);
    MakeIsTidy(p, q, world);
    MakerIsTidy(p, q, world);
  }

  lemma MakeIsTidy(p: Var, q: Var, world: World)
    requires p != q && Making(p, q).Straight()
    ensures TidyStmt(Making(p, q).Inside(0), world, START, Seq(Decl(q, Some(NewExpr(false, []))), Return(Local(q))))
  {
    var fn, s1, s2 := Making(p, q).Inside(0), Decl(q, Some(NewExpr(false, []))), Return(Local(q));
    Index(p, q);
    assert fn.HasStmt(s1) && fn.HasStmt(s2);
    assert TidyStmt(fn, world, START, s1);
    assert TidyStmt(fn, world, NamesAfter([p], START, s1), s2);
  }

  lemma MakerIsTidy(p: Var, q: Var, world: World)
    requires p != q && Making(p, q).Straight()
    ensures TidyStmt(Making(p, q).Inside(1), world, START,
                     Seq(Decl(q, Some(Call(0, [Local(p)]))), Delete(Local(p), false)))
  {
    var fn, e := Making(p, q).Inside(1), Call(0, [Local(p)]);
    var t1, t2 := Decl(q, Some(e)), Delete(Local(p), false);
    Index(p, q);
    MakeReturnsNothing(p, q, world);
    assert fn.HasStmt(t1) && fn.HasStmt(t2) && fn.Has(e);
    assert Deep(fn, world, START, e) == None;
    assert TidyExpr(fn, world, UpdateMap([p], START, q, Some(e)), START, e);
    assert TidyStmt(fn, world, START, t1);
    assert TidyStmt(fn, world, NamesAfter([p], START, t1), t2);
  }

  lemma MakingStraight(p: Var, q: Var)
    ensures Making(p, q).Straight()
  {
    var c, e := Making(p, q), Call(0, [Local(p)]);
    BothBelow(c, Decl(q, Some(NewExpr(false, []))), Return(Local(q)), 0);
    NoneTaken(0, p);
    assert c.ExprBelow(e, 1) && TakenBy(e) == {};
    BothBelow(c, Decl(q, Some(e)), Delete(Local(p), false), 1);
  }

  lemma MakeReturnsNothing(p: Var, q: Var, world: World)
    requires p != q && Making(p, q).Straight()
    ensures DeepFunc(Making(p, q), world, 0) == None
  {
    var c, s1, s2 := Making(p, q), Decl(q, Some(NewExpr(false, []))), Return(Local(q));
    Index(p, q);
    var nm := NamesAfter([p], START, s1);
    assert Resolve([p], nm, Local(q)) == None;
    assert DeepReturn(c.Inside(0), world, nm, s2) == None;
  }
}
