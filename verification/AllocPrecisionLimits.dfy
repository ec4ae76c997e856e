/** Text for which the answer of the allocation analysis is not the best. */
module AllocPrecisionLimits {
  import opened Wrappers
  import opened Ast
  import opened AllocSpec
  import opened AllocSoundness
  import opened AllocAcyclic
  import opened AllocPrecision

  /** T* f(T* p) { if (c) { p = new T; return nullptr; } return p; } */
  function StoreAndReturn(p: Var): Program {
    map[0 := Func([p], Some(Seq(If(Seq(Assign(p, NewExpr(false, [])), Return(NullLit)), None), Return(Local(p)))),
                  true, Unknown)]
  }

  /** Text that is not neat: what the branch stored is joined although the branch never falls out, and
      the answer is Unknown where "none" describes every run. */
  lemma StoreBeforeReturnIsJoined(p: Var)
    ensures var prog := StoreAndReturn(p);
            && GetAllocType(prog, 0) == Unknown && DescribesRuns(prog, 0, NoAlloc)
            && Acyclic(prog, map[0 := 0]) && !NeatText(prog, map[0 := 0], 0)
  {
    StoreAndReturnAnswer(p);
    StoreAndReturnText(p);
    var prog := StoreAndReturn(p);
    forall k: nat, args, ch | RunFunc(prog, 0, k, 0, args, ch).Value?
      ensures Below(Some(Visible(RunFunc(prog, 0, k, 0, args, ch).v)), Some(NoAlloc))
    {
      StoreAndReturnRun(p, k, args, ch);
    }
  }

  lemma StoreAndReturnAnswer(p: Var)
    ensures GetAllocType(StoreAndReturn(p), 0) == Unknown
  {
    var prog, st := StoreAndReturn(p), State(ParamFacts([p]), None, map[0 := None]);
    var thn := Seq(Assign(p, NewExpr(false, [])), Return(NullLit));
    assert p in ToSet([p]) && st.vars == map[p := Some(NoAlloc)];
    StoreAndReturnThen(p, st);
    StoreAndReturnJoin(p, thn, st, Traverse(prog, thn, st).st);
    var r := Traverse(prog, If(thn, None), st);
    assert r.st.vars == map[p := Some(Unknown)] && r.st.result == Some(Null) && r.go;
    assert Traverse(prog, Return(Local(p)), r.st).st.result == Some(Unknown);
    assert Traverse(prog, prog[0].body.value, st).st.result == Some(Unknown);
  }

  lemma StoreAndReturnThen(p: Var, st: State)
    requires st == State(map[p := Some(NoAlloc)], None, map[0 := None])
    ensures Traverse(StoreAndReturn(p), Seq(Assign(p, NewExpr(false, [])), Return(NullLit)), st) ==
            StmtOut(State(map[p := Some(New)], Some(Null), map[0 := None]), true)
  {
    var prog, a1, a2 := StoreAndReturn(p), Assign(p, NewExpr(false, [])), Return(NullLit);
    var t1 := Traverse(prog, a1, st);
    assert HandleExpr(prog, a1.e, st.vars, st.cache) == ExprOut(Some(New), st.cache);
    assert t1 == StmtOut(st.(vars := map[p := Some(New)]), true);
    assert HandleExpr(prog, a2.e, t1.st.vars, st.cache) == ExprOut(Some(Null), st.cache);
    assert Traverse(prog, a2, t1.st) == StmtOut(t1.st.(result := Some(Null)), true);
  }

  /** The join at the end of the if. */
  lemma StoreAndReturnJoin(p: Var, thn: Stmt, st: State, t: State)
    requires st.vars == map[p := Some(NoAlloc)] && t.vars == map[p := Some(New)]
    requires Traverse(StoreAndReturn(p), thn, st).st == t
    ensures Traverse(StoreAndReturn(p), If(thn, None), st) == StmtOut(t.(vars := map[p := Some(Unknown)]), true)
  {
    assert JoinMaps(st.vars, t.vars) == map[p := Some(Unknown)];
  }

  lemma StoreAndReturnText(p: Var)
    ensures Acyclic(StoreAndReturn(p), map[0 := 0]) && !NeatText(StoreAndReturn(p), map[0 := 0], 0)
  {
    var prog, rank: Rank := StoreAndReturn(p), map[0 := 0];
    var thn := Seq(Assign(p, NewExpr(false, [])), Return(NullLit));
    assert StmtBelow(prog, rank, thn.s1, 0) && StmtBelow(prog, rank, thn.s2, 0);
    assert StmtBelow(prog, rank, thn, 0) && StmtBelow(prog, rank, If(thn, None), 0);
    assert p in Stored(thn.s1) && p in Stored(thn) && p in Stored(If(thn, None)) && !MayFall(thn);
    assert !Neat(If(thn, None), false) && !Neat(prog[0].body.value, true);
    assert !FuncNeat(prog, rank, 0);
  }

  lemma StoreAndReturnRun(p: Var, k: nat, args: seq<Val>, ch: seq<Choice>)
    requires RunFunc(StoreAndReturn(p), 0, k, 0, args, ch).Value?
    ensures Below(Some(Visible(RunFunc(StoreAndReturn(p), 0, k, 0, args, ch).v)), Some(NoAlloc))
  {
    var prog, env := StoreAndReturn(p), BindParams([p], args);
    var thn := Seq(Assign(p, NewExpr(false, [])), Return(NullLit));
    var s1 := If(thn, None);
    assert p in ToSet([p]) && env[p].way == Laundered;
    assert Exec(prog, 0, k, Seq(s1, Return(Local(p))), env, ch).Returned?;
    assert ch == [] ==> Exec(prog, 0, k, s1, env, ch) == Halted;
    if ch != [] && ch[0].branch {
      var r1 := Exec(prog, 0, k, thn.s1, env, ch[1..]);
      assert r1 == Fell(env[p := Val(New, Followed)], ch[1..]) by {
        assert EvalArgs(prog, 0, k, [], env, ch[1..]) == Values([], ch[1..]);
        assert Eval(prog, 0, k, thn.s1.e, env, ch[1..]) == Value(Val(New, Followed), ch[1..]);
      }
      var r := Exec(prog, 0, k, thn.s2, r1.env, ch[1..]);
      assert Eval(prog, 0, k, thn.s2.e, r1.env, ch[1..]) == Value(Val(Null, Followed), ch[1..]);
      assert r == Returned(Val(Null, Followed), ch[1..]);
      assert Exec(prog, 0, k, thn, env, ch[1..]) == r && Exec(prog, 0, k, s1, env, ch) == r;
    } else if ch != [] {
      assert Exec(prog, 0, k, s1, env, ch) == Fell(env, ch[1..]);
      assert Eval(prog, 0, k, Local(p), env, ch[1..]) == Value(env[p], ch[1..]);
      assert Exec(prog, 0, k, Return(Local(p)), env, ch[1..]) == Returned(env[p], ch[1..]);
    }
  }
}
