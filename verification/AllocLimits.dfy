/** Where the allocation analysis goes wrong: programs outside the two conditions on the text. */
module AllocLimits {
  import opened Wrappers
  import opened Ast
  import opened AllocSpec
  import opened AllocSoundness

  /** T* id(T* p) { return p; }   T* make() { return id(new T); } */
  function PassThrough(): Program {
    map[0 := Func([0], Some(Return(Local(0))), true, Unknown),
        1 := Func([], Some(Return(Call(0, [NewExpr(false, [])]))), true, Unknown)]
  }

  lemma PassThroughRun()
    ensures RunFunc(PassThrough(), 1, 1, 1, [], []) == Value(Val(New, Laundered), [])
  {
  }

  lemma PassThroughAnswer()
    ensures GetAllocType(PassThrough(), 1) == NoAlloc
  {
    var prog := PassThrough();
    var c1: Cache := map[1 := None];
    var c2 := c1[0 := Some(Unknown)];
    assert ParamFacts([0]) == map[0 := Some(NoAlloc)] by { assert ToSet([0]) == {0}; }
    assert Traverse(prog, Return(Local(0)), State(ParamFacts([0]), None, c2)).st.result == Some(NoAlloc);
    assert HandleExpr(prog, Call(0, [NewExpr(false, [])]), map[], c1).fact == Some(NoAlloc);
  }

  /** The answer can be wrong: make() returns a pointer from new, the analysis answers "none". */
  lemma PassThroughIsMissed()
    ensures ProgramScoped(PassThrough())
    ensures RunFunc(PassThrough(), 1, 1, 1, [], []).Value?
    ensures !Correct(RunFunc(PassThrough(), 1, 1, 1, [], []).v, GetAllocType(PassThrough(), 1))
  {
    PassThroughRun();
    PassThroughAnswer();
  }

  /** void create(T** q);   T* make() { T* q = nullptr; create(&q); return q; } */
  function OutParameter(q: Var): Program {
    map[0 := Func([], None, false, Unknown),
        1 := Func([], Some(Seq(Decl(q, Some(NullLit)),
                               Seq(ExprStmt(Call(0, [AddressOf(q, 0)])), Return(Exposed(q, 1))))), true, Unknown)]
  }

  /** A pointer that comes back through an address is missed: the variable still counts as null. */
  lemma OutParameterIsMissed(q: Var, a: Provenance)
    requires a != Null
    ensures var prog := OutParameter(q); var found := Choice(true, Val(a, Followed));
            && ProgramScoped(prog) && GetAllocType(prog, 1) == Null
            && RunFunc(prog, 1, 1, 1, [], [found, found, found]) == Value(Val(a, Overwritten), [])
            && !Correct(Val(a, Overwritten), GetAllocType(prog, 1))
  {
    OutParameterScoped(q);
    OutParameterAnswer(q);
    OutParameterRun(q, a);
  }

  lemma OutParameterScoped(q: Var)
    ensures ProgramScoped(OutParameter(q))
  {
    var e := Call(0, [AddressOf(q, 0)]);
    var s1, s2, s3 := Decl(q, Some(NullLit)), ExprStmt(e), Return(Exposed(q, 1));
    assert ToSet([]) == {} && ScopeAfter(s1, {}) == {q} && ScopeAfter(s2, {q}) == {q};
    assert ExprScoped(e, {q});
    assert Scoped(s2, {q}) && Scoped(s3, {q}) && Scoped(Seq(s2, s3), {q});
    assert Scoped(Seq(s1, Seq(s2, s3)), {});
    OutParameterMarked(q);
  }

  lemma OutParameterMarked(q: Var)
    ensures Marked(OutParameter(q)[1].body.value)
  {
    var body := OutParameter(q)[1].body.value;
    var e := Call(0, [AddressOf(q, 0)]);
    var s1, s2, s3 := Decl(q, Some(NullLit)), ExprStmt(e), Return(Exposed(q, 1));
    assert body == Seq(s1, Seq(s2, s3)) && ExprMarked(e, TakenIn(body));
    assert StmtMarked(s1, TakenIn(body)) && StmtMarked(s2, TakenIn(body)) && StmtMarked(s3, TakenIn(body));
    assert StmtMarked(Seq(s2, s3), TakenIn(body));
  }

  lemma OutParameterAnswer(q: Var)
    ensures GetAllocType(OutParameter(q), 1) == Null
  {
    var prog := OutParameter(q);
    var s1, s2, s3 := Decl(q, Some(NullLit)), ExprStmt(Call(0, [AddressOf(q, 0)])), Return(Exposed(q, 1));
    var st := State(ParamFacts([]), None, map[1 := None]);
    assert HandleExpr(prog, NullLit, st.vars, st.cache) == ExprOut(Some(Null), st.cache);
    var st1 := Traverse(prog, s1, st).st;
    assert st1.vars[q] == Some(Null) && st1.result == None;
    assert Traverse(prog, s2, st1) == StmtOut(st1, true);
    assert Traverse(prog, s3, st1).st.result == Some(Null);
    assert Traverse(prog, Seq(s2, s3), st1).st.result == Some(Null);
    assert Traverse(prog, Seq(s1, Seq(s2, s3)), st).st.result == Some(Null);
    assert Analyze(prog, 1, map[1 := None]).fact == Some(Null);
  }

  /** The call of create, which takes two of the choices. */
  lemma OutParameterCall(q: Var, a: Provenance, env: Env, ch: seq<Choice>)
    requires |ch| >= 2 && ch[0] == ch[1] == Choice(true, Val(a, Followed))
    ensures Exec(OutParameter(q), 1, 1, ExprStmt(Call(0, [AddressOf(q, 0)])), env, ch) == Fell(env, ch[2..])
  {
    var prog, args := OutParameter(q), [AddressOf(q, 0)];
    assert args[1..] == [] && ch[1..][1..] == ch[2..];
    assert EvalArgs(prog, 1, 1, args[1..], env, ch[1..]) == Values([], ch[1..]);
    assert EvalArgs(prog, 1, 1, args, env, ch) == Values([Val(a, Laundered)], ch[1..]);
    assert RunFunc(prog, 1, 0, 0, [Val(a, Laundered)], ch[1..]) == Value(Val(a, Laundered), ch[2..]);
    assert Eval(prog, 1, 1, Call(0, args), env, ch) == Value(Val(a, Laundered), ch[2..]);
  }

  lemma OutParameterRun(q: Var, a: Provenance)
    ensures var found := Choice(true, Val(a, Followed));
            RunFunc(OutParameter(q), 1, 1, 1, [], [found, found, found]) == Value(Val(a, Overwritten), [])
  {
    var prog, found := OutParameter(q), Choice(true, Val(a, Followed));
    var s1, s2, s3 := Decl(q, Some(NullLit)), ExprStmt(Call(0, [AddressOf(q, 0)])), Return(Exposed(q, 1));
    var env, ch := BindParams([], []), [found, found, found];
    var env1 := env[q := Val(Null, Followed)];
    assert Exec(prog, 1, 1, s1, env, ch) == Fell(env1, ch);
    OutParameterCall(q, a, env1, ch);
    assert ch[2..] == [found] && [found][1..] == [];
    assert Exec(prog, 1, 1, s3, env1, [found]) == Returned(Val(a, Overwritten), []);
    assert Exec(prog, 1, 1, Seq(s2, s3), env1, ch) == Returned(Val(a, Overwritten), []);
    assert Exec(prog, 1, 1, Seq(s1, Seq(s2, s3)), env, ch) == Returned(Val(a, Overwritten), []);
  }
}
