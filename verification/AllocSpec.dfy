/** The allocation analysis in its simple form: at an if/else the state is copied, both branches
    are walked, and the two states are joined pointwise.  AllocTraverser refines this with an undo
    log; the memo table and the early abort are the ones of the source. */
module AllocSpec {
  import opened Wrappers
  import opened Ast

  /** None stands for std::nullopt: no return statement has produced a value. */
  type Fact = Option<AllocType>
  type Facts = map<Var, Fact>
  type Cache = map<FuncId, Fact>

  function Join(a: Fact, b: Fact): Fact {
    if a == Some(Null) then b
    else if b == Some(Null) then a
    else if a == b then a
    else Some(Unknown)
  }

  /** The information order: Null at the bottom, Unknown at the top, all else incomparable. */
  predicate Below(a: Fact, b: Fact) {
    a == b || a == Some(Null) || b == Some(Unknown)
  }

  lemma JoinIsLeastUpperBound(a: Fact, b: Fact, c: Fact)
    ensures Below(a, Join(a, b)) && Below(b, Join(a, b))
    ensures Below(a, c) && Below(b, c) ==> Below(Join(a, b), c)
    ensures Join(a, b) == Join(b, a)
    ensures Join(a, Join(b, c)) == Join(Join(a, b), c)
  {
  }

  function JoinMaps(a: Facts, b: Facts): (r: Facts)
    requires a.Keys <= b.Keys
    ensures r.Keys == a.Keys
  {
    map x | x in a :: Join(a[x], b[x])
  }

  /** How a return statement extends the combined result of the earlier ones. */
  function AddReturn(result: Fact, tmp: Fact): Fact {
    if tmp.None? then result
    else if result.None? then tmp
    else Join(result, tmp)
  }

  datatype State = State(vars: Facts, result: Fact, cache: Cache)

  /** The value of an expression and the memo table after computing it. */
  datatype ExprOut = ExprOut(fact: Fact, cache: Cache)

  /** The state after a statement, and whether the traversal goes on. */
  datatype StmtOut = StmtOut(st: State, go: bool)

  function HandleExpr(prog: Program, e: Expr, vars: Facts, cache: Cache): (r: ExprOut)
    ensures cache.Keys <= r.cache.Keys
    decreases prog.Keys - cache.Keys, 0
  {
    match e
    case NewExpr(arr, _) => ExprOut(Some(if arr then NewArr else New), cache)
    case PlacementNew(_) => ExprOut(Some(NoAlloc), cache)
    case Local(x) => ExprOut(if x in vars then vars[x] else Some(NoAlloc), cache)
    case Exposed(x, _) => ExprOut(if x in vars then vars[x] else Some(NoAlloc), cache)
    case Binding(_) => ExprOut(Some(Unknown), cache)
    case MallocCall => ExprOut(Some(Malloc), cache)
    case OperatorNewCall(arr) => ExprOut(Some(if arr then OperatorNewArr else OperatorNew), cache)
    case IndirectCall(_, _) => ExprOut(Some(Unknown), cache)
    case NullLit => ExprOut(Some(Null), cache)
    case Call(f, _) =>
      if f in cache then
        ExprOut(cache[f], cache)
      else if f !in prog then
        ExprOut(Some(Unknown), cache[f := Some(Unknown)])
      else
        var stored := prog[f].annotation;
        if stored != Unknown then
          ExprOut(Some(stored), cache[f := Some(stored)])
        else
          Analyze(prog, f, cache[f := Some(stored)])
    case _ => ExprOut(Some(NoAlloc), cache)
  }

  function Traverse(prog: Program, s: Stmt, st: State): (r: StmtOut)
    ensures st.cache.Keys <= r.st.cache.Keys
    ensures st.vars.Keys <= r.st.vars.Keys
    ensures !r.go ==> r.st.result == Some(Unknown)
    decreases prog.Keys - st.cache.Keys, 1, s
  {
    match s
    case Decl(x, init) =>
      if init.None? then
        StmtOut(st.(vars := st.vars[x := Some(NoAlloc)]), true)
      else
        var v := HandleExpr(prog, init.value, st.vars, st.cache);
        StmtOut(st.(vars := st.vars[x := v.fact], cache := v.cache), true)
    case Assign(x, e) =>
      var v := HandleExpr(prog, e, st.vars, st.cache);
      StmtOut(st.(vars := st.vars[x := v.fact], cache := v.cache), true)
    case CompoundAssign(x) =>
      StmtOut(st.(vars := st.vars[x := Some(Unknown)]), true)
    case Return(e) =>
      var v := HandleExpr(prog, e, st.vars, st.cache);
      var result := AddReturn(st.result, v.fact);
      var joined := v.fact.Some? && st.result.Some?;
      StmtOut(st.(result := result, cache := v.cache), !(joined && result == Some(Unknown)))
    case If(thn, els) =>
      // The answers of the two branch walks are dropped: an abort stops a branch, not the if.
      var t := Traverse(prog, thn, st).st;
      if els.None? then
        StmtOut(t.(vars := JoinMaps(st.vars, t.vars)), true)
      else
        var e := Traverse(prog, els.value, t.(vars := st.vars)).st;
        StmtOut(e.(vars := map x | x in st.vars :: Join(t.vars[x], e.vars[x])), true)
    case Seq(s1, s2) =>
      var r1 := Traverse(prog, s1, st);
      if r1.go then Traverse(prog, s2, r1.st) else r1
    case _ => StmtOut(st, true)
  }

  function ParamFacts(params: seq<Var>): (r: Facts)
    ensures r.Keys == ToSet(params)
  {
    map x | x in ToSet(params) :: Some(NoAlloc)
  }

  function Analyze(prog: Program, f: FuncId, cache: Cache): (r: ExprOut)
    requires f in prog && f in cache
    ensures cache.Keys <= r.cache.Keys
    decreases prog.Keys - cache.Keys, 2
  {
    var fn := prog[f];
    if !fn.returnsPointer then ExprOut(Some(NoAlloc), cache)
    else if fn.body.None? then ExprOut(Some(Unknown), cache)
    else
      var r := Traverse(prog, fn.body.value, State(ParamFacts(fn.params), None, cache)).st;
      ExprOut(r.result, r.cache[f := r.result])
  }

  /** GetAllocType: the function asked about starts out in the memo table as std::nullopt. */
  function GetAllocType(prog: Program, f: FuncId): AllocType
    requires f in prog
  {
    var r := Analyze(prog, f, map[f := None]).fact;
    if r.Some? then r.value else NoAlloc
  }

  /** Joining more returns only moves the combined result up. */
  lemma {:induction false} ResultOnlyRises(prog: Program, s: Stmt, st: State)
    ensures var r := Traverse(prog, s, st).st.result; st.result.None? || Below(st.result, r)
    decreases s
  {
    match s
    case If(thn, els) =>
      ResultOnlyRises(prog, thn, st);
      if els.Some? {
        ResultOnlyRises(prog, els.value, Traverse(prog, thn, st).st.(vars := st.vars));
      }
    case Seq(s1, s2) =>
      ResultOnlyRises(prog, s1, st);
      if Traverse(prog, s1, st).go {
        ResultOnlyRises(prog, s2, Traverse(prog, s1, st).st);
      }
    case _ =>
  }

  /** The facts kept are exactly those of the variables in scope. */
  lemma {:induction false} TraverseKeepsScope(prog: Program, s: Stmt, st: State)
    requires Scoped(s, st.vars.Keys)
    ensures var r := Traverse(prog, s, st);
            r.st.vars.Keys <= ScopeAfter(s, st.vars.Keys) &&
            (r.go ==> r.st.vars.Keys == ScopeAfter(s, st.vars.Keys))
    decreases s
  {
    match s
    case Seq(s1, s2) =>
      TraverseKeepsScope(prog, s1, st);
      var r1 := Traverse(prog, s1, st);
      if r1.go {
        TraverseKeepsScope(prog, s2, r1.st);
      }
    case _ =>
  }
}
