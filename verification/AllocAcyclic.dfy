/** On call graphs without cycles neither the memo table nor the early abort shows in the answer. */
module AllocAcyclic {
  import opened Wrappers
  import opened Ast
  import opened AllocSpec

  /** A witness of acyclicity: callees have smaller ranks. */
  type Rank = map<FuncId, nat>

  predicate ExprBelow(prog: Program, rank: Rank, e: Expr, n: nat) {
    e.Call? && e.callee in prog ==> e.callee in rank && rank[e.callee] < n
  }

  predicate StmtBelow(prog: Program, rank: Rank, s: Stmt, n: nat) {
    match s
    case Decl(_, init) => init.Some? ==> ExprBelow(prog, rank, init.value, n)
    case Assign(_, e) => ExprBelow(prog, rank, e, n)
    case Return(e) => ExprBelow(prog, rank, e, n)
    case If(thn, els) => StmtBelow(prog, rank, thn, n) && (els.Some? ==> StmtBelow(prog, rank, els.value, n))
    case Seq(s1, s2) => StmtBelow(prog, rank, s1, n) && StmtBelow(prog, rank, s2, n)
    case _ => true
  }

  /** The call graph is acyclic. */
  predicate Acyclic(prog: Program, rank: Rank) {
    forall f :: f in prog ==>
      f in rank && (prog[f].body.Some? ==> StmtBelow(prog, rank, prog[f].body.value, rank[f]))
  }

  // ----- the analysis without memo table and without abort -----

  function PlainExpr(prog: Program, rank: Rank, e: Expr, vars: Facts, n: nat): Fact
    requires Acyclic(prog, rank) && ExprBelow(prog, rank, e, n)
    decreases n, 0
  {
    match e
    case NewExpr(arr, _) => Some(if arr then NewArr else New)
    case Local(x) => if x in vars then vars[x] else Some(NoAlloc)
    case Exposed(x, _) => if x in vars then vars[x] else Some(NoAlloc)
    case Binding(_) => Some(Unknown)
    case MallocCall => Some(Malloc)
    case OperatorNewCall(arr) => Some(if arr then OperatorNewArr else OperatorNew)
    case IndirectCall(_, _) => Some(Unknown)
    case NullLit => Some(Null)
    case Call(f, _) =>
      if f !in prog then Some(Unknown)
      else if prog[f].annotation != Unknown then Some(prog[f].annotation)
      else PlainFunc(prog, rank, f)
    case _ => Some(NoAlloc)
  }

  datatype Plain = Plain(vars: Facts, result: Fact)

  function PlainStmt(prog: Program, rank: Rank, s: Stmt, st: Plain, n: nat): (r: Plain)
    requires Acyclic(prog, rank) && StmtBelow(prog, rank, s, n)
    ensures st.vars.Keys <= r.vars.Keys
    decreases n, 1, s
  {
    match s
    case Decl(x, init) =>
      var v := if init.None? then Some(NoAlloc) else PlainExpr(prog, rank, init.value, st.vars, n);
      st.(vars := st.vars[x := v])
    case Assign(x, e) => st.(vars := st.vars[x := PlainExpr(prog, rank, e, st.vars, n)])
    case CompoundAssign(x) => st.(vars := st.vars[x := Some(Unknown)])
    case Return(e) => st.(result := AddReturn(st.result, PlainExpr(prog, rank, e, st.vars, n)))
    case If(thn, els) =>
      var t := PlainStmt(prog, rank, thn, st, n);
      if els.None? then Plain(JoinMaps(st.vars, t.vars), t.result)
      else
        var e := PlainStmt(prog, rank, els.value, Plain(st.vars, t.result), n);
        Plain(map x | x in st.vars :: Join(t.vars[x], e.vars[x]), e.result)
    case Seq(s1, s2) => PlainStmt(prog, rank, s2, PlainStmt(prog, rank, s1, st, n), n)
    case _ => st
  }

  function PlainFunc(prog: Program, rank: Rank, f: FuncId): Fact
    requires Acyclic(prog, rank) && f in prog
    decreases rank[f], 2
  {
    var fn := prog[f];
    if !fn.returnsPointer then Some(NoAlloc)
    else if fn.body.None? then Some(Unknown)
    else PlainStmt(prog, rank, fn.body.value, Plain(ParamFacts(fn.params), None), rank[f]).result
  }

  // ----- callees that return no pointer -----

  /** Analysing such a callee answers "none" but leaves Unknown in the memo table. */
  predicate Odd(prog: Program, f: FuncId) {
    f in prog && prog[f].annotation == Unknown && !prog[f].returnsPointer
  }

  /** The walk never asks the memo table about an odd callee: it meets each of them at most once. */
  predicate OnceExpr(prog: Program, e: Expr, cache: Cache)
    decreases prog.Keys - cache.Keys, 0
  {
    e.Call? ==>
      if e.callee in cache then !Odd(prog, e.callee)
      else if e.callee in prog && prog[e.callee].annotation == Unknown then
        OnceFunc(prog, e.callee, cache[e.callee := Some(Unknown)])
      else true
  }

  predicate OnceStmt(prog: Program, s: Stmt, st: State)
    decreases prog.Keys - st.cache.Keys, 1, s
  {
    match s
    case Decl(_, Some(e)) => OnceExpr(prog, e, st.cache)
    case Assign(_, e) => OnceExpr(prog, e, st.cache)
    case Return(e) => OnceExpr(prog, e, st.cache)
    case If(thn, els) =>
      && OnceStmt(prog, thn, st)
      && (els.Some? ==> OnceStmt(prog, els.value, Traverse(prog, thn, st).st.(vars := st.vars)))
    case Seq(s1, s2) =>
      && OnceStmt(prog, s1, st)
      && (Traverse(prog, s1, st).go ==> OnceStmt(prog, s2, Traverse(prog, s1, st).st))
    case _ => true
  }

  predicate OnceFunc(prog: Program, f: FuncId, cache: Cache)
    requires f in prog && f in cache
    decreases prog.Keys - cache.Keys, 2
  {
    prog[f].returnsPointer && prog[f].body.Some? ==>
      OnceStmt(prog, prog[f].body.value, State(ParamFacts(prog[f].params), None, cache))
  }

  // ----- the memo table -----

  ghost predicate Exact(prog: Program, rank: Rank, f: FuncId, a: Fact)
    requires Acyclic(prog, rank)
  {
    a == if f !in prog then Some(Unknown)
         else if prog[f].annotation != Unknown then Some(prog[f].annotation)
         else PlainFunc(prog, rank, f)
  }

  /** Everything memoised below rank `n` is what an analysis from scratch would say. */
  ghost predicate CacheExact(prog: Program, rank: Rank, cache: Cache, n: nat)
    requires Acyclic(prog, rank)
  {
    forall f :: f in cache && !Odd(prog, f) && (f !in prog || rank[f] < n) ==> Exact(prog, rank, f, cache[f])
  }

  /** Entries are only added, and the added ones are exact. */
  ghost predicate Grows(prog: Program, rank: Rank, c0: Cache, c1: Cache)
    requires Acyclic(prog, rank)
  {
    c0.Keys <= c1.Keys && forall f :: f in c1 ==>
      if f in c0 then c1[f] == c0[f] else !Odd(prog, f) ==> Exact(prog, rank, f, c1[f])
  }

  lemma {:induction false} PlainAbsorbs(prog: Program, rank: Rank, s: Stmt, st: Plain, n: nat)
    requires Acyclic(prog, rank) && StmtBelow(prog, rank, s, n)
    requires st.result == Some(Unknown)
    ensures PlainStmt(prog, rank, s, st, n).result == Some(Unknown)
    decreases s
  {
    match s
    case If(thn, els) =>
      PlainAbsorbs(prog, rank, thn, st, n);
      if els.Some? {
        var t := PlainStmt(prog, rank, thn, st, n);
        PlainAbsorbs(prog, rank, els.value, Plain(st.vars, t.result), n);
      }
    case Seq(s1, s2) =>
      PlainAbsorbs(prog, rank, s1, st, n);
      PlainAbsorbs(prog, rank, s2, PlainStmt(prog, rank, s1, st, n), n);
    case _ =>
  }

  lemma {:induction false} ExprAgrees(prog: Program, rank: Rank, e: Expr, vars: Facts, cache: Cache, n: nat)
    requires Acyclic(prog, rank) && ExprBelow(prog, rank, e, n) && CacheExact(prog, rank, cache, n)
    requires OnceExpr(prog, e, cache)
    ensures HandleExpr(prog, e, vars, cache).fact == PlainExpr(prog, rank, e, vars, n)
    ensures Grows(prog, rank, cache, HandleExpr(prog, e, vars, cache).cache)
    decreases n, 0
  {
    if e.Call? && e.callee !in cache && e.callee in prog && prog[e.callee].annotation == Unknown {
      FuncAgrees(prog, rank, e.callee, cache[e.callee := Some(Unknown)]);
    }
  }

  ghost predicate SameAnswer(prog: Program, rank: Rank, s: Stmt, st: State, n: nat)
    requires Acyclic(prog, rank) && StmtBelow(prog, rank, s, n)
  {
    var r := Traverse(prog, s, st);
    var p := PlainStmt(prog, rank, s, Plain(st.vars, st.result), n);
    && r.st.result == p.result
    && (p.result != Some(Unknown) ==> r.go && r.st.vars == p.vars)
    && Grows(prog, rank, st.cache, r.st.cache)
  }

  /** An abort only happens once the combined result is Unknown, and from then on both analyses
      can only answer Unknown. */
  lemma {:induction false} StmtAgrees(prog: Program, rank: Rank, s: Stmt, st: State, n: nat)
    requires Acyclic(prog, rank) && StmtBelow(prog, rank, s, n) && CacheExact(prog, rank, st.cache, n)
    requires OnceStmt(prog, s, st)
    ensures SameAnswer(prog, rank, s, st, n)
    decreases n, 1, s
  {
    match s
    case Decl(_, Some(e)) => ExprAgrees(prog, rank, e, st.vars, st.cache, n);
    case Assign(_, e) => ExprAgrees(prog, rank, e, st.vars, st.cache, n);
    case Return(e) => ExprAgrees(prog, rank, e, st.vars, st.cache, n);
    case If(_, _) => IfAgrees(prog, rank, s, st, n);
    case Seq(_, _) => SeqAgrees(prog, rank, s, st, n);
    case _ =>
  }

  lemma {:induction false} IfAgrees(prog: Program, rank: Rank, s: Stmt, st: State, n: nat)
    requires s.If?
    requires Acyclic(prog, rank) && StmtBelow(prog, rank, s, n) && CacheExact(prog, rank, st.cache, n)
    requires OnceStmt(prog, s, st)
    ensures SameAnswer(prog, rank, s, st, n)
    decreases n, 1, s, 0
  {
    StmtAgrees(prog, rank, s.thn, st, n);
    if s.els.Some? {
      var t := Traverse(prog, s.thn, st).st;
      StmtAgrees(prog, rank, s.els.value, t.(vars := st.vars), n);
      if t.result == Some(Unknown) {
        PlainAbsorbs(prog, rank, s.els.value, Plain(st.vars, t.result), n);
      }
    }
  }

  lemma {:induction false} SeqAgrees(prog: Program, rank: Rank, s: Stmt, st: State, n: nat)
    requires s.Seq?
    requires Acyclic(prog, rank) && StmtBelow(prog, rank, s, n) && CacheExact(prog, rank, st.cache, n)
    requires OnceStmt(prog, s, st)
    ensures SameAnswer(prog, rank, s, st, n)
    decreases n, 1, s, 0
  {
    StmtAgrees(prog, rank, s.s1, st, n);
    var r1 := Traverse(prog, s.s1, st);
    var p1 := PlainStmt(prog, rank, s.s1, Plain(st.vars, st.result), n);
    if r1.go {
      StmtAgrees(prog, rank, s.s2, r1.st, n);
    }
    if p1.result == Some(Unknown) {
      PlainAbsorbs(prog, rank, s.s2, p1, n);
      if r1.go { ResultOnlyRises(prog, s.s2, r1.st); }
    }
  }

  lemma {:induction false} FuncAgrees(prog: Program, rank: Rank, f: FuncId, cache: Cache)
    requires Acyclic(prog, rank) && f in prog && f in cache
    requires CacheExact(prog, rank, cache, rank[f]) && OnceFunc(prog, f, cache)
    ensures var r := Analyze(prog, f, cache);
            && r.fact == PlainFunc(prog, rank, f)
            && cache.Keys <= r.cache.Keys
            && (forall g :: g in r.cache && g != f ==>
                 if g in cache then r.cache[g] == cache[g] else !Odd(prog, g) ==> Exact(prog, rank, g, r.cache[g]))
            && (r.cache[f] == r.fact || (r.cache[f] == cache[f] && (prog[f].body.None? || !prog[f].returnsPointer)))
    decreases rank[f], 2
  {
    var fn := prog[f];
    if fn.returnsPointer && fn.body.Some? {
      StmtAgrees(prog, rank, fn.body.value, State(ParamFacts(fn.params), None, cache), rank[f]);
    }
  }

  /** Memo table and early abort are invisible on acyclic call graphs, as long as the walk meets no
      callee twice that is analysed although it returns no pointer. */
  lemma MemoAndAbortInvisible(prog: Program, rank: Rank, f: FuncId)
    requires Acyclic(prog, rank) && f in prog && OnceFunc(prog, f, map[f := None])
    ensures var plain := PlainFunc(prog, rank, f);
            GetAllocType(prog, f) == if plain.Some? then plain.value else NoAlloc
  {
    FuncAgrees(prog, rank, f, map[f := None]);
  }

  predicate StmtEven(prog: Program, s: Stmt) {
    match s
    case Decl(_, Some(e)) => e.Call? ==> !Odd(prog, e.callee)
    case Assign(_, e) => e.Call? ==> !Odd(prog, e.callee)
    case Return(e) => e.Call? ==> !Odd(prog, e.callee)
    case If(thn, els) => StmtEven(prog, thn) && (els.Some? ==> StmtEven(prog, els.value))
    case Seq(s1, s2) => StmtEven(prog, s1) && StmtEven(prog, s2)
    case _ => true
  }

  /** A simpler condition on the text: all analysed callees return pointers. */
  predicate Even(prog: Program) {
    forall f :: f in prog && prog[f].body.Some? ==> StmtEven(prog, prog[f].body.value)
  }

  lemma {:induction false} EvenIsOnce(prog: Program, s: Stmt, st: State)
    requires Even(prog) && StmtEven(prog, s)
    ensures OnceStmt(prog, s, st)
    decreases prog.Keys - st.cache.Keys, 1, s
  {
    match s
    case Decl(_, Some(e)) => EvenExprIsOnce(prog, e, st.cache);
    case Assign(_, e) => EvenExprIsOnce(prog, e, st.cache);
    case Return(e) => EvenExprIsOnce(prog, e, st.cache);
    case If(thn, els) =>
      EvenIsOnce(prog, thn, st);
      if els.Some? { EvenIsOnce(prog, els.value, Traverse(prog, thn, st).st.(vars := st.vars)); }
    case Seq(s1, s2) =>
      EvenIsOnce(prog, s1, st);
      EvenIsOnce(prog, s2, Traverse(prog, s1, st).st);
    case _ =>
  }

  lemma {:induction false} EvenExprIsOnce(prog: Program, e: Expr, cache: Cache)
    requires Even(prog) && (e.Call? ==> !Odd(prog, e.callee))
    ensures OnceExpr(prog, e, cache)
    decreases prog.Keys - cache.Keys, 0
  {
    if e.Call? && e.callee !in cache && e.callee in prog && prog[e.callee].body.Some? {
      var fn := prog[e.callee];
      assert e.callee in prog.Keys - cache.Keys;
      EvenIsOnce(prog, fn.body.value, State(ParamFacts(fn.params), None, cache[e.callee := Some(Unknown)]));
    }
  }

  lemma EvenProgramsQualify(prog: Program, f: FuncId)
    requires Even(prog) && f in prog
    ensures OnceFunc(prog, f, map[f := None])
  {
    if prog[f].body.Some? {
      EvenIsOnce(prog, prog[f].body.value, State(ParamFacts(prog[f].params), None, map[f := None]));
    }
  }

  /** int n(); T* f() { T* p = (T*)n(); return (T*)n(); } */
  function IntCallee(): Program {
    map[0 := Func([], None, false, Unknown),
        1 := Func([], Some(Seq(Decl(0, Some(Call(0, []))), Return(Call(0, [])))), true, Unknown)]
  }

  /** Callees that do not return a pointer are really different: analysing one answers "none" but
      memoises Unknown, so the second call of the same function is answered differently. */
  lemma NonPointerCalleeIsNotMemoised()
    ensures HandleExpr(IntCallee(), Call(0, []), map[], map[1 := None]) ==
            ExprOut(Some(NoAlloc), map[1 := None, 0 := Some(Unknown)])
    ensures GetAllocType(IntCallee(), 1) == Unknown
  {
  }
}
