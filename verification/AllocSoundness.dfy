/** What a pointer returned by a run really is, and soundness of GetAllocType for every run of every
    program, recursive ones included. */
module AllocSoundness {
  import opened Wrappers
  import opened Ast
  import opened AllocSpec

  type Provenance = a: AllocType | a != Unknown witness Null

  /** How a pointer got where it is.  Followed: through what the analysis follows.  Laundered: it was
      read from a place that the analysis does not follow and takes for no allocation, a parameter, a
      global, memory, placement new or a call typed as a non-pointer.  Overwritten: it was found in a
      variable that was written through its address, behind the back of the analysis. */
  datatype Way = Followed | Laundered | Overwritten

  /** A pointer at run time. */
  datatype Val = Val(prov: Provenance, way: Way)

  /** What a run does not take from the program text: which way a branch goes, whether malloc
      succeeds, what comes out of memory or of code without a body, and whether a variable whose
      address is taken has been written through it before it is read. */
  datatype Choice = Choice(branch: bool, value: Val)

  type Env = map<Var, Val>

  datatype EvalOut = Stuck | Value(v: Val, rest: seq<Choice>)
  datatype ArgsOut = ArgsStuck | Values(vs: seq<Val>, rest: seq<Choice>)
  datatype ExecOut = Halted | Fell(env: Env, rest: seq<Choice>) | Returned(v: Val, rest: seq<Choice>)

  /** A value from outside. */
  function Outside(ch: seq<Choice>, way: Way): EvalOut {
    if ch == [] then Stuck else Value(Val(ch[0].value.prov, way), ch[1..])
  }

  /** `root` is the function that the analysis was asked about, see RunFunc.  `k` bounds the depth of
      calls; a run that terminates does so for some k. */
  function Eval(prog: Program, root: FuncId, k: nat, e: Expr, env: Env, ch: seq<Choice>): EvalOut
    decreases k, 0, e
  {
    match e
    case NewExpr(arr, parts) =>
      (match EvalArgs(prog, root, k, parts, env, ch)
       case ArgsStuck => Stuck
       case Values(_, rest) => Value(Val(if arr then NewArr else New, Followed), rest))
    case OperatorNewCall(arr) => Value(Val(if arr then OperatorNewArr else OperatorNew, Followed), ch)
    case MallocCall =>
      if ch == [] then Stuck
      else Value(Val(if ch[0].branch then Malloc else Null, Followed), ch[1..])
    case NullLit => Value(Val(Null, Followed), ch)
    case PlacementNew(at) =>
      (match Eval(prog, root, k, at, env, ch)
       case Stuck => Stuck
       case Value(v, rest) => Value(Val(v.prov, Laundered), rest))
    case Local(x) => if x in env then Value(env[x], ch) else Stuck
    case Exposed(x, _) =>
      if x !in env || ch == [] then Stuck
      else if ch[0].branch then Value(Val(ch[0].value.prov, Overwritten), ch[1..])
      else Value(env[x], ch[1..])
    case AddressOf(_, _) => Outside(ch, Laundered)
    case Global(_) => Outside(ch, Laundered)
    case OtherExpr(_, parts) =>
      (match EvalArgs(prog, root, k, parts, env, ch)
       case ArgsStuck => Stuck
       case Values(_, rest) => Outside(rest, Laundered))
    case Binding(_) => Outside(ch, Followed)
    case IndirectCall(_, args) =>
      (match EvalArgs(prog, root, k, args, env, ch)
       case ArgsStuck => Stuck
       case Values(_, rest) => Outside(rest, Followed))
    case Call(f, args) =>
      match EvalArgs(prog, root, k, args, env, ch)
      case ArgsStuck => Stuck
      case Values(vs, rest) => if k == 0 then Stuck else RunFunc(prog, root, k - 1, f, vs, rest)
  }

  function EvalArgs(prog: Program, root: FuncId, k: nat, args: seq<Expr>, env: Env, ch: seq<Choice>): ArgsOut
    decreases k, 0, args
  {
    if args == [] then Values([], ch)
    else
      match Eval(prog, root, k, args[0], env, ch)
      case Stuck => ArgsStuck
      case Value(v, rest) =>
        match EvalArgs(prog, root, k, args[1..], env, rest)
        case ArgsStuck => ArgsStuck
        case Values(vs, rest') => Values([v] + vs, rest')
  }

  function Exec(prog: Program, root: FuncId, k: nat, s: Stmt, env: Env, ch: seq<Choice>): ExecOut
    decreases k, 1, s
  {
    match s
    case Skip => Fell(env, ch)
    case Decl(x, init) =>
      if init.None? then Fell(env[x := Val(NoAlloc, Followed)], ch)
      else
        (match Eval(prog, root, k, init.value, env, ch)
         case Stuck => Halted
         case Value(v, rest) => Fell(env[x := v], rest))
    case Assign(x, e) =>
      (match Eval(prog, root, k, e, env, ch)
       case Stuck => Halted
       case Value(v, rest) => Fell(env[x := v], rest))
    case CompoundAssign(x) =>
      if ch == [] then Halted else Fell(env[x := Val(ch[0].value.prov, Followed)], ch[1..])
    case If(thn, els) =>
      if ch == [] then Halted
      else if ch[0].branch then Exec(prog, root, k, thn, env, ch[1..])
      else if els.Some? then Exec(prog, root, k, els.value, env, ch[1..])
      else Fell(env, ch[1..])
    case Return(e) =>
      (match Eval(prog, root, k, e, env, ch)
       case Stuck => Halted
       case Value(v, rest) => Returned(v, rest))
    case Seq(s1, s2) =>
      (match Exec(prog, root, k, s1, env, ch)
       case Fell(env1, rest) => Exec(prog, root, k, s2, env1, rest)
       case out => out)
    case Delete(e, _) => Discard(Eval(prog, root, k, e, env, ch), env)
    case Free(e) => Discard(Eval(prog, root, k, e, env, ch), env)
    case ExprStmt(e) => Discard(Eval(prog, root, k, e, env, ch), env)
  }

  function Discard(r: EvalOut, env: Env): ExecOut {
    match r
    case Stuck => Halted
    case Value(_, rest) => Fell(env, rest)
  }

  function BindParams(params: seq<Var>, args: seq<Val>): (r: Env)
    ensures r.Keys == ToSet(params)
    ensures forall x :: x in r ==> r[x].way == Laundered
  {
    if params == [] then map[]
    else
      var v := if args == [] then Val(NoAlloc, Laundered) else Val(args[0].prov, Laundered);
      assert ToSet(params) == {params[0]} + ToSet(params[1..]);
      BindParams(params[1..], if args == [] then [] else args[1..])[params[0] := v]
  }

  /** A call.  The code trusts the annotations of the functions it meets, so a run in which one of
      them breaks its promise is no run here, and a pointer that comes with a promise is tracked
      wherever the function took it from.  `root` is the function asked about, whose own annotation
      the analysis does not read. */
  function RunFunc(prog: Program, root: FuncId, k: nat, f: FuncId, args: seq<Val>, ch: seq<Choice>): EvalOut
    decreases k, 3
  {
    if f !in prog then Outside(ch, Followed)
    else
      var r := RunBody(prog, root, k, f, args, ch);
      if r.Stuck? || f == root || prog[f].annotation == Unknown then r
      else if Correct(r.v, prog[f].annotation) then Value(Val(r.v.prov, Followed), r.rest)
      else Stuck
  }

  function RunBody(prog: Program, root: FuncId, k: nat, f: FuncId, args: seq<Val>, ch: seq<Choice>): EvalOut
    requires f in prog
    decreases k, 2
  {
    if !prog[f].returnsPointer then Outside(ch, Laundered)
    else if prog[f].body.None? then Outside(ch, Followed)
    else
      match Exec(prog, root, k, prog[f].body.value, BindParams(prog[f].params, args), ch)
      case Returned(v, rest) => Value(v, rest)
      case _ => Stuck   // no value: flowing off the end of such a function is undefined
  }

  /** What the analysis can at best say about a value. */
  function Visible(v: Val): AllocType {
    if v.way == Laundered then NoAlloc else v.prov
  }

  predicate Fits(v: Val, a: Fact) {
    v.way == Overwritten || Below(Some(Visible(v)), a)
  }

  /** The answer describes the pointer: it may be null, or the answer is its provenance, or the
      analysis gave up. */
  predicate Correct(v: Val, answer: AllocType) {
    v.prov == Null || answer == Unknown || answer == v.prov
  }

  /** `v` is the result of a run of the function asked about at a depth below `k`. */
  ghost predicate FromRoot(prog: Program, root: FuncId, k: nat, v: Val) {
    exists j: nat, args, ch :: j < k && RunFunc(prog, root, j, root, args, ch).Value? &&
      RunFunc(prog, root, j, root, args, ch).v == v
  }

  /** A fact about a value: either it fits, or the value comes out of an inner run of the function
      asked about, whose calls the analysis skips. */
  ghost predicate Covered(prog: Program, root: FuncId, k: nat, v: Val, a: Fact) {
    Fits(v, a) || FromRoot(prog, root, k, v)
  }

  ghost predicate SummaryOk(prog: Program, root: FuncId, f: FuncId, a: Fact) {
    forall k: nat, args, ch :: RunFunc(prog, root, k, f, args, ch).Value? ==>
      Covered(prog, root, k, RunFunc(prog, root, k, f, args, ch).v, a)
  }

  ghost predicate CacheOk(prog: Program, root: FuncId, cache: Cache) {
    root in cache && forall f :: f in cache && f != root ==> SummaryOk(prog, root, f, cache[f])
  }

  ghost predicate EnvOk(prog: Program, root: FuncId, k: nat, env: Env, vars: Facts) {
    vars.Keys <= env.Keys && forall x :: x in vars ==> Covered(prog, root, k, env[x], vars[x])
  }

  /** One expression: the memo table stays true, and a callee's summary is true. */
  lemma {:induction false} ExprKeepsCache(prog: Program, root: FuncId, e: Expr, vars: Facts, cache: Cache)
    requires ProgramScoped(prog) && CacheOk(prog, root, cache)
    ensures CacheOk(prog, root, HandleExpr(prog, e, vars, cache).cache)
    ensures e.Call? && e.callee != root ==>
      SummaryOk(prog, root, e.callee, HandleExpr(prog, e, vars, cache).fact)
    decreases prog.Keys - cache.Keys, 0
  {
    if e.Call? && e.callee !in cache && e.callee in prog {
      var f := e.callee;
      var cache1 := cache[f := Some(prog[f].annotation)];
      if prog[f].annotation == Unknown {
        assert f in prog.Keys - cache.Keys;
        AnalyzeSummarizes(prog, root, f, cache1);
      }
    }
  }

  lemma {:induction false} ExprSound(prog: Program, root: FuncId, e: Expr, vars: Facts, cache: Cache,
                                     k: nat, env: Env, ch: seq<Choice>)
    requires ProgramScoped(prog) && CacheOk(prog, root, cache)
    requires ExprScoped(e, vars.Keys) && EnvOk(prog, root, k, env, vars)
    requires Eval(prog, root, k, e, env, ch).Value?
    ensures Covered(prog, root, k, Eval(prog, root, k, e, env, ch).v, HandleExpr(prog, e, vars, cache).fact)
    decreases prog.Keys - cache.Keys, 1
  {
    if e.Call? {
      ExprKeepsCache(prog, root, e, vars, cache);
      var a := EvalArgs(prog, root, k, e.args, env, ch);
      var r := RunFunc(prog, root, k - 1, e.callee, a.vs, a.rest);
      if e.callee == root {
        assert FromRoot(prog, root, k, r.v);
      } else {
      }
    }
  }

  lemma {:induction false} StmtKeepsCache(prog: Program, root: FuncId, s: Stmt, st: State)
    requires ProgramScoped(prog) && CacheOk(prog, root, st.cache)
    ensures CacheOk(prog, root, Traverse(prog, s, st).st.cache)
    decreases prog.Keys - st.cache.Keys, 2, s
  {
    match s
    case Decl(_, Some(e)) => ExprKeepsCache(prog, root, e, st.vars, st.cache);
    case Assign(_, e) => ExprKeepsCache(prog, root, e, st.vars, st.cache);
    case Return(e) => ExprKeepsCache(prog, root, e, st.vars, st.cache);
    case If(thn, els) =>
      StmtKeepsCache(prog, root, thn, st);
      if els.Some? {
        StmtKeepsCache(prog, root, els.value, Traverse(prog, thn, st).st.(vars := st.vars));
      }
    case Seq(s1, s2) =>
      StmtKeepsCache(prog, root, s1, st);
      if Traverse(prog, s1, st).go {
        StmtKeepsCache(prog, root, s2, Traverse(prog, s1, st).st);
      }
    case _ =>
  }

  /** What the statement lemma says about one run. */
  ghost predicate RunOk(prog: Program, root: FuncId, k: nat, out: ExecOut, r: StmtOut) {
    match out
    case Halted => true
    case Fell(env, _) => r.go && EnvOk(prog, root, k, env, r.st.vars)
    case Returned(v, _) => Covered(prog, root, k, v, r.st.result)
  }

  lemma {:induction false} StmtSound(prog: Program, root: FuncId, s: Stmt, st: State,
                                     k: nat, env: Env, ch: seq<Choice>)
    requires ProgramScoped(prog) && CacheOk(prog, root, st.cache)
    requires Scoped(s, st.vars.Keys) && EnvOk(prog, root, k, env, st.vars)
    requires Traverse(prog, s, st).st.result != Some(Unknown)
    ensures RunOk(prog, root, k, Exec(prog, root, k, s, env, ch), Traverse(prog, s, st))
    decreases prog.Keys - st.cache.Keys, 2, s
  {
    var r := Traverse(prog, s, st);
    var out := Exec(prog, root, k, s, env, ch);
    match s
    case Decl(_, Some(e)) =>
      if !out.Halted? { ExprSound(prog, root, e, st.vars, st.cache, k, env, ch); }
    case Assign(_, e) =>
      if !out.Halted? { ExprSound(prog, root, e, st.vars, st.cache, k, env, ch); }
    case Return(e) =>
      if !out.Halted? {
        ExprSound(prog, root, e, st.vars, st.cache, k, env, ch);
        JoinIsLeastUpperBound(st.result, HandleExpr(prog, e, st.vars, st.cache).fact, None);
      }
    case If(thn, els) =>
      if ch != [] { IfSound(prog, root, s, st, k, env, ch); }
    case Seq(s1, s2) =>
      var r1 := Traverse(prog, s1, st);
      StmtKeepsCache(prog, root, s1, st);
      TraverseKeepsScope(prog, s1, st);
      if r1.go { ResultOnlyRises(prog, s2, r1.st); }
      StmtSound(prog, root, s1, st, k, env, ch);
      var out1 := Exec(prog, root, k, s1, env, ch);
      if out1.Fell? {
        StmtSound(prog, root, s2, r1.st, k, out1.env, out1.rest);
      }
    case _ =>
  }

  lemma {:induction false} IfSound(prog: Program, root: FuncId, s: Stmt, st: State,
                                   k: nat, env: Env, ch: seq<Choice>)
    requires s.If? && ch != []
    requires ProgramScoped(prog) && CacheOk(prog, root, st.cache)
    requires Scoped(s, st.vars.Keys) && EnvOk(prog, root, k, env, st.vars)
    requires Traverse(prog, s, st).st.result != Some(Unknown)
    ensures RunOk(prog, root, k, Exec(prog, root, k, s, env, ch), Traverse(prog, s, st))
    decreases prog.Keys - st.cache.Keys, 2, s, 0
  {
    var t := Traverse(prog, s.thn, st);
    var r := Traverse(prog, s, st);
    StmtKeepsCache(prog, root, s.thn, st);
    var st2 := t.st.(vars := st.vars);
    if s.els.Some? {
      ResultOnlyRises(prog, s.els.value, st2);
    }
    if ch[0].branch {
      StmtSound(prog, root, s.thn, st, k, env, ch[1..]);
    } else if s.els.Some? {
      StmtSound(prog, root, s.els.value, st2, k, env, ch[1..]);
    }
  }

  /** The result of analysing a callee covers every run of it. */
  lemma {:induction false} AnalyzeSummarizes(prog: Program, root: FuncId, f: FuncId, cache: Cache)
    requires ProgramScoped(prog) && CacheOk(prog, root, cache)
    requires f in prog && f in cache && (f == root || prog[f].annotation == Unknown)
    ensures SummaryOk(prog, root, f, Analyze(prog, f, cache).fact)
    ensures CacheOk(prog, root, Analyze(prog, f, cache).cache)
    decreases prog.Keys - cache.Keys, 3
  {
    var fn := prog[f];
    if fn.returnsPointer && fn.body.Some? {
      var st := State(ParamFacts(fn.params), None, cache);
      assert FuncScoped(fn);
      StmtKeepsCache(prog, root, fn.body.value, st);
      var a := Analyze(prog, f, cache).fact;
      if a != Some(Unknown) {
        forall k: nat, args, ch | RunFunc(prog, root, k, f, args, ch).Value?
          ensures Covered(prog, root, k, RunFunc(prog, root, k, f, args, ch).v, a)
        {
          StmtSound(prog, root, fn.body.value, st, k, BindParams(fn.params, args), ch);
        }
      }
    }
  }

  /** Inner runs of the function asked about are covered by induction on their depth. */
  lemma {:induction false} RootSound(prog: Program, root: FuncId, k: nat, args: seq<Val>, ch: seq<Choice>)
    requires ProgramScoped(prog) && root in prog
    requires RunFunc(prog, root, k, root, args, ch).Value?
    ensures Fits(RunFunc(prog, root, k, root, args, ch).v, Analyze(prog, root, map[root := None]).fact)
    decreases k
  {
    AnalyzeSummarizes(prog, root, root, map[root := None]);
    var v := RunFunc(prog, root, k, root, args, ch).v;
    if FromRoot(prog, root, k, v) {
      var j: nat, args', ch' :| j < k && RunFunc(prog, root, j, root, args', ch').Value? &&
        RunFunc(prog, root, j, root, args', ch').v == v;
      RootSound(prog, root, j, args', ch');
    }
  }

  /** The answer is right for this value, exactly. */
  predicate RightExactly(v: Val, answer: AllocType) {
    Correct(v, answer) <==> v.prov == Null || answer == Unknown || v.way == Followed || v.prov == NoAlloc
  }

  /** Soundness, with its exact limit: on every call graph and for every run, unless the pointer was
      found in a variable written through its address, the answer describes it if and only if it is
      not an allocated one read from an untracked place. */
  lemma AllocTypeSound(prog: Program, f: FuncId, k: nat, args: seq<Val>, ch: seq<Choice>)
    requires ProgramScoped(prog) && f in prog
    requires RunFunc(prog, f, k, f, args, ch).Value?
    ensures var v := RunFunc(prog, f, k, f, args, ch).v;
            var answer := GetAllocType(prog, f);
            Fits(v, Some(answer)) && (v.way != Overwritten ==> RightExactly(v, answer))
  {
    RootSound(prog, f, k, args, ch);
  }

  // ----- conditions on the text -----

  /** What the conditions below are to achieve for a value: `strict`, that it was followed; otherwise
      only that it was not overwritten. */
  predicate Good(v: Val, strict: bool) {
    if strict then v.way == Followed else v.way != Overwritten
  }

  /** A callee whose pointers are good: it is outside the program, or annotated, or one of the
      functions `fs`, which are looked at below. */
  predicate CalleeTracked(prog: Program, root: FuncId, fs: set<FuncId>, f: FuncId, strict: bool) {
    f !in prog || (f != root && prog[f].annotation != Unknown) || (f in fs && (strict ==> prog[f].returnsPointer))
  }

  /** The expression reads no variable whose address is taken; `strict`: and only what the analysis
      follows. */
  predicate ExprTracked(prog: Program, root: FuncId, fs: set<FuncId>, e: Expr, params: set<Var>, strict: bool) {
    match e
    case Exposed(_, _) => false
    case PlacementNew(_) => !strict
    case AddressOf(_, _) => !strict
    case Global(_) => !strict
    case OtherExpr(_, _) => !strict
    case Local(x) => strict ==> x !in params
    case Call(f, _) => CalleeTracked(prog, root, fs, f, strict)
    case _ => true
  }

  predicate StmtTracked(prog: Program, root: FuncId, fs: set<FuncId>, s: Stmt, params: set<Var>, strict: bool) {
    match s
    case Decl(x, init) =>
      && (strict ==> x !in params)
      && (init.Some? ==> ExprTracked(prog, root, fs, init.value, params, strict))
    case Assign(x, e) => (strict ==> x !in params) && ExprTracked(prog, root, fs, e, params, strict)
    case CompoundAssign(x) => strict ==> x !in params
    case If(thn, els) =>
      && StmtTracked(prog, root, fs, thn, params, strict)
      && (els.Some? ==> StmtTracked(prog, root, fs, els.value, params, strict))
    case Return(e) => ExprTracked(prog, root, fs, e, params, strict)
    case Seq(s1, s2) =>
      StmtTracked(prog, root, fs, s1, params, strict) && StmtTracked(prog, root, fs, s2, params, strict)
    case _ => true
  }

  /** A condition on the text alone, for the functions `fs` that a function's pointers come from: no
      stored or returned variable has its address taken.  `strict`: and stored and returned
      expressions read no parameter, global or memory, and no pointer is made from a non-pointer.
      Other functions of the program do not matter. */
  predicate Tracked(prog: Program, root: FuncId, fs: set<FuncId>, strict: bool) {
    forall f :: f in fs && f in prog && prog[f].body.Some? && prog[f].returnsPointer ==>
      StmtTracked(prog, root, fs, prog[f].body.value, ToSet(prog[f].params), strict)
  }

  ghost predicate Clean(env: Env, params: set<Var>, strict: bool) {
    forall x :: x in env && (strict ==> x !in params) ==> Good(env[x], strict)
  }

  lemma {:induction false} ExprClean(prog: Program, root: FuncId, fs: set<FuncId>, k: nat, e: Expr, params: set<Var>,
                                     strict: bool, env: Env, ch: seq<Choice>)
    requires Tracked(prog, root, fs, strict) && ExprTracked(prog, root, fs, e, params, strict)
    requires Clean(env, params, strict)
    requires Eval(prog, root, k, e, env, ch).Value?
    ensures Good(Eval(prog, root, k, e, env, ch).v, strict)
    decreases k, 0
  {
    if e.Call? {
      var a := EvalArgs(prog, root, k, e.args, env, ch);
      RunClean(prog, root, fs, k - 1, e.callee, strict, a.vs, a.rest);
    }
  }

  lemma {:induction false} StmtClean(prog: Program, root: FuncId, fs: set<FuncId>, k: nat, s: Stmt, params: set<Var>,
                                     strict: bool, env: Env, ch: seq<Choice>)
    requires Tracked(prog, root, fs, strict) && StmtTracked(prog, root, fs, s, params, strict)
    requires Clean(env, params, strict)
    ensures match Exec(prog, root, k, s, env, ch)
            case Halted => true
            case Fell(env', _) => Clean(env', params, strict)
            case Returned(v, _) => Good(v, strict)
    decreases k, 1, s
  {
    var out := Exec(prog, root, k, s, env, ch);
    match s
    case Decl(_, Some(e)) =>
      if !out.Halted? { ExprClean(prog, root, fs, k, e, params, strict, env, ch); }
    case Assign(_, e) =>
      if !out.Halted? { ExprClean(prog, root, fs, k, e, params, strict, env, ch); }
    case Return(e) =>
      if !out.Halted? { ExprClean(prog, root, fs, k, e, params, strict, env, ch); }
    case If(thn, els) =>
      if ch != [] {
        StmtClean(prog, root, fs, k, thn, params, strict, env, ch[1..]);
        if els.Some? { StmtClean(prog, root, fs, k, els.value, params, strict, env, ch[1..]); }
      }
    case Seq(s1, s2) =>
      StmtClean(prog, root, fs, k, s1, params, strict, env, ch);
      var out1 := Exec(prog, root, k, s1, env, ch);
      if out1.Fell? { StmtClean(prog, root, fs, k, s2, params, strict, out1.env, out1.rest); }
    case _ =>
  }

  lemma {:induction false} RunClean(prog: Program, root: FuncId, fs: set<FuncId>, k: nat, f: FuncId, strict: bool,
                                    args: seq<Val>, ch: seq<Choice>)
    requires Tracked(prog, root, fs, strict) && CalleeTracked(prog, root, fs, f, strict)
    requires RunFunc(prog, root, k, f, args, ch).Value?
    ensures Good(RunFunc(prog, root, k, f, args, ch).v, strict)
    decreases k, 2
  {
    if f in fs && f in prog && prog[f].returnsPointer && prog[f].body.Some? {
      var fn := prog[f];
      StmtClean(prog, root, fs, k, fn.body.value, ToSet(fn.params), strict, BindParams(fn.params, args), ch);
    }
  }

  /** Where no stored or returned variable on the way has its address taken, the exact limit holds for
      every run. */
  lemma UnexposedSound(prog: Program, fs: set<FuncId>, f: FuncId, k: nat, args: seq<Val>, ch: seq<Choice>)
    requires ProgramScoped(prog) && Tracked(prog, f, fs, false) && f in fs && f in prog
    requires RunFunc(prog, f, k, f, args, ch).Value?
    ensures RightExactly(RunFunc(prog, f, k, f, args, ch).v, GetAllocType(prog, f))
  {
    AllocTypeSound(prog, f, k, args, ch);
    RunClean(prog, f, fs, k, f, false, args, ch);
  }

  /** With nothing laundered on the way either, the answer is right for every run. */
  lemma TrackedProgramCorrect(prog: Program, fs: set<FuncId>, f: FuncId, k: nat, args: seq<Val>, ch: seq<Choice>)
    requires ProgramScoped(prog) && Tracked(prog, f, fs, true)
    requires f in fs && f in prog && prog[f].returnsPointer
    requires RunFunc(prog, f, k, f, args, ch).Value?
    ensures Correct(RunFunc(prog, f, k, f, args, ch).v, GetAllocType(prog, f))
  {
    AllocTypeSound(prog, f, k, args, ch);
    RunClean(prog, f, fs, k, f, true, args, ch);
  }
}
