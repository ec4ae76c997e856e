/** The answer of GetAllocType is not only right but the best there is: on acyclic call graphs it is
    the least answer that is right for every run. */
module AllocPrecision {
  import opened Wrappers
  import opened Ast
  import opened AllocSpec
  import opened AllocSoundness
  import opened AllocAcyclic

  // ----- the text -----

  predicate MayFall(s: Stmt) {
    match s
    case Return(_) => false
    case Seq(s1, s2) => MayFall(s1) && MayFall(s2)
    case If(thn, els) => MayFall(thn) || els.None? || MayFall(els.value)
    case _ => true
  }

  predicate MayReturn(s: Stmt) {
    match s
    case Return(_) => true
    case Seq(s1, s2) => MayReturn(s1) || (MayFall(s1) && MayReturn(s2))
    case If(thn, els) => MayReturn(thn) || (els.Some? && MayReturn(els.value))
    case _ => false
  }

  /** The variables that a statement stores to, apart from initialising them. */
  function Stored(s: Stmt): set<Var> {
    match s
    case Assign(x, _) => {x}
    case CompoundAssign(x) => {x}
    case Seq(s1, s2) => Stored(s1) + Stored(s2)
    case If(thn, els) => Stored(thn) + if els.Some? then Stored(els.value) else {}
    case _ => {}
  }

  /** No code is dead, and where a branch never falls out of an if that something follows (`last` is
      false), neither branch stores to a variable: the walk joins what that branch stored, although no run gets
      from there to what follows. */
  predicate Neat(s: Stmt, last: bool) {
    match s
    case Seq(s1, s2) => Neat(s1, false) && MayFall(s1) && Neat(s2, last)
    case If(thn, els) =>
      && Neat(thn, last) && (els.Some? ==> Neat(els.value, last))
      && (last || (MayFall(thn) && (els.Some? ==> MayFall(els.value))) || Stored(s) == {})
    case _ => true
  }

  /** The function is analysed by looking at its body. */
  predicate LookedInto(fn: Func) {
    fn.returnsPointer && fn.body.Some?
  }

  /** What is called has a rank below `n`, and can come back. */
  predicate CalleeOk(prog: Program, rank: Rank, f: FuncId, n: nat) {
    f in prog ==>
      && f in rank && rank[f] < n
      && (LookedInto(prog[f]) ==> prog[f].annotation == Unknown)
  }

  predicate ExprOk(prog: Program, rank: Rank, e: Expr, n: nat) {
    match e
    case PlacementNew(at) => ExprOk(prog, rank, at, n)
    case Call(f, args) => CalleeOk(prog, rank, f, n) && forall i :: 0 <= i < |args| ==> ExprOk(prog, rank, args[i], n)
    case IndirectCall(_, args) => forall i :: 0 <= i < |args| ==> ExprOk(prog, rank, args[i], n)
    case NewExpr(_, parts) => forall i :: 0 <= i < |parts| ==> ExprOk(prog, rank, parts[i], n)
    case OtherExpr(_, parts) => forall i :: 0 <= i < |parts| ==> ExprOk(prog, rank, parts[i], n)
    case _ => true
  }

  predicate StmtOk(prog: Program, rank: Rank, s: Stmt, n: nat) {
    match s
    case Decl(_, Some(e)) => ExprOk(prog, rank, e, n)
    case Assign(_, e) => ExprOk(prog, rank, e, n)
    case Return(e) => ExprOk(prog, rank, e, n)
    case Delete(e, _) => ExprOk(prog, rank, e, n)
    case Free(e) => ExprOk(prog, rank, e, n)
    case ExprStmt(e) => ExprOk(prog, rank, e, n)
    case If(thn, els) => StmtOk(prog, rank, thn, n) && (els.Some? ==> StmtOk(prog, rank, els.value, n))
    case Seq(s1, s2) => StmtOk(prog, rank, s1, n) && StmtOk(prog, rank, s2, n)
    case _ => true
  }

  predicate FuncNeat(prog: Program, rank: Rank, f: FuncId)
    requires f in prog
  {
    LookedInto(prog[f]) ==>
      && f in rank && StmtOk(prog, rank, prog[f].body.value, rank[f])
      && Neat(prog[f].body.value, true) && MayReturn(prog[f].body.value)
  }

  /** The function and those ranked below are neat. */
  predicate NeatText(prog: Program, rank: Rank, n: nat) {
    forall f :: f in prog && f in rank && rank[f] <= n ==> FuncNeat(prog, rank, f)
  }

  // ----- what runs can do -----

  /** The surroundings of a run inside a function of rank `n`: calls can be `k` deep. */
  datatype Scene = Scene(prog: Program, rank: Rank, root: FuncId, n: nat, k: nat)
  {
    ghost predicate Ok() {
      && Acyclic(prog, rank) && ProgramScoped(prog) && root in prog && n <= rank[root] && n < k
      && forall g :: g in prog && rank[g] < n ==> FuncBest(prog, rank, root, g)
    }

    /** The expression can come to `v`, whatever is to happen afterwards. */
    ghost predicate Comes(e: Expr, env: Env, v: Val) {
      v.way != Overwritten && forall more :: ComesBefore(e, env, v, more)
    }

    ghost predicate ComesBefore(e: Expr, env: Env, v: Val, more: seq<Choice>) {
      exists ch :: Eval(prog, root, k, e, env, ch) == Value(v, more)
    }

    ghost predicate ArgsCome(args: seq<Expr>, env: Env, vs: seq<Val>) {
      forall more :: ArgsComeBefore(args, env, vs, more)
    }

    ghost predicate ArgsComeBefore(args: seq<Expr>, env: Env, vs: seq<Val>, more: seq<Choice>) {
      exists ch :: EvalArgs(prog, root, k, args, env, ch) == Values(vs, more)
    }

    /** The statement can end in `env'`, or return `v`. */
    ghost predicate Falls(s: Stmt, env: Env, env': Env) {
      forall more :: FallsBefore(s, env, env', more)
    }

    ghost predicate FallsBefore(s: Stmt, env: Env, env': Env, more: seq<Choice>) {
      exists ch :: Exec(prog, root, k, s, env, ch) == Fell(env', more)
    }

    ghost predicate Gives(s: Stmt, env: Env, v: Val) {
      v.way != Overwritten && forall more :: GivesBefore(s, env, v, more)
    }

    ghost predicate GivesBefore(s: Stmt, env: Env, v: Val, more: seq<Choice>) {
      exists ch :: Exec(prog, root, k, s, env, ch) == Returned(v, more)
    }
  }

  /** A call of `f` can come to `v`. */
  ghost predicate Results(prog: Program, root: FuncId, k: nat, f: FuncId, args: seq<Val>, v: Val)
    requires f in prog
  {
    v.way != Overwritten && forall more :: ResultsBefore(prog, root, k, f, args, v, more)
  }

  ghost predicate ResultsBefore(prog: Program, root: FuncId, k: nat, f: FuncId, args: seq<Val>, v: Val,
                                more: seq<Choice>)
    requires f in prog
  {
    exists ch :: RunBody(prog, root, k, f, args, ch) == Value(v, more)
  }

  ghost predicate AllResultsBelow(prog: Program, root: FuncId, k: nat, f: FuncId, args: seq<Val>, c: Fact)
    requires f in prog
  {
    forall v :: Results(prog, root, k, f, args, v) ==> Below(Some(Visible(v)), c)
  }

  /** The summary of `f` is below every fact that all its results are below, and there are results. */
  ghost predicate FuncBest(prog: Program, rank: Rank, root: FuncId, f: FuncId)
    requires Acyclic(prog, rank) && f in prog
  {
    PlainFunc(prog, rank, f).Some? && forall k: nat, args :: k > rank[f] ==> BestAt(prog, rank, root, f, k, args)
  }

  ghost predicate BestAt(prog: Program, rank: Rank, root: FuncId, f: FuncId, k: nat, args: seq<Val>)
    requires Acyclic(prog, rank) && f in prog
  {
    && (exists v :: Results(prog, root, k, f, args, v))
    && forall c :: AllResultsBelow(prog, root, k, f, args, c) ==> Below(PlainFunc(prog, rank, f), c)
  }

  // ----- facts that are the best -----

  type Envs = iset<Env>

  ghost predicate AllBelow(envs: Envs, x: Var, c: Fact) {
    forall env :: env in envs ==> x in env && Below(Some(Visible(env[x])), c)
  }

  /** The facts are the least that cover all of these environments. */
  ghost predicate Best(envs: Envs, vars: Facts) {
    && (exists env :: env in envs)
    && (forall env :: env in envs ==> vars.Keys <= env.Keys && forall x :: x in env ==> env[x].way != Overwritten)
    && (forall x :: x in vars ==> vars[x].Some?)
    && forall x, c :: x in vars && AllBelow(envs, x, c) ==> Below(vars[x], c)
  }

  ghost function BestFacts(envs: Envs): iset<Facts> {
    iset vars | Best(envs, vars)
  }

  /** A value from outside can be anything. */
  lemma AnythingComes(prov: Provenance, way: Way, more: seq<Choice>) returns (ch: seq<Choice>)
    ensures Outside(ch, way) == Value(Val(prov, way), more)
  {
    ch := [Choice(true, Val(prov, way))] + more;
  }

  // ----- calls -----

  /** A call with arguments `vs` can come to `v`. */
  ghost predicate Answers(sc: Scene, f: FuncId, vs: seq<Val>, v: Val) {
    v.way != Overwritten && forall more :: AnswersBefore(sc, f, vs, v, more)
  }

  ghost predicate AnswersBefore(sc: Scene, f: FuncId, vs: seq<Val>, v: Val, more: seq<Choice>) {
    exists ch :: Called(sc, f, vs, ch) == Value(v, more)
  }

  function Called(sc: Scene, f: FuncId, vs: seq<Val>, ch: seq<Choice>): EvalOut {
    if sc.k == 0 then Stuck else RunFunc(sc.prog, sc.root, sc.k - 1, f, vs, ch)
  }

  predicate FromOutside(prog: Program, f: FuncId) {
    f !in prog || !LookedInto(prog[f])
  }

  /** How a pointer comes from a function that is not looked into, if no promise is made about it. */
  function OutsideWay(prog: Program, f: FuncId): Way {
    if f in prog && !prog[f].returnsPointer then Laundered else Followed
  }

  lemma OutsideAnswers(sc: Scene, f: FuncId, vs: seq<Val>, prov: Provenance)
    requires sc.k > 0 && f != sc.root && FromOutside(sc.prog, f)
    ensures var promise := if f in sc.prog then sc.prog[f].annotation else Unknown;
            Answers(sc, f, vs, if promise == Unknown then Val(prov, OutsideWay(sc.prog, f)) else Val(promise, Followed))
  {
    var promise := if f in sc.prog then sc.prog[f].annotation else Unknown;
    var v := if promise == Unknown then Val(prov, OutsideWay(sc.prog, f)) else Val(promise, Followed);
    forall more
      ensures AnswersBefore(sc, f, vs, v, more)
    {
      var ch := AnythingComes(v.prov, OutsideWay(sc.prog, f), more);
      if f in sc.prog {
        assert RunBody(sc.prog, sc.root, sc.k - 1, f, vs, ch) == Outside(ch, OutsideWay(sc.prog, f));
      }
      assert Called(sc, f, vs, ch) == Value(v, more);
    }
  }

  lemma InsideAnswers(sc: Scene, f: FuncId, vs: seq<Val>, v: Val)
    requires sc.k > 0 && f in sc.prog && f != sc.root && sc.prog[f].annotation == Unknown
    requires Results(sc.prog, sc.root, sc.k - 1, f, vs, v)
    ensures Answers(sc, f, vs, v)
  {
    forall more
      ensures AnswersBefore(sc, f, vs, v, more)
    {
      assert ResultsBefore(sc.prog, sc.root, sc.k - 1, f, vs, v, more);
      var ch :| RunBody(sc.prog, sc.root, sc.k - 1, f, vs, ch) == Value(v, more);
      assert Called(sc, f, vs, ch) == Value(v, more);
    }
  }

  ghost predicate AllAnswersBelow(sc: Scene, f: FuncId, vs: seq<Val>, c: Fact) {
    forall v :: Answers(sc, f, vs, v) ==> Below(Some(Visible(v)), c)
  }

  /** What the analysis says about a call. */
  function CallFact(sc: Scene, f: FuncId): Fact
    requires Acyclic(sc.prog, sc.rank)
  {
    if f !in sc.prog then Some(Unknown)
    else if sc.prog[f].annotation != Unknown then Some(sc.prog[f].annotation)
    else PlainFunc(sc.prog, sc.rank, f)
  }

  lemma CallAnswers(sc: Scene, f: FuncId, vs: seq<Val>)
    requires sc.Ok() && CalleeOk(sc.prog, sc.rank, f, sc.n)
    ensures CallFact(sc, f).Some? && exists v :: Answers(sc, f, vs, v)
    ensures forall c :: AllAnswersBelow(sc, f, vs, c) ==> Below(CallFact(sc, f), c)
  {
    if FromOutside(sc.prog, f) {
      OutsideAnswers(sc, f, vs, New);
      OutsideAnswers(sc, f, vs, Malloc);
    } else {
      assert FuncBest(sc.prog, sc.rank, sc.root, f);
      assert BestAt(sc.prog, sc.rank, sc.root, f, sc.k - 1, vs);
      forall v | Results(sc.prog, sc.root, sc.k - 1, f, vs, v)
        ensures Answers(sc, f, vs, v)
      {
        InsideAnswers(sc, f, vs, v);
      }
      var v :| Results(sc.prog, sc.root, sc.k - 1, f, vs, v);
      assert Answers(sc, f, vs, v);
      forall c | AllAnswersBelow(sc, f, vs, c)
        ensures AllResultsBelow(sc.prog, sc.root, sc.k - 1, f, vs, c)
      {
      }
    }
  }

  lemma CallComes(sc: Scene, f: FuncId, args: seq<Expr>, env: Env, vs: seq<Val>, v: Val)
    requires sc.ArgsCome(args, env, vs) && Answers(sc, f, vs, v)
    ensures sc.Comes(Call(f, args), env, v)
  {
    forall more
      ensures sc.ComesBefore(Call(f, args), env, v, more)
    {
      assert AnswersBefore(sc, f, vs, v, more);
      var rest :| Called(sc, f, vs, rest) == Value(v, more);
      assert sc.ArgsComeBefore(args, env, vs, rest);
      var ch :| EvalArgs(sc.prog, sc.root, sc.k, args, env, ch) == Values(vs, rest);
      assert Eval(sc.prog, sc.root, sc.k, Call(f, args), env, ch) == Value(v, more);
    }
  }

  // ----- other expressions -----

  /** The parts of an expression that is neither a direct call nor a leaf. */
  function Parts(e: Expr): seq<Expr> {
    match e
    case NewExpr(_, parts) => parts
    case OtherExpr(_, parts) => parts
    case IndirectCall(_, args) => args
    case _ => []
  }

  /** What such an expression can come to, when its parts are evaluated; `prov` where that is open. */
  function PartsValue(e: Expr, prov: Provenance): Val {
    match e
    case NewExpr(arr, _) => Val(if arr then NewArr else New, Followed)
    case IndirectCall(_, _) => Val(prov, Followed)
    case _ => Val(prov, Laundered)
  }

  lemma PartsCome(sc: Scene, e: Expr, env: Env, vs: seq<Val>, prov: Provenance)
    requires e.NewExpr? || e.OtherExpr? || e.IndirectCall?
    requires sc.ArgsCome(Parts(e), env, vs)
    ensures sc.Comes(e, env, PartsValue(e, prov))
  {
    var v := PartsValue(e, prov);
    forall more
      ensures sc.ComesBefore(e, env, v, more)
    {
      var rest := more;
      if !e.NewExpr? { rest := AnythingComes(prov, v.way, more); }
      assert sc.ArgsComeBefore(Parts(e), env, vs, rest);
      var ch :| EvalArgs(sc.prog, sc.root, sc.k, Parts(e), env, ch) == Values(vs, rest);
      assert Eval(sc.prog, sc.root, sc.k, e, env, ch) == Value(v, more);
    }
  }

  lemma PlacedComes(sc: Scene, at: Expr, env: Env, v: Val)
    requires sc.Comes(at, env, v)
    ensures sc.Comes(PlacementNew(at), env, Val(v.prov, Laundered))
  {
    forall more
      ensures sc.ComesBefore(PlacementNew(at), env, Val(v.prov, Laundered), more)
    {
      assert sc.ComesBefore(at, env, v, more);
      var ch :| Eval(sc.prog, sc.root, sc.k, at, env, ch) == Value(v, more);
      assert Eval(sc.prog, sc.root, sc.k, PlacementNew(at), env, ch) == Value(Val(v.prov, Laundered), more);
    }
  }

  /** An expression without parts. */
  predicate Leaf(e: Expr) {
    !e.PlacementNew? && !e.Call? && !e.NewExpr? && !e.OtherExpr? && !e.IndirectCall?
  }

  /** What it can come to, `prov` where that is open. */
  function LeafValue(e: Expr, env: Env, prov: Provenance): Val
    requires Leaf(e) && ExprScoped(e, env.Keys)
  {
    match e
    case OperatorNewCall(arr) => Val(if arr then OperatorNewArr else OperatorNew, Followed)
    case MallocCall => Val(Malloc, Followed)
    case NullLit => Val(Null, Followed)
    case Local(x) => env[x]
    case Exposed(x, _) => env[x]
    case Binding(_) => Val(prov, Followed)
    case _ => Val(prov, Laundered)
  }

  lemma LeafComes(sc: Scene, e: Expr, env: Env, prov: Provenance)
    requires Leaf(e) && ExprScoped(e, env.Keys) && LeafValue(e, env, prov).way != Overwritten
    ensures sc.Comes(e, env, LeafValue(e, env, prov))
  {
    var v := LeafValue(e, env, prov);
    forall more
      ensures sc.ComesBefore(e, env, v, more)
    {
      var ch := more;
      match e {
        case MallocCall => ch := [Choice(true, v)] + more;
        case Exposed(_, _) => ch := [Choice(false, v)] + more;
        case AddressOf(_, _) => ch := AnythingComes(prov, Laundered, more);
        case Global(_) => ch := AnythingComes(prov, Laundered, more);
        case Binding(_) => ch := AnythingComes(prov, Followed, more);
        case _ =>
      }
      assert Eval(sc.prog, sc.root, sc.k, e, env, ch) == Value(v, more);
    }
  }

  predicate CleanEnv(env: Env) {
    forall x :: x in env ==> env[x].way != Overwritten
  }

  /** Every expression can be evaluated. */
  lemma {:induction false} ExprComes(sc: Scene, e: Expr, env: Env) returns (v: Val)
    requires sc.Ok() && ExprOk(sc.prog, sc.rank, e, sc.n) && ExprScoped(e, env.Keys) && CleanEnv(env)
    ensures sc.Comes(e, env, v)
    decreases e
  {
    match e
    case PlacementNew(at) =>
      v := ExprComes(sc, at, env);
      PlacedComes(sc, at, env, v);
      v := Val(v.prov, Laundered);
    case Call(f, args) =>
      var vs := ArgsCanCome(sc, args, env);
      CallAnswers(sc, f, vs);
      v :| Answers(sc, f, vs, v);
      CallComes(sc, f, args, env, vs, v);
    case NewExpr(_, parts) => v := PartsCanCome(sc, e, env, New);
    case OtherExpr(_, parts) => v := PartsCanCome(sc, e, env, New);
    case IndirectCall(_, args) => v := PartsCanCome(sc, e, env, New);
    case _ =>
      LeafComes(sc, e, env, New);
      v := LeafValue(e, env, New);
  }

  lemma {:induction false} PartsCanCome(sc: Scene, e: Expr, env: Env, prov: Provenance) returns (v: Val)
    requires sc.Ok() && ExprOk(sc.prog, sc.rank, e, sc.n) && ExprScoped(e, env.Keys) && CleanEnv(env)
    requires e.NewExpr? || e.OtherExpr? || e.IndirectCall?
    ensures v == PartsValue(e, prov) && sc.Comes(e, env, v)
    decreases e, 0
  {
    var vs := ArgsCanCome(sc, Parts(e), env);
    PartsCome(sc, e, env, vs, prov);
    v := PartsValue(e, prov);
  }

  lemma {:induction false} ArgsCanCome(sc: Scene, args: seq<Expr>, env: Env) returns (vs: seq<Val>)
    requires sc.Ok() && CleanEnv(env)
    requires forall i :: 0 <= i < |args| ==> ExprOk(sc.prog, sc.rank, args[i], sc.n) && ExprScoped(args[i], env.Keys)
    ensures sc.ArgsCome(args, env, vs)
    decreases args
  {
    if args == [] {
      vs := [];
      forall more
        ensures sc.ArgsComeBefore(args, env, vs, more)
      {
        assert EvalArgs(sc.prog, sc.root, sc.k, args, env, more) == Values(vs, more);
      }
    } else {
      var v := ExprComes(sc, args[0], env);
      var rest := ArgsCanCome(sc, args[1..], env);
      vs := [v] + rest;
      forall more
        ensures sc.ArgsComeBefore(args, env, vs, more)
      {
        assert sc.ArgsComeBefore(args[1..], env, rest, more);
        var ch1 :| EvalArgs(sc.prog, sc.root, sc.k, args[1..], env, ch1) == Values(rest, more);
        assert sc.ComesBefore(args[0], env, v, ch1);
        var ch :| Eval(sc.prog, sc.root, sc.k, args[0], env, ch) == Value(v, ch1);
        assert EvalArgs(sc.prog, sc.root, sc.k, args, env, ch) == Values(vs, more);
      }
    }
  }

  // ----- the facts of expressions -----

  ghost predicate AllComeBelow(sc: Scene, e: Expr, envs: Envs, c: Fact) {
    forall env, v :: env in envs && sc.Comes(e, env, v) ==> Below(Some(Visible(v)), c)
  }

  /** The fact of the expression is the best that can be said about it. */
  ghost predicate ExprBest(sc: Scene, e: Expr, envs: Envs, a: Fact) {
    && a.Some?
    && (forall env :: env in envs ==> exists v :: sc.Comes(e, env, v))
    && forall c :: AllComeBelow(sc, e, envs, c) ==> Below(a, c)
  }

  lemma FactIsBest(sc: Scene, e: Expr, envs: Envs, vars: Facts)
    requires sc.Ok() && ExprOk(sc.prog, sc.rank, e, sc.n) && ExprBelow(sc.prog, sc.rank, e, sc.n)
    requires Best(envs, vars) && ExprScoped(e, vars.Keys)
    ensures ExprBest(sc, e, envs, PlainExpr(sc.prog, sc.rank, e, vars, sc.n))
  {
    forall env | env in envs
      ensures exists v :: sc.Comes(e, env, v)
    {
      ScopedMore(e, vars.Keys, env.Keys);
      var v := ExprComes(sc, e, env);
    }
    var env :| env in envs;
    ScopedMore(e, vars.Keys, env.Keys);
    if e.Local? || e.Exposed? {
      VarIsBest(sc, e, e.x, envs, vars);
    } else if e.Call? {
      CallIsBest(sc, e.callee, e.args, env, envs);
    } else {
      OtherIsBest(sc, e, env, envs, vars);
    }
  }

  lemma OtherIsBest(sc: Scene, e: Expr, env: Env, envs: Envs, vars: Facts)
    requires sc.Ok() && ExprOk(sc.prog, sc.rank, e, sc.n) && !e.Local? && !e.Exposed? && !e.Call?
    requires env in envs && ExprScoped(e, env.Keys) && CleanEnv(env)
    ensures var a := PlainExpr(sc.prog, sc.rank, e, vars, sc.n);
            a.Some? && forall c :: AllComeBelow(sc, e, envs, c) ==> Below(a, c)
  {
    if e.PlacementNew? {
      var v := ExprComes(sc, e.at, env);
      PlacedComes(sc, e.at, env, v);
    } else if Leaf(e) {
      LeafComes(sc, e, env, New);
      LeafComes(sc, e, env, Malloc);
    } else {
      var v1 := PartsCanCome(sc, e, env, New);
      var v2 := PartsCanCome(sc, e, env, Malloc);
    }
  }

  lemma {:induction false} ScopedMore(e: Expr, scope: set<Var>, more: set<Var>)
    requires ExprScoped(e, scope) && scope <= more
    ensures ExprScoped(e, more)
    decreases e
  {
    match e
    case PlacementNew(at) => ScopedMore(at, scope, more);
    case Call(_, args) => forall i | 0 <= i < |args| { ScopedMore(args[i], scope, more); }
    case IndirectCall(_, args) => forall i | 0 <= i < |args| { ScopedMore(args[i], scope, more); }
    case NewExpr(_, parts) => forall i | 0 <= i < |parts| { ScopedMore(parts[i], scope, more); }
    case OtherExpr(_, parts) => forall i | 0 <= i < |parts| { ScopedMore(parts[i], scope, more); }
    case _ =>
  }

  lemma VarIsBest(sc: Scene, e: Expr, x: Var, envs: Envs, vars: Facts)
    requires Best(envs, vars) && x in vars && (e == Local(x) || (e.Exposed? && e.x == x))
    ensures forall c :: AllComeBelow(sc, e, envs, c) ==> Below(vars[x], c)
  {
    forall env | env in envs
      ensures x in env && sc.Comes(e, env, env[x])
    {
      LeafComes(sc, e, env, New);
    }
    forall c | AllComeBelow(sc, e, envs, c)
      ensures AllBelow(envs, x, c)
    {
      forall env | env in envs
        ensures x in env && Below(Some(Visible(env[x])), c)
      {
        assert sc.Comes(e, env, env[x]);
      }
    }
  }

  lemma CallIsBest(sc: Scene, f: FuncId, args: seq<Expr>, env: Env, envs: Envs)
    requires sc.Ok() && ExprOk(sc.prog, sc.rank, Call(f, args), sc.n)
    requires env in envs && ExprScoped(Call(f, args), env.Keys) && CleanEnv(env)
    ensures CallFact(sc, f).Some?
    ensures forall c :: AllComeBelow(sc, Call(f, args), envs, c) ==> Below(CallFact(sc, f), c)
  {
    var vs := ArgsCanCome(sc, args, env);
    CallAnswers(sc, f, vs);
    forall c | AllComeBelow(sc, Call(f, args), envs, c)
      ensures AllAnswersBelow(sc, f, vs, c)
    {
      forall v | Answers(sc, f, vs, v)
        ensures Below(Some(Visible(v)), c)
      {
        CallComes(sc, f, args, env, vs, v);
      }
    }
  }

  // ----- statements -----

  /** What the statement can end in. */
  ghost function After(sc: Scene, s: Stmt, envs: Envs): Envs {
    iset env' | FallsFrom(sc, s, envs, env')
  }

  ghost predicate FallsFrom(sc: Scene, s: Stmt, envs: Envs, env': Env) {
    exists env :: env in envs && sc.Falls(s, env, env')
  }

  ghost predicate AllGivenBelow(sc: Scene, s: Stmt, envs: Envs, c: Fact) {
    forall env, v :: env in envs && sc.Gives(s, env, v) ==> Below(Some(Visible(v)), c)
  }

  ghost predicate CanGive(sc: Scene, s: Stmt, envs: Envs) {
    exists env, v :: env in envs && sc.Gives(s, env, v)
  }

  predicate UpTo(a: Fact, c: Fact) {
    a.None? || Below(a, c)
  }

  /** The combined result grows from `a` to `a'` by no more than what the statement can return. */
  ghost predicate ResultBest(sc: Scene, s: Stmt, envs: Envs, a: Fact, a': Fact) {
    && (forall c :: UpTo(a, c) && AllGivenBelow(sc, s, envs, c) ==> UpTo(a', c))
    && (MayReturn(s) ==> CanGive(sc, s, envs) && a'.Some?)
  }

  /** What can be stored: an environment before, and a value. */
  type Stores = iset<(Env, Val)>

  function Put(p: (Env, Val), x: Var): Env {
    p.0[x := p.1]
  }

  ghost predicate StoresOf(envs: Envs, can: Stores) {
    && (forall p :: p in can ==> p.0 in envs && p.1.way != Overwritten)
    && forall env :: env in envs ==> exists v :: (env, v) in can
  }

  ghost predicate AllStoresBelow(can: Stores, c: Fact) {
    forall p :: p in can ==> Below(Some(Visible(p.1)), c)
  }

  lemma StoredIsBest(envs: Envs, x: Var, can: Stores, vars: Facts, a: Fact) returns (envs': Envs)
    requires Best(envs, vars) && StoresOf(envs, can) && a.Some?
    requires forall c :: AllStoresBelow(can, c) ==> Below(a, c)
    ensures envs' == (iset p | p in can :: Put(p, x)) && Best(envs', vars[x := a])
  {
    envs' := iset p | p in can :: Put(p, x);
    var env0 :| env0 in envs;
    var v0 :| (env0, v0) in can;
    assert Put((env0, v0), x) in envs';
    forall y, c | y in vars[x := a] && AllBelow(envs', y, c)
      ensures Below(vars[x := a][y], c)
    {
      if y == x {
        NewIsBelow(can, x, envs', c);
      } else {
        OthersStayBelow(envs, x, can, envs', y, c);
      }
    }
  }

  lemma NewIsBelow(can: Stores, x: Var, envs': Envs, c: Fact)
    requires envs' == (iset p | p in can :: Put(p, x)) && AllBelow(envs', x, c)
    ensures AllStoresBelow(can, c)
  {
    forall p | p in can
      ensures Below(Some(Visible(p.1)), c)
    {
      assert Put(p, x) in envs' && Put(p, x)[x] == p.1;
    }
  }

  lemma OthersStayBelow(envs: Envs, x: Var, can: Stores, envs': Envs, y: Var, c: Fact)
    requires StoresOf(envs, can) && x != y
    requires envs' == (iset p | p in can :: Put(p, x)) && AllBelow(envs', y, c)
    ensures AllBelow(envs, y, c)
  {
    forall env | env in envs
      ensures y in env && Below(Some(Visible(env[y])), c)
    {
      var v :| (env, v) in can;
      assert Put((env, v), x) in envs';
    }
  }

  /** Storing what an expression can come to. */
  lemma StoreBest(sc: Scene, s: Stmt, x: Var, e: Expr, envs: Envs, vars: Facts, a: Fact) returns (envs': Envs)
    requires s == Decl(x, Some(e)) || s == Assign(x, e)
    requires Best(envs, vars) && ExprBest(sc, e, envs, a)
    ensures envs' <= After(sc, s, envs) && Best(envs', vars[x := a])
  {
    var can := iset env: Env, v | env in envs && sc.Comes(e, env, v) :: (env, v);
    forall c | AllStoresBelow(can, c)
      ensures AllComeBelow(sc, e, envs, c)
    {
      forall env, v | env in envs && sc.Comes(e, env, v)
        ensures Below(Some(Visible(v)), c)
      {
        assert (env, v) in can;
      }
    }
    forall env | env in envs
      ensures exists v :: (env, v) in can
    {
      var v :| sc.Comes(e, env, v);
      assert (env, v) in can;
    }
    envs' := StoredIsBest(envs, x, can, vars, a);
    forall p | p in can
      ensures sc.Falls(s, p.0, Put(p, x))
    {
      forall more
        ensures sc.FallsBefore(s, p.0, Put(p, x), more)
      {
        assert sc.ComesBefore(e, p.0, p.1, more);
        var ch :| Eval(sc.prog, sc.root, sc.k, e, p.0, ch) == Value(p.1, more);
        assert Exec(sc.prog, sc.root, sc.k, s, p.0, ch) == Fell(Put(p, x), more);
      }
    }
  }

  /** Storing one of two values. */
  lemma EitherBest(envs: Envs, x: Var, v1: Val, v2: Val, vars: Facts, a: Fact) returns (can: Stores, envs': Envs)
    requires Best(envs, vars) && v1.way != Overwritten && v2.way != Overwritten && a.Some?
    requires forall c :: Below(Some(Visible(v1)), c) && Below(Some(Visible(v2)), c) ==> Below(a, c)
    ensures envs' == (iset p | p in can :: Put(p, x)) && Best(envs', vars[x := a])
    ensures forall p :: p in can ==> p.0 in envs && (p.1 == v1 || p.1 == v2)
  {
    can := (iset env: Env | env in envs :: (env, v1)) + (iset env: Env | env in envs :: (env, v2));
    forall env | env in envs
      ensures (env, v1) in can && (env, v2) in can
    {
    }
    var env0 :| env0 in envs;
    forall c | AllStoresBelow(can, c)
      ensures Below(a, c)
    {
      assert (env0, v1) in can && (env0, v2) in can;
    }
    envs' := StoredIsBest(envs, x, can, vars, a);
  }

  /** Declaring without a value, and moving a pointer, after which it can be anything. */
  lemma SetBest(sc: Scene, s: Stmt, envs: Envs, vars: Facts) returns (envs': Envs)
    requires (s.CompoundAssign? || (s.Decl? && s.init.None?)) && Best(envs, vars)
    ensures envs' <= After(sc, s, envs) && Best(envs', vars[s.x := if s.Decl? then Some(NoAlloc) else Some(Unknown)])
  {
    var can;
    if s.Decl? {
      can, envs' := EitherBest(envs, s.x, Val(NoAlloc, Followed), Val(NoAlloc, Followed), vars, Some(NoAlloc));
    } else {
      can, envs' := EitherBest(envs, s.x, Val(New, Followed), Val(Malloc, Followed), vars, Some(Unknown));
    }
    forall p | p in can
      ensures sc.Falls(s, p.0, Put(p, s.x))
    {
      forall more
        ensures sc.FallsBefore(s, p.0, Put(p, s.x), more)
      {
        var ch := if s.Decl? then more else [Choice(true, p.1)] + more;
        assert Exec(sc.prog, sc.root, sc.k, s, p.0, ch) == Fell(Put(p, s.x), more);
      }
    }
  }

  /** Evaluating without storing. */
  lemma ReadFalls(sc: Scene, s: Stmt, e: Expr, env: Env, v: Val)
    requires s == ExprStmt(e) || s == Free(e) || (s.Delete? && s.e == e)
    requires sc.Comes(e, env, v)
    ensures sc.Falls(s, env, env)
  {
    forall more
      ensures sc.FallsBefore(s, env, env, more)
    {
      assert sc.ComesBefore(e, env, v, more);
      var ch :| Eval(sc.prog, sc.root, sc.k, e, env, ch) == Value(v, more);
      assert Exec(sc.prog, sc.root, sc.k, s, env, ch) == Fell(env, more);
    }
  }

  lemma ReturnGives(sc: Scene, e: Expr, env: Env, v: Val)
    requires sc.Comes(e, env, v)
    ensures sc.Gives(Return(e), env, v)
  {
    forall more
      ensures sc.GivesBefore(Return(e), env, v, more)
    {
      assert sc.ComesBefore(e, env, v, more);
      var ch :| Eval(sc.prog, sc.root, sc.k, e, env, ch) == Value(v, more);
      assert Exec(sc.prog, sc.root, sc.k, Return(e), env, ch) == Returned(v, more);
    }
  }

  lemma ReturnBest(sc: Scene, e: Expr, envs: Envs, result: Fact, a: Fact)
    requires ExprBest(sc, e, envs, a) && exists env :: env in envs
    ensures ResultBest(sc, Return(e), envs, result, AddReturn(result, a))
  {
    forall env, v | env in envs && sc.Comes(e, env, v)
      ensures sc.Gives(Return(e), env, v)
    {
      ReturnGives(sc, e, env, v);
    }
    var env :| env in envs;
    var v :| sc.Comes(e, env, v);
    forall c | UpTo(result, c) && AllGivenBelow(sc, Return(e), envs, c)
      ensures UpTo(AddReturn(result, a), c)
    {
      assert AllComeBelow(sc, e, envs, c);
      if result.Some? { JoinIsLeastUpperBound(result, a, c); }
    }
  }

  // ----- branches and sequences -----

  lemma {:induction false} PlainKeepsScope(prog: Program, rank: Rank, s: Stmt, st: Plain, n: nat)
    requires Acyclic(prog, rank) && StmtBelow(prog, rank, s, n) && Scoped(s, st.vars.Keys)
    ensures var vars := PlainStmt(prog, rank, s, st, n).vars;
            && vars.Keys == ScopeAfter(s, st.vars.Keys)
            && (Stored(s) == {} ==> forall x :: x in st.vars ==> vars[x] == st.vars[x])
    decreases s
  {
    match s
    case Seq(s1, s2) =>
      PlainKeepsScope(prog, rank, s1, st, n);
      PlainKeepsScope(prog, rank, s2, PlainStmt(prog, rank, s1, st, n), n);
    case If(thn, els) =>
      PlainKeepsScope(prog, rank, thn, st, n);
      if els.Some? {
        PlainKeepsScope(prog, rank, els.value, Plain(st.vars, PlainStmt(prog, rank, thn, st, n).result), n);
      }
    case _ =>
  }

  /** The facts after an if cover what either branch ends in. */
  lemma JoinBest(envs1: Envs, envs2: Envs, vars1: Facts, vars2: Facts, vars: Facts)
    requires vars1 in BestFacts(envs1) && vars2 in BestFacts(envs2) && vars.Keys <= vars1.Keys * vars2.Keys
    requires forall x :: x in vars ==> vars[x] == Join(vars1[x], vars2[x])
    ensures vars in BestFacts(envs1 + envs2)
  {
    forall x, c | x in vars && AllBelow(envs1 + envs2, x, c)
      ensures Below(vars[x], c)
    {
      assert AllBelow(envs1, x, c) && AllBelow(envs2, x, c);
      JoinIsLeastUpperBound(vars1[x], vars2[x], c);
    }
  }

  function Branch(s: Stmt, b: bool): Stmt
    requires s.If?
  {
    if b then s.thn else if s.els.Some? then s.els.value else Skip
  }

  /** Taking a branch. */
  lemma BranchRuns(sc: Scene, s: Stmt, b: bool, env: Env)
    requires s.If?
    ensures forall env' :: sc.Falls(Branch(s, b), env, env') ==> sc.Falls(s, env, env')
    ensures forall v :: sc.Gives(Branch(s, b), env, v) ==> sc.Gives(s, env, v)
  {
    var br := Branch(s, b);
    forall env', more | sc.Falls(br, env, env')
      ensures sc.FallsBefore(s, env, env', more)
    {
      assert sc.FallsBefore(br, env, env', more);
      var ch :| Exec(sc.prog, sc.root, sc.k, br, env, ch) == Fell(env', more);
      assert Exec(sc.prog, sc.root, sc.k, s, env, [Choice(b, Val(Null, Followed))] + ch) == Fell(env', more);
    }
    forall v, more | sc.Gives(br, env, v)
      ensures sc.GivesBefore(s, env, v, more)
    {
      assert sc.GivesBefore(br, env, v, more);
      var ch :| Exec(sc.prog, sc.root, sc.k, br, env, ch) == Returned(v, more);
      assert Exec(sc.prog, sc.root, sc.k, s, env, [Choice(b, Val(Null, Followed))] + ch) == Returned(v, more);
    }
  }

  lemma SeqFalls(sc: Scene, s1: Stmt, s2: Stmt, env: Env, env1: Env, env2: Env)
    requires sc.Falls(s1, env, env1) && sc.Falls(s2, env1, env2)
    ensures sc.Falls(Seq(s1, s2), env, env2)
  {
    forall more
      ensures sc.FallsBefore(Seq(s1, s2), env, env2, more)
    {
      assert sc.FallsBefore(s2, env1, env2, more);
      var rest :| Exec(sc.prog, sc.root, sc.k, s2, env1, rest) == Fell(env2, more);
      assert sc.FallsBefore(s1, env, env1, rest);
      var ch :| Exec(sc.prog, sc.root, sc.k, s1, env, ch) == Fell(env1, rest);
      assert Exec(sc.prog, sc.root, sc.k, Seq(s1, s2), env, ch) == Fell(env2, more);
    }
  }

  lemma FirstGives(sc: Scene, s1: Stmt, s2: Stmt, env: Env, v: Val)
    requires sc.Gives(s1, env, v)
    ensures sc.Gives(Seq(s1, s2), env, v)
  {
    forall more
      ensures sc.GivesBefore(Seq(s1, s2), env, v, more)
    {
      assert sc.GivesBefore(s1, env, v, more);
      var ch :| Exec(sc.prog, sc.root, sc.k, s1, env, ch) == Returned(v, more);
      assert Exec(sc.prog, sc.root, sc.k, Seq(s1, s2), env, ch) == Returned(v, more);
    }
  }

  lemma SecondGives(sc: Scene, s1: Stmt, s2: Stmt, env: Env, env1: Env, v: Val)
    requires sc.Falls(s1, env, env1) && sc.Gives(s2, env1, v)
    ensures sc.Gives(Seq(s1, s2), env, v)
  {
    forall more
      ensures sc.GivesBefore(Seq(s1, s2), env, v, more)
    {
      assert sc.GivesBefore(s2, env1, v, more);
      var rest :| Exec(sc.prog, sc.root, sc.k, s2, env1, rest) == Returned(v, more);
      assert sc.FallsBefore(s1, env, env1, rest);
      var ch :| Exec(sc.prog, sc.root, sc.k, s1, env, ch) == Fell(env1, rest);
      assert Exec(sc.prog, sc.root, sc.k, Seq(s1, s2), env, ch) == Returned(v, more);
    }
  }

  /** What one statement reaches and returns, and then the next. */
  lemma SeqReaches(sc: Scene, s1: Stmt, s2: Stmt, envs: Envs, envs1: Envs, envs2: Envs)
    requires envs1 <= After(sc, s1, envs) && envs2 <= After(sc, s2, envs1)
    ensures envs2 <= After(sc, Seq(s1, s2), envs)
  {
    forall env2 | env2 in envs2
      ensures exists env :: env in envs && sc.Falls(Seq(s1, s2), env, env2)
    {
      var env1 :| env1 in envs1 && sc.Falls(s2, env1, env2);
      var env :| env in envs && sc.Falls(s1, env, env1);
      SeqFalls(sc, s1, s2, env, env1, env2);
    }
  }

  lemma SeqResult(sc: Scene, s1: Stmt, s2: Stmt, envs: Envs, envs1: Envs, a: Fact, a1: Fact, a2: Fact)
    requires envs1 <= After(sc, s1, envs) && MayFall(s1)
    requires ResultBest(sc, s1, envs, a, a1) && ResultBest(sc, s2, envs1, a1, a2) && (a1.Some? ==> a2.Some?)
    ensures ResultBest(sc, Seq(s1, s2), envs, a, a2)
  {
    forall env, v | env in envs && sc.Gives(s1, env, v)
      ensures sc.Gives(Seq(s1, s2), env, v)
    {
      FirstGives(sc, s1, s2, env, v);
    }
    forall env1, v | env1 in envs1 && sc.Gives(s2, env1, v)
      ensures exists env :: env in envs && sc.Gives(Seq(s1, s2), env, v)
    {
      var env :| env in envs && sc.Falls(s1, env, env1);
      SecondGives(sc, s1, s2, env, env1, v);
    }
    forall c | UpTo(a, c) && AllGivenBelow(sc, Seq(s1, s2), envs, c)
      ensures UpTo(a2, c)
    {
      assert AllGivenBelow(sc, s1, envs, c);
      assert AllGivenBelow(sc, s2, envs1, c);
    }
    if MayReturn(s1) {
      var env, v :| env in envs && sc.Gives(s1, env, v);
      assert sc.Gives(Seq(s1, s2), env, v);
    } else if MayReturn(s2) {
      var env1, v :| env1 in envs1 && sc.Gives(s2, env1, v);
    }
  }

  lemma BranchReaches(sc: Scene, s: Stmt, b: bool, envs: Envs, envs': Envs)
    requires s.If? && envs' <= After(sc, Branch(s, b), envs)
    ensures envs' <= After(sc, s, envs)
  {
    forall env' | env' in envs'
      ensures exists env :: env in envs && sc.Falls(s, env, env')
    {
      var env :| env in envs && sc.Falls(Branch(s, b), env, env');
      BranchRuns(sc, s, b, env);
    }
  }

  lemma IfResult(sc: Scene, s: Stmt, envs: Envs, a: Fact, a1: Fact, a2: Fact)
    requires s.If? && (a1.Some? ==> a2.Some?)
    requires ResultBest(sc, s.thn, envs, a, a1)
    requires if s.els.Some? then ResultBest(sc, s.els.value, envs, a1, a2) else a2 == a1
    ensures ResultBest(sc, s, envs, a, a2)
  {
    forall b, env, v | env in envs && sc.Gives(Branch(s, b), env, v)
      ensures sc.Gives(s, env, v)
    {
      BranchRuns(sc, s, b, env);
    }
    forall c | UpTo(a, c) && AllGivenBelow(sc, s, envs, c)
      ensures UpTo(a2, c)
    {
      forall env, v | env in envs && sc.Gives(s.thn, env, v)
        ensures Below(Some(Visible(v)), c)
      {
        assert sc.Gives(Branch(s, true), env, v);
      }
      assert AllGivenBelow(sc, s.thn, envs, c);
      if s.els.Some? {
        forall env, v | env in envs && sc.Gives(s.els.value, env, v)
          ensures Below(Some(Visible(v)), c)
        {
          assert sc.Gives(Branch(s, false), env, v);
        }
        assert AllGivenBelow(sc, s.els.value, envs, c);
      }
    }
    if MayReturn(s.thn) {
      var env, v :| env in envs && sc.Gives(s.thn, env, v);
      BranchRuns(sc, s, true, env);
      assert Branch(s, true) == s.thn && sc.Gives(s, env, v);
    } else if MayReturn(s) {
      var env, v :| env in envs && sc.Gives(s.els.value, env, v);
      BranchRuns(sc, s, false, env);
      assert Branch(s, false) == s.els.value && sc.Gives(s, env, v);
    }
  }

  /** The statement, walked over with the facts `st`, and the environments that they are best for. */
  ghost predicate Walked(sc: Scene, s: Stmt, st: Plain, envs: Envs) {
    && sc.Ok() && StmtOk(sc.prog, sc.rank, s, sc.n) && StmtBelow(sc.prog, sc.rank, s, sc.n)
    && Scoped(s, st.vars.Keys) && st.vars in BestFacts(envs)
  }

  /** The walk goes on with facts that are best for what runs can reach. */
  ghost predicate Ends(sc: Scene, s: Stmt, st: Plain, envs: Envs, last: bool, envs': Envs) {
    && Acyclic(sc.prog, sc.rank) && StmtBelow(sc.prog, sc.rank, s, sc.n)
    && var r := PlainStmt(sc.prog, sc.rank, s, st, sc.n);
    && envs' <= After(sc, s, envs) && (!last && MayFall(s) ==> r.vars in BestFacts(envs'))
    && ResultBest(sc, s, envs, st.result, r.result) && (st.result.Some? ==> r.result.Some?)
  }

  lemma {:induction false} StmtBest(sc: Scene, s: Stmt, st: Plain, envs: Envs, last: bool) returns (envs': Envs)
    requires Walked(sc, s, st, envs) && Neat(s, last)
    ensures Ends(sc, s, st, envs, last, envs')
    decreases s
  {
    if s.Seq? {
      envs' := SeqBest(sc, s.s1, s.s2, st, envs, last);
    } else if s.If? {
      envs' := IfBest(sc, s, st, envs, last);
    } else {
      envs' := LeafBest(sc, s, st, envs, last);
    }
  }

  lemma LeafBest(sc: Scene, s: Stmt, st: Plain, envs: Envs, last: bool) returns (envs': Envs)
    requires Walked(sc, s, st, envs) && !s.Seq? && !s.If?
    ensures Ends(sc, s, st, envs, last, envs')
  {
    if s.Skip? {
      envs' := envs;
      SkipBest(sc, st, envs, last);
    } else if s.CompoundAssign? || (s.Decl? && s.init.None?) {
      envs' := SetStmtBest(sc, s, st, envs, last);
    } else if s.Decl? {
      envs' := StoreStmtBest(sc, s, s.x, s.init.value, st, envs, last);
    } else if s.Assign? {
      envs' := StoreStmtBest(sc, s, s.x, s.e, st, envs, last);
    } else if s.Return? {
      envs' := iset{};
      ReturnStmtBest(sc, s.e, st, envs, last);
    } else {
      envs' := envs;
      ReadBest(sc, s, st, envs, last);
    }
  }

  lemma SkipReaches(sc: Scene, envs: Envs)
    ensures envs <= After(sc, Skip, envs)
  {
    forall env, more | env in envs
      ensures sc.FallsBefore(Skip, env, env, more)
    {
      assert Exec(sc.prog, sc.root, sc.k, Skip, env, more) == Fell(env, more);
    }
  }

  lemma SkipBest(sc: Scene, st: Plain, envs: Envs, last: bool)
    requires Acyclic(sc.prog, sc.rank) && st.vars in BestFacts(envs)
    ensures Ends(sc, Skip, st, envs, last, envs)
  {
    SkipReaches(sc, envs);
  }

  lemma ReadReaches(sc: Scene, s: Stmt, e: Expr, envs: Envs, vars: Facts)
    requires s == ExprStmt(e) || s == Free(e) || (s.Delete? && s.e == e)
    requires sc.Ok() && ExprOk(sc.prog, sc.rank, e, sc.n) && ExprScoped(e, vars.Keys) && Best(envs, vars)
    ensures envs <= After(sc, s, envs)
  {
    forall env | env in envs
      ensures sc.Falls(s, env, env)
    {
      ScopedMore(e, vars.Keys, env.Keys);
      var v := ExprComes(sc, e, env);
      ReadFalls(sc, s, e, env, v);
    }
  }

  lemma ReadBest(sc: Scene, s: Stmt, st: Plain, envs: Envs, last: bool)
    requires (s.Delete? || s.Free? || s.ExprStmt?) && Walked(sc, s, st, envs)
    ensures Ends(sc, s, st, envs, last, envs)
  {
    ReadReaches(sc, s, s.e, envs, st.vars);
  }

  lemma SetStmtBest(sc: Scene, s: Stmt, st: Plain, envs: Envs, last: bool) returns (envs': Envs)
    requires (s.CompoundAssign? || (s.Decl? && s.init.None?)) && Walked(sc, s, st, envs)
    ensures Ends(sc, s, st, envs, last, envs')
  {
    envs' := SetBest(sc, s, envs, st.vars);
  }

  lemma StoreStmtBest(sc: Scene, s: Stmt, x: Var, e: Expr, st: Plain, envs: Envs, last: bool) returns (envs': Envs)
    requires (s == Decl(x, Some(e)) || s == Assign(x, e)) && Walked(sc, s, st, envs)
    ensures Ends(sc, s, st, envs, last, envs')
  {
    FactIsBest(sc, e, envs, st.vars);
    envs' := StoreBest(sc, s, x, e, envs, st.vars, PlainExpr(sc.prog, sc.rank, e, st.vars, sc.n));
  }

  lemma ReturnStmtBest(sc: Scene, e: Expr, st: Plain, envs: Envs, last: bool)
    requires Walked(sc, Return(e), st, envs)
    ensures Ends(sc, Return(e), st, envs, last, iset{})
  {
    FactIsBest(sc, e, envs, st.vars);
    ReturnBest(sc, e, envs, st.result, PlainExpr(sc.prog, sc.rank, e, st.vars, sc.n));
  }

  lemma {:induction false} SeqBest(sc: Scene, s1: Stmt, s2: Stmt, st: Plain, envs: Envs, last: bool)
    returns (envs': Envs)
    requires Walked(sc, Seq(s1, s2), st, envs) && Neat(Seq(s1, s2), last)
    ensures Ends(sc, Seq(s1, s2), st, envs, last, envs')
    decreases Seq(s1, s2), 0
  {
    var r1 := PlainStmt(sc.prog, sc.rank, s1, st, sc.n);
    var envs1 := StmtBest(sc, s1, st, envs, false);
    PlainKeepsScope(sc.prog, sc.rank, s1, st, sc.n);
    envs' := StmtBest(sc, s2, r1, envs1, last);
    SeqReaches(sc, s1, s2, envs, envs1, envs');
    SeqResult(sc, s1, s2, envs, envs1, st.result, r1.result, PlainStmt(sc.prog, sc.rank, s2, r1, sc.n).result);
  }

  lemma {:induction false} IfBest(sc: Scene, s: Stmt, st: Plain, envs: Envs, last: bool) returns (envs': Envs)
    requires s.If? && Walked(sc, s, st, envs) && Neat(s, last)
    ensures Ends(sc, s, st, envs, last, envs')
    decreases s, 0
  {
    var st2 := Plain(st.vars, PlainStmt(sc.prog, sc.rank, s.thn, st, sc.n).result);
    var envs1 := StmtBest(sc, s.thn, st, envs, last);
    var envs2 := envs;
    if s.els.Some? {
      envs2 := StmtBest(sc, s.els.value, st2, envs, last);
    } else {
      SkipBest(sc, st2, envs, last);
    }
    envs' := IfEnds(sc, s, st, envs, last, envs1, envs2);
  }

  lemma IfEnds(sc: Scene, s: Stmt, st: Plain, envs: Envs, last: bool, envs1: Envs, envs2: Envs) returns (envs': Envs)
    requires s.If? && Walked(sc, s, st, envs) && Neat(s, last)
    requires Ends(sc, s.thn, st, envs, last, envs1)
    requires var st2 := Plain(st.vars, PlainStmt(sc.prog, sc.rank, s.thn, st, sc.n).result);
             Ends(sc, Branch(s, false), st2, envs, last, envs2)
    ensures Ends(sc, s, st, envs, last, envs')
  {
    var t, els := PlainStmt(sc.prog, sc.rank, s.thn, st, sc.n), Branch(s, false);
    var e := PlainStmt(sc.prog, sc.rank, els, Plain(st.vars, t.result), sc.n);
    assert Branch(s, true) == s.thn;
    BranchReaches(sc, s, true, envs, envs1);
    BranchReaches(sc, s, false, envs, envs2);
    IfResult(sc, s, envs, st.result, t.result, e.result);
    envs' := if last then iset{} else if !MayFall(s.thn) then envs2 else if !MayFall(els) then envs1 else envs1 + envs2;
    if !last && MayFall(s) { IfVars(sc, s, st, envs1, envs2); }
  }

  /** The facts of the two branches, and after the if. */
  lemma IfJoins(sc: Scene, s: Stmt, st: Plain)
    requires s.If? && Acyclic(sc.prog, sc.rank) && StmtBelow(sc.prog, sc.rank, s, sc.n) && Scoped(s, st.vars.Keys)
    ensures var t := PlainStmt(sc.prog, sc.rank, s.thn, st, sc.n);
            var e := PlainStmt(sc.prog, sc.rank, Branch(s, false), Plain(st.vars, t.result), sc.n);
            var vars := PlainStmt(sc.prog, sc.rank, s, st, sc.n).vars;
            && vars.Keys <= t.vars.Keys * e.vars.Keys
            && (forall x :: x in vars ==> vars[x] == Join(t.vars[x], e.vars[x]))
            && (Stored(s) == {} ==> forall x :: x in vars ==> vars[x] == t.vars[x] == e.vars[x])
  {
    var t := PlainStmt(sc.prog, sc.rank, s.thn, st, sc.n);
    PlainKeepsScope(sc.prog, sc.rank, s.thn, st, sc.n);
    if s.els.Some? { PlainKeepsScope(sc.prog, sc.rank, s.els.value, Plain(st.vars, t.result), sc.n); }
  }

  /** Where both branches fall out the facts are joined; otherwise nothing is stored. */
  lemma IfVars(sc: Scene, s: Stmt, st: Plain, envs1: Envs, envs2: Envs)
    requires s.If? && Acyclic(sc.prog, sc.rank) && StmtBelow(sc.prog, sc.rank, s, sc.n) && Scoped(s, st.vars.Keys)
    requires MayFall(s.thn) || MayFall(Branch(s, false))
    requires (MayFall(s.thn) && MayFall(Branch(s, false))) || Stored(s) == {}
    requires MayFall(s.thn) ==> PlainStmt(sc.prog, sc.rank, s.thn, st, sc.n).vars in BestFacts(envs1)
    requires var st2 := Plain(st.vars, PlainStmt(sc.prog, sc.rank, s.thn, st, sc.n).result);
             MayFall(Branch(s, false)) ==>
               PlainStmt(sc.prog, sc.rank, Branch(s, false), st2, sc.n).vars in BestFacts(envs2)
    ensures PlainStmt(sc.prog, sc.rank, s, st, sc.n).vars in
            BestFacts(if !MayFall(s.thn) then envs2 else if !MayFall(Branch(s, false)) then envs1 else envs1 + envs2)
  {
    var t, els := PlainStmt(sc.prog, sc.rank, s.thn, st, sc.n), Branch(s, false);
    var e := PlainStmt(sc.prog, sc.rank, els, Plain(st.vars, t.result), sc.n);
    IfJoins(sc, s, st);
    if !MayFall(s.thn) {
      FewerBest(envs2, e.vars, PlainStmt(sc.prog, sc.rank, s, st, sc.n).vars);
    } else if !MayFall(els) {
      FewerBest(envs1, t.vars, PlainStmt(sc.prog, sc.rank, s, st, sc.n).vars);
    } else {
      JoinBest(envs1, envs2, t.vars, e.vars, PlainStmt(sc.prog, sc.rank, s, st, sc.n).vars);
    }
  }

  lemma FewerBest(envs: Envs, more: Facts, vars: Facts)
    requires more in BestFacts(envs) && vars.Keys <= more.Keys && forall x :: x in vars ==> vars[x] == more[x]
    ensures vars in BestFacts(envs)
  {
  }

  // ----- functions -----

  lemma OutsideIsBest(prog: Program, rank: Rank, root: FuncId, f: FuncId, k: nat, args: seq<Val>)
    requires Acyclic(prog, rank) && f in prog && !LookedInto(prog[f])
    ensures BestAt(prog, rank, root, f, k, args)
  {
    forall prov: Provenance
      ensures Results(prog, root, k, f, args, Val(prov, OutsideWay(prog, f)))
    {
      forall more
        ensures ResultsBefore(prog, root, k, f, args, Val(prov, OutsideWay(prog, f)), more)
      {
        var ch := AnythingComes(prov, OutsideWay(prog, f), more);
        assert RunBody(prog, root, k, f, args, ch) == Value(Val(prov, OutsideWay(prog, f)), more);
      }
    }
    assert Results(prog, root, k, f, args, Val(New, OutsideWay(prog, f)));
    assert Results(prog, root, k, f, args, Val(Malloc, OutsideWay(prog, f)));
  }

  lemma ParamsAreBest(params: seq<Var>, args: seq<Val>) returns (envs: Envs)
    ensures envs == iset{BindParams(params, args)} && ParamFacts(params) in BestFacts(envs)
  {
    var env := BindParams(params, args);
    envs := iset{env};
    assert env in envs;
  }

  lemma BodyIsBest(sc: Scene, f: FuncId, args: seq<Val>)
    requires sc.Ok() && f in sc.prog && LookedInto(sc.prog[f]) && sc.n == sc.rank[f] && FuncNeat(sc.prog, sc.rank, f)
    ensures PlainFunc(sc.prog, sc.rank, f).Some? && BestAt(sc.prog, sc.rank, sc.root, f, sc.k, args)
  {
    var fn := sc.prog[f];
    assert FuncScoped(fn);
    var body, st := fn.body.value, Plain(ParamFacts(fn.params), None);
    var envs := ParamsAreBest(fn.params, args);
    var envs' := StmtBest(sc, body, st, envs, true);
    var env := BindParams(fn.params, args);
    forall v | sc.Gives(body, env, v)
      ensures Results(sc.prog, sc.root, sc.k, f, args, v)
    {
      BodyGives(sc, f, args, v);
    }
    var v :| sc.Gives(body, env, v);
    forall c | AllResultsBelow(sc.prog, sc.root, sc.k, f, args, c)
      ensures Below(PlainFunc(sc.prog, sc.rank, f), c)
    {
      assert AllGivenBelow(sc, body, envs, c);
    }
  }

  lemma BodyGives(sc: Scene, f: FuncId, args: seq<Val>, v: Val)
    requires f in sc.prog && LookedInto(sc.prog[f])
    requires sc.Gives(sc.prog[f].body.value, BindParams(sc.prog[f].params, args), v)
    ensures Results(sc.prog, sc.root, sc.k, f, args, v)
  {
    var body, env := sc.prog[f].body.value, BindParams(sc.prog[f].params, args);
    forall more
      ensures ResultsBefore(sc.prog, sc.root, sc.k, f, args, v, more)
    {
      assert sc.GivesBefore(body, env, v, more);
      var ch :| Exec(sc.prog, sc.root, sc.k, body, env, ch) == Returned(v, more);
      assert RunBody(sc.prog, sc.root, sc.k, f, args, ch) == Value(v, more);
    }
  }

  /** Summaries are the best there are, callees first. */
  lemma {:induction false} FuncIsBest(prog: Program, rank: Rank, root: FuncId, f: FuncId)
    requires Acyclic(prog, rank) && ProgramScoped(prog)
    requires f in prog && root in prog && rank[f] <= rank[root] && NeatText(prog, rank, rank[f])
    ensures FuncBest(prog, rank, root, f)
    decreases rank[f]
  {
    forall g | g in prog && rank[g] < rank[f]
      ensures FuncBest(prog, rank, root, g)
    {
      FuncIsBest(prog, rank, root, g);
    }
    forall k: nat, args | k > rank[f]
      ensures PlainFunc(prog, rank, f).Some? && BestAt(prog, rank, root, f, k, args)
    {
      if LookedInto(prog[f]) {
        BodyIsBest(Scene(prog, rank, root, rank[f], k), f, args);
      } else {
        OutsideIsBest(prog, rank, root, f, k, args);
      }
    }
    assert BestAt(prog, rank, root, f, rank[f] + 1, []);
  }

  // ----- the result -----

  /** Every run that comes to a pointer not found in an overwritten variable shows `answer` or less. */
  ghost predicate DescribesRuns(prog: Program, f: FuncId, answer: AllocType) {
    forall k: nat, args, ch :: var r := RunFunc(prog, f, k, f, args, ch);
      r.Value? && r.v.way != Overwritten ==> Below(Some(Visible(r.v)), Some(answer))
  }

  /** The answer is the least that describes all runs: on acyclic call graphs of neat text, with no
      callee met twice that is analysed although it returns no pointer. */
  lemma AnswerIsLeast(prog: Program, rank: Rank, f: FuncId, answer: AllocType)
    requires Acyclic(prog, rank) && ProgramScoped(prog) && f in prog
    requires NeatText(prog, rank, rank[f]) && OnceFunc(prog, f, map[f := None])
    ensures DescribesRuns(prog, f, answer) <==> Below(Some(GetAllocType(prog, f)), Some(answer))
  {
    forall k: nat, args, ch | RunFunc(prog, f, k, f, args, ch).Value?
      ensures Fits(RunFunc(prog, f, k, f, args, ch).v, Some(GetAllocType(prog, f)))
    {
      AllocTypeSound(prog, f, k, args, ch);
    }
    MemoAndAbortInvisible(prog, rank, f);
    FuncIsBest(prog, rank, f, f);
    if DescribesRuns(prog, f, answer) {
      var k := rank[f] + 1;
      assert BestAt(prog, rank, f, f, k, []);
      forall v | Results(prog, f, k, f, [], v)
        ensures Below(Some(Visible(v)), Some(answer))
      {
        assert ResultsBefore(prog, f, k, f, [], v, []);
        var ch :| RunBody(prog, f, k, f, [], ch) == Value(v, []);
        assert RunFunc(prog, f, k, f, [], ch) == Value(v, []);
      }
      assert AllResultsBelow(prog, f, k, f, [], Some(answer));
    }
  }
}
