/** What a run of a straight-line function really frees, against what the analysis marks. */
module DeallocRuns {
  import opened Wrappers
  import opened Ast
  import opened Dealloc

  type Kinds = set<DeallocType>

  // ----- acyclic call graphs -----

  /** A program with a rank for each function, callees below their callers. */
  datatype Code = Code(prog: Program, rank: map<FuncId, nat>)
  {
    /** No call leads back. */
    predicate Acyclic() {
      forall f :: f in prog ==>
        f in rank && (prog[f].body.Some? ==> BodyBelow(prog[f].body.value, rank[f]))
    }

    predicate BodyBelow(body: Stmt, n: nat) {
      Marked(body) && StmtBelow(body, n)
    }

    /** And all bodies are straight-line code. */
    predicate Straight() {
      Acyclic() && forall f :: f in prog && prog[f].body.Some? ==> Linear(prog[f].body.value)
    }

    predicate ExprBelow(e: Expr, n: nat) {
      match e
      case PlacementNew(at) => ExprBelow(at, n)
      case Call(f, args) =>
        && f in prog && f in rank && rank[f] < n
        && forall i :: 0 <= i < |args| ==> ExprBelow(args[i], n)
      case IndirectCall(_, args) => forall i :: 0 <= i < |args| ==> ExprBelow(args[i], n)
      case NewExpr(_, parts) => forall i :: 0 <= i < |parts| ==> ExprBelow(parts[i], n)
      case OtherExpr(_, parts) => forall i :: 0 <= i < |parts| ==> ExprBelow(parts[i], n)
      case _ => true
    }

    /** The statement only calls functions of lower rank. */
    predicate StmtBelow(s: Stmt, n: nat) {
      match s
      case If(thn, els) => StmtBelow(thn, n) && (els.Some? ==> StmtBelow(els.value, n))
      case CompoundAssign(_) => true
      case Decl(_, init) => init.Some? ==> ExprBelow(init.value, n)
      case Assign(_, e) => ExprBelow(e, n)
      case Return(e) => ExprBelow(e, n)
      case Delete(e, _) => ExprBelow(e, n)
      case Free(e) => ExprBelow(e, n)
      case ExprStmt(e) => ExprBelow(e, n)
      case Seq(s1, s2) => StmtBelow(s1, n) && StmtBelow(s2, n)
      case Skip => true
    }

    /** The function `f` as it is looked at from inside. */
    function Inside(f: FuncId): Fn
      requires f in prog && f in rank
    {
      Fn(this, prog[f].params, rank[f])
    }
  }

  /** The surroundings of a statement: its program, the parameters and the rank of its function. */
  datatype Fn = Fn(c: Code, params: seq<Var>, n: nat)
  {
    /** The analysis can walk over it. */
    predicate Walks(e: Expr) {
      c.Acyclic() && c.ExprBelow(e, n)
    }

    predicate WalksAll(args: seq<Expr>) {
      c.Acyclic() && forall i :: 0 <= i < |args| ==> c.ExprBelow(args[i], n)
    }

    predicate WalksStmt(s: Stmt) {
      c.Acyclic() && c.StmtBelow(s, n)
    }

    /** It can be run. */
    predicate Has(e: Expr) {
      c.Straight() && c.ExprBelow(e, n)
    }

    predicate HasAll(args: seq<Expr>) {
      c.Straight() && forall i :: 0 <= i < |args| ==> c.ExprBelow(args[i], n)
    }

    predicate HasStmt(s: Stmt) {
      c.Straight() && c.StmtBelow(s, n) && Linear(s)
    }
  }

  /** Straight-line code, with at most a final return. */
  predicate Linear(s: Stmt) {
    match s
    case If(_, _) => false
    case Seq(s1, s2) => NoReturn(s1) && Linear(s1) && Linear(s2)
    case _ => true
  }

  predicate NoReturn(s: Stmt) {
    match s
    case Return(_) => false
    case If(thn, els) => NoReturn(thn) && (els.Some? ==> NoReturn(els.value))
    case Seq(s1, s2) => NoReturn(s1) && NoReturn(s2)
    case _ => true
  }

  // ----- runs -----

  /** A pointer, seen from a function: the entry value of a parameter or something else. */
  datatype Val = Entry(i: nat) | Foreign

  function Valued(r: Option<nat>): Val {
    if r.Some? then Entry(r.value) else Foreign
  }

  type Env = map<Var, Val>

  /** What the text leaves open.  `returned`: which argument, if any, code without a body returns.
      `found`: what is found, by site, in memory, in globals and behind indirect calls, and in a
      variable whose address is taken, if it was written through it; an entry value or none.
      `through`: the sites of address-of through which the variable's pointer is freed, and of other
      expressions, such as constructor calls, that hand their parts to unseen code.  `exact`: whether
      a pointer moved with += and the like, which is not the entry value any more, stops counting as
      that value or still stands for it, being a pointer into the same object. */
  datatype World = World(returned: map<FuncId, nat>, found: map<nat, Option<nat>>, through: set<nat>, exact: bool)
  {
    /** The entry value found at a site of a function with `k` parameters. */
    function Found(site: nat, k: nat): Option<nat> {
      if site in found && found[site].Some? && found[site].value < k then found[site] else None
    }
  }

  /** The entry value of parameter `i` was freed; Opaque when it was handed to unseen code. */
  datatype FreeEvent = FreeEvent(i: nat, kind: DeallocType)

  datatype Effect = Effect(v: Val, frees: seq<FreeEvent>)

  function Lookup(env: Env, x: Var): Val {
    if x in env then env[x] else Foreign
  }

  function ThroughArgs(v: Val, args: seq<Val>): Val {
    if v.Entry? && v.i < |args| then args[v.i] else Foreign
  }

  /** A callee's frees in terms of the caller's entry values. */
  function MapFrees(frees: seq<FreeEvent>, args: seq<Val>): seq<FreeEvent> {
    if frees == [] then []
    else
      var v := ThroughArgs(Entry(frees[0].i), args);
      (if v.Entry? then [FreeEvent(v.i, frees[0].kind)] else []) + MapFrees(frees[1..], args)
  }

  function FreeOf(v: Val, kind: DeallocType): seq<FreeEvent> {
    if v.Entry? then [FreeEvent(v.i, kind)] else []
  }

  /** All arguments are handed to unseen code. */
  function HandedOver(vs: seq<Val>): seq<FreeEvent> {
    if vs == [] then [] else FreeOf(vs[0], Opaque) + HandedOver(vs[1..])
  }

  function EvalExpr(fn: Fn, world: World, e: Expr, env: Env): Effect
    requires fn.Has(e)
    decreases fn.n, 0, e
  {
    match e
    case Local(x) => Effect(Lookup(env, x), [])
    case Exposed(x, site) =>
      Effect(if site in world.found then Valued(world.Found(site, |fn.params|)) else Lookup(env, x), [])
    case AddressOf(x, site) => Effect(Foreign, if site in world.through then FreeOf(Lookup(env, x), Opaque) else [])
    case Global(site) => Effect(Valued(world.Found(site, |fn.params|)), [])
    case Binding(site) => Effect(Valued(world.Found(site, |fn.params|)), [])
    case PlacementNew(at) => EvalExpr(fn, world, at, env)
    case Call(f, args) =>
      var a := EvalArgs(fn, world, args, env);
      var r := RunFunc(fn.c, world, f);
      Effect(ThroughArgs(r.v, a.vs), a.frees + MapFrees(r.frees, a.vs))
    case IndirectCall(site, args) =>
      var a := EvalArgs(fn, world, args, env);
      Effect(Valued(world.Found(site, |fn.params|)), a.frees + HandedOver(a.vs))
    case NewExpr(_, parts) => Effect(Foreign, EvalArgs(fn, world, parts, env).frees)
    case OtherExpr(site, parts) =>
      var a := EvalArgs(fn, world, parts, env);
      Effect(Valued(world.Found(site, |fn.params|)), a.frees + if site in world.through then HandedOver(a.vs) else [])
    case _ => Effect(Foreign, [])
  }

  datatype ArgsEffect = ArgsEffect(vs: seq<Val>, frees: seq<FreeEvent>)

  function EvalArgs(fn: Fn, world: World, args: seq<Expr>, env: Env): (r: ArgsEffect)
    requires fn.HasAll(args)
    ensures |r.vs| == |args|
    decreases fn.n, 0, args
  {
    if args == [] then ArgsEffect([], [])
    else
      var a := EvalExpr(fn, world, args[0], env);
      var rest := EvalArgs(fn, world, args[1..], env);
      ArgsEffect([a.v] + rest.vs, a.frees + rest.frees)
  }

  datatype Run = Run(env: Env, frees: seq<FreeEvent>, ret: Val)

  function ExecStmt(fn: Fn, world: World, s: Stmt, env: Env): Run
    requires fn.HasStmt(s)
    decreases fn.n, 1, s
  {
    match s
    case Skip => Run(env, [], Foreign)
    case CompoundAssign(x) => Run(if world.exact then env[x := Foreign] else env, [], Foreign)
    case Decl(x, init) =>
      if init.None? then Run(env[x := Foreign], [], Foreign)
      else
        var a := EvalExpr(fn, world, init.value, env);
        Run(env[x := a.v], a.frees, Foreign)
    case Assign(x, e) =>
      var a := EvalExpr(fn, world, e, env);
      Run(env[x := a.v], a.frees, Foreign)
    case Return(e) =>
      var a := EvalExpr(fn, world, e, env);
      Run(env, a.frees, a.v)
    case ExprStmt(e) => Run(env, EvalExpr(fn, world, e, env).frees, Foreign)
    case Delete(e, arr) =>
      var a := EvalExpr(fn, world, e, env);
      Run(env, a.frees + FreeOf(a.v, if arr then DeleteArr else DeleteOne), Foreign)
    case Free(e) =>
      var a := EvalExpr(fn, world, e, env);
      Run(env, a.frees + FreeOf(a.v, FreeCall), Foreign)
    case Seq(s1, s2) =>
      var r1 := ExecStmt(fn, world, s1, env);
      var r2 := ExecStmt(fn, world, s2, r1.env);
      Run(r2.env, r1.frees + r2.frees, r2.ret)
  }

  function EntryEnv(params: seq<Var>): Env {
    map x | x in ToSet(params) :: Entry(IndexOf(params, x).value)
  }

  function RunFunc(c: Code, world: World, f: FuncId): Effect
    requires c.Straight() && f in c.prog
    decreases c.rank[f], 2
  {
    var fn := c.prog[f];
    if fn.body.None? then
      Effect(if f in world.returned then Entry(world.returned[f]) else Foreign,
             seq(|fn.params|, (i: nat) => FreeEvent(i, Opaque)))
    else
      var r := ExecStmt(c.Inside(f), world, fn.body.value, EntryEnv(fn.params));
      Effect(r.ret, r.frees)
  }

  /** All the ways in which the run frees the entry value of parameter `i`. */
  function KindsAt(frees: seq<FreeEvent>, i: nat): (r: Kinds)
    ensures forall d :: d in r <==> FreeEvent(i, d) in frees
  {
    set ev | ev in frees && ev.i == i :: ev.kind
  }

  /** The verdict on a set of frees; being about a set, it cannot depend on their order. */
  function Verdict(kinds: Kinds): DeallocType {
    if kinds == {} then NotFreed
    else if Opaque in kinds then Contradiction
    else if kinds == {DeleteOne} then DeleteOne
    else if kinds == {DeleteArr} then DeleteArr
    else if kinds == {FreeCall} then FreeCall
    else Contradiction
  }

  /** Only these occur as kinds of single frees. */
  predicate Basic(kinds: Kinds) {
    forall d :: d in kinds ==> d in {DeleteOne, DeleteArr, FreeCall, Opaque}
  }

  // ----- the analysis with sets instead of verdicts, without memo table -----

  type Seen = seq<Kinds>

  function Note(seen: Seen, i: Option<nat>, kinds: Kinds): (r: Seen)
    ensures |r| == |seen|
  {
    if i.Some? && i.value < |seen| then seen[i.value := seen[i.value] + kinds] else seen
  }

  function NoteArgs(params: seq<Var>, nm: Names, callee: Seen, args: seq<Expr>, seen: Seen, k: nat): (r: Seen)
    ensures |r| == |seen|
    decreases |callee| - k
  {
    if k >= |callee| || k >= |args| then seen
    else NoteArgs(params, nm, callee, args, Note(seen, Resolve(params, nm, args[k]), callee[k]), k + 1)
  }

  function CollectExpr(fn: Fn, nm: Names, e: Expr, seen: Seen): (r: Seen)
    requires fn.Walks(e)
    ensures |r| == |seen|
    decreases fn.n, 0, e
  {
    match e
    case PlacementNew(at) => CollectExpr(fn, nm, at, seen)
    case Call(f, args) => CollectArgs(fn, nm, args, NoteArgs(fn.params, nm, CollectFunc(fn.c, f), args, seen, 0))
    case IndirectCall(_, args) => CollectArgs(fn, nm, args, seen)
    case NewExpr(_, parts) => CollectArgs(fn, nm, parts, seen)
    case OtherExpr(_, parts) => CollectArgs(fn, nm, parts, seen)
    case _ => seen
  }

  function CollectArgs(fn: Fn, nm: Names, args: seq<Expr>, seen: Seen): (r: Seen)
    requires fn.WalksAll(args)
    ensures |r| == |seen|
    decreases fn.n, 0, args
  {
    if args == [] then seen else CollectArgs(fn, nm, args[1..], CollectExpr(fn, nm, args[0], seen))
  }

  function CollectFreed(fn: Fn, nm: Names, e: Expr, kind: DeallocType, seen: Seen): (r: Seen)
    requires fn.Walks(e)
    ensures |r| == |seen|
    decreases fn.n, 1
  {
    CollectExpr(fn, nm, e, Note(seen, Resolve(fn.params, nm, e), {kind}))
  }

  function CollectStmt(fn: Fn, nm: Names, s: Stmt, seen: Seen): (r: Seen)
    requires fn.WalksStmt(s)
    ensures |r| == |seen|
    decreases fn.n, 2, s
  {
    match s
    case Skip => seen
    case CompoundAssign(_) => seen
    case Decl(x, init) => if init.None? then seen else CollectExpr(fn, NamesAfter(fn.params, nm, s), init.value, seen)
    case Assign(x, e) => CollectExpr(fn, NamesAfter(fn.params, nm, s), e, seen)
    case Return(e) => CollectExpr(fn, nm, e, seen)
    case ExprStmt(e) => CollectExpr(fn, nm, e, seen)
    case Delete(e, arr) => CollectFreed(fn, nm, e, if arr then DeleteArr else DeleteOne, seen)
    case Free(e) => CollectFreed(fn, nm, e, FreeCall, seen)
    case If(thn, els) =>
      var seen1 := CollectStmt(fn, nm, thn, seen);
      if els.None? then seen1 else CollectStmt(fn, NamesAfter(fn.params, nm, thn), els.value, seen1)
    case Seq(s1, s2) => CollectStmt(fn, NamesAfter(fn.params, nm, s1), s2, CollectStmt(fn, nm, s1, seen))
  }

  function CollectFunc(c: Code, f: FuncId): (r: Seen)
    requires c.Acyclic() && f in c.prog
    ensures |r| == |c.prog[f].params|
    decreases c.rank[f], 3
  {
    var k := |c.prog[f].params|;
    if c.prog[f].body.None? then seq(k, _ => {Opaque})
    else CollectStmt(c.Inside(f), START, c.prog[f].body.value, seq(k, _ => {}))
  }
}
