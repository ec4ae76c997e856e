/** The deallocation analysis: which parameters does a function free, and how. */
module Dealloc {
  import opened Wrappers
  import opened Ast

  datatype DeallocType = NotFreed | DeleteOne | DeleteArr | FreeCall | Contradiction | Opaque

  type Vector = seq<DeallocType>
  type Visited = map<FuncId, Option<Vector>>

  /** aliasMap, from locals to the index of the parameter whose entry value they hold, and
      overwritenParms. */
  datatype Names = Names(alias: map<Var, Option<nat>>, over: set<nat>)

  function IndexOf(params: seq<Var>, x: Var): (r: Option<nat>)
    ensures r.Some? ==> r.value < |params| && params[r.value] == x
    ensures r.None? ==> x !in params
  {
    if params == [] then None
    else if params[0] == x then Some(0)
    else
      var r := IndexOf(params[1..], x);
      if r.None? then None else Some(r.value + 1)
  }

  /** resolveExpr: the parameter or local that an expression names, if it names one. */
  function ResolveExpr(e: Expr): Option<Var> {
    match e
    case Local(x) => Some(x)
    case Exposed(x, _) => Some(x)
    case _ => None
  }

  /** The parameter whose entry value a variable is taken to hold. */
  function ResolveVar(params: seq<Var>, nm: Names, x: Var): Option<nat> {
    var i := IndexOf(params, x);
    if i.Some? then (if i.value in nm.over then None else i)
    else if x in nm.alias then nm.alias[x]
    else None
  }

  /** resolveParam: the same for an expression. */
  function Resolve(params: seq<Var>, nm: Names, e: Expr): Option<nat> {
    var x := ResolveExpr(e);
    if x.None? then None else ResolveVar(params, nm, x.value)
  }

  function UpdateMap(params: seq<Var>, nm: Names, x: Var, e: Option<Expr>): Names {
    var i := IndexOf(params, x);
    if i.Some? then nm.(over := nm.over + {i.value})
    else if e.None? then nm.(alias := nm.alias[x := None])
    else nm.(alias := nm.alias[x := Resolve(params, nm, e.value)])
  }

  /** updateVPP on one entry. */
  function Combine(before: DeallocType, dt: DeallocType): DeallocType {
    if before == Contradiction then Contradiction
    else if (before != NotFreed && before != dt) || dt == Opaque then Contradiction
    else dt
  }

  function Mark(vpp: Vector, i: Option<nat>, dt: DeallocType): (r: Vector)
    ensures |r| == |vpp|
  {
    if i.Some? && i.value < |vpp| then vpp[i.value := Combine(vpp[i.value], dt)] else vpp
  }

  /** joinVectors, from argument `k` on. */
  function JoinVectors(params: seq<Var>, nm: Names, vec: Vector, args: seq<Expr>, vpp: Vector, k: nat): (r: Vector)
    ensures |r| == |vpp|
    decreases |vec| - k
  {
    if k >= |vec| || k >= |args| then vpp
    else
      var vpp1 := if vec[k] == NotFreed then vpp else Mark(vpp, Resolve(params, nm, args[k]), vec[k]);
      JoinVectors(params, nm, vec, args, vpp1, k + 1)
  }

  datatype Walk = Walk(vpp: Vector, visited: Visited)

  function VisitCall(prog: Program, params: seq<Var>, nm: Names, f: FuncId, args: seq<Expr>, w: Walk): (r: Walk)
    ensures |r.vpp| == |w.vpp| && w.visited.Keys <= r.visited.Keys
    decreases prog.Keys - w.visited.Keys, 0
  {
    if f in w.visited then
      if w.visited[f].None? then w
      else w.(vpp := JoinVectors(params, nm, w.visited[f].value, args, w.vpp, 0))
    else if f !in prog then
      // Code outside the program has no body, and a parameter for each argument.
      var vec := seq(|args|, _ => Opaque);
      Walk(JoinVectors(params, nm, vec, args, w.vpp, 0), w.visited[f := Some(vec)])
    else
      var r := Analyze(prog, f, w.visited[f := None]);
      Walk(JoinVectors(params, nm, r.vpp, args, w.vpp, 0), r.visited)
  }

  function VisitExpr(prog: Program, params: seq<Var>, nm: Names, e: Expr, w: Walk): (r: Walk)
    ensures |r.vpp| == |w.vpp| && w.visited.Keys <= r.visited.Keys
    decreases prog.Keys - w.visited.Keys, 1, e
  {
    match e
    case PlacementNew(at) => VisitExpr(prog, params, nm, at, w)
    case Call(f, args) => VisitArgs(prog, params, nm, args, VisitCall(prog, params, nm, f, args, w))
    case IndirectCall(_, args) => VisitArgs(prog, params, nm, args, w)
    case NewExpr(_, parts) => VisitArgs(prog, params, nm, parts, w)
    case OtherExpr(_, parts) => VisitArgs(prog, params, nm, parts, w)
    case _ => w
  }

  function VisitArgs(prog: Program, params: seq<Var>, nm: Names, args: seq<Expr>, w: Walk): (r: Walk)
    ensures |r.vpp| == |w.vpp| && w.visited.Keys <= r.visited.Keys
    decreases prog.Keys - w.visited.Keys, 1, args
  {
    if args == [] then w
    else VisitArgs(prog, params, nm, args[1..], VisitExpr(prog, params, nm, args[0], w))
  }

  /** The visitor is preorder: an assignment is recorded before the calls in its right side. */
  function NamesAfter(params: seq<Var>, nm: Names, s: Stmt): Names
    decreases s
  {
    match s
    case Decl(x, init) => UpdateMap(params, nm, x, init)
    case Assign(x, e) => UpdateMap(params, nm, x, Some(e))
    case If(thn, els) =>
      var nm1 := NamesAfter(params, nm, thn);
      if els.None? then nm1 else NamesAfter(params, nm1, els.value)
    case Seq(s1, s2) => NamesAfter(params, NamesAfter(params, nm, s1), s2)
    case _ => nm
  }

  function WalkStmt(prog: Program, params: seq<Var>, nm: Names, s: Stmt, w: Walk): (r: Walk)
    ensures |r.vpp| == |w.vpp| && w.visited.Keys <= r.visited.Keys
    decreases prog.Keys - w.visited.Keys, 2, s
  {
    match s
    case Decl(x, init) =>
      if init.None? then w else VisitExpr(prog, params, NamesAfter(params, nm, s), init.value, w)
    case Assign(x, e) => VisitExpr(prog, params, NamesAfter(params, nm, s), e, w)
    case Return(e) => VisitExpr(prog, params, nm, e, w)
    case ExprStmt(e) => VisitExpr(prog, params, nm, e, w)
    case Delete(e, arr) =>
      var dt := if arr then DeleteArr else DeleteOne;
      VisitExpr(prog, params, nm, e, w.(vpp := Mark(w.vpp, Resolve(params, nm, e), dt)))
    case Free(e) =>
      VisitExpr(prog, params, nm, e, w.(vpp := Mark(w.vpp, Resolve(params, nm, e), FreeCall)))
    case If(thn, els) =>
      var w1 := WalkStmt(prog, params, nm, thn, w);
      if els.None? then w1 else WalkStmt(prog, params, NamesAfter(params, nm, thn), els.value, w1)
    case Seq(s1, s2) =>
      WalkStmt(prog, params, NamesAfter(params, nm, s1), s2, WalkStmt(prog, params, nm, s1, w))
    case _ => w
  }

  function Unmarked(n: nat): Vector {
    seq(n, _ => NotFreed)
  }

  const START: Names := Names(map[], {})

  function Analyze(prog: Program, f: FuncId, visited: Visited): (r: Walk)
    requires f in prog && f in visited
    ensures |r.vpp| == |prog[f].params| && visited.Keys <= r.visited.Keys
    decreases prog.Keys - visited.Keys, 3
  {
    var n := |prog[f].params|;
    if prog[f].body.None? then
      var vec := seq(n, _ => Opaque);
      Walk(vec, visited[f := Some(vec)])
    else
      var w := WalkStmt(prog, prog[f].params, START, prog[f].body.value, Walk(Unmarked(n), visited));
      Walk(w.vpp, w.visited[f := Some(w.vpp)])
  }

  /** GetDeallocType; false means that the function itself has no body to look at. */
  function GetDeallocType(prog: Program, f: FuncId): (bool, Vector)
    requires f in prog
  {
    (prog[f].body.Some?, Analyze(prog, f, map[f := None]).vpp)
  }

  /** Code outside the program counts as a declaration without a body. */
  lemma OutsideIsDeclared(prog: Program, f: FuncId, fn: Func, params: seq<Var>, nm: Names, args: seq<Expr>, w: Walk)
    requires f !in prog && f !in w.visited && fn.body.None? && |fn.params| == |args|
    ensures VisitCall(prog, params, nm, f, args, w) == VisitCall(prog[f := fn], params, nm, f, args, w)
  {
    var vec: Vector := seq(|args|, _ => Opaque);
    assert Analyze(prog[f := fn], f, w.visited[f := None]) == Walk(vec, w.visited[f := None][f := Some(vec)]);
    assert w.visited[f := None][f := Some(vec)] == w.visited[f := Some(vec)];
  }

  // ----- the traverser of the source -----

  class VisitedFuncs {
    var table: Visited

    constructor (init: Visited)
      ensures table == init
    {
      table := init;
    }
  }

  class DeallocationTraverser {
    const prog: Program
    const params: seq<Var>
    const visitedFuncs: VisitedFuncs
    var aliasMap: map<Var, Option<nat>>
    var overwritenParms: set<nat>
    var valPerParam: Vector

    constructor (prog: Program, params: seq<Var>, cache: VisitedFuncs)
      ensures this.prog == prog && this.params == params && visitedFuncs == cache
      ensures aliasMap == map[] && overwritenParms == {}
      ensures valPerParam == Unmarked(|params|)
    {
      this.prog, this.params, visitedFuncs := prog, params, cache;
      aliasMap, overwritenParms := map[], {};
      valPerParam := Unmarked(|params|);
    }

    function CurrentNames(): Names
      reads this
    {
      Names(aliasMap, overwritenParms)
    }

    function Current(): Walk
      reads this, visitedFuncs
    {
      Walk(valPerParam, visitedFuncs.table)
    }

    method UpdateMapCode(x: Var, e: Option<Expr>)
      modifies this`aliasMap, this`overwritenParms
      ensures CurrentNames() == UpdateMap(params, old(CurrentNames()), x, e)
    {
      var i := IndexOf(params, x);
      if i.Some? {
        overwritenParms := overwritenParms + {i.value};
      } else {
        aliasMap := aliasMap[x := if e.None? then None else Resolve(params, CurrentNames(), e.value)];
      }
    }

    method JoinVectorsCode(vec: Vector, args: seq<Expr>)
      modifies this`valPerParam
      ensures valPerParam == JoinVectors(params, CurrentNames(), vec, args, old(valPerParam), 0)
    {
      var i := 0;
      while i < |vec| && i < |args|
        invariant 0 <= i <= |vec|
        invariant JoinVectors(params, CurrentNames(), vec, args, valPerParam, i) ==
                  JoinVectors(params, CurrentNames(), vec, args, old(valPerParam), 0)
      {
        if vec[i] != NotFreed {
          valPerParam := Mark(valPerParam, Resolve(params, CurrentNames(), args[i]), vec[i]);
        }
        i := i + 1;
      }
    }

    method VisitCallCode(f: FuncId, args: seq<Expr>)
      modifies this`valPerParam, visitedFuncs
      ensures Current() == VisitCall(prog, params, CurrentNames(), f, args, old(Current()))
      decreases prog.Keys - visitedFuncs.table.Keys, 0
    {
      if f in visitedFuncs.table {
        if visitedFuncs.table[f].Some? {
          JoinVectorsCode(visitedFuncs.table[f].value, args);
        }
      } else if f !in prog {
        var calleeVec := seq(|args|, _ => Opaque);
        visitedFuncs.table := visitedFuncs.table[f := Some(calleeVec)];
        JoinVectorsCode(calleeVec, args);
      } else {
        assert f in prog.Keys - visitedFuncs.table.Keys;
        visitedFuncs.table := visitedFuncs.table[f := None];
        var calleeVec := AnalyzeDeallocType(prog, f, visitedFuncs);
        JoinVectorsCode(calleeVec, args);
      }
    }

    method VisitExprCode(e: Expr)
      modifies this`valPerParam, visitedFuncs
      ensures Current() == VisitExpr(prog, params, CurrentNames(), e, old(Current()))
      decreases prog.Keys - visitedFuncs.table.Keys, 1, e
    {
      match e
      case PlacementNew(at) => VisitExprCode(at);
      case Call(f, args) =>
        VisitCallCode(f, args);
        VisitArgsCode(args);
      case IndirectCall(_, args) => VisitArgsCode(args);
      case NewExpr(_, parts) => VisitArgsCode(parts);
      case OtherExpr(_, parts) => VisitArgsCode(parts);
      case _ =>
    }

    method VisitArgsCode(args: seq<Expr>)
      modifies this`valPerParam, visitedFuncs
      ensures Current() == VisitArgs(prog, params, CurrentNames(), args, old(Current()))
      decreases prog.Keys - visitedFuncs.table.Keys, 1, args
    {
      if args != [] {
        VisitExprCode(args[0]);
        VisitArgsCode(args[1..]);
      }
    }

    method WalkStmtCode(s: Stmt)
      modifies this, visitedFuncs
      ensures CurrentNames() == NamesAfter(params, old(CurrentNames()), s)
      ensures Current() == WalkStmt(prog, params, old(CurrentNames()), s, old(Current()))
      decreases prog.Keys - visitedFuncs.table.Keys, 2, s
    {
      match s
      case Decl(x, init) =>
        UpdateMapCode(x, init);
        if init.Some? { VisitExprCode(init.value); }
      case Assign(x, e) =>
        UpdateMapCode(x, Some(e));
        VisitExprCode(e);
      case Return(e) => VisitExprCode(e);
      case ExprStmt(e) => VisitExprCode(e);
      case Delete(e, arr) =>
        valPerParam := Mark(valPerParam, Resolve(params, CurrentNames(), e), if arr then DeleteArr else DeleteOne);
        VisitExprCode(e);
      case Free(e) =>
        valPerParam := Mark(valPerParam, Resolve(params, CurrentNames(), e), FreeCall);
        VisitExprCode(e);
      case If(thn, els) =>
        WalkStmtCode(thn);
        if els.Some? { WalkStmtCode(els.value); }
      case Seq(s1, s2) =>
        WalkStmtCode(s1);
        WalkStmtCode(s2);
      case _ =>
    }
  }

  method AnalyzeDeallocType(prog: Program, f: FuncId, cache: VisitedFuncs) returns (vec: Vector)
    requires f in prog && f in cache.table
    modifies cache
    ensures Walk(vec, cache.table) == Analyze(prog, f, old(cache.table))
    decreases prog.Keys - cache.table.Keys, 3
  {
    var fn := prog[f];
    if fn.body.None? {
      vec := seq(|fn.params|, _ => Opaque);
    } else {
      var traverser := new DeallocationTraverser(prog, fn.params, cache);
      traverser.WalkStmtCode(fn.body.value);
      vec := traverser.valPerParam;
    }
    cache.table := cache.table[f := Some(vec)];
  }

  /** The public entry point; without a function `vec0`, the caller's vector, is left as it is. */
  method GetDeallocTypeCode(prog: Program, fn: Option<FuncId>, vec0: Vector) returns (ok: bool, vec: Vector)
    requires fn.Some? ==> fn.value in prog
    ensures (ok, vec) == if fn.None? then (false, vec0) else GetDeallocType(prog, fn.value)
  {
    if fn.None? {
      return false, vec0;
    }
    var visitedFuncs := new VisitedFuncs(map[fn.value := None]);
    vec := AnalyzeDeallocType(prog, fn.value, visitedFuncs);
    ok := prog[fn.value].body.Some?;
  }
}
