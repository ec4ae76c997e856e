/** The function bodies that the allocation and deallocation analyses walk.

    Clang's tree is reduced to the shapes the two traversers tell apart; the condition of an if is an
    expression statement before it.  Parentheses and casts
    are already stripped (both traversers call IgnoreParenCasts), and assignments are statements. */
module Ast {
  import opened Wrappers

  type Var = nat
  type FuncId = nat

  datatype AllocType =
    | NoAlloc | New | NewArr | Malloc | OperatorNew | OperatorNewArr | Null | Unknown

  /** `site` tells an occurrence in the program apart from all others, where two occurrences of the
      same text can mean different things at run time. */
  datatype Expr =
    | NewExpr(isArray: bool, parts: seq<Expr>)    // with the constructor call, an OtherExpr, if any
    | PlacementNew(at: Expr)          // the reserved, non-allocating placement operator
    | Local(x: Var)                   // a parameter or local variable whose address is never taken
    | Exposed(x: Var, site: nat)      // one whose address is taken somewhere in the function
    | AddressOf(x: Var, site: nat)    // &x
    | Global(site: nat)               // any other variable
    | Binding(site: nat)              // structured binding or non-type template parameter
    | MallocCall
    | OperatorNewCall(isArray: bool)
    | Call(callee: FuncId, args: seq<Expr>)
    | IndirectCall(site: nat, args: seq<Expr>)    // through a function pointer
    | NullLit
    | OtherExpr(site: nat, parts: seq<Expr>)      // anything else: a read from memory, a constructor call

  datatype Stmt =
    | Skip
    | Decl(x: Var, init: Option<Expr>)
    | Assign(x: Var, e: Expr)
    | CompoundAssign(x: Var)
    | If(thn: Stmt, els: Option<Stmt>)
    | Return(e: Expr)
    | Delete(e: Expr, isArray: bool)
    | Free(e: Expr)
    | ExprStmt(e: Expr)
    | Seq(s1: Stmt, s2: Stmt)

  /** `annotation` is what IsAllocator reads off the declaration's attributes, Unknown if nothing.
      A missing body also stands for a body that is not a compound statement. */
  datatype Func = Func(params: seq<Var>, body: Option<Stmt>, returnsPointer: bool, annotation: AllocType)

  type Program = map<FuncId, Func>

  function ToSet(xs: seq<Var>): set<Var> {
    set x | x in xs
  }

  /** Every local mentioned is in scope. */
  predicate ExprScoped(e: Expr, scope: set<Var>) {
    match e
    case Local(x) => x in scope
    case Exposed(x, _) => x in scope
    case AddressOf(x, _) => x in scope
    case PlacementNew(at) => ExprScoped(at, scope)
    case Call(_, args) => forall i :: 0 <= i < |args| ==> ExprScoped(args[i], scope)
    case IndirectCall(_, args) => forall i :: 0 <= i < |args| ==> ExprScoped(args[i], scope)
    case NewExpr(_, parts) => forall i :: 0 <= i < |parts| ==> ExprScoped(parts[i], scope)
    case OtherExpr(_, parts) => forall i :: 0 <= i < |parts| ==> ExprScoped(parts[i], scope)
    case _ => true
  }

  /** The variables whose address an expression takes. */
  function TakenBy(e: Expr): set<Var> {
    match e
    case AddressOf(x, _) => {x}
    case PlacementNew(at) => TakenBy(at)
    case Call(_, args) => TakenByAll(args)
    case IndirectCall(_, args) => TakenByAll(args)
    case NewExpr(_, parts) => TakenByAll(parts)
    case OtherExpr(_, parts) => TakenByAll(parts)
    case _ => {}
  }

  function TakenByAll(args: seq<Expr>): set<Var> {
    if args == [] then {} else TakenBy(args[0]) + TakenByAll(args[1..])
  }

  function TakenIn(s: Stmt): set<Var> {
    match s
    case Decl(_, Some(e)) => TakenBy(e)
    case Assign(_, e) => TakenBy(e)
    case If(thn, els) => TakenIn(thn) + if els.Some? then TakenIn(els.value) else {}
    case Return(e) => TakenBy(e)
    case Delete(e, _) => TakenBy(e)
    case Free(e) => TakenBy(e)
    case ExprStmt(e) => TakenBy(e)
    case Seq(s1, s2) => TakenIn(s1) + TakenIn(s2)
    case _ => {}
  }

  /** The variables of `taken` are read as exposed ones. */
  predicate ExprMarked(e: Expr, taken: set<Var>) {
    match e
    case Local(x) => x !in taken
    case PlacementNew(at) => ExprMarked(at, taken)
    case Call(_, args) => forall i :: 0 <= i < |args| ==> ExprMarked(args[i], taken)
    case IndirectCall(_, args) => forall i :: 0 <= i < |args| ==> ExprMarked(args[i], taken)
    case NewExpr(_, parts) => forall i :: 0 <= i < |parts| ==> ExprMarked(parts[i], taken)
    case OtherExpr(_, parts) => forall i :: 0 <= i < |parts| ==> ExprMarked(parts[i], taken)
    case _ => true
  }

  predicate StmtMarked(s: Stmt, taken: set<Var>) {
    match s
    case Decl(_, Some(e)) => ExprMarked(e, taken)
    case Assign(_, e) => ExprMarked(e, taken)
    case If(thn, els) => StmtMarked(thn, taken) && (els.Some? ==> StmtMarked(els.value, taken))
    case Return(e) => ExprMarked(e, taken)
    case Delete(e, _) => ExprMarked(e, taken)
    case Free(e) => ExprMarked(e, taken)
    case ExprStmt(e) => ExprMarked(e, taken)
    case Seq(s1, s2) => StmtMarked(s1, taken) && StmtMarked(s2, taken)
    case _ => true
  }

  /** `Local` and `Exposed` are used as their comments say. */
  predicate Marked(body: Stmt) {
    StmtMarked(body, TakenIn(body))
  }

  /** The variables in scope after a statement that is scoped in `scope`. */
  function ScopeAfter(s: Stmt, scope: set<Var>): (r: set<Var>)
    ensures scope <= r
  {
    match s
    case Decl(x, _) => scope + {x}
    case Seq(s1, s2) => ScopeAfter(s2, ScopeAfter(s1, scope))
    case _ => scope
  }

  /** Variables are declared once per scope and used and assigned only inside it, as C++ demands
      of locals.  Assigning to a variable that is neither a parameter nor a local is not covered. */
  predicate Scoped(s: Stmt, scope: set<Var>) {
    match s
    case Skip => true
    case Decl(x, init) => x !in scope && (init.Some? ==> ExprScoped(init.value, scope))
    case Assign(x, e) => x in scope && ExprScoped(e, scope)
    case CompoundAssign(x) => x in scope
    case If(thn, els) => Scoped(thn, scope) && (els.Some? ==> Scoped(els.value, scope))
    case Return(e) => ExprScoped(e, scope)
    case Delete(e, _) => ExprScoped(e, scope)
    case Free(e) => ExprScoped(e, scope)
    case ExprStmt(e) => ExprScoped(e, scope)
    case Seq(s1, s2) => Scoped(s1, scope) && Scoped(s2, ScopeAfter(s1, scope))
  }

  predicate FuncScoped(fn: Func) {
    fn.body.Some? ==> Scoped(fn.body.value, ToSet(fn.params)) && Marked(fn.body.value)
  }

  /** What the compiler guarantees before the analyses see the program. */
  predicate ProgramScoped(prog: Program) {
    forall f :: f in prog ==> FuncScoped(prog[f])
  }
}
