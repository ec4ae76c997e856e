/** The marks of bodies with branches: none is invented, and where the text is tidy they are exact. */
module DeallocBranches {
  import opened Wrappers
  import opened Ast
  import opened Dealloc
  import opened DeallocRuns
  import opened DeallocMemo
  import opened DeallocCorrect
  import opened DeallocWays

  // ----- no mark is invented -----

  /** Each function is its own copy. */
  function Itself(prog: Program): Copies {
    map f | f in prog :: f
  }

  /** The walk can go on behind `s` with names that are right on some way through it. */
  predicate Open(params: seq<Var>, nm: Names, scope: set<Var>, s: Stmt)
    decreases s
  {
    match s
    case If(thn, els) =>
      var nm1 := NamesAfter(params, nm, thn);
      if els.None? then Open(params, nm, scope, thn) || Same(params, scope, nm1, nm)
      else Open(params, nm, scope, thn) || Open(params, nm1, scope, els.value)
    case Seq(s1, s2) =>
      Open(params, nm, scope, s1) && Open(params, NamesAfter(params, nm, s1), ScopeAfter(s1, scope), s2)
    case Return(_) => false
    case _ => true
  }

  /** No code is dead, and neither branch of an if with an else changes what an outer variable
      resolves to; the only branch of an if without else may. */
  predicate Clear(params: seq<Var>, nm: Names, scope: set<Var>, s: Stmt)
    decreases s
  {
    match s
    case If(thn, els) =>
      var nm1 := NamesAfter(params, nm, thn);
      && Clear(params, nm, scope, thn)
      && (els.Some? ==>
            && Same(params, scope, nm1, nm) && Same(params, scope, NamesAfter(params, nm1, els.value), nm1)
            && Clear(params, nm1, scope, els.value))
    case Seq(s1, s2) =>
      && Clear(params, nm, scope, s1) && Open(params, nm, scope, s1)
      && Clear(params, NamesAfter(params, nm, s1), ScopeAfter(s1, scope), s2)
    case _ => true
  }

  /** A way, one that goes on where there is one. */
  function SomeWay(params: seq<Var>, nm: Names, scope: set<Var>, s: Stmt): Stmt
    decreases s
  {
    match s
    case If(thn, els) =>
      var nm1 := NamesAfter(params, nm, thn);
      if Open(params, nm, scope, thn) then SomeWay(params, nm, scope, thn)
      else if els.Some? then SomeWay(params, nm1, scope, els.value)
      else if Same(params, scope, nm1, nm) then Skip
      else SomeWay(params, nm, scope, thn)
    case Seq(s1, s2) =>
      Seq(SomeWay(params, nm, scope, s1), SomeWay(params, NamesAfter(params, nm, s1), ScopeAfter(s1, scope), s2))
    case _ => s
  }

  lemma {:induction false} OwnCopy(b: Code, e: Expr, n: nat)
    requires b.ExprBelow(e, n)
    ensures CopyOf(Itself(b.prog), e, e)
    decreases e
  {
    match e
    case PlacementNew(at) => OwnCopy(b, at, n);
    case Call(_, args) => forall i | 0 <= i < |args| { OwnCopy(b, args[i], n); }
    case IndirectCall(_, args) => forall i | 0 <= i < |args| { OwnCopy(b, args[i], n); }
    case NewExpr(_, parts) => forall i | 0 <= i < |parts| { OwnCopy(b, parts[i], n); }
    case OtherExpr(_, parts) => forall i | 0 <= i < |parts| { OwnCopy(b, parts[i], n); }
    case _ =>
  }

  lemma OwnLeaf(b: Code, s: Stmt, n: nat)
    requires !s.If? && !s.Seq? && b.StmtBelow(s, n)
    ensures LeafCopy(Itself(b.prog), s, s)
  {
    if s.Decl? && s.init.Some? { OwnCopy(b, s.init.value, n); }
    if s.Assign? || s.Return? || s.ExprStmt? || s.Delete? || s.Free? { OwnCopy(b, s.e, n); }
  }

  lemma {:induction false} SomeWayIsOne(b: Code, params: seq<Var>, nm: Names, scope: set<Var>, s: Stmt, n: nat)
    requires b.StmtBelow(s, n) && Clear(params, nm, scope, s)
    ensures var p := SomeWay(params, nm, scope, s);
            p in Ways(Itself(b.prog), params, nm, scope, s) && (Open(params, nm, scope, s) ==> NoReturn(p))
    decreases s
  {
    match s
    case If(thn, els) =>
      SomeWayIsOne(b, params, nm, scope, thn, n);
      if els.Some? { SomeWayIsOne(b, params, NamesAfter(params, nm, thn), scope, els.value, n); }
    case Seq(s1, s2) =>
      SomeWayIsOne(b, params, nm, scope, s1, n);
      SomeWayIsOne(b, params, NamesAfter(params, nm, s1), ScopeAfter(s1, scope), s2, n);
    case _ => OwnLeaf(b, s, n);
  }

  // ----- choosing ways -----

  /** A way for each function ranked up to `n`. */
  ghost predicate Choice(b: Code, c: Code, n: nat)
    requires b.Acyclic()
  {
    && c.rank == b.rank && Unfolds(b, c, Itself(b.prog))
    && forall f :: f in c.prog <==> f in b.prog && b.rank[f] <= n
  }

  predicate AllClear(b: Code, n: nat)
    requires b.Acyclic()
  {
    forall f :: f in b.prog && b.rank[f] <= n && b.prog[f].body.Some? ==>
      Clear(b.prog[f].params, START, ToSet(b.prog[f].params), b.prog[f].body.value)
  }

  function SomeFunc(fn: Func): Func {
    if fn.body.None? then fn
    else fn.(body := Some(SomeWay(fn.params, START, ToSet(fn.params), fn.body.value)))
  }

  /** The choice `c` up to rank `m`, and some way for all other functions. */
  function Extend(b: Code, c: Code, m: int, n: nat): Code
    requires b.Acyclic() && forall f :: f in b.prog && b.rank[f] <= m ==> f in c.prog
  {
    Code(map f | f in b.prog && b.rank[f] <= n :: if b.rank[f] <= m then c.prog[f] else SomeFunc(b.prog[f]), b.rank)
  }

  lemma ExtendIsChoice(b: Code, c: Code, m: int, n: nat)
    requires b.Acyclic() && AllClear(b, n) && (m >= 0 ==> Choice(b, c, m))
    ensures Choice(b, Extend(b, c, m, n), n)
  {
    var r := Extend(b, c, m, n);
    forall f | f in r.prog
      ensures WayThrough(Itself(b.prog), r.prog[f], b.prog[f])
    {
      var fn := b.prog[f];
      if b.rank[f] > m && fn.body.Some? {
        SomeWayIsOne(b, fn.params, START, ToSet(fn.params), fn.body.value, b.rank[f]);
      }
    }
  }

  /** A way calls what the statement calls, and takes no more addresses. */
  lemma {:induction false} CopyBelow(b: Code, c: Code, e': Expr, e: Expr, n: nat)
    requires c.rank == b.rank && (forall f :: f in b.prog && f in b.rank && b.rank[f] < n ==> f in c.prog)
    requires CopyOf(Itself(b.prog), e', e) && b.ExprBelow(e, n)
    ensures c.ExprBelow(e', n) && TakenBy(e') == TakenBy(e)
    ensures forall taken, fewer :: ExprMarked(e, taken) && fewer <= taken ==> ExprMarked(e', fewer)
    decreases e
  {
    match e
    case PlacementNew(at) => CopyBelow(b, c, e'.at, at, n);
    case Call(_, args) => CopiesBelow(b, c, e'.args, args, n);
    case IndirectCall(_, args) => CopiesBelow(b, c, e'.args, args, n);
    case NewExpr(_, parts) => CopiesBelow(b, c, e'.parts, parts, n);
    case OtherExpr(_, parts) => CopiesBelow(b, c, e'.parts, parts, n);
    case _ =>
  }

  lemma {:induction false} CopiesBelow(b: Code, c: Code, args': seq<Expr>, args: seq<Expr>, n: nat)
    requires c.rank == b.rank && (forall f :: f in b.prog && f in b.rank && b.rank[f] < n ==> f in c.prog)
    requires |args'| == |args|
    requires forall i :: 0 <= i < |args| ==> CopyOf(Itself(b.prog), args'[i], args[i]) && b.ExprBelow(args[i], n)
    ensures forall i :: 0 <= i < |args| ==> c.ExprBelow(args'[i], n)
    ensures TakenByAll(args') == TakenByAll(args)
    ensures forall i, taken, fewer ::
      0 <= i < |args| && ExprMarked(args[i], taken) && fewer <= taken ==> ExprMarked(args'[i], fewer)
    decreases args
  {
    if args != [] {
      CopyBelow(b, c, args'[0], args[0], n);
      CopiesBelow(b, c, args'[1..], args[1..], n);
      forall i | 0 <= i < |args|
        ensures c.ExprBelow(args'[i], n)
        ensures forall taken, fewer :: ExprMarked(args[i], taken) && fewer <= taken ==> ExprMarked(args'[i], fewer)
      {
        if i > 0 { assert args'[i] == args'[1..][i - 1] && args[i] == args[1..][i - 1]; }
      }
    }
  }

  lemma {:induction false} WayBelow(b: Code, c: Code, params: seq<Var>, nm: Names, scope: set<Var>, p: Stmt, s: Stmt,
                                    n: nat)
    requires c.rank == b.rank && (forall f :: f in b.prog && f in b.rank && b.rank[f] < n ==> f in c.prog)
    requires p in Ways(Itself(b.prog), params, nm, scope, s) && b.StmtBelow(s, n)
    ensures c.StmtBelow(p, n) && Linear(p) && TakenIn(p) <= TakenIn(s)
    ensures forall taken, fewer :: StmtMarked(s, taken) && fewer <= taken ==> StmtMarked(p, fewer)
    decreases s
  {
    match s
    case If(thn, els) =>
      var nm1 := NamesAfter(params, nm, thn);
      if p in Ways(Itself(b.prog), params, nm, scope, thn) { WayBelow(b, c, params, nm, scope, p, thn, n); }
      if els.Some? && p in Ways(Itself(b.prog), params, nm1, scope, els.value) {
        WayBelow(b, c, params, nm1, scope, p, els.value, n);
      }
    case Seq(s1, s2) =>
      if p in Ways(Itself(b.prog), params, nm, scope, s1) && !NoReturn(p) {
        WayBelow(b, c, params, nm, scope, p, s1, n);
      } else {
        WayBelow(b, c, params, nm, scope, p.s1, s1, n);
        WayBelow(b, c, params, NamesAfter(params, nm, s1), ScopeAfter(s1, scope), p.s2, s2, n);
      }
    case Decl(_, Some(e)) => CopyBelow(b, c, p.init.value, e, n);
    case Assign(_, e) => CopyBelow(b, c, p.e, e, n);
    case Return(e) => CopyBelow(b, c, p.e, e, n);
    case ExprStmt(e) => CopyBelow(b, c, p.e, e, n);
    case Delete(e, _) => CopyBelow(b, c, p.e, e, n);
    case Free(e) => CopyBelow(b, c, p.e, e, n);
    case _ =>
  }

  lemma ChoiceIsStraight(b: Code, c: Code, n: nat)
    requires b.Acyclic() && Choice(b, c, n)
    ensures c.Straight()
  {
    forall f | f in c.prog && c.prog[f].body.Some?
      ensures c.BodyBelow(c.prog[f].body.value, c.rank[f]) && Linear(c.prog[f].body.value)
    {
      var p, s := c.prog[f].body.value, b.prog[f].body.value;
      WayBelow(b, c, b.prog[f].params, START, ToSet(b.prog[f].params), p, s, b.rank[f]);
    }
  }

  // ----- what is collected depends on the callees only -----

  ghost predicate SameCallees(f1: Fn, f2: Fn) {
    && f1.params == f2.params && f1.c.Acyclic() && f2.c.Acyclic()
    && forall g :: g in f1.c.prog && f1.c.rank[g] < f1.n ==>
         g in f2.c.prog && CollectFunc(f2.c, g) == CollectFunc(f1.c, g)
  }

  lemma {:induction false} SameExpr(f1: Fn, f2: Fn, nm: Names, e: Expr, seen: Seen)
    requires SameCallees(f1, f2) && f1.Walks(e) && f2.Walks(e)
    ensures CollectExpr(f2, nm, e, seen) == CollectExpr(f1, nm, e, seen)
    decreases e
  {
    match e
    case PlacementNew(at) => SameExpr(f1, f2, nm, at, seen);
    case Call(f, args) => SameArgs(f1, f2, nm, args, NoteArgs(f1.params, nm, CollectFunc(f1.c, f), args, seen, 0));
    case IndirectCall(_, args) => SameArgs(f1, f2, nm, args, seen);
    case NewExpr(_, parts) => SameArgs(f1, f2, nm, parts, seen);
    case OtherExpr(_, parts) => SameArgs(f1, f2, nm, parts, seen);
    case _ =>
  }

  lemma {:induction false} SameArgs(f1: Fn, f2: Fn, nm: Names, args: seq<Expr>, seen: Seen)
    requires SameCallees(f1, f2) && f1.WalksAll(args) && f2.WalksAll(args)
    ensures CollectArgs(f2, nm, args, seen) == CollectArgs(f1, nm, args, seen)
    decreases args
  {
    if args != [] {
      SameExpr(f1, f2, nm, args[0], seen);
      SameArgs(f1, f2, nm, args[1..], CollectExpr(f1, nm, args[0], seen));
    }
  }

  lemma {:induction false} SameStmt(f1: Fn, f2: Fn, nm: Names, s: Stmt, seen: Seen)
    requires SameCallees(f1, f2) && f1.WalksStmt(s) && f2.WalksStmt(s)
    ensures CollectStmt(f2, nm, s, seen) == CollectStmt(f1, nm, s, seen)
    decreases s
  {
    match s
    case Decl(_, Some(e)) => SameExpr(f1, f2, NamesAfter(f1.params, nm, s), e, seen);
    case Assign(_, e) => SameExpr(f1, f2, NamesAfter(f1.params, nm, s), e, seen);
    case Return(e) => SameExpr(f1, f2, nm, e, seen);
    case ExprStmt(e) => SameExpr(f1, f2, nm, e, seen);
    case Delete(e, arr) =>
      SameExpr(f1, f2, nm, e, Note(seen, Resolve(f1.params, nm, e), {if arr then DeleteArr else DeleteOne}));
    case Free(e) => SameExpr(f1, f2, nm, e, Note(seen, Resolve(f1.params, nm, e), {FreeCall}));
    case If(thn, els) =>
      SameStmt(f1, f2, nm, thn, seen);
      if els.Some? {
        SameStmt(f1, f2, NamesAfter(f1.params, nm, thn), els.value, CollectStmt(f1, nm, thn, seen));
      }
    case Seq(s1, s2) =>
      SameStmt(f1, f2, nm, s1, seen);
      SameStmt(f1, f2, NamesAfter(f1.params, nm, s1), s2, CollectStmt(f1, nm, s1, seen));
    case _ =>
  }

  /** Functions ranked up to `m` are the same in both. */
  ghost predicate SameUpTo(c1: Code, c2: Code, m: int) {
    && c1.Acyclic() && c2.Acyclic()
    && forall f :: f in c1.prog && c1.rank[f] <= m ==>
         f in c2.prog && c2.prog[f] == c1.prog[f] && c2.rank[f] == c1.rank[f]
  }

  lemma {:induction false} SameFunc(c1: Code, c2: Code, m: int, f: FuncId)
    requires SameUpTo(c1, c2, m) && f in c1.prog && c1.rank[f] <= m
    ensures CollectFunc(c2, f) == CollectFunc(c1, f)
    decreases c1.rank[f]
  {
    if c1.prog[f].body.Some? {
      forall g | g in c1.prog && c1.rank[g] < c1.rank[f]
        ensures CollectFunc(c2, g) == CollectFunc(c1, g)
      {
        SameFunc(c1, c2, m, g);
      }
      SameStmt(c1.Inside(f), c2.Inside(f), START, c1.prog[f].body.value, Nothing(|c1.prog[f].params|));
    }
  }

  // ----- a choice of ways for each way of freeing -----

  /** The walk over `b`, with the names `nm`, and the walk over a choice, with the names `nm'`. */
  ghost predicate Prepared(b: Fn, scope: set<Var>, nm: Names, nm': Names, i: nat) {
    && b.c.Acyclic() && ProgramScoped(b.c.prog) && AllClear(b.c, b.n) && Same(b.params, scope, nm', nm)
    && i < |b.params|
  }

  function With(b: Fn, c: Code): Fn {
    Fn(c, b.params, b.n)
  }

  /** With the choice `c` an expression, some arguments or a statement free parameter `i` in the way `d`. */
  ghost predicate HitsExpr(b: Fn, c: Code, nm: Names, e: Expr, i: nat, d: DeallocType) {
    && b.c.Acyclic() && Choice(b.c, c, b.n) && With(b, c).Walks(e) && i < |b.params|
    && d in CollectExpr(With(b, c), nm, e, Nothing(|b.params|))[i]
  }

  ghost predicate HitsArgs(b: Fn, c: Code, nm: Names, args: seq<Expr>, i: nat, d: DeallocType) {
    && b.c.Acyclic() && Choice(b.c, c, b.n) && With(b, c).WalksAll(args) && i < |b.params|
    && d in CollectArgs(With(b, c), nm, args, Nothing(|b.params|))[i]
  }

  ghost predicate HitsStmt(b: Fn, c: Code, nm: Names, s: Stmt, i: nat, d: DeallocType) {
    && b.c.Acyclic() && Choice(b.c, c, b.n) && With(b, c).WalksStmt(s) && i < |b.params|
    && d in CollectStmt(With(b, c), nm, s, Nothing(|b.params|))[i]
  }

  lemma {:induction false} ChoiceWalks(b: Fn, c: Code, e: Expr)
    requires b.c.Acyclic() && Choice(b.c, c, b.n) && b.Walks(e)
    ensures With(b, c).Walks(e)
  {
    ChoiceIsStraight(b.c, c, b.n);
    OwnCopy(b.c, e, b.n);
    CopyBelow(b.c, c, e, e, b.n);
  }

  lemma {:induction false} ExprChoice(b: Fn, scope: set<Var>, nm: Names, nm': Names, e: Expr, i: nat, d: DeallocType)
    returns (c: Code)
    requires Prepared(b, scope, nm, nm', i) && b.Walks(e) && ExprScoped(e, scope)
    requires d in CollectExpr(b, nm, e, Nothing(|b.params|))[i]
    ensures HitsExpr(b, c, nm', e, i, d)
    decreases b.n, 1, e
  {
    match e
    case PlacementNew(at) => c := ExprChoice(b, scope, nm, nm', at, i, d);
    case Call(f, args) => c := CallChoice(b, scope, nm, nm', f, args, i, d);
    case IndirectCall(_, args) => c := ArgsChoice(b, scope, nm, nm', args, i, d);
    case NewExpr(_, parts) => c := ArgsChoice(b, scope, nm, nm', parts, i, d);
    case OtherExpr(_, parts) => c := ArgsChoice(b, scope, nm, nm', parts, i, d);
    case _ =>
  }

  lemma {:induction false} ArgsChoice(b: Fn, scope: set<Var>, nm: Names, nm': Names, args: seq<Expr>, i: nat,
                                      d: DeallocType) returns (c: Code)
    requires Prepared(b, scope, nm, nm', i) && b.WalksAll(args)
    requires forall j :: 0 <= j < |args| ==> ExprScoped(args[j], scope)
    requires d in CollectArgs(b, nm, args, Nothing(|b.params|))[i]
    ensures HitsArgs(b, c, nm', args, i, d)
    decreases b.n, 1, args
  {
    var none := Nothing(|b.params|);
    ArgsAdd(b, nm, args[1..], CollectExpr(b, nm, args[0], none));
    if d in CollectExpr(b, nm, args[0], none)[i] {
      c := ExprChoice(b, scope, nm, nm', args[0], i, d);
    } else {
      c := ArgsChoice(b, scope, nm, nm', args[1..], i, d);
    }
    forall j | 0 <= j < |args|
      ensures With(b, c).Walks(args[j])
    {
      ChoiceWalks(b, c, args[j]);
    }
    ArgsAdd(With(b, c), nm', args[1..], CollectExpr(With(b, c), nm', args[0], none));
  }

  /** Either the callee frees an argument, or a call among the arguments does. */
  lemma {:induction false} CallChoice(b: Fn, scope: set<Var>, nm: Names, nm': Names, f: FuncId, args: seq<Expr>, i: nat,
                                      d: DeallocType) returns (c: Code)
    requires Prepared(b, scope, nm, nm', i) && b.Walks(Call(f, args)) && ExprScoped(Call(f, args), scope)
    requires d in CollectExpr(b, nm, Call(f, args), Nothing(|b.params|))[i]
    ensures HitsExpr(b, c, nm', Call(f, args), i, d)
    decreases b.n, 1, Call(f, args), 0
  {
    var none := Nothing(|b.params|);
    var noted := NoteArgs(b.params, nm, CollectFunc(b.c, f), args, none, 0);
    ArgsAdd(b, nm, args, noted);
    if d in noted[i] {
      NotedKind(b.params, nm, CollectFunc(b.c, f), args, none, 0, i, d);
      var j: nat :| j < |CollectFunc(b.c, f)| && j < |args| && Resolve(b.params, nm, args[j]) == Some(i) &&
                    d in CollectFunc(b.c, f)[j];
      c := CalleeChoice(b, f, j, d);
      OwnCopy(b.c, args[j], b.n);
      ResolvesAlike(Itself(b.c.prog), b.params, scope, nm', nm, args[j], args[j]);
      NotedKind(b.params, nm', CollectFunc(c, f), args, none, 0, i, d);
    } else {
      c := ArgsChoice(b, scope, nm, nm', args, i, d);
    }
    ChoiceWalks(b, c, Call(f, args));
    ArgsAdd(With(b, c), nm', args, NoteArgs(b.params, nm', CollectFunc(c, f), args, none, 0));
  }

  /** The choice for a callee, extended to the rank of the caller. */
  lemma {:induction false} CalleeChoice(b: Fn, f: FuncId, j: nat, d: DeallocType) returns (c: Code)
    requires b.c.Acyclic() && ProgramScoped(b.c.prog) && AllClear(b.c, b.n)
    requires f in b.c.prog && b.c.rank[f] < b.n && j < |CollectFunc(b.c, f)| && d in CollectFunc(b.c, f)[j]
    ensures Choice(b.c, c, b.n) && c.Acyclic() && f in c.prog
    ensures j < |CollectFunc(c, f)| && d in CollectFunc(c, f)[j]
    decreases b.n, 0
  {
    var m := b.c.rank[f];
    var c0 := FuncChoice(b.c, f, j, d);
    c := Extend(b.c, c0, m, b.n);
    ExtendIsChoice(b.c, c0, m, b.n);
    ChoiceIsStraight(b.c, c, b.n);
    ChoiceIsStraight(b.c, c0, m);
    SameFunc(c0, c, m, f);
  }

  lemma {:induction false} FuncChoice(b: Code, f: FuncId, i: nat, d: DeallocType) returns (c: Code)
    requires b.Acyclic() && f in b.prog && ProgramScoped(b.prog) && AllClear(b, b.rank[f])
    requires i < |CollectFunc(b, f)| && d in CollectFunc(b, f)[i]
    ensures Choice(b, c, b.rank[f]) && c.Acyclic() && f in c.prog
    ensures i < |CollectFunc(c, f)| && d in CollectFunc(c, f)[i]
    decreases b.rank[f], 5
  {
    var n, fn := b.rank[f], b.prog[f];
    if fn.body.None? {
      c := Extend(b, b, -1, n);
      ExtendIsChoice(b, b, -1, n);
      ChoiceIsStraight(b, c, n);
    } else {
      var s, k := fn.body.value, |fn.params|;
      var c0, p := StmtChoice(b.Inside(f), ToSet(fn.params), START, START, s, i, d);
      c := Code(c0.prog[f := fn.(body := Some(p))], b.rank);
      ChoiceIsStraight(b, c, n);
      ChoiceIsStraight(b, c0, n);
      forall g | g in c0.prog && c0.rank[g] < n
        ensures CollectFunc(c, g) == CollectFunc(c0, g)
      {
        SameFunc(c0, c, n - 1, g);
      }
      SameStmt(With(b.Inside(f), c0), c.Inside(f), START, p, Nothing(k));
    }
  }

  lemma WayWalks(b: Fn, c: Code, scope: set<Var>, nm: Names, p: Stmt, s: Stmt)
    requires b.c.Acyclic() && Choice(b.c, c, b.n) && b.WalksStmt(s)
    requires p in Ways(Itself(b.c.prog), b.params, nm, scope, s)
    ensures With(b, c).WalksStmt(p)
  {
    ChoiceIsStraight(b.c, c, b.n);
    WayBelow(b.c, c, b.params, nm, scope, p, s, b.n);
  }

  lemma {:induction false} StmtChoice(b: Fn, scope: set<Var>, nm: Names, nm': Names, s: Stmt, i: nat, d: DeallocType)
    returns (c: Code, p: Stmt)
    requires Prepared(b, scope, nm, nm', i) && b.WalksStmt(s) && Scoped(s, scope) && Clear(b.params, nm, scope, s)
    requires d in CollectStmt(b, nm, s, Nothing(|b.params|))[i]
    ensures p in Ways(Itself(b.c.prog), b.params, nm, scope, s) && HitsStmt(b, c, nm', p, i, d)
    decreases b.n, 4, s
  {
    if s.Seq? {
      c, p := SeqChoice(b, scope, nm, nm', s.s1, s.s2, i, d);
    } else if s.If? {
      c, p := IfChoice(b, scope, nm, nm', s.thn, s.els, i, d);
    } else {
      c := LeafChoice(b, scope, nm, nm', s, i, d);
      p := s;
      OwnLeaf(b.c, s, b.n);
    }
  }

  lemma {:induction false} IfChoice(b: Fn, scope: set<Var>, nm: Names, nm': Names, thn: Stmt, els: Option<Stmt>, i: nat,
                                    d: DeallocType) returns (c: Code, p: Stmt)
    requires Prepared(b, scope, nm, nm', i) && b.WalksStmt(If(thn, els))
    requires Scoped(If(thn, els), scope) && Clear(b.params, nm, scope, If(thn, els))
    requires d in CollectStmt(b, nm, If(thn, els), Nothing(|b.params|))[i]
    ensures p in Ways(Itself(b.c.prog), b.params, nm, scope, If(thn, els)) && HitsStmt(b, c, nm', p, i, d)
    decreases b.n, 4, If(thn, els), 0
  {
    var none, nm1 := Nothing(|b.params|), NamesAfter(b.params, nm, thn);
    if d in CollectStmt(b, nm, thn, none)[i] {
      c, p := StmtChoice(b, scope, nm, nm', thn, i, d);
    } else {
      StmtAdds(b, nm1, els.value, CollectStmt(b, nm, thn, none));
      c, p := StmtChoice(b, scope, nm1, nm', els.value, i, d);
    }
  }

  /** The hit is in the first of two statements, or in the second. */
  lemma FirstHits(b: Fn, c: Code, nm: Names, p1: Stmt, p2: Stmt, i: nat, d: DeallocType)
    requires HitsStmt(b, c, nm, p1, i, d) && With(b, c).WalksStmt(p2)
    ensures HitsStmt(b, c, nm, Seq(p1, p2), i, d)
  {
    StmtAdds(With(b, c), NamesAfter(b.params, nm, p1), p2, CollectStmt(With(b, c), nm, p1, Nothing(|b.params|)));
  }

  lemma SecondHits(b: Fn, c: Code, nm: Names, p1: Stmt, p2: Stmt, i: nat, d: DeallocType)
    requires HitsStmt(b, c, NamesAfter(b.params, nm, p1), p2, i, d) && With(b, c).WalksStmt(p1)
    ensures HitsStmt(b, c, nm, Seq(p1, p2), i, d)
  {
    StmtAdds(With(b, c), NamesAfter(b.params, nm, p1), p2, CollectStmt(With(b, c), nm, p1, Nothing(|b.params|)));
  }

  lemma {:induction false} SeqChoice(b: Fn, scope: set<Var>, nm: Names, nm': Names, s1: Stmt, s2: Stmt, i: nat,
                                     d: DeallocType) returns (c: Code, p: Stmt)
    requires Prepared(b, scope, nm, nm', i) && b.WalksStmt(Seq(s1, s2))
    requires Scoped(Seq(s1, s2), scope) && Clear(b.params, nm, scope, Seq(s1, s2))
    requires d in CollectStmt(b, nm, Seq(s1, s2), Nothing(|b.params|))[i]
    ensures p in Ways(Itself(b.c.prog), b.params, nm, scope, Seq(s1, s2)) && HitsStmt(b, c, nm', p, i, d)
    decreases b.n, 4, Seq(s1, s2), 0
  {
    var none, nm1, scope1 := Nothing(|b.params|), NamesAfter(b.params, nm, s1), ScopeAfter(s1, scope);
    if d in CollectStmt(b, nm, s1, none)[i] {
      c, p := StmtChoice(b, scope, nm, nm', s1, i, d);
      if NoReturn(p) { p := GoOn(b, c, scope1, nm1, nm', p, s2, i, d); }
    } else {
      StmtAdds(b, nm1, s2, CollectStmt(b, nm, s1, none));
      var p1 := SomeWay(b.params, nm, scope, s1);
      SomeWayIsOne(b.c, b.params, nm, scope, s1, b.n);
      WaySame(Itself(b.c.prog), b.params, nm, scope, nm', p1, s1);
      var p2;
      c, p2 := StmtChoice(b, scope1, nm1, NamesAfter(b.params, nm', p1), s2, i, d);
      WayWalks(b, c, scope, nm, p1, s1);
      SecondHits(b, c, nm', p1, p2, i, d);
      p := Seq(p1, p2);
    }
  }

  /** After the hit any way will do. */
  lemma GoOn(b: Fn, c: Code, scope: set<Var>, nm: Names, nm': Names, p1: Stmt, s2: Stmt, i: nat, d: DeallocType)
    returns (p: Stmt)
    requires HitsStmt(b, c, nm', p1, i, d) && b.WalksStmt(s2) && Clear(b.params, nm, scope, s2)
    ensures p.Seq? && p.s1 == p1 && p.s2 in Ways(Itself(b.c.prog), b.params, nm, scope, s2)
    ensures HitsStmt(b, c, nm', p, i, d)
  {
    var p2 := SomeWay(b.params, nm, scope, s2);
    SomeWayIsOne(b.c, b.params, nm, scope, s2, b.n);
    WayWalks(b, c, scope, nm, p2, s2);
    FirstHits(b, c, nm', p1, p2, i, d);
    p := Seq(p1, p2);
  }

  lemma {:induction false} LeafChoice(b: Fn, scope: set<Var>, nm: Names, nm': Names, s: Stmt, i: nat, d: DeallocType)
    returns (c: Code)
    requires !s.If? && !s.Seq?
    requires Prepared(b, scope, nm, nm', i) && b.WalksStmt(s) && Scoped(s, scope)
    requires d in CollectStmt(b, nm, s, Nothing(|b.params|))[i]
    ensures HitsStmt(b, c, nm', s, i, d)
    decreases b.n, 3
  {
    match s
    case Decl(x, Some(e)) => c := StoreChoice(b, scope, nm, nm', x, e, i, d);
    case Assign(x, e) => c := StoreChoice(b, scope, nm, nm', x, e, i, d);
    case Return(e) => c := ExprChoice(b, scope, nm, nm', e, i, d);
    case ExprStmt(e) => c := ExprChoice(b, scope, nm, nm', e, i, d);
    case Delete(e, arr) => c := FreedChoice(b, scope, nm, nm', e, if arr then DeleteArr else DeleteOne, i, d);
    case Free(e) => c := FreedChoice(b, scope, nm, nm', e, FreeCall, i, d);
    case _ =>
  }

  lemma {:induction false} StoreChoice(b: Fn, scope: set<Var>, nm: Names, nm': Names, x: Var, e: Expr, i: nat,
                                       d: DeallocType) returns (c: Code)
    requires Prepared(b, scope, nm, nm', i) && b.Walks(e) && ExprScoped(e, scope)
    requires d in CollectExpr(b, UpdateMap(b.params, nm, x, Some(e)), e, Nothing(|b.params|))[i]
    ensures HitsExpr(b, c, UpdateMap(b.params, nm', x, Some(e)), e, i, d)
    decreases b.n, 2
  {
    OwnCopy(b.c, e, b.n);
    StoreSame(Itself(b.c.prog), b.params, scope, nm', nm, x, Some(e), Some(e));
    c := ExprChoice(b, scope, UpdateMap(b.params, nm, x, Some(e)), UpdateMap(b.params, nm', x, Some(e)), e, i, d);
  }

  lemma {:induction false} FreedChoice(b: Fn, scope: set<Var>, nm: Names, nm': Names, e: Expr, kind: DeallocType,
                                       i: nat, d: DeallocType) returns (c: Code)
    requires Prepared(b, scope, nm, nm', i) && b.Walks(e) && ExprScoped(e, scope)
    requires d in CollectFreed(b, nm, e, kind, Nothing(|b.params|))[i]
    ensures Choice(b.c, c, b.n) && With(b, c).Walks(e)
    ensures d in CollectFreed(With(b, c), nm', e, kind, Nothing(|b.params|))[i]
    decreases b.n, 2
  {
    var none, r := Nothing(|b.params|), Resolve(b.params, nm, e);
    OwnCopy(b.c, e, b.n);
    ResolvesAlike(Itself(b.c.prog), b.params, scope, nm', nm, e, e);
    ExprAdds(b, nm, e, Note(none, r, {kind}));
    if d in CollectExpr(b, nm, e, none)[i] {
      c := ExprChoice(b, scope, nm, nm', e, i, d);
    } else {
      c := Extend(b.c, b.c, -1, b.n);
      ExtendIsChoice(b.c, b.c, -1, b.n);
    }
    ChoiceWalks(b, c, e);
    ExprAdds(With(b, c), nm', e, Note(none, r, {kind}));
  }

  // ----- calm text has calm ways -----

  lemma {:induction false} CopyCalm(of: Copies, b: Fn, c: Fn, scope: set<Var>, nm: Names, nm': Names, e': Expr, e: Expr)
    requires b.params == c.params && Same(b.params, scope, nm', nm) && CopyOf(of, e', e) && ExprScoped(e, scope)
    ensures CalmExpr(b, None, nm, e) ==> CalmExpr(c, None, nm', e')
    ensures Steady(b, None, nm, e) ==> Steady(c, None, nm', e')
    decreases e
  {
    match e
    case PlacementNew(at) => CopyCalm(of, b, c, scope, nm, nm', e'.at, at);
    case Call(_, args) => forall i | 0 <= i < |args| { CopyCalm(of, b, c, scope, nm, nm', e'.args[i], args[i]); }
    case IndirectCall(_, args) =>
      forall i | 0 <= i < |args| { CopyCalm(of, b, c, scope, nm, nm', e'.args[i], args[i]); }
    case NewExpr(_, parts) => forall i | 0 <= i < |parts| { CopyCalm(of, b, c, scope, nm, nm', e'.parts[i], parts[i]); }
    case OtherExpr(_, parts) =>
      forall i | 0 <= i < |parts| { CopyCalm(of, b, c, scope, nm, nm', e'.parts[i], parts[i]); }
    case _ =>
  }

  lemma StoreCalm(of: Copies, b: Fn, c: Fn, scope: set<Var>, nm: Names, nm': Names, x: Var, e': Expr, e: Expr)
    requires b.params == c.params && Same(b.params, scope, nm', nm) && CopyOf(of, e', e) && ExprScoped(e, scope)
    requires Steady(b, None, nm, e) && CalmExpr(b, None, UpdateMap(b.params, nm, x, Some(e)), e)
    ensures Steady(c, None, nm', e') && CalmExpr(c, None, UpdateMap(c.params, nm', x, Some(e')), e')
  {
    StoreSame(of, b.params, scope, nm', nm, x, Some(e'), Some(e));
    CopyCalm(of, b, c, scope, nm, nm', e', e);
    CopyCalm(of, b, c, scope, UpdateMap(b.params, nm, x, Some(e)), UpdateMap(c.params, nm', x, Some(e')), e', e);
  }

  lemma {:induction false} WayCalm(of: Copies, b: Fn, c: Fn, scope: set<Var>, nm: Names, nm': Names, p: Stmt, s: Stmt)
    requires b.params == c.params && Same(b.params, scope, nm', nm)
    requires p in Ways(of, b.params, nm, scope, s) && Scoped(s, scope) && CalmStmt(b, None, nm, s)
    ensures CalmStmt(c, None, nm', p)
    decreases s
  {
    match s
    case If(thn, els) =>
      var nm1 := NamesAfter(b.params, nm, thn);
      if p in Ways(of, b.params, nm, scope, thn) {
        WayCalm(of, b, c, scope, nm, nm', p, thn);
      } else if els.Some? {
        WayCalm(of, b, c, scope, nm1, nm', p, els.value);
      }
    case Seq(s1, s2) =>
      if p in Ways(of, b.params, nm, scope, s1) && !NoReturn(p) {
        WayCalm(of, b, c, scope, nm, nm', p, s1);
      } else {
        WaySame(of, b.params, nm, scope, nm', p.s1, s1);
        WayCalm(of, b, c, scope, nm, nm', p.s1, s1);
        WayCalm(of, b, c, ScopeAfter(s1, scope), NamesAfter(b.params, nm, s1), NamesAfter(b.params, nm', p.s1), p.s2,
                s2);
      }
    case Decl(x, Some(e)) => StoreCalm(of, b, c, scope, nm, nm', x, p.init.value, e);
    case Assign(x, e) => StoreCalm(of, b, c, scope, nm, nm', x, p.e, e);
    case Return(e) => CopyCalm(of, b, c, scope, nm, nm', p.e, e);
    case ExprStmt(e) => CopyCalm(of, b, c, scope, nm, nm', p.e, e);
    case Delete(e, _) => CopyCalm(of, b, c, scope, nm, nm', p.e, e);
    case Free(e) => CopyCalm(of, b, c, scope, nm, nm', p.e, e);
    case _ =>
  }

  lemma ChoiceCalm(b: Code, c: Code, f: FuncId)
    requires b.Acyclic() && ProgramScoped(b.prog) && f in b.prog && Choice(b, c, b.rank[f]) && TextCalm(b, f)
    ensures c.Straight() && TextCalm(c, f)
  {
    ChoiceIsStraight(b, c, b.rank[f]);
    forall g | g in c.prog && c.rank[g] <= c.rank[f] && c.prog[g].body.Some?
      ensures CalmStmt(c.Inside(g), None, START, c.prog[g].body.value)
    {
      var fn := b.prog[g];
      assert FuncScoped(fn);
      WayCalm(Itself(b.prog), b.Inside(g), c.Inside(g), ToSet(fn.params), START, START, c.prog[g].body.value,
              fn.body.value);
    }
  }

  // ----- the marks of code with branches -----

  /** For some choice of branches the entry value of parameter `i` is freed in the way `d`, whatever the
      world is like. */
  ghost predicate CanFree(b: Code, f: FuncId, i: nat, d: DeallocType)
    requires b.Acyclic() && f in b.prog
  {
    exists c :: Choice(b, c, b.rank[f]) && c.Straight() && AlwaysFrees(c, f, i, d)
  }

  ghost predicate AlwaysFrees(c: Code, f: FuncId, i: nat, d: DeallocType)
    requires c.Straight()
  {
    f in c.prog && forall world :: d in KindsAt(RunFunc(c, world, f).frees, i)
  }

  ghost predicate CanFreeTwoWays(b: Code, f: FuncId, i: nat)
    requires b.Acyclic() && f in b.prog
  {
    exists d, d' :: d != d' && CanFree(b, f, i, d) && CanFree(b, f, i, d')
  }

  /** No mark is invented: some choice of branches frees the entry value, in the way that the mark names;
      a contradiction stands for unseen code, or for two ways, each with a choice of its own. */
  lemma BranchMarksAreReal(b: Code, f: FuncId, i: nat)
    requires b.Acyclic() && ProgramScoped(b.prog) && f in b.prog && b.prog[f].body.Some? && i < |b.prog[f].params|
    requires AllClear(b, b.rank[f]) && TextCalm(b, f)
    ensures var mark := GetDeallocType(b.prog, f).1[i];
            && (mark == Contradiction ==> CanFree(b, f, i, Opaque) || CanFreeTwoWays(b, f, i))
            && (mark in {DeleteOne, DeleteArr, FreeCall} ==> CanFree(b, f, i, mark))
            && mark != Opaque
  {
    var kinds := CollectFunc(b, f)[i];
    MarkIsVerdict(b, f, i);
    forall d | d in kinds
      ensures CanFree(b, f, i, d)
    {
      KindCanBeFreed(b, f, i, d);
    }
    if Verdict(kinds) == Contradiction && Opaque !in kinds {
      var d, d' := TwoOf(kinds);
      assert CanFree(b, f, i, d) && CanFree(b, f, i, d');
    }
  }

  lemma TwoOf(kinds: Kinds) returns (d: DeallocType, d': DeallocType)
    requires Basic(kinds) && Verdict(kinds) == Contradiction && Opaque !in kinds
    ensures d in kinds && d' in kinds && d != d'
  {
    d :| d in kinds;
    assert kinds != {d};
    d' :| d' in kinds && d' != d;
  }

  lemma KindCanBeFreed(b: Code, f: FuncId, i: nat, d: DeallocType)
    requires b.Acyclic() && ProgramScoped(b.prog) && f in b.prog && i < |b.prog[f].params|
    requires AllClear(b, b.rank[f]) && TextCalm(b, f) && d in CollectFunc(b, f)[i]
    ensures CanFree(b, f, i, d)
  {
    var c := FuncChoice(b, f, i, d);
    ChoiceCalm(b, c, f);
    forall world
      ensures d in KindsAt(RunFunc(c, world, f).frees, i)
    {
      TextCalmSuffices(c, world, f);
      FuncCovers(false, c, world, f);
      assert CollectFunc(c, f)[i] <= {} + KindsAt(RunFunc(c, world, f).frees, i);
    }
    assert AlwaysFrees(c, f, i, d);
  }

  /** All the ways in which some choice of branches frees the entry value, in one world. */
  ghost function WaysOfFreeing(b: Code, world: World, f: FuncId, i: nat): Kinds
    requires b.Acyclic() && f in b.prog
  {
    set d: DeallocType | FreesOnSomeWay(b, world, f, i, d)
  }

  ghost predicate FreesOnSomeWay(b: Code, world: World, f: FuncId, i: nat, d: DeallocType)
    requires b.Acyclic() && f in b.prog
  {
    exists c :: Choice(b, c, b.rank[f]) && c.Straight() && FreesIn(c, world, f, i, d)
  }

  ghost predicate FreesIn(c: Code, world: World, f: FuncId, i: nat, d: DeallocType)
    requires c.Straight()
  {
    f in c.prog && d in KindsAt(RunFunc(c, world, f).frees, i)
  }

  /** If the text is tidy on all ways, the mark is the verdict on all frees there can be. */
  lemma BranchMarksAreExact(b: Code, world: World, f: FuncId, i: nat)
    requires b.Acyclic() && ProgramScoped(b.prog) && f in b.prog && b.prog[f].body.Some? && i < |b.prog[f].params|
    requires AllClear(b, b.rank[f])
    requires forall c :: Choice(b, c, b.rank[f]) && c.Straight() ==> FuncsOk(true, c, world, f)
    ensures GetDeallocType(b.prog, f).1[i] == Verdict(WaysOfFreeing(b, world, f, i))
  {
    MarkIsVerdict(b, f, i);
    forall d
      ensures d in CollectFunc(b, f)[i] <==> d in WaysOfFreeing(b, world, f, i)
    {
      if d in CollectFunc(b, f)[i] {
        var c := FuncChoice(b, f, i, d);
        ChoiceIsStraight(b, c, b.rank[f]);
        FuncCovers(true, c, world, f);
        assert FreesIn(c, world, f, i, d);
      }
      if d in WaysOfFreeing(b, world, f, i) {
        var c :| Choice(b, c, b.rank[f]) && c.Straight() && FreesIn(c, world, f, i, d);
        FuncCovers(true, c, world, f);
        FuncWithin(Itself(b.prog), b, c, f);
      }
    }
    assert CollectFunc(b, f)[i] == WaysOfFreeing(b, world, f, i);
  }
}
