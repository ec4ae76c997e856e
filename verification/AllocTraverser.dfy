/** The allocation analysis as the source runs it: one mutable variable map, and at an if/else an
    undo log of overwritten values instead of a copy of the state.  Every method is proved against
    the copy-and-join analysis of AllocSpec. */
module AllocTraverser {
  import opened Wrappers
  import opened Ast
  import opened AllocSpec

  /** The memo table, shared by reference between the traversers of all functions. */
  class VisitedFuncs {
    var table: Cache

    constructor (init: Cache)
      ensures table == init
    {
      table := init;
    }
  }

  /** std::unordered_map::try_emplace for all entries of `b`: the entries of `a` win. */
  function EmplaceAll(a: Facts, b: Facts): Facts {
    b + a
  }

  /** The value that replaying the undo log gives `x`. */
  function Undone(vars: Facts, log: Facts, x: Var): Fact
    requires x in vars || x in log
  {
    if x in log then log[x] else vars[x]
  }

  /** `log1` extends `log0`, and undoing from (vars1, log1) lands where undoing from
      (vars0, log0) does, for every variable of `scope`. */
  ghost predicate UndoesAlike(vars0: Facts, log0: Facts, vars1: Facts, log1: Facts, scope: set<Var>)
  {
    && log0.Keys <= log1.Keys <= vars1.Keys
    && (forall x :: x in log0 ==> log1[x] == log0[x])
    && scope <= vars0.Keys && scope <= vars1.Keys
    && forall x :: x in scope ==> Undone(vars1, log1, x) == Undone(vars0, log0, x)
  }

  /** `vars` holds the facts of `m`, and possibly facts of variables that went out of scope. */
  ghost predicate Agrees(vars: Facts, m: Facts) {
    m.Keys <= vars.Keys && forall x :: x in m ==> vars[x] == m[x]
  }

  /** Every variable of `scope` that `log` does not name is unchanged, and the others are named
      with their old value. */
  ghost predicate Logs(vars0: Facts, log: Facts, vars1: Facts, scope: set<Var>) {
    && log.Keys <= vars1.Keys
    && scope <= vars0.Keys <= vars1.Keys
    && forall x :: x in scope ==> if x in log then log[x] == vars0[x] else vars1[x] == vars0[x]
  }

  /** An if without else: joining the logged variables joins all of them. */
  lemma ThenMerged(vars0: Facts, log: Facts, varsThen: Facts, vars1: Facts, scope: set<Var>)
    requires UndoesAlike(vars0, map[], varsThen, log, scope) && vars0.Keys <= varsThen.Keys
    requires vars1.Keys == varsThen.Keys
    requires forall x :: x in vars1 ==>
      vars1[x] == if x in log then Join(log[x], varsThen[x]) else varsThen[x]
    ensures forall x :: x in scope ==> vars1[x] == Join(vars0[x], varsThen[x])
    ensures Logs(vars0, log, vars1, scope)
  {
  }

  /** An if with else: undo, walk, and the two join loops give the pointwise join. */
  lemma ElseMerged(vars0: Facts, logT: Facts, varsThen: Facts, valuesT: Facts, varsBetween: Facts,
                   logE: Facts, varsElse: Facts, varsMid: Facts, vars1: Facts, scope: set<Var>)
    requires UndoesAlike(vars0, map[], varsThen, logT, scope) && vars0.Keys <= varsThen.Keys
    requires valuesT.Keys == logT.Keys && forall x :: x in valuesT ==> valuesT[x] == varsThen[x]
    requires varsBetween == varsThen + logT
    requires UndoesAlike(varsBetween, map[], varsElse, logE, scope) && varsBetween.Keys <= varsElse.Keys
    requires varsMid.Keys == varsElse.Keys == vars1.Keys
    requires forall x :: x in varsMid ==>
      varsMid[x] == if x !in logE then varsElse[x]
                    else if x in valuesT then Join(varsElse[x], valuesT[x])
                    else Join(logE[x], varsElse[x])
    requires forall x :: x in vars1 ==>
      vars1[x] == if x in valuesT then Join(valuesT[x], varsMid[x]) else varsMid[x]
    ensures forall x :: x in scope ==> varsBetween[x] == vars0[x]
    ensures forall x :: x in scope ==> vars1[x] == Join(varsThen[x], varsElse[x])
    ensures Logs(vars0, EmplaceAll(logT, logE), vars1, scope)
  {
  }

  /** Informing the enclosing log of a nested one keeps it able to undo everything. */
  lemma InformedUndo(vars0: Facts, outer: Option<Facts>, log: Facts, vars1: Facts, scope: set<Var>)
    requires outer.Some? ==> outer.value.Keys <= vars0.Keys
    requires Logs(vars0, log, vars1, scope)
    ensures outer.Some? ==> UndoesAlike(vars0, outer.value, vars1, EmplaceAll(outer.value, log), scope)
  {
  }

  lemma EmplaceTwice(outer: Option<Facts>, a: Facts, b: Facts)
    ensures outer.Some? ==>
      EmplaceAll(EmplaceAll(outer.value, a), b) == EmplaceAll(outer.value, EmplaceAll(a, b))
  {
  }

  /** Overwriting one variable after its old value was offered to the log. */
  lemma AssignedUndo(vars0: Facts, log: Option<Facts>, x: Var, v: Fact, scope: set<Var>)
    requires x in scope && scope <= vars0.Keys
    requires log.Some? ==> log.value.Keys <= vars0.Keys
    ensures log.Some? ==>
      UndoesAlike(vars0, log.value, vars0[x := v], EmplaceAll(log.value, map[x := vars0[x]]), scope)
  {
  }

  /** The contract of walking one statement: the facts of the variables in scope, the combined
      result and the memo table are those of AllocSpec.Traverse, and the undo log still undoes. */
  ghost predicate Walked(prog: Program, s: Stmt, m: Facts, vars0: Facts, result0: Fact, table0: Cache,
                         log0: Option<Facts>, vars1: Facts, result1: Fact, table1: Cache,
                         log1: Option<Facts>, go: bool)
  {
    var r := Traverse(prog, s, State(m, result0, table0));
    && go == r.go && Agrees(vars1, r.st.vars) && result1 == r.st.result && table1 == r.st.cache
    && vars0.Keys <= vars1.Keys
    && log1.Some? == log0.Some?
    && (log1.Some? ==> UndoesAlike(vars0, log0.value, vars1, log1.value, m.Keys))
  }

  class AllocationTraverser {
    const prog: Program
    const visitedFuncs: VisitedFuncs
    var varMap: Facts
    var result: Fact
    var undoLog: Option<Facts>

    constructor (prog: Program, cache: VisitedFuncs)
      ensures this.prog == prog && visitedFuncs == cache
      ensures varMap == map[] && result == None && undoLog == None
    {
      this.prog, visitedFuncs := prog, cache;
      varMap, result, undoLog := map[], None, None;
    }

    ghost predicate LogInMap()
      reads this
    {
      undoLog.Some? ==> undoLog.value.Keys <= varMap.Keys
    }

    /** Puts the logged values back. */
    method UndoOnVarMap()
      requires undoLog.Some?
      modifies this`varMap
      ensures varMap == old(varMap) + undoLog.value
    {
      var log := undoLog.value;
      var todo := log.Keys;
      while todo != {}
        invariant todo <= log.Keys && undoLog == Some(log)
        invariant varMap.Keys == old(varMap).Keys + (log.Keys - todo)
        invariant forall x :: x in varMap ==>
          varMap[x] == if x in log && x !in todo then log[x] else old(varMap)[x]
      {
        var x :| x in todo;
        varMap := varMap[x := log[x]];
        todo := todo - {x};
      }
    }

    /** varMap[x] = join(values[x], varMap[x]) for every entry, in whatever order. */
    method JoinInto(values: Facts)
      requires values.Keys <= varMap.Keys
      modifies this`varMap
      ensures varMap.Keys == old(varMap).Keys
      ensures forall x :: x in varMap ==>
        varMap[x] == if x in values then Join(values[x], old(varMap)[x]) else old(varMap)[x]
    {
      var todo := values.Keys;
      while todo != {}
        invariant todo <= values.Keys && varMap.Keys == old(varMap).Keys
        invariant forall x :: x in varMap ==>
          varMap[x] == if x in values && x !in todo then Join(values[x], old(varMap)[x]) else old(varMap)[x]
      {
        var x :| x in todo;
        varMap := varMap[x := Join(values[x], varMap[x])];
        todo := todo - {x};
      }
    }

    /** The values that `log`'s variables hold now. */
    method Snapshot(log: Facts) returns (values: Facts)
      requires log.Keys <= varMap.Keys
      ensures values.Keys == log.Keys
      ensures forall x :: x in values ==> values[x] == varMap[x]
    {
      values := map[];
      var todo := log.Keys;
      while todo != {}
        invariant todo <= log.Keys && values.Keys == log.Keys - todo
        invariant forall x :: x in values ==> values[x] == varMap[x]
      {
        var x :| x in todo;
        values := values[x := varMap[x]];
        todo := todo - {x};
      }
    }

    /** After the else branch: a variable changed only there is joined with its old value, one
        changed in both branches with its value from the then branch. */
    method JoinElse(elseLog: Facts, thenValues: Facts)
      requires elseLog.Keys <= varMap.Keys
      modifies this`varMap
      ensures varMap.Keys == old(varMap).Keys
      ensures forall x :: x in varMap ==>
        varMap[x] == if x !in elseLog then old(varMap)[x]
                     else if x in thenValues then Join(old(varMap)[x], thenValues[x])
                     else Join(elseLog[x], old(varMap)[x])
    {
      var todo := elseLog.Keys;
      while todo != {}
        invariant todo <= elseLog.Keys && varMap.Keys == old(varMap).Keys
        invariant forall x :: x in varMap ==>
          varMap[x] == if x !in elseLog || x in todo then old(varMap)[x]
                       else if x in thenValues then Join(old(varMap)[x], thenValues[x])
                       else Join(elseLog[x], old(varMap)[x])
      {
        var x :| x in todo;
        varMap := varMap[x := if x in thenValues then Join(varMap[x], thenValues[x])
                                                 else Join(elseLog[x], varMap[x])];
        todo := todo - {x};
      }
    }

    /** Tells the enclosing branch, if any, about the changes of a nested one. */
    method Inform(outer: Option<Facts>, log: Facts) returns (r: Option<Facts>)
      ensures r == if outer.None? then None else Some(EmplaceAll(outer.value, log))
    {
      r := outer;
      if outer.Some? {
        var m := outer.value;
        var todo := log.Keys;
        while todo != {}
          invariant todo <= log.Keys
          invariant m.Keys == outer.value.Keys + (log.Keys - todo)
          invariant forall x :: x in m ==> m[x] == if x in outer.value then outer.value[x] else log[x]
        {
          var x :| x in todo;
          if x !in m {
            m := m[x := log[x]];
          }
          todo := todo - {x};
        }
        assert m == EmplaceAll(outer.value, log);
        r := Some(m);
      }
    }

    /** Closes an if without else: the then branch ran from `vars0` under its own log. */
    method MergeThen(outer: Option<Facts>, ghost vars0: Facts, ghost scope: set<Var>)
      requires undoLog.Some? && UndoesAlike(vars0, map[], varMap, undoLog.value, scope)
      requires vars0.Keys <= varMap.Keys && (outer.Some? ==> outer.value.Keys <= vars0.Keys)
      modifies this`varMap, this`undoLog
      ensures varMap.Keys == old(varMap).Keys
      ensures forall x :: x in scope ==> varMap[x] == Join(vars0[x], old(varMap)[x])
      ensures undoLog.Some? == outer.Some?
      ensures outer.Some? ==> UndoesAlike(vars0, outer.value, varMap, undoLog.value, scope)
    {
      var undoLogThen := undoLog.value;
      JoinInto(undoLogThen);
      undoLog := Inform(outer, undoLogThen);
      ThenMerged(vars0, undoLogThen, old(varMap), varMap, scope);
      InformedUndo(vars0, outer, undoLogThen, varMap, scope);
    }

    /** Takes the then branch back before the else branch is walked, keeping its values. */
    method SwitchToElse(ghost vars0: Facts, ghost scope: set<Var>) returns (values: Facts)
      requires undoLog.Some? && UndoesAlike(vars0, map[], varMap, undoLog.value, scope)
      requires vars0.Keys <= varMap.Keys
      modifies this`varMap, this`undoLog
      ensures values.Keys == old(undoLog).value.Keys
      ensures forall x :: x in values ==> values[x] == old(varMap)[x]
      ensures varMap == old(varMap) + old(undoLog).value && undoLog == Some(map[])
      ensures forall x :: x in scope ==> varMap[x] == vars0[x]
    {
      values := Snapshot(undoLog.value);
      UndoOnVarMap();
      forall x | x in scope
        ensures varMap[x] == vars0[x]
      {
        assert Undone(old(varMap), undoLog.value, x) == Undone(vars0, map[], x);
      }
      undoLog := Some(map[]);
    }

    /** The two join loops after the else branch. */
    method JoinBranches(undoLogThen: Facts, undoLogElse: Facts, values: Facts, ghost vars0: Facts,
                        ghost varsThen: Facts, ghost scope: set<Var>)
      requires UndoesAlike(vars0, map[], varsThen, undoLogThen, scope) && vars0.Keys <= varsThen.Keys
      requires values.Keys == undoLogThen.Keys && forall x :: x in values ==> values[x] == varsThen[x]
      requires UndoesAlike(varsThen + undoLogThen, map[], varMap, undoLogElse, scope)
      requires varsThen.Keys <= varMap.Keys
      modifies this`varMap
      ensures varMap.Keys == old(varMap).Keys
      ensures forall x :: x in scope ==> varMap[x] == Join(varsThen[x], old(varMap)[x])
      ensures Logs(vars0, EmplaceAll(undoLogThen, undoLogElse), varMap, scope)
    {
      JoinElse(undoLogElse, values);
      ghost var varsMid := varMap;
      JoinInto(values);
      ElseMerged(vars0, undoLogThen, varsThen, values, varsThen + undoLogThen, undoLogElse,
                 old(varMap), varsMid, varMap, scope);
    }

    /** Closes an if with else. */
    method MergeElse(outer: Option<Facts>, undoLogThen: Facts, values: Facts, ghost vars0: Facts,
                     ghost varsThen: Facts, ghost scope: set<Var>)
      requires UndoesAlike(vars0, map[], varsThen, undoLogThen, scope) && vars0.Keys <= varsThen.Keys
      requires values.Keys == undoLogThen.Keys && forall x :: x in values ==> values[x] == varsThen[x]
      requires undoLog.Some? && UndoesAlike(varsThen + undoLogThen, map[], varMap, undoLog.value, scope)
      requires varsThen.Keys <= varMap.Keys && (outer.Some? ==> outer.value.Keys <= vars0.Keys)
      modifies this`varMap, this`undoLog
      ensures varMap.Keys == old(varMap).Keys
      ensures forall x :: x in scope ==> varMap[x] == Join(varsThen[x], old(varMap)[x])
      ensures undoLog.Some? == outer.Some?
      ensures outer.Some? ==> UndoesAlike(vars0, outer.value, varMap, undoLog.value, scope)
    {
      var undoLogElse := undoLog.value;
      JoinBranches(undoLogThen, undoLogElse, values, vars0, varsThen, scope);
      undoLog := Inform(outer, undoLogThen);
      undoLog := Inform(undoLog, undoLogElse);
      EmplaceTwice(outer, undoLogThen, undoLogElse);
      InformedUndo(vars0, outer, EmplaceAll(undoLogThen, undoLogElse), varMap, scope);
    }

    /** The if/else of the source: whatever the nesting, the facts of all variables declared
        before it come out as if the state had been copied, and the enclosing undo log still
        undoes the whole statement. */
    method TraverseIf(s: Stmt, ghost m: Facts)
      requires s.If? && Scoped(s, m.Keys) && ProgramScoped(prog)
      requires Agrees(varMap, m) && LogInMap()
      modifies this, visitedFuncs
      ensures Walked(prog, s, m, old(varMap), old(result), old(visitedFuncs.table), old(undoLog),
                     varMap, result, visitedFuncs.table, undoLog, true)
      decreases prog.Keys - visitedFuncs.table.Keys, 1, s, 0
    {
      var undoLogCopy := undoLog;
      undoLog := Some(map[]);
      var _ := TraverseStmt(s.thn, m);
      ghost var varsThen := varMap;
      if s.els.None? {
        MergeThen(undoLogCopy, old(varMap), m.Keys);
      } else {
        var undoLogThen := undoLog.value;
        var valuesInIfBranch := SwitchToElse(old(varMap), m.Keys);
        var _ := TraverseStmt(s.els.value, m);
        MergeElse(undoLogCopy, undoLogThen, valuesInIfBranch, old(varMap), varsThen, m.Keys);
      }
    }

    method LogOldValue(x: Var)
      requires x in varMap
      modifies this`undoLog
      ensures undoLog == if old(undoLog).None? then None
                         else Some(EmplaceAll(old(undoLog).value, map[x := varMap[x]]))
    {
      if undoLog.Some? && x !in undoLog.value {
        undoLog := Some(undoLog.value[x := varMap[x]]);
      }
      assert undoLog.Some? ==> undoLog.value == EmplaceAll(old(undoLog).value, map[x := varMap[x]]);
    }

    method TraverseStmt(s: Stmt, ghost m: Facts) returns (go: bool)
      requires Scoped(s, m.Keys) && ProgramScoped(prog)
      requires Agrees(varMap, m) && LogInMap()
      modifies this, visitedFuncs
      ensures Walked(prog, s, m, old(varMap), old(result), old(visitedFuncs.table), old(undoLog),
                     varMap, result, visitedFuncs.table, undoLog, go)
      decreases prog.Keys - visitedFuncs.table.Keys, 1, s, 1
    {
      match s
      case If(_, _) =>
        TraverseIf(s, m);
        go := true;
      case Seq(s1, s2) =>
        ghost var r1 := Traverse(prog, s1, State(m, result, visitedFuncs.table));
        go := TraverseStmt(s1, m);
        if go {
          TraverseKeepsScope(prog, s1, State(m, old(result), old(visitedFuncs.table)));
          go := TraverseStmt(s2, r1.st.vars);
        }
      case _ =>
        go := TraverseSimple(s, m);
    }

    /** VisitVarDecl, VisitBinaryOperator and VisitReturnStmt. */
    method TraverseSimple(s: Stmt, ghost m: Facts) returns (go: bool)
      requires !s.If? && !s.Seq?
      requires Scoped(s, m.Keys) && ProgramScoped(prog)
      requires Agrees(varMap, m) && LogInMap()
      modifies this, visitedFuncs
      ensures Walked(prog, s, m, old(varMap), old(result), old(visitedFuncs.table), old(undoLog),
                     varMap, result, visitedFuncs.table, undoLog, go)
      decreases prog.Keys - visitedFuncs.table.Keys, 1, s, 0
    {
      go := true;
      match s
      case Decl(x, init) =>
        var v := Some(NoAlloc);
        if init.Some? {
          v := HandleExprCode(init.value, m);
        }
        varMap := varMap[x := v];
      case Assign(x, e) =>
        LogOldValue(x);
        var v := HandleExprCode(e, m);
        AssignedUndo(varMap, old(undoLog), x, v, m.Keys);
        varMap := varMap[x := v];
      case CompoundAssign(x) =>
        LogOldValue(x);
        AssignedUndo(varMap, old(undoLog), x, Some(Unknown), m.Keys);
        varMap := varMap[x := Some(Unknown)];
      case Return(e) =>
        var tmp := HandleExprCode(e, m);
        if tmp.Some? {
          if result.None? {
            result := tmp;
          } else {
            result := Join(result, tmp);
            go := result != Some(Unknown);
          }
        }
      case _ =>
    }

    /** handleExpr and handleCall. */
    method HandleExprCode(e: Expr, ghost m: Facts) returns (v: Fact)
      requires ExprScoped(e, m.Keys) && ProgramScoped(prog)
      requires Agrees(varMap, m)
      modifies visitedFuncs
      ensures ExprOut(v, visitedFuncs.table) == HandleExpr(prog, e, m, old(visitedFuncs.table))
      decreases prog.Keys - visitedFuncs.table.Keys, 0
    {
      match e
      case NewExpr(arr, _) => v := Some(if arr then NewArr else New);
      case Local(x) => v := varMap[x];
      case Exposed(x, _) => v := varMap[x];
      case Binding(_) => v := Some(Unknown);
      case MallocCall => v := Some(Malloc);
      case OperatorNewCall(arr) => v := Some(if arr then OperatorNewArr else OperatorNew);
      case IndirectCall(_, _) => v := Some(Unknown);
      case NullLit => v := Some(Null);
      case Call(f, _) =>
        if f in visitedFuncs.table {
          v := visitedFuncs.table[f];
        } else if f !in prog {
          visitedFuncs.table := visitedFuncs.table[f := Some(Unknown)];
          v := Some(Unknown);
        } else {
          var stored := prog[f].annotation;
          visitedFuncs.table := visitedFuncs.table[f := Some(stored)];
          assert f in prog.Keys - old(visitedFuncs.table).Keys;
          v := Some(stored);
          if stored == Unknown {
            v := AnalyzeAllocType(prog, f, visitedFuncs);
          }
        }
      case _ => v := Some(NoAlloc);
    }
  }

  method AnalyzeAllocType(prog: Program, f: FuncId, cache: VisitedFuncs) returns (v: Fact)
    requires f in prog && f in cache.table && ProgramScoped(prog)
    modifies cache
    ensures ExprOut(v, cache.table) == Analyze(prog, f, old(cache.table))
    decreases prog.Keys - cache.table.Keys, 2
  {
    var fn := prog[f];
    if !fn.returnsPointer {
      return Some(NoAlloc);
    }
    if fn.body.None? {
      return Some(Unknown);
    }
    var traverser := new AllocationTraverser(prog, cache);
    for i := 0 to |fn.params|
      invariant traverser.varMap == ParamFacts(fn.params[..i])
      invariant traverser.result == None && traverser.undoLog == None
      invariant cache.table == old(cache.table)
    {
      assert ToSet(fn.params[..i + 1]) == ToSet(fn.params[..i]) + {fn.params[i]};
      traverser.varMap := traverser.varMap[fn.params[i] := Some(NoAlloc)];
    }
    assert fn.params[..|fn.params|] == fn.params;
    assert FuncScoped(fn);
    var _ := traverser.TraverseStmt(fn.body.value, ParamFacts(fn.params));
    v := traverser.result;
    cache.table := cache.table[f := v];
  }

  /** The public entry point answers what the copy-and-join analysis answers, on every finite call
      graph, cycles included; None is a null reference or a declaration that is not a function. */
  method GetAllocTypeCode(prog: Program, fn: Option<FuncId>) returns (a: AllocType)
    requires ProgramScoped(prog) && (fn.Some? ==> fn.value in prog)
    ensures a == if fn.None? then NoAlloc else GetAllocType(prog, fn.value)
  {
    if fn.None? {
      return NoAlloc;
    }
    var visitedFuncs := new VisitedFuncs(map[fn.value := None]);
    var r := AnalyzeAllocType(prog, fn.value, visitedFuncs);
    a := if r.Some? then r.value else NoAlloc;
  }
}
