/** Quick-exit handlers under any interleaving of threads.  Registering and taking happen under the
    registry's lock; running a taken handler does not, so another thread may act in between, and a
    running handler may register again, flush or drain itself. */
module ExitInterleaving {
  import opened Wrappers
  import opened ExitRegistry

  type Thread = nat

  /** `registered[i]` is the i-th registration ever made; `hand` holds what a thread has taken and
      not started yet; `ran` is the order in which handlers were started. */
  datatype State = State(registered: seq<Entry>, pending: seq<Entry>, hand: map<Thread, Entry>, ran: seq<Entry>)

  datatype Step =
    | Register(owner: nat, fn: nat)
    | Take(t: Thread, owner: nat)     // takeLastQuickExit, owner 0 from runAllQuickExitHandlers
    | Start(t: Thread)                // call what was taken

  const EMPTY: State := State([], [], map[], [])

  predicate Enabled(s: State, step: Step) {
    match step
    case Register(_, fn) => fn != 0
    case Take(t, _) => t !in s.hand
    case Start(t) => t in s.hand
  }

  function Next(s: State, step: Step): State
    requires Enabled(s, step)
  {
    match step
    case Register(owner, fn) =>
      var e := Entry(|s.registered|, owner, fn);
      s.(registered := s.registered + [e], pending := s.pending + [e])
    case Take(t, owner) =>
      var k := LastOf(s.pending, owner);
      if k < 0 then s
      else s.(pending := RemoveAt(s.pending, k), hand := s.hand[t := s.pending[k]])
    case Start(t) => s.(hand := s.hand - {t}, ran := s.ran + [s.hand[t]])
  }

  ghost predicate Held(s: State, e: Entry) {
    exists t :: t in s.hand && s.hand[t] == e
  }

  ghost predicate Increasing(q: seq<Entry>) {
    forall i, j :: 0 <= i < j < |q| ==> q[i].id < q[j].id
  }

  ghost predicate Apart(q: seq<Entry>) {
    forall i, j :: 0 <= i < j < |q| ==> q[i] != q[j]
  }

  ghost predicate Known(s: State, e: Entry) {
    e.id < |s.registered| && s.registered[e.id] == e
  }

  ghost predicate Listed(s: State) {
    && (forall i :: 0 <= i < |s.registered| ==> s.registered[i].id == i)
    && (forall i :: 0 <= i < |s.pending| ==> Known(s, s.pending[i]))
    && (forall i :: 0 <= i < |s.ran| ==> Known(s, s.ran[i]))
    && (forall t :: t in s.hand ==> Known(s, s.hand[t]))
    && Increasing(s.pending) && Apart(s.ran)
  }

  ghost predicate Exclusive(s: State) {
    && (forall t, u :: t in s.hand && u in s.hand && t != u ==> s.hand[t] != s.hand[u])
    && (forall e :: e in s.pending ==> e !in s.ran)
    && (forall t :: t in s.hand ==> s.hand[t] !in s.pending && s.hand[t] !in s.ran)
  }

  ghost predicate Complete(s: State) {
    forall e :: e in s.registered ==> e in s.pending || Held(s, e) || e in s.ran
  }

  /** Every registration is pending, held by exactly one thread, or has been started exactly once. */
  ghost predicate Conserved(s: State) {
    Listed(s) && Exclusive(s) && Complete(s)
  }

  lemma RegisterConserves(s: State, owner: nat, fn: nat)
    requires Conserved(s) && fn != 0
    ensures Conserved(Next(s, Register(owner, fn)))
  {
  }

  /** Membership after removing one element of a list without repetitions. */
  lemma RemovedOne(q: seq<Entry>, k: nat)
    requires k < |q| && Increasing(q)
    ensures Increasing(RemoveAt(q, k)) && q[k] !in RemoveAt(q, k)
    ensures forall x :: x in q <==> x == q[k] || x in RemoveAt(q, k)
  {
  }

  lemma TakeConserves(s: State, t: Thread, owner: nat)
    requires Conserved(s) && t !in s.hand && LastOf(s.pending, owner) >= 0
    ensures Conserved(Next(s, Take(t, owner)))
  {
    var k := LastOf(s.pending, owner);
    RemovedOne(s.pending, k);
    TakeComplete(s, t, owner);
    var s' := Next(s, Take(t, owner));
    assert Exclusive(s') by {
      assert forall u :: u in s.hand ==> s'.hand[u] == s.hand[u];
    }
    assert Listed(s') by {
      forall i | 0 <= i < |s'.pending|
        ensures Known(s', s'.pending[i])
      {
        assert s'.pending[i] == s.pending[if i < k then i else i + 1];
      }
    }
  }

  lemma TakeComplete(s: State, t: Thread, owner: nat)
    requires Complete(s) && t !in s.hand && LastOf(s.pending, owner) >= 0 && Increasing(s.pending)
    ensures Complete(Next(s, Take(t, owner)))
  {
    var k := LastOf(s.pending, owner);
    var s' := Next(s, Take(t, owner));
    RemovedOne(s.pending, k);
    forall x | x in s'.registered
      ensures x in s'.pending || Held(s', x) || x in s'.ran
    {
      if x == s.pending[k] {
        assert s'.hand[t] == x;
      } else if Held(s, x) {
        var u :| u in s.hand && s.hand[u] == x;
        assert s'.hand[u] == x;
      }
    }
  }

  lemma StartConserves(s: State, t: Thread)
    requires Conserved(s) && t in s.hand
    ensures Conserved(Next(s, Start(t)))
  {
    StartComplete(s, t);
    StartExclusive(s, t);
    StartListed(s, t);
  }

  lemma StartListed(s: State, t: Thread)
    requires Listed(s) && Exclusive(s) && t in s.hand
    ensures Listed(Next(s, Start(t)))
  {
    var ran := s.ran + [s.hand[t]];
    forall i, j | 0 <= i < j < |ran|
      ensures ran[i] != ran[j]
    {
      if j == |s.ran| { assert s.ran[i] in s.ran; }
    }
  }

  lemma StartExclusive(s: State, t: Thread)
    requires Exclusive(s) && t in s.hand
    ensures Exclusive(Next(s, Start(t)))
  {
    var s' := Next(s, Start(t));
    assert forall u :: u in s'.hand ==> s'.hand[u] == s.hand[u] && u != t;
    assert forall x :: x in s'.ran <==> x in s.ran || x == s.hand[t];
  }

  lemma StartComplete(s: State, t: Thread)
    requires Complete(s) && t in s.hand
    ensures Complete(Next(s, Start(t)))
  {
    var s' := Next(s, Start(t));
    forall x | x in s'.registered
      ensures x in s'.pending || Held(s', x) || x in s'.ran
    {
      if x == s.hand[t] {
        assert s'.ran[|s.ran|] == x;
      } else if Held(s, x) {
        var u :| u in s.hand && s.hand[u] == x;
        assert u in s'.hand && s'.hand[u] == x;
      }
    }
  }

  // ----- runs -----

  predicate CanRun(s: State, steps: seq<Step>)
    decreases |steps|
  {
    steps == [] || (Enabled(s, steps[0]) && CanRun(Next(s, steps[0]), steps[1..]))
  }

  function Run(s: State, steps: seq<Step>): State
    requires CanRun(s, steps)
    decreases |steps|
  {
    if steps == [] then s else Run(Next(s, steps[0]), steps[1..])
  }

  /** Conservation over every run: nothing is lost and nothing is started twice. */
  lemma {:induction false} RunConserves(s: State, steps: seq<Step>)
    requires Conserved(s) && CanRun(s, steps)
    ensures Conserved(Run(s, steps))
    decreases |steps|
  {
    if steps != [] {
      match steps[0] {
        case Register(owner, fn) => RegisterConserves(s, owner, fn);
        case Take(t, owner) => if LastOf(s.pending, owner) >= 0 { TakeConserves(s, t, owner); }
        case Start(t) => StartConserves(s, t);
      }
      RunConserves(Next(s, steps[0]), steps[1..]);
    }
  }

  /** The counting form: registrations made are those pending, held and started, together. */
  lemma HandlersConserved(steps: seq<Step>, e: Entry)
    requires CanRun(EMPTY, steps)
    ensures var s := Run(EMPTY, steps);
            && (e in s.registered <==> e in s.pending || Held(s, e) || e in s.ran)
            && multiset(s.registered)[e] == multiset(s.pending)[e] + (if Held(s, e) then 1 else 0) + multiset(s.ran)[e]
            && multiset(s.ran)[e] <= 1
  {
    RunConserves(EMPTY, steps);
    var s := Run(EMPTY, steps);
    OnceIfApart(s.ran, e);
    OnceIfApart(s.pending, e);
    OnceIfApart(s.registered, e);
    assert Known(s, e) ==> e in s.registered;
    assert e in s.pending || Held(s, e) || e in s.ran ==> Known(s, e);
  }

  lemma {:induction false} OnceIfApart(q: seq<Entry>, e: Entry)
    requires Apart(q)
    ensures multiset(q)[e] == if e in q then 1 else 0
  {
    if q != [] {
      var last := q[|q| - 1];
      OnceIfApart(q[..|q| - 1], e);
      assert q == q[..|q| - 1] + [last];
    }
  }

  /** The owner's newest entry, in a list ordered by registration. */
  lemma LastIsNewest(q: seq<Entry>, owner: nat, e: Entry)
    requires Increasing(q) && e in q && Matches(e, owner)
    ensures LastOf(q, owner) >= 0 && e.id <= q[LastOf(q, owner)].id
  {
  }

  /** At every moment the handler taken is the newest pending one of its owner. */
  lemma TakesNewest(steps: seq<Step>, t: Thread, owner: nat, e: Entry)
    requires CanRun(EMPTY, steps) && t !in Run(EMPTY, steps).hand
    requires e in Run(EMPTY, steps).pending && Matches(e, owner)
    ensures var s' := Next(Run(EMPTY, steps), Take(t, owner));
            t in s'.hand && Matches(s'.hand[t], owner) && e.id <= s'.hand[t].id
  {
    RunConserves(EMPTY, steps);
    LastIsNewest(Run(EMPTY, steps).pending, owner, e);
  }

  // ----- teardown -----

  /** The owner, being torn down, registers nothing any more. */
  predicate Silent(steps: seq<Step>, owner: nat) {
    forall i :: 0 <= i < |steps| && steps[i].Register? ==> steps[i].owner != owner
  }

  ghost predicate NonePending(s: State, owner: nat) {
    forall e :: e in s.pending ==> e.owner != owner
  }

  /** From then on only handlers held already can start. */
  lemma {:induction false} OnlyHeldStart(s: State, steps: seq<Step>, owner: nat, e: Entry)
    requires Conserved(s) && CanRun(s, steps) && Silent(steps, owner) && NonePending(s, owner) && e.owner == owner
    ensures NonePending(Run(s, steps), owner)
    ensures Held(Run(s, steps), e) ==> Held(s, e)
    ensures e in Run(s, steps).ran ==> e in s.ran || Held(s, e)
    decreases |steps|
  {
    if steps != [] {
      var s1 := Next(s, steps[0]);
      RunConserves(s, [steps[0]]);
      assert CanRun(s, [steps[0]]) && Run(s, [steps[0]]) == s1 by { assert [steps[0]][1..] == []; }
      OneStepAfterFlush(s, steps[0], owner, e);
      OnlyHeldStart(s1, steps[1..], owner, e);
    }
  }

  /** Some continuation in which the owner registers nothing starts `e`. */
  ghost predicate CanStillStart(s: State, owner: nat, e: Entry) {
    exists steps :: CanRun(s, steps) && Silent(steps, owner) && e in Run(s, steps).ran
  }

  /** A flush of `owner` by thread `t` ends when it finds nothing more to take.  From that moment, in
      any run, exactly those of the owner's handlers can still start that a thread then holds. */
  lemma AfterFlush(before: seq<Step>, t: Thread, owner: nat, e: Entry)
    requires CanRun(EMPTY, before) && t !in Run(EMPTY, before).hand && owner != 0 && e.owner == owner
    requires t !in Next(Run(EMPTY, before), Take(t, owner)).hand && e !in Run(EMPTY, before).ran
    ensures var s := Next(Run(EMPTY, before), Take(t, owner));
            NonePending(s, owner) && (CanStillStart(s, owner, e) <==> Held(s, e))
  {
    RunConserves(EMPTY, before);
    var s := Run(EMPTY, before);
    assert LastOf(s.pending, owner) < 0;
    if CanStillStart(s, owner, e) {
      var steps :| CanRun(s, steps) && Silent(steps, owner) && e in Run(s, steps).ran;
      OnlyHeldStart(s, steps, owner, e);
    }
    if Held(s, e) {
      HeldCanStart(s, owner, e);
    }
  }

  lemma HeldCanStart(s: State, owner: nat, e: Entry)
    requires Held(s, e)
    ensures CanStillStart(s, owner, e)
  {
    var u :| u in s.hand && s.hand[u] == e;
    var steps := [Start(u)];
    RunFirst(s, Start(u), []);
    assert [Start(u)] + [] == steps;
    assert CanRun(s, steps) && Silent(steps, owner) && Run(s, steps).ran[|s.ran|] == e;
  }

  lemma OneStepAfterFlush(s: State, step: Step, owner: nat, e: Entry)
    requires Enabled(s, step) && NonePending(s, owner) && e.owner == owner
    requires step.Register? ==> step.owner != owner
    ensures var s1 := Next(s, step);
            && NonePending(s1, owner)
            && (Held(s1, e) ==> Held(s, e))
            && (e in s1.ran ==> e in s.ran || Held(s, e))
  {
  }

  lemma RunFirst(s: State, step: Step, rest: seq<Step>)
    requires Enabled(s, step) && CanRun(Next(s, step), rest)
    ensures CanRun(s, [step] + rest) && Run(s, [step] + rest) == Run(Next(s, step), rest)
  {
  }

  /** Thread 1 takes the handler of owner 7 on its way to a quick exit; thread 2 flushes owner 7,
      finds nothing and returns; then thread 1 starts the handler of the owner already torn down. */
  lemma FlushCanMissAHeldHandler()
    ensures var before := [Register(7, 5)] + ([Take(1, 0)] + [Take(2, 7)]);
            && CanRun(EMPTY, before) && NonePending(Run(EMPTY, before), 7) && Run(EMPTY, before).ran == []
            && CanRun(Run(EMPTY, before), [Start(1)])
            && Run(Run(EMPTY, before), [Start(1)]).ran == [Entry(0, 7, 5)]
  {
    var e := Entry(0, 7, 5);
    var s1 := Next(EMPTY, Register(7, 5));
    assert s1 == State([e], [e], map[], []);
    assert LastOf([e], 0) == 0;
    var s2 := Next(s1, Take(1, 0));
    assert s2 == State([e], [], map[1 := e], []);
    assert [Take(2, 7)][1..] == [] && [Start(1)][1..] == [];
    assert Run(s2, [Take(2, 7)]) == s2;
    RunFirst(s1, Take(1, 0), [Take(2, 7)]);
    RunFirst(EMPTY, Register(7, 5), [Take(1, 0)] + [Take(2, 7)]);
  }
}
