/** The registry behind the JIT's at_quick_exit and pthread_atfork: owner-tagged handlers, run last
    in first out (sections 7.22.4.3 and 7.22.4.7 of C11) and, around a fork, in the orders of
    pthread_atfork (POSIX.1-2017). */
module ExitRegistry {
  import opened Wrappers

  /** `id` tells registrations apart; `fn` 0 is the null handler, `owner` 0 the null owner. */
  datatype Entry = Entry(id: nat, owner: nat, fn: nat)

  predicate Matches(e: Entry, owner: nat) {
    owner == 0 || e.owner == owner
  }

  function Of(q: seq<Entry>, owner: nat): seq<Entry> {
    if q == [] then []
    else if Matches(q[0], owner) then [q[0]] + Of(q[1..], owner)
    else Of(q[1..], owner)
  }

  function NotOf(q: seq<Entry>, owner: nat): seq<Entry> {
    if q == [] then []
    else if Matches(q[0], owner) then NotOf(q[1..], owner)
    else [q[0]] + NotOf(q[1..], owner)
  }

  /** An owner's handlers; the null owner stands for all. */
  lemma {:induction false} OfExactly(q: seq<Entry>, owner: nat, e: Entry)
    ensures e in Of(q, owner) <==> e in q && (owner == 0 || e.owner == owner)
    ensures e in NotOf(q, owner) <==> e in q && owner != 0 && e.owner != owner
  {
    if q != [] {
      OfExactly(q[1..], owner, e);
      assert q == [q[0]] + q[1..];
    }
  }

  function Reversed<T>(s: seq<T>): (r: seq<T>)
    ensures |r| == |s|
  {
    if s == [] then [] else Reversed(s[1..]) + [s[0]]
  }

  /** The index of the last entry of `owner`, or -1. */
  function LastOf(q: seq<Entry>, owner: nat): (k: int)
    ensures -1 <= k < |q|
    ensures k >= 0 ==> Matches(q[k], owner)
    ensures forall j :: k < j < |q| ==> !Matches(q[j], owner)
  {
    if q == [] then -1
    else if Matches(q[|q| - 1], owner) then |q| - 1
    else LastOf(q[..|q| - 1], owner)
  }

  function RemoveAt(q: seq<Entry>, k: nat): (r: seq<Entry>)
    requires k < |q|
    ensures |r| == |q| - 1
  {
    q[..k] + q[k + 1..]
  }

  datatype Drained = Drained(run: seq<Entry>, rest: seq<Entry>)

  /** Take and run until nothing is left or a null handler turns up, which ends the loop. */
  function Drain(q: seq<Entry>, owner: nat): Drained
    decreases |q|
  {
    var k := LastOf(q, owner);
    if k < 0 then Drained([], q)
    else if q[k].fn == 0 then Drained([], RemoveAt(q, k))
    else
      var d := Drain(RemoveAt(q, k), owner);
      Drained([q[k]] + d.run, d.rest)
  }

  /** What a drain still does once `taken` has been taken out. */
  function Resume(taken: Option<Entry>, q: seq<Entry>, owner: nat): Drained {
    if taken.None? || taken.value.fn == 0 then Drained([], q)
    else
      var d := Drain(q, owner);
      Drained([taken.value] + d.run, d.rest)
  }

  lemma OneMoreRun(run: seq<Entry>, e: Entry, rest: seq<Entry>)
    ensures run + ([e] + rest) == (run + [e]) + rest
  {
  }

  predicate NoNull(q: seq<Entry>, owner: nat) {
    forall i :: 0 <= i < |q| && Matches(q[i], owner) ==> q[i].fn != 0
  }

  lemma {:induction false} OfConcat(a: seq<Entry>, b: seq<Entry>, owner: nat)
    ensures Of(a + b, owner) == Of(a, owner) + Of(b, owner)
  {
    if a == [] {
      assert a + b == b;
    } else {
      var rest := a[1..];
      OfConcat(rest, b, owner);
      assert (a + b)[0] == a[0] && (a + b)[1..] == rest + b;
      assert ([a[0]] + Of(rest, owner)) + Of(b, owner) == [a[0]] + (Of(rest, owner) + Of(b, owner));
    }
  }

  lemma {:induction false} NotOfConcat(a: seq<Entry>, b: seq<Entry>, owner: nat)
    ensures NotOf(a + b, owner) == NotOf(a, owner) + NotOf(b, owner)
  {
    if a == [] {
      assert a + b == b;
    } else {
      var rest, both := a[1..], a + b;
      NotOfConcat(rest, b, owner);
      assert both[0] == a[0] && both[1..] == rest + b;
      if Matches(a[0], owner) {
        assert NotOf(both, owner) == NotOf(rest + b, owner);
      } else {
        assert NotOf(both, owner) == [a[0]] + NotOf(rest + b, owner);
      }
    }
  }

  lemma {:induction false} OfNone(q: seq<Entry>, owner: nat)
    requires forall i :: 0 <= i < |q| ==> !Matches(q[i], owner)
    ensures Of(q, owner) == [] && NotOf(q, owner) == q
  {
    if q != [] {
      OfNone(q[1..], owner);
    }
  }

  /** Taking the last entry of an owner: what is left of the owner's entries, */
  lemma TakeSplits(q: seq<Entry>, owner: nat)
    requires LastOf(q, owner) >= 0
    ensures var k := LastOf(q, owner); Of(q, owner) == Of(RemoveAt(q, k), owner) + [q[k]]
  {
    var k := LastOf(q, owner);
    var tail := q[k + 1..];
    OfNone(tail, owner);
    assert ([q[k]] + tail)[1..] == tail;
    assert Of([q[k]] + tail, owner) == [q[k]];
    assert q == q[..k] + ([q[k]] + tail);
    OfConcat(q[..k], [q[k]] + tail, owner);
    OfConcat(q[..k], tail, owner);
  }

  /** and of the others'. */
  lemma TakeKeepsOthers(q: seq<Entry>, owner: nat)
    requires LastOf(q, owner) >= 0
    ensures var k := LastOf(q, owner); NotOf(q, owner) == NotOf(RemoveAt(q, k), owner)
  {
    var k := LastOf(q, owner);
    var tail := q[k + 1..];
    assert ([q[k]] + tail)[1..] == tail;
    assert q == q[..k] + ([q[k]] + tail);
    NotOfConcat(q[..k], [q[k]] + tail, owner);
    NotOfConcat(q[..k], tail, owner);
  }

  lemma {:induction false} ReversedSnoc<T>(s: seq<T>, x: T)
    ensures Reversed(s + [x]) == [x] + Reversed(s)
  {
    if s != [] {
      ReversedSnoc(s[1..], x);
      assert (s + [x])[1..] == s[1..] + [x];
    } else {
      assert s + [x] == [x] && [x][1..] == [];
    }
  }

  /** Draining: with no null handler the owner's handlers all run, last in first out, and the other
      owners' entries stay in order. */
  lemma {:induction false} DrainIsLifo(q: seq<Entry>, owner: nat)
    requires NoNull(q, owner)
    ensures Drain(q, owner) == Drained(Reversed(Of(q, owner)), NotOf(q, owner))
    decreases |q|
  {
    var k := LastOf(q, owner);
    if k < 0 {
      OfNone(q, owner);
    } else {
      TakeSplits(q, owner);
      TakeKeepsOthers(q, owner);
      DrainIsLifo(RemoveAt(q, k), owner);
      ReversedSnoc(Of(RemoveAt(q, k), owner), q[k]);
    }
  }

  /** In general a drain runs the newest handlers of the owner, loses nothing but the null handler
      that stops it, and clears the owner exactly if none of the owner's handlers, except perhaps
      the oldest, is null. */
  lemma {:induction false} DrainClearsIff(q: seq<Entry>, owner: nat)
    ensures var d := Drain(q, owner); var mine := Of(q, owner);
            && NotOf(d.rest, owner) == NotOf(q, owner)
            && Of(d.rest, owner) <= mine && |mine| - 1 <= |d.run| + |Of(d.rest, owner)| <= |mine|
            && Reversed(mine)[..|d.run|] == d.run
            && (Of(d.rest, owner) == [] <==> forall i :: 1 <= i < |mine| ==> mine[i].fn != 0)
    decreases |q|
  {
    var k := LastOf(q, owner);
    if k < 0 {
      OfNone(q, owner);
    } else {
      TakeSplits(q, owner);
      TakeKeepsOthers(q, owner);
      var mine := Of(q, owner);
      var fewer := Of(RemoveAt(q, k), owner);
      assert mine == fewer + [q[k]];
      ReversedSnoc(fewer, q[k]);
      if q[k].fn == 0 {
        assert mine[|fewer|].fn == 0;
      } else {
        DrainClearsIff(RemoveAt(q, k), owner);
        var d := Drain(RemoveAt(q, k), owner);
        assert Drain(q, owner) == Drained([q[k]] + d.run, d.rest);
        assert forall i :: 1 <= i < |fewer| ==> mine[i] == fewer[i];
        assert Reversed(mine)[..|d.run| + 1] == [q[k]] + Reversed(fewer)[..|d.run|];
      }
    }
  }

  // ----- fork -----

  datatype AtforkEntry = AtforkEntry(owner: nat, prepare: nat, parent: nat, child: nat)

  datatype Hook = Prepare | Parent | Child

  function Pick(e: AtforkEntry, hook: Hook): nat {
    match hook
    case Prepare => e.prepare
    case Parent => e.parent
    case Child => e.child
  }

  /** A call of entry number `entry`. */
  datatype HookCall = HookCall(entry: nat, fn: nat)

  /** The calls of one hook over a list of entries, oldest first; null members are skipped. */
  function Calls(entries: seq<AtforkEntry>, hook: Hook): seq<HookCall> {
    if entries == [] then []
    else
      var k := |entries| - 1;
      Calls(entries[..k], hook) + if Pick(entries[k], hook) == 0 then [] else [HookCall(k, Pick(entries[k], hook))]
  }

  function WithoutOwner(entries: seq<AtforkEntry>, owner: nat): seq<AtforkEntry> {
    if entries == [] then []
    else
      var rest := WithoutOwner(entries[1..], owner);
      if entries[0].owner == owner then rest else [entries[0]] + rest
  }

  /** Dropping an owner leaves all other entries where they are: it can be done piece by piece, and one
      entry goes or stays. */
  lemma {:induction false} OthersKeepTheirOrder(a: seq<AtforkEntry>, b: seq<AtforkEntry>, e: AtforkEntry, owner: nat)
    ensures WithoutOwner(a + b, owner) == WithoutOwner(a, owner) + WithoutOwner(b, owner)
    ensures WithoutOwner([e], owner) == if e.owner == owner then [] else [e]
  {
    if a == [] {
      assert a + b == b;
    } else {
      OthersKeepTheirOrder(a[1..], b, e, owner);
      assert (a + b)[1..] == a[1..] + b && (a + b)[0] == a[0];
      var rest, others := WithoutOwner(a[1..], owner), WithoutOwner(b, owner);
      assert [a[0]] + (rest + others) == ([a[0]] + rest) + others;
    }
  }

  /** Two entries of other owners are called in the same order after the flush as before: `i` and `j`
      are their places, and the entries before each place tell where they go. */
  lemma FlushKeepsForkOrder(entries: seq<AtforkEntry>, owner: nat, i: nat, j: nat)
    requires i < j < |entries| && entries[i].owner != owner && entries[j].owner != owner
    ensures var r := WithoutOwner(entries, owner);
            var i', j' := |WithoutOwner(entries[..i], owner)|, |WithoutOwner(entries[..j], owner)|;
            i' < j' < |r| && r[i'] == entries[i] && r[j'] == entries[j]
  {
    StaysAt(entries, owner, i);
    StaysAt(entries, owner, j);
    StaysAt(entries[..j], owner, i);
    assert entries[..j][..i] == entries[..i];
  }

  lemma StaysAt(entries: seq<AtforkEntry>, owner: nat, i: nat)
    requires i < |entries| && entries[i].owner != owner
    ensures var r, k := WithoutOwner(entries, owner), |WithoutOwner(entries[..i], owner)|;
            k < |r| && r[k] == entries[i]
  {
    assert entries == entries[..i] + ([entries[i]] + entries[i + 1..]);
    OthersKeepTheirOrder(entries[..i], [entries[i]] + entries[i + 1..], entries[i], owner);
    OthersKeepTheirOrder([entries[i]], entries[i + 1..], entries[i], owner);
  }

  /** Exactly the non-null members are called. */
  lemma {:induction false} CalledIff(entries: seq<AtforkEntry>, hook: Hook, c: HookCall)
    ensures c in Calls(entries, hook) <==> c.entry < |entries| && c.fn == Pick(entries[c.entry], hook) && c.fn != 0
  {
    if entries != [] {
      CalledIff(entries[..|entries| - 1], hook, c);
    }
  }

  /** Each entry is called once, in the order of registration. */
  lemma {:induction false} CallsInOrder(entries: seq<AtforkEntry>, hook: Hook, a: nat, b: nat)
    requires a < b < |Calls(entries, hook)|
    ensures Calls(entries, hook)[a].entry < Calls(entries, hook)[b].entry
  {
    var k := |entries| - 1;
    var front := Calls(entries[..k], hook);
    if b < |front| {
      CallsInOrder(entries[..k], hook, a, b);
    } else {
      assert front[a] in front;
      CalledIff(entries[..k], hook, front[a]);
    }
  }

  lemma {:induction false} ReversedAt<T>(s: seq<T>, k: nat)
    requires k < |s|
    ensures Reversed(s)[k] == s[|s| - 1 - k]
  {
    if k < |s| - 1 {
      ReversedAt(s[1..], k);
    }
  }

  // ----- the registry -----

  class JitGlibcHandlerRegistry {
    var quickExit: seq<Entry>
    var atfork: seq<AtforkEntry>
    var forkSnapshot: seq<AtforkEntry>
    var quickExitHookInstalled: bool
    var atforkHookInstalled: bool
    var nextId: nat

    constructor ()
      ensures quickExit == [] && atfork == [] && forkSnapshot == []
      ensures !quickExitHookInstalled && !atforkHookInstalled
    {
      quickExit, atfork, forkSnapshot := [], [], [];
      quickExitHookInstalled, atforkHookInstalled, nextId := false, false, 0;
    }

    /** `hostFails` is whether ::at_quick_exit refuses the library's own hook. */
    method AddQuickExit(owner: nat, fn: nat, hostFails: bool) returns (r: int)
      modifies this`quickExit, this`quickExitHookInstalled, this`nextId
      ensures r == if !old(quickExitHookInstalled) && hostFails then -1 else 0
      ensures r != 0 ==> quickExit == old(quickExit) && quickExitHookInstalled == old(quickExitHookInstalled)
      ensures r == 0 ==> quickExitHookInstalled && quickExit == old(quickExit) + [Entry(old(nextId), owner, fn)]
    {
      if !quickExitHookInstalled {
        if hostFails {
          return -1;
        }
        quickExitHookInstalled := true;
      }
      quickExit := quickExit + [Entry(nextId, owner, fn)];
      nextId := nextId + 1;
      return 0;
    }

    method AddAtfork(e: AtforkEntry, hostError: int) returns (r: int)
      modifies this`atfork, this`atforkHookInstalled
      ensures r == if old(atforkHookInstalled) then 0 else hostError
      ensures r != 0 ==> atfork == old(atfork) && atforkHookInstalled == old(atforkHookInstalled)
      ensures r == 0 ==> atforkHookInstalled && atfork == old(atfork) + [e]
    {
      if !atforkHookInstalled {
        if hostError != 0 {
          return hostError;
        }
        atforkHookInstalled := true;
      }
      atfork := atfork + [e];
      return 0;
    }

    method TakeLastQuickExit(owner: nat) returns (taken: Option<Entry>)
      modifies this`quickExit
      ensures var k := LastOf(old(quickExit), owner);
              if k < 0 then taken == None && quickExit == old(quickExit)
              else taken == Some(old(quickExit)[k]) && quickExit == RemoveAt(old(quickExit), k)
      ensures Drain(old(quickExit), owner) == Resume(taken, quickExit, owner)
    {
      var it := |quickExit|;
      assert quickExit[..it] == quickExit;
      while it > 0
        invariant 0 <= it <= |quickExit|
        invariant LastOf(quickExit[..it], owner) == LastOf(quickExit, owner)
      {
        if Matches(quickExit[it - 1], owner) {
          taken := Some(quickExit[it - 1]);
          quickExit := RemoveAt(quickExit, it - 1);
          return;
        }
        assert quickExit[..it][..it - 1] == quickExit[..it - 1];
        it := it - 1;
      }
      return None;
    }

    /** The loop shared by flushOwner and runAllQuickExitHandlers, with handlers that do not
        register anything: it ends. */
    method DrainLoop(owner: nat) returns (run: seq<Entry>)
      modifies this`quickExit
      ensures Drained(run, quickExit) == Drain(old(quickExit), owner)
    {
      run := [];
      var taken := TakeLastQuickExit(owner);
      assert [] + Resume(taken, quickExit, owner).run == Resume(taken, quickExit, owner).run;
      while taken.Some? && taken.value.fn != 0
        invariant var d := Resume(taken, quickExit, owner);
                  Drain(old(quickExit), owner) == Drained(run + d.run, d.rest)
        decreases |quickExit| + if taken.Some? then 1 else 0
      {
        OneMoreRun(run, taken.value, Drain(quickExit, owner).run);
        run := run + [taken.value];
        taken := TakeLastQuickExit(owner);
      }
      assert run + [] == run;
    }

    /** flushOwner: with no null handler it runs all of the owner's handlers, last in first out,
        removes the owner from both tables and leaves the others in order. */
    method FlushOwner(owner: nat) returns (run: seq<Entry>)
      modifies this`quickExit, this`atfork
      ensures Drained(run, quickExit) == Drain(old(quickExit), owner)
      ensures NoNull(old(quickExit), owner) ==>
        run == Reversed(Of(old(quickExit), owner)) && quickExit == NotOf(old(quickExit), owner)
      ensures atfork == WithoutOwner(old(atfork), owner)
    {
      run := DrainLoop(owner);
      if NoNull(old(quickExit), owner) {
        DrainIsLifo(old(quickExit), owner);
      }
      atfork := WithoutOwner(atfork, owner);
    }

    /** The prepare hook snapshots the table and walks it backwards. */
    method RunAtforkPrepare() returns (calls: seq<HookCall>)
      modifies this`forkSnapshot
      ensures forkSnapshot == atfork
      ensures calls == Reversed(Calls(atfork, Prepare))
    {
      forkSnapshot := atfork;
      calls := [];
      var it := |forkSnapshot|;
      assert forkSnapshot[..it] == forkSnapshot;
      while it > 0
        invariant 0 <= it <= |forkSnapshot| && forkSnapshot == atfork
        invariant calls + Reversed(Calls(forkSnapshot[..it], Prepare)) == Reversed(Calls(atfork, Prepare))
      {
        it := it - 1;
        var e := forkSnapshot[it];
        ghost var older := Calls(forkSnapshot[..it], Prepare);
        assert forkSnapshot[..it + 1][..it] == forkSnapshot[..it];
        if e.prepare != 0 {
          var call := HookCall(it, e.prepare);
          ReversedSnoc(older, call);
          assert calls + ([call] + Reversed(older)) == (calls + [call]) + Reversed(older);
          calls := calls + [call];
        } else {
          assert older + [] == older;
        }
      }
    }

    /** The parent and child hooks walk the snapshot forwards, without the lock. */
    method RunAtforkAfter(hook: Hook) returns (calls: seq<HookCall>)
      requires hook.Parent? || hook.Child?
      ensures calls == Calls(forkSnapshot, hook)
    {
      calls := [];
      for i := 0 to |forkSnapshot|
        invariant calls == Calls(forkSnapshot[..i], hook)
      {
        assert forkSnapshot[..i + 1][..i] == forkSnapshot[..i];
        if Pick(forkSnapshot[i], hook) != 0 {
          calls := calls + [HookCall(i, Pick(forkSnapshot[i], hook))];
        }
      }
      assert forkSnapshot[..|forkSnapshot|] == forkSnapshot;
    }
  }

  predicate Precedes(calls: seq<HookCall>, i: nat, j: nat) {
    forall a, b :: 0 <= a < |calls| && 0 <= b < |calls| && calls[a].entry == i && calls[b].entry == j ==> a < b
  }

  /** The orders around a fork, for any entries, null members included: the prepare handler of a
      later entry runs before that of an earlier one, its parent and child handlers after; and
      every non-null handler runs. */
  lemma ForkOrdersOppose(entries: seq<AtforkEntry>, after: Hook, i: nat, j: nat)
    requires i < j < |entries| && (after.Parent? || after.Child?)
    ensures var prepares := Reversed(Calls(entries, Prepare)); var afters := Calls(entries, after);
            && Precedes(prepares, j, i) && Precedes(afters, i, j)
            && (forall k :: 0 <= k < |entries| ==>
                 && (entries[k].prepare != 0 <==> HookCall(k, entries[k].prepare) in prepares)
                 && var fn := if after.Parent? then entries[k].parent else entries[k].child;
                    fn != 0 <==> HookCall(k, fn) in afters)
  {
    var forwards := Calls(entries, Prepare);
    var prepares, afters := Reversed(forwards), Calls(entries, after);
    forall a: nat, b: nat | a < |prepares| && b < |prepares| && prepares[a].entry == j && prepares[b].entry == i
      ensures a < b
    {
      ReversedAt(forwards, a);
      ReversedAt(forwards, b);
      if b < a { CallsInOrder(entries, Prepare, |forwards| - 1 - a, |forwards| - 1 - b); }
    }
    forall a: nat, b: nat | a < |afters| && b < |afters| && afters[a].entry == i && afters[b].entry == j
      ensures a < b
    {
      if b < a { CallsInOrder(entries, after, b, a); }
    }
    forall k: nat | k < |entries|
      ensures entries[k].prepare != 0 <==> HookCall(k, entries[k].prepare) in prepares
      ensures Pick(entries[k], after) != 0 <==> HookCall(k, Pick(entries[k], after)) in afters
    {
      CalledIff(entries, Prepare, HookCall(k, entries[k].prepare));
      CalledIff(entries, after, HookCall(k, Pick(entries[k], after)));
      ReversedHas(forwards, HookCall(k, entries[k].prepare));
    }
  }

  lemma ReversedHas<T>(s: seq<T>, x: T)
    ensures x in Reversed(s) <==> x in s
  {
    if x in s {
      var k :| 0 <= k < |s| && s[k] == x;
      ReversedAt(s, |s| - 1 - k);
    }
    if x in Reversed(s) {
      var k :| 0 <= k < |s| && Reversed(s)[k] == x;
      ReversedAt(s, k);
    }
  }
}
