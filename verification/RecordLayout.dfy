/** Walks over record layouts: the data members of a class through its anonymous records, and the
    offset of an inherited field through the base classes. */
module RecordLayout {
  import opened Wrappers

  // ----- data members -----

  /** A declaration inside a class; `id` names what is reported to the caller. */
  datatype Member =
    | Field(id: nat)
    | AnonymousRecord(id: nat, members: seq<Member>)    // a field whose type is an unnamed record
    | UsingField(id: nat)                               // a using-declaration of a field
    | OtherMember

  /** The data members in order, those of anonymous records in place of the record. */
  function Flatten(ms: seq<Member>): seq<nat> {
    if ms == [] then [] else FlattenOne(ms[0]) + Flatten(ms[1..])
  }

  function FlattenOne(m: Member): seq<nat> {
    match m
    case Field(id) => [id]
    case AnonymousRecord(_, members) => Flatten(members)
    case UsingField(id) => [id]
    case OtherMember => []
  }

  /** The flattening, piece by piece: what stands side by side stays side by side, an anonymous record
      is replaced by what is in it, and fields, also those brought in by using, stand for themselves. */
  lemma {:induction false} FlattenPieces(a: seq<Member>, b: seq<Member>, id: nat, inner: seq<Member>)
    ensures Flatten(a + b) == Flatten(a) + Flatten(b)
    ensures Flatten([AnonymousRecord(id, inner)]) == Flatten(inner) && Flatten([OtherMember]) == []
    ensures Flatten([Field(id)]) == Flatten([UsingField(id)]) == [id]
  {
    assert Flatten([]) == [];
    if a == [] {
      assert a + b == b;
    } else {
      FlattenPieces(a[1..], b, id, inner);
      assert (a + b)[1..] == a[1..] + b && (a + b)[0] == a[0];
    }
  }

  function Size(ms: seq<Member>): nat {
    if ms == [] then 0 else SizeOne(ms[0]) + Size(ms[1..])
  }

  function SizeOne(m: Member): nat {
    match m
    case AnonymousRecord(_, members) => 2 + Size(members)
    case _ => 1
  }

  /** What the two iterator stacks still have to produce, innermost range first. */
  function Remaining(ranges: seq<seq<Member>>, begins: seq<nat>): seq<nat>
    requires |ranges| == |begins| && forall i :: 0 <= i < |begins| ==> begins[i] <= |ranges[i]|
  {
    if ranges == [] then []
    else
      var k := |ranges| - 1;
      Flatten(ranges[k][begins[k]..]) + Remaining(ranges[..k], begins[..k])
  }

  function Work(ranges: seq<seq<Member>>, begins: seq<nat>): nat
    requires |ranges| == |begins| && forall i :: 0 <= i < |begins| ==> begins[i] <= |ranges[i]|
  {
    if ranges == [] then 0
    else
      var k := |ranges| - 1;
      1 + Size(ranges[k][begins[k]..]) + Work(ranges[..k], begins[..k])
  }

  /** Advancing the innermost range past one member. */
  lemma {:induction false} Advance(ranges: seq<seq<Member>>, begins: seq<nat>)
    requires |ranges| == |begins| > 0 && forall i :: 0 <= i < |begins| ==> begins[i] <= |ranges[i]|
    requires begins[|begins| - 1] < |ranges[|ranges| - 1]|
    ensures var k := |ranges| - 1; var m := ranges[k][begins[k]]; var next := begins[k := begins[k] + 1];
            && Remaining(ranges, begins) == FlattenOne(m) + Remaining(ranges, next)
            && Work(ranges, begins) == SizeOne(m) + Work(ranges, next)
  {
  }

  /** Entering an anonymous record. */
  lemma {:induction false} Enter(ranges: seq<seq<Member>>, begins: seq<nat>, inner: seq<Member>)
    requires |ranges| == |begins| && forall i :: 0 <= i < |begins| ==> begins[i] <= |ranges[i]|
    ensures Remaining(ranges + [inner], begins + [0]) == Flatten(inner) + Remaining(ranges, begins)
    ensures Work(ranges + [inner], begins + [0]) == 1 + Size(inner) + Work(ranges, begins)
  {
  }

  predicate InStep(ranges: seq<seq<Member>>, begins: seq<nat>) {
    |ranges| == |begins| && forall i :: 0 <= i < |begins| ==> begins[i] <= |ranges[i]|
  }

  /** GetDatamembers: an explicit stack of iterator ranges gives the recursive flattening, appended
      to the caller's vector; None is a declaration that is not a class. */
  method GetDatamembers(record: Option<seq<Member>>, datamembers: seq<nat>) returns (out: seq<nat>)
    ensures out == datamembers + if record.Some? then Flatten(record.value) else []
  {
    out := datamembers;
    if record.None? {
      return;
    }
    var members := record.value;
    var ranges, begins := [members], [0];
    Enter([], [], members);
    assert [] + [members] == [members] && [] + [0] == [0];
    assert Remaining([members], [0]) == Flatten(members);
    while ranges != []
      invariant InStep(ranges, begins)
      invariant out + Remaining(ranges, begins) == datamembers + Flatten(members)
      decreases Work(ranges, begins)
    {
      var emitted;
      ranges, begins, emitted := Advanced(ranges, begins);
      assert out + (emitted + Remaining(ranges, begins)) == (out + emitted) + Remaining(ranges, begins);
      out := out + emitted;
    }
  }

  /** One turn of the loop: leave a range, report a member, enter an anonymous record or skip. */
  method Advanced(ranges: seq<seq<Member>>, begins: seq<nat>)
    returns (ranges': seq<seq<Member>>, begins': seq<nat>, emitted: seq<nat>)
    requires InStep(ranges, begins) && ranges != []
    ensures InStep(ranges', begins')
    ensures Remaining(ranges, begins) == emitted + Remaining(ranges', begins')
    ensures Work(ranges', begins') < Work(ranges, begins)
  {
    var k := |ranges| - 1;
    emitted := [];
    if begins[k] == |ranges[k]| {
      return ranges[..k], begins[..k], [];
    }
    Advance(ranges, begins);
    var m := ranges[k][begins[k]];
    ranges', begins' := ranges, begins[k := begins[k] + 1];
    match m
    case Field(id) => emitted := [id];
    case UsingField(id) => emitted := [id];
    case AnonymousRecord(_, inner) =>
      Enter(ranges', begins', inner);
      ranges', begins' := ranges' + [inner], begins' + [0];
    case OtherMember =>
  }

  // ----- base class offsets -----

  type Class = nat

  /** Direct bases in order, and where each lies in the derived class. */
  datatype Hierarchy = Hierarchy(bases: map<Class, seq<Class>>, offset: map<(Class, Class), int>, rank: map<Class, nat>)
  {
    function BasesOf(c: Class): seq<Class> {
      if c in bases then bases[c] else []
    }

    function RankOf(c: Class): nat {
      if c in rank then rank[c] else 0
    }

    function OffsetOf(derived: Class, base: Class): int {
      if (derived, base) in offset then offset[(derived, base)] else 0
    }

    /** Inheritance has no cycles: bases rank lower. */
    predicate Acyclic() {
      forall c :: c in bases ==> forall i :: 0 <= i < |bases[c]| ==> RankOf(bases[c][i]) < RankOf(c)
    }

    predicate Reaches(c: Class, target: Class)
      requires Acyclic()
      decreases RankOf(c)
    {
      exists i :: 0 <= i < |BasesOf(c)| && (BasesOf(c)[i] == target || Reaches(BasesOf(c)[i], target))
    }

    /** The number of steps that a search without a visited set makes below `c`. */
    function Weight(c: Class): nat
      requires Acyclic()
      decreases RankOf(c), 1
    {
      1 + WeightFrom(c, 0)
    }

    function WeightFrom(c: Class, i: nat): nat
      requires Acyclic()
      decreases RankOf(c), 0, |BasesOf(c)| - i
    {
      if i >= |BasesOf(c)| then 0 else Weight(BasesOf(c)[i]) + WeightFrom(c, i + 1)
    }

    function TotalWeight(cs: seq<Class>): nat
      requires Acyclic()
    {
      if cs == [] then 0 else TotalWeight(cs[..|cs| - 1]) + Weight(cs[|cs| - 1])
    }

    /** `path` goes down from `from` to `to`, each class a direct base of the one before. */
    predicate IsPath(path: seq<Class>, from: Class, to: Class) {
      && |path| >= 1 && path[0] == from && path[|path| - 1] == to
      && forall i :: 0 <= i < |path| - 1 ==> path[i + 1] in BasesOf(path[i])
    }

    function PathOffset(path: seq<Class>): int {
      if |path| <= 1 then 0 else OffsetOf(path[0], path[1]) + PathOffset(path[1..])
    }
  }

  /** The entry of `c` leads to a class that has `c` as a direct base and that was itself reached. */
  ghost predicate Linked(h: Hierarchy, start: Class, direction: map<Class, Class>, c: Class)
    requires c in direction
  {
    && c in h.BasesOf(direction[c]) && h.RankOf(c) < h.RankOf(direction[c])
    && h.RankOf(c) < h.RankOf(start)
    && (direction[c] == start || direction[c] in direction)
  }

  /** `direction` maps a class to one it is a direct base of, towards `start`; `start` has no entry. */
  ghost predicate Towards(h: Hierarchy, start: Class, direction: map<Class, Class>) {
    && start !in direction
    && forall c {:trigger Linked(h, start, direction, c)} :: c in direction ==> Linked(h, start, direction, c)
  }

  ghost predicate Visited(start: Class, direction: map<Class, Class>, cs: seq<Class>) {
    forall i :: 0 <= i < |cs| ==> cs[i] == start || cs[i] in direction
  }

  /** Reaching a base again, from another class, keeps all routes to `start` intact. */
  lemma Redirect(h: Hierarchy, start: Class, direction: map<Class, Class>, crd: Class, rd: Class)
    requires h.Acyclic() && Towards(h, start, direction)
    requires crd in h.BasesOf(rd) && (rd == start || rd in direction)
    ensures Towards(h, start, direction[crd := rd])
  {
    var next := direction[crd := rd];
    if rd != start { assert Linked(h, start, direction, rd); }
    forall c | c in next
      ensures Linked(h, start, next, c)
    {
      if c != crd { assert Linked(h, start, direction, c); }
    }
  }

  /** Pushes the bases of the class just popped, recording where they were reached from; stops when
      the target turns up. */
  method PushBases(h: Hierarchy, start: Class, target: Class, rd: Class, stack0: seq<Class>,
                   direction0: map<Class, Class>)
    returns (stack: seq<Class>, direction: map<Class, Class>, flag: bool)
    requires h.Acyclic() && Towards(h, start, direction0) && Visited(start, direction0, stack0 + [rd])
    ensures Towards(h, start, direction) && Visited(start, direction, stack)
    ensures flag <==> target in h.BasesOf(rd)
    ensures flag ==> target in direction
    ensures !flag ==> h.TotalWeight(stack) < h.TotalWeight(stack0 + [rd])
    ensures !flag ==> stack == stack0 + h.BasesOf(rd)
  {
    stack, direction, flag := stack0, direction0, false;
    var bases := h.BasesOf(rd);
    assert (stack0 + [rd])[|stack0|] == rd;
    assert Visited(start, direction0, stack0) by {
      assert forall i :: 0 <= i < |stack0| ==> (stack0 + [rd])[i] == stack0[i];
    }
    for i := 0 to |bases|
      invariant Towards(h, start, direction) && Visited(start, direction, stack) && (rd == start || rd in direction)
      invariant !flag && target !in bases[..i] && stack == stack0 + bases[..i]
      invariant h.TotalWeight(stack) + h.WeightFrom(rd, i) == h.TotalWeight(stack0) + h.WeightFrom(rd, 0)
    {
      var crd := bases[i];
      Redirect(h, start, direction, crd, rd);
      direction := direction[crd := rd];
      if crd == target {
        flag := true;
        return;
      }
      stack := stack + [crd];
      assert bases[..i + 1] == bases[..i] + [crd];
      assert stack == stack0 + bases[..i + 1];
    }
    assert bases[..|bases|] == bases;
  }

  ghost predicate SomeReaches(h: Hierarchy, cs: seq<Class>, target: Class)
    requires h.Acyclic()
  {
    exists i :: 0 <= i < |cs| && h.Reaches(cs[i], target)
  }

  /** The depth-first search of GetVariableOffset: it keeps no visited set, and still ends. */
  method Search(h: Hierarchy, start: Class, target: Class) returns (direction: map<Class, Class>)
    requires h.Acyclic()
    ensures Towards(h, start, direction)
    ensures h.Reaches(start, target) ==> target in direction
  {
    var stack := [start];
    direction := map[];
    var flag := false;
    assert stack[0] == start;
    while stack != [] && !flag
      invariant Towards(h, start, direction) && Visited(start, direction, stack)
      invariant flag ==> target in direction
      invariant !flag && h.Reaches(start, target) ==> SomeReaches(h, stack, target)
      decreases if flag then 0 else 1, h.TotalWeight(stack)
    {
      var rd := stack[|stack| - 1];
      ghost var before := stack;
      stack := stack[..|stack| - 1];
      assert before == stack + [rd];
      ghost var rest := stack;
      stack, direction, flag := PushBases(h, start, target, rd, stack, direction);
      if !flag && SomeReaches(h, before, target) {
        StillReaches(h, rest, rd, target);
      }
    }
  }

  lemma StillReaches(h: Hierarchy, rest: seq<Class>, rd: Class, target: Class)
    requires h.Acyclic() && SomeReaches(h, rest + [rd], target) && target !in h.BasesOf(rd)
    ensures SomeReaches(h, rest + h.BasesOf(rd), target)
  {
    var all := rest + h.BasesOf(rd);
    var i :| 0 <= i < |rest + [rd]| && h.Reaches((rest + [rd])[i], target);
    if i < |rest| {
      assert all[i] == rest[i];
    } else {
      var j :| 0 <= j < |h.BasesOf(rd)| && (h.BasesOf(rd)[j] == target || h.Reaches(h.BasesOf(rd)[j], target));
      assert all[|rest| + j] == h.BasesOf(rd)[j];
    }
  }

  // ----- fields inside anonymous records -----

  /** A field, and the record it is of if its type is a record. */
  datatype FieldDecl = FieldDecl(offset: int, record: Option<Class>)

  /** `anonymousIn` is the enclosing record of an anonymous struct or union. */
  datatype RecordDecl = RecordDecl(fields: seq<FieldDecl>, anonymousIn: Option<Class>)

  datatype Records = Records(decls: map<Class, RecordDecl>, depth: map<Class, nat>)
  {
    /** An anonymous record lies deeper than its enclosing record, which has a field of it. */
    predicate Nested() {
      forall r :: r in decls ==> r in depth && (decls[r].anonymousIn.Some? ==> Encloses(decls[r].anonymousIn.value, r))
    }

    predicate Encloses(e: Class, r: Class)
      requires r in depth
    {
      e in decls && e in depth && depth[e] < depth[r] && FieldOf(decls[e].fields, r).Some?
    }

    /** The class that a field of `r` is a member of. */
    function Outermost(r: Class): (c: Class)
      requires Nested() && r in decls
      ensures c in decls && decls[c].anonymousIn.None?
      decreases depth[r]
    {
      if decls[r].anonymousIn.None? then r else Outermost(decls[r].anonymousIn.value)
    }

    /** The records around a field of `r`, from its class inwards. */
    function Nest(r: Class): (nest: seq<Class>)
      requires Nested() && r in decls
      ensures IsNest(nest, Outermost(r), r)
      decreases depth[r]
    {
      if decls[r].anonymousIn.None? then [r] else Nest(decls[r].anonymousIn.value) + [r]
    }

    /** From a record inwards, each of the next ones an anonymous record of the one before. */
    predicate IsNest(nest: seq<Class>, outer: Class, inner: Class) {
      && |nest| >= 1 && nest[0] == outer && nest[|nest| - 1] == inner
      && (forall i :: 0 <= i < |nest| ==> nest[i] in decls)
      && forall i :: 0 < i < |nest| ==> decls[nest[i]].anonymousIn == Some(nest[i - 1])
    }

    /** Where the innermost record of a nest begins: the offsets of the fields on the way in. */
    function NestOffset(nest: seq<Class>): int
      requires forall i :: 0 <= i < |nest| ==> nest[i] in decls
    {
      if |nest| <= 1 then 0
      else
        var f := FieldOf(decls[nest[0]].fields, nest[1]);
        (if f.Some? then f.value.offset else 0) + NestOffset(nest[1..])
    }
  }

  /** The first field of type `r`. */
  function FieldOf(fields: seq<FieldDecl>, r: Class): (f: Option<FieldDecl>)
    ensures f.Some? ==> f.value in fields && f.value.record == Some(r)
    ensures f.None? ==> forall i :: 0 <= i < |fields| ==> fields[i].record != Some(r)
  {
    if fields == [] then None
    else if fields[0].record == Some(r) then Some(fields[0])
    else FieldOf(fields[1..], r)
  }

  /** The inner loop: the field of the enclosing record through which `r` is a member. */
  method FindField(fields: seq<FieldDecl>, r: Class) returns (f: FieldDecl)
    requires FieldOf(fields, r).Some?
    ensures Some(f) == FieldOf(fields, r)
  {
    var k := 0;
    assert fields[0..] == fields;
    while fields[k].record != Some(r)
      invariant 0 <= k < |fields| && FieldOf(fields[k..], r) == FieldOf(fields, r)
      decreases |fields| - k
    {
      assert fields[k..][1..] == fields[k + 1..];
      k := k + 1;
    }
    f := fields[k];
  }

  /** One record further out. */
  lemma OneRecordOut(rs: Records, anon: Class, nest: seq<Class>)
    requires rs.Nested() && anon in rs.decls && rs.decls[anon].anonymousIn.Some? && |nest| > 0 && nest[0] == anon
    ensures var outer := rs.decls[anon].anonymousIn.value;
            ([outer] + nest)[1..] == nest && rs.Nest(outer) + nest == rs.Nest(anon) + nest[1..]
  {
    assert nest == [anon] + nest[1..];
  }

  /** The loop out of anonymous records: the class, and the field's offset in it. */
  method LeaveAnonymous(rs: Records, r: Class, fieldOffset: int) returns (outer: Class, offset: int)
    requires rs.Nested() && r in rs.decls
    ensures outer == rs.Outermost(r) && offset == fieldOffset + rs.NestOffset(rs.Nest(r))
  {
    outer, offset := r, fieldOffset;
    ghost var nest := [r];
    while rs.decls[outer].anonymousIn.Some?
      invariant outer in rs.decls && rs.Outermost(outer) == rs.Outermost(r) && |nest| > 0 && nest[0] == outer
      invariant rs.Nest(outer) + nest[1..] == rs.Nest(r) && (forall i :: 0 <= i < |nest| ==> nest[i] in rs.decls)
      invariant offset == fieldOffset + rs.NestOffset(nest)
      decreases rs.depth[outer]
    {
      var anon := outer;
      outer := rs.decls[anon].anonymousIn.value;
      var f := FindField(rs.decls[outer].fields, anon);
      OneRecordOut(rs, anon, nest);
      offset := offset + f.offset;
      nest := [outer] + nest;
    }
    assert rs.Nest(outer) + nest[1..] == nest;
  }

  /** GetVariableOffset for a field of record `r` seen from class `base`, or from no class in
      particular; the result None is the exception that map::at throws.  `path` are the bases whose
      offsets were added. */
  method GetVariableOffset(h: Hierarchy, rs: Records, base: Option<Class>, r: Class, fieldOffset: int)
    returns (result: Option<int>, ghost path: seq<Class>)
    requires h.Acyclic() && rs.Nested() && r in rs.decls
    ensures result.Some? <==> base.None? || base.value == rs.Outermost(r) || h.Reaches(base.value, rs.Outermost(r))
    ensures base.None? ==> result == Some(fieldOffset + rs.NestOffset(rs.Nest(r)))
    ensures result.Some? && base.Some? ==> h.IsPath(path, base.value, rs.Outermost(r))
    ensures result.Some? && base.Some? ==>
      result.value == fieldOffset + rs.NestOffset(rs.Nest(r)) + h.PathOffset(path)
  {
    var target, offset := LeaveAnonymous(rs, r, fieldOffset);
    if base.None? {
      return Some(offset), [];
    }
    result, path := OffsetFromBase(h, base.value, target, offset);
  }

  /** The part about base classes: a field of `target`, at `fieldOffset` there, seen from `start`. */
  method OffsetFromBase(h: Hierarchy, start: Class, target: Class, fieldOffset: int)
    returns (r: Option<int>, ghost path: seq<Class>)
    requires h.Acyclic()
    ensures r.Some? <==> start == target || h.Reaches(start, target)
    ensures r.Some? ==> h.IsPath(path, start, target) && r.value == fieldOffset + h.PathOffset(path)
  {
    path := [target];
    if start == target {
      return Some(fieldOffset), path;
    }
    var direction := Search(h, start, target);
    var rd, offset := target, fieldOffset;
    while rd != start
      invariant h.IsPath(path, rd, target) && offset == fieldOffset + h.PathOffset(path)
      invariant rd == start || rd in direction || (rd == target && !h.Reaches(start, target))
      decreases h.RankOf(start) - h.RankOf(rd), if rd in direction then 1 else 0
    {
      if rd !in direction {
        return None, path;
      }
      assert Linked(h, start, direction, rd);
      var parent := direction[rd];
      ghost var longer := [parent] + path;
      assert longer[1..] == path;
      assert h.IsPath(longer, parent, target) by {
        forall i | 0 <= i < |longer| - 1
          ensures longer[i + 1] in h.BasesOf(longer[i])
        {
          if i > 0 { assert longer[i] == path[i - 1] && longer[i + 1] == path[i]; }
        }
      }
      path := longer;
      offset := offset + h.OffsetOf(parent, rd);
      rd := parent;
    }
    PathReaches(h, path);
    return Some(offset), path;
  }

  /** A path of at least one step shows reachability. */
  lemma {:induction false} PathReaches(h: Hierarchy, path: seq<Class>)
    requires h.Acyclic() && |path| >= 2 && h.IsPath(path, path[0], path[|path| - 1])
    ensures h.Reaches(path[0], path[|path| - 1])
    decreases |path|
  {
    assert path[1] in h.BasesOf(path[0]);
    var i :| 0 <= i < |h.BasesOf(path[0])| && h.BasesOf(path[0])[i] == path[1];
    if |path| > 2 {
      var tail := path[1..];
      assert h.IsPath(tail, tail[0], tail[|tail| - 1]) by {
        forall k | 0 <= k < |tail| - 1
          ensures tail[k + 1] in h.BasesOf(tail[k])
        {
          assert path[k + 1 + 1] in h.BasesOf(path[k + 1]);
        }
      }
      PathReaches(h, tail);
    }
  }

  // ----- ComputeBaseOffset -----

  /** A step of a CXXBasePath: `derived` has the direct base `base`, virtually or not. */
  datatype PathElement = PathElement(derived: Class, base: Class, isVirtual: bool)

  function SumOffsets(h: Hierarchy, path: seq<PathElement>): int {
    if path == [] then 0 else h.OffsetOf(path[0].derived, path[0].base) + SumOffsets(h, path[1..])
  }

  /** The number of leading elements up to and including the last virtual one. */
  function AfterLastVirtual(path: seq<PathElement>): (n: nat)
    ensures n <= |path| && forall i :: n <= i < |path| ==> !path[i].isVirtual
    ensures n > 0 ==> path[n - 1].isVirtual
  {
    if path == [] then 0
    else if path[|path| - 1].isVirtual then |path|
    else AfterLastVirtual(path[..|path| - 1])
  }

  /** The offset of the last virtual base in the most derived class, as `vbase` has it, plus the
      offsets of the bases behind it. */
  function BaseOffset(h: Hierarchy, vbase: map<Class, int>, path: seq<PathElement>): int {
    var n := AfterLastVirtual(path);
    SumOffsets(h, path[n..]) + if n > 0 && path[n - 1].base in vbase then vbase[path[n - 1].base] else 0
  }

  /** The offset of a path, one step at a time: a virtual base is where the most derived class has it,
      whatever led there; any other base lies at its place in the class before it. */
  lemma OneStepFurther(h: Hierarchy, vbase: map<Class, int>, path: seq<PathElement>, e: PathElement)
    requires e.isVirtual ==> e.base in vbase
    ensures BaseOffset(h, vbase, []) == 0
    ensures BaseOffset(h, vbase, path + [e]) ==
            if e.isVirtual then vbase[e.base] else BaseOffset(h, vbase, path) + h.OffsetOf(e.derived, e.base)
  {
    var longer := path + [e];
    assert longer[..|path|] == path;
    var n := AfterLastVirtual(longer);
    if e.isVirtual {
      assert longer[n..] == [];
    } else {
      assert longer[n..] == path[n..] + [e];
      SumSnoc(h, path[n..], e);
    }
  }

  lemma {:induction false} SumSnoc(h: Hierarchy, path: seq<PathElement>, e: PathElement)
    ensures SumOffsets(h, path + [e]) == SumOffsets(h, path) + h.OffsetOf(e.derived, e.base)
  {
    if path == [] {
      assert path + [e] == [e] && [e][1..] == [];
    } else {
      SumSnoc(h, path[1..], e);
      assert (path + [e])[1..] == path[1..] + [e];
    }
  }

  method ComputeBaseOffset(h: Hierarchy, vbase: map<Class, int>, path: seq<PathElement>) returns (r: int)
    ensures r == BaseOffset(h, vbase, path)
  {
    var start := |path|;
    assert path[..start] == path;
    while start > 0 && !path[start - 1].isVirtual
      invariant 0 <= start <= |path|
      invariant AfterLastVirtual(path[..start]) == AfterLastVirtual(path)
    {
      assert path[..start][..start - 1] == path[..start - 1];
      start := start - 1;
    }
    var sum := 0;
    var i := start;
    while i < |path|
      invariant start <= i <= |path|
      invariant sum + SumOffsets(h, path[i..]) == SumOffsets(h, path[start..])
    {
      assert path[i..][1..] == path[i + 1..];
      sum := sum + h.OffsetOf(path[i].derived, path[i].base);
      i := i + 1;
    }
    r := sum + if start > 0 && path[start - 1].base in vbase then vbase[path[start - 1].base] else 0;
  }

  /** The elements of a path of non-virtual bases. */
  function Elements(path: seq<Class>): (r: seq<PathElement>)
    ensures forall e :: e in r ==> !e.isVirtual
  {
    if |path| <= 1 then [] else [PathElement(path[0], path[1], false)] + Elements(path[1..])
  }

  lemma {:induction false} SameSum(h: Hierarchy, path: seq<Class>)
    ensures SumOffsets(h, Elements(path)) == h.PathOffset(path)
  {
    if |path| > 1 {
      SameSum(h, path[1..]);
    }
  }

  /** Without virtual bases the path computation adds up the offsets of the path. */
  lemma BaseOffsetIsPathOffset(h: Hierarchy, path: seq<Class>)
    ensures BaseOffset(h, map[], Elements(path)) == h.PathOffset(path)
  {
    SameSum(h, path);
    assert Elements(path)[0..] == Elements(path);
  }

  /** Where only one path of non-virtual bases leads to the field's class, the search and the path
      computation give the same: the offsets along that path. */
  method OffsetsAgree(h: Hierarchy, start: Class, target: Class, path: seq<Class>, fieldOffset: int)
    returns (viaSearch: Option<int>, viaPath: int)
    requires h.Acyclic() && h.IsPath(path, start, target)
    requires forall other :: h.IsPath(other, start, target) ==> other == path
    ensures viaPath == BaseOffset(h, map[], Elements(path)) == h.PathOffset(path)
    ensures viaSearch == Some(fieldOffset + h.PathOffset(path))
  {
    if |path| >= 2 { PathReaches(h, path); }
    ghost var found;
    viaSearch, found := OffsetFromBase(h, start, target, fieldOffset);
    viaPath := ComputeBaseOffset(h, map[], Elements(path));
    BaseOffsetIsPathOffset(h, path);
  }
}
