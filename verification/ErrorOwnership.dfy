/** Reference-counted error slices and box payloads, and the obligation to look at every error. */
module ErrorOwnership {
  // ----- the tagged encoding of ErrorRef -----

  datatype Status = Ok | NotFound | InvalidArgument | Ambiguous | ParseError | CompileError

  function Code(s: Status): nat {
    match s
    case Ok => 0
    case NotFound => 1
    case InvalidArgument => 2
    case Ambiguous => 3
    case ParseError => 4
    case CompileError => 5
  }

  function StatusOf(code: nat): Status {
    if code == 1 then NotFound else if code == 2 then InvalidArgument else if code == 3 then Ambiguous
    else if code == 4 then ParseError else if code == 5 then CompileError else Ok
  }

  /** An ErrorRef is one machine word. */
  type Bits = nat

  predicate IsOk(b: Bits) { b == 0 }
  predicate IsInline(b: Bits) { b % 2 == 1 }
  predicate IsSlice(b: Bits) { b != 0 && b % 2 == 0 }

  function MakeInline(s: Status): Bits {
    if s == Ok then 0 else Code(s) * 2 + 1
  }

  function InlineStatus(b: Bits): Status {
    StatusOf(b / 2)
  }

  /** ErrorSlice is alignas(16), so its address is a multiple of 16, and never null. */
  predicate SliceAddress(p: nat) {
    p != 0 && p % 16 == 0
  }

  /** Every word is exactly one of the three; encoding a status or an address and reading it back
      gives the same; no two of them share a word. */
  lemma EncodingRoundTrips(b: Bits, s: Status, p: nat)
    requires SliceAddress(p)
    ensures (IsOk(b) || IsInline(b) || IsSlice(b)) && !(IsOk(b) && IsInline(b)) && !(IsOk(b) && IsSlice(b)) &&
            !(IsInline(b) && IsSlice(b))
    ensures s == Ok <==> IsOk(MakeInline(s))
    ensures s != Ok ==> IsInline(MakeInline(s)) && InlineStatus(MakeInline(s)) == s
    ensures IsSlice(p) && p != MakeInline(s)
  {
    assert p == 16 * (p / 16);
    assert p % 2 == 0;
    assert s != Ok ==> MakeInline(s) / 2 == Code(s);
  }

  // ----- carriers -----

  type Handle = nat

  datatype Kind = ResultKind | CapturedKind | BoxKind

  /** A live C++ object that may own a count.  `ref` is an ErrorRef, or for a box with retain and
      release operations its payload address and 0 for any other box.  `unchecked` is m_Unchecked of
      a Result; `origin` is the number of the error it was first created with. */
  datatype Carrier = Carrier(kind: Kind, ref: Bits, unchecked: bool, origin: nat)

  type Carriers = map<Handle, Carrier>

  function OwnersOf(cs: Carriers, p: Bits): set<Handle> {
    set h | h in cs && cs[h].ref == p
  }

  /** The objects that have an owner. */
  function Held(cs: Carriers): set<Bits> {
    set h | h in cs && IsSlice(cs[h].ref) :: cs[h].ref
  }

  function SliceIn(b: Bits): set<Bits> {
    if IsSlice(b) then {b} else {}
  }

  // ----- what every operation means, without any counting -----

  /** `live` are the objects that exist, `owned` those that have had an owner, `errors` the number of
      errors put into a Result so far, and `inspected` those that have been looked at. */
  datatype State = State(live: set<Bits>, freed: set<Bits>, owned: set<Bits>, carriers: Carriers,
                         errors: nat, inspected: set<nat>, aborted: bool)

  const EMPTY: State := State({}, {}, {}, map[], 0, {}, false)

  datatype Op =
    | Alloc(p: Bits)                            // AllocSlice: a slice nobody owns yet
    | Wrap(h: Handle, b: Bits)                  // Result<T>(ErrorRef)
    | Capture(h: Handle, b: Bits)               // CapturedError(ErrorRef)
    | Adopt(h: Handle, p: Bits)                 // AdoptObject
    | PlainBox(h: Handle)                       // a box that owns nothing
    | Copy(h: Handle, src: Handle)
    | Move(h: Handle, src: Handle)
    | Assign(h: Handle, src: Handle, moving: bool)
    | Look(h: Handle)                           // ok(), status(), error(), value_or(), ignore()
    | ShareOf(h: Handle, src: Handle)           // share()
    | End(h: Handle)                            // the destructors

  /** A word that can be wrapped: if it is a slice, the slice exists. */
  predicate Usable(s: State, b: Bits) {
    IsSlice(b) ==> b in s.live
  }

  /** The operation makes sense now: the objects it names exist and the new one does not. */
  predicate Legal(s: State, op: Op) {
    match op
    case Alloc(p) => IsSlice(p) && p !in s.live && p !in s.freed
    case Wrap(h, b) => h !in s.carriers && Usable(s, b)
    case Capture(h, b) => h !in s.carriers && Usable(s, b)
    case Adopt(h, p) => h !in s.carriers && IsSlice(p) && p !in s.live && p !in s.freed
    case PlainBox(h) => h !in s.carriers
    case Copy(h, src) => h !in s.carriers && src in s.carriers
    case Move(h, src) => h !in s.carriers && src in s.carriers
    case Assign(h, src, _) =>
      && h in s.carriers && src in s.carriers
      && s.carriers[h].kind == s.carriers[src].kind && s.carriers[h].kind != ResultKind
    case Look(h) => h in s.carriers && s.carriers[h].kind == ResultKind
    case ShareOf(h, src) => h !in s.carriers && src in s.carriers && s.carriers[src].kind == ResultKind
    case End(h) => h in s.carriers
  }

  function Assigned(cs: Carriers, h: Handle, src: Handle, moving: bool): Carriers
    requires src in cs
  {
    if moving then cs[src := cs[src].(ref := 0)][h := cs[src]] else cs[h := cs[src]]
  }

  /** What each operation does to the carriers. */
  function CarriersAfter(s: State, op: Op): Carriers
    requires Legal(s, op)
  {
    var cs := s.carriers;
    match op
    case Alloc(_) => cs
    case Wrap(h, b) => cs[h := Carrier(ResultKind, b, true, s.errors)]
    case Capture(h, b) => cs[h := Carrier(CapturedKind, b, false, 0)]
    case Adopt(h, p) => cs[h := Carrier(BoxKind, p, false, 0)]
    case PlainBox(h) => cs[h := Carrier(BoxKind, 0, false, 0)]
    case Copy(h, src) => cs[src := cs[src].(unchecked := false)][h := cs[src]]
    case Move(h, src) => cs[src := cs[src].(ref := 0, unchecked := false)][h := cs[src]]
    case Assign(h, src, moving) => if h == src then cs else Assigned(cs, h, src, moving)
    case Look(h) => cs[h := cs[h].(unchecked := false)]
    case ShareOf(h, src) => cs[src := cs[src].(unchecked := false)][h := Carrier(CapturedKind, cs[src].ref, false, 0)]
    case End(h) => cs - {h}
  }

  /** The rule of ownership: exactly the objects that lose their last owner are freed. */
  function Settle(s: State, cs: Carriers): State {
    var gone := Held(s.carriers) - Held(cs);
    s.(carriers := cs, owned := s.owned + Held(cs), freed := s.freed + gone, live := s.live - gone)
  }

  /** The error that looking at a carrier discharges. */
  function Discharged(c: Carrier): set<nat> {
    if Answerable(c, c.origin) then {c.origin} else {}
  }

  function Next(s: State, op: Op): State
    requires Legal(s, op)
  {
    var cs := CarriersAfter(s, op);
    match op
    case Alloc(p) => s.(live := s.live + {p})
    case Adopt(_, p) => Settle(s.(live := s.live + {p}), cs)
    case Wrap(_, b) => Settle(s, cs).(errors := s.errors + if b != 0 then 1 else 0)
    case Look(h) => Settle(s, cs).(inspected := s.inspected + Discharged(s.carriers[h]))
    case ShareOf(_, src) => Settle(s, cs).(inspected := s.inspected + Discharged(s.carriers[src]))
    case End(h) => Settle(s, cs).(aborted := s.aborted || Answerable(s.carriers[h], s.carriers[h].origin))
    case _ => Settle(s, cs)
  }

  /** A program; operations that make no sense when they are reached are left out. */
  function Run(ops: seq<Op>): State {
    if ops == [] then EMPTY
    else
      var s := Run(ops[..|ops| - 1]);
      var op := ops[|ops| - 1];
      if Legal(s, op) then Next(s, op) else s
  }

  // ----- ownership -----

  /** What has had an owner either has one now or has been freed; what has an owner exists. */
  ghost predicate OwnersOk(s: State) {
    && (forall p :: p in s.live + s.owned ==> IsSlice(p))
    && Held(s.carriers) <= s.live && s.freed !! s.live
    && s.owned == s.freed + Held(s.carriers)
  }

  lemma HeldIff(cs: Carriers, p: Bits)
    ensures p in Held(cs) <==> IsSlice(p) && OwnersOf(cs, p) != {}
  {
    if IsSlice(p) && OwnersOf(cs, p) != {} {
      var h :| h in OwnersOf(cs, p);
      assert cs[h].ref == p;
    }
    if p in Held(cs) {
      var h :| h in cs && IsSlice(cs[h].ref) && cs[h].ref == p;
      assert h in OwnersOf(cs, p);
    }
  }

  lemma SettleOk(s: State, cs: Carriers)
    requires OwnersOk(s) && Held(cs) <= s.live
    ensures OwnersOk(Settle(s, cs))
  {
  }

  /** Where nothing loses its last owner, nothing is freed. */
  lemma SettleGains(s: State, cs: Carriers)
    requires Held(s.carriers) <= Held(cs)
    ensures Settle(s, cs) == s.(carriers := cs, owned := s.owned + Held(cs))
  {
    assert Held(s.carriers) - Held(cs) == {};
  }

  lemma SettleSame(s: State, cs1: Carriers, cs2: Carriers)
    requires Held(cs1) == Held(cs2)
    ensures Settle(s, cs1).(carriers := cs2) == Settle(s, cs2)
    ensures OwnersOk(Settle(s, cs1)) ==> OwnersOk(Settle(s, cs2))
  {
  }

  lemma StepOwners(s: State, op: Op)
    requires OwnersOk(s) && Legal(s, op)
    ensures OwnersOk(Next(s, op))
  {
    match op
    case Alloc(p) => assert p !in s.owned;
    case Adopt(_, p) => SettleOk(s.(live := s.live + {p}), CarriersAfter(s, op));
    case _ => SettleOk(s, CarriersAfter(s, op));
  }

  predicate CarriesError(c: Carrier) {
    c.kind == ResultKind && c.ref != 0
  }

  /** The one Result whose destruction would abort because of error `o`. */
  predicate Answerable(c: Carrier, o: nat) {
    CarriesError(c) && c.unchecked && c.origin == o
  }

  /** Every error put into a Result has been inspected or has exactly one answerable carrier. */
  ghost predicate Answered(cs: Carriers, errors: nat, inspected: set<nat>) {
    && (forall h :: h in cs && CarriesError(cs[h]) && cs[h].unchecked ==>
         cs[h].origin < errors && cs[h].origin !in inspected)
    && (forall h, k :: h in cs && k in cs && Answerable(cs[h], cs[h].origin) && Answerable(cs[k], cs[h].origin) ==>
         h == k)
    && (forall o: nat :: o < errors && o !in inspected ==> HasAnswerable(cs, o))
    && (forall o :: o in inspected ==> o < errors)
  }

  ghost predicate HasAnswerable(cs: Carriers, o: nat) {
    exists h :: h in cs && Answerable(cs[h], o)
  }

  lemma StillAnswerable(cs: Carriers, cs': Carriers, o: nat, h: Handle, h': Handle)
    requires HasAnswerable(cs, o)
    requires forall k :: k in cs && k != h ==> k in cs' && cs'[k] == cs[k]
    requires h in cs && Answerable(cs[h], o) ==> h' in cs' && Answerable(cs'[h'], o)
    ensures HasAnswerable(cs', o)
  {
  }

  /** Putting in place a carrier without obligation, where there was none either. */
  lemma UpdateAnswered(cs: Carriers, errors: nat, inspected: set<nat>, h: Handle, c: Carrier)
    requires Answered(cs, errors, inspected) && c.kind != ResultKind && (h in cs ==> cs[h].kind != ResultKind)
    ensures Answered(cs[h := c], errors, inspected)
  {
    forall o: nat | o < errors && o !in inspected
      ensures HasAnswerable(cs[h := c], o)
    {
      StillAnswerable(cs, cs[h := c], o, h, h);
    }
  }

  lemma WrapAnswered(cs: Carriers, errors: nat, inspected: set<nat>, h: Handle, c: Carrier)
    requires Answered(cs, errors, inspected) && h !in cs && c == Carrier(ResultKind, c.ref, true, errors)
    ensures Answered(cs[h := c], errors + (if c.ref != 0 then 1 else 0), inspected)
  {
    var cs' := cs[h := c];
    forall o: nat | o < errors + (if c.ref != 0 then 1 else 0) && o !in inspected
      ensures HasAnswerable(cs', o)
    {
      if o < errors { StillAnswerable(cs, cs', o, h, h); } else { assert Answerable(cs'[h], o); }
    }
  }

  /** The obligation moves from one carrier to a new one. */
  lemma HandOverAnswered(cs: Carriers, errors: nat, inspected: set<nat>, h: Handle, src: Handle, left: Carrier)
    requires Answered(cs, errors, inspected) && h !in cs && src in cs && !left.unchecked
    ensures Answered(cs[src := left][h := cs[src]], errors, inspected)
  {
    var cs' := cs[src := left][h := cs[src]];
    forall o: nat | o < errors && o !in inspected
      ensures HasAnswerable(cs', o)
    {
      StillAnswerable(cs, cs', o, src, h);
    }
  }

  lemma InspectAnswered(cs: Carriers, errors: nat, inspected: set<nat>, h: Handle)
    requires Answered(cs, errors, inspected) && h in cs
    ensures var more := if Answerable(cs[h], cs[h].origin) then {cs[h].origin} else {};
            Answered(cs[h := cs[h].(unchecked := false)], errors, inspected + more)
  {
    var more := if Answerable(cs[h], cs[h].origin) then {cs[h].origin} else {};
    var cs' := cs[h := cs[h].(unchecked := false)];
    forall o: nat | o < errors && o !in inspected + more
      ensures HasAnswerable(cs', o)
    {
      StillAnswerable(cs, cs', o, h, h);
    }
  }

  lemma DestroyAnswered(cs: Carriers, errors: nat, inspected: set<nat>, h: Handle)
    requires Answered(cs, errors, inspected) && h in cs && !Answerable(cs[h], cs[h].origin)
    ensures Answered(cs - {h}, errors, inspected)
  {
    forall o: nat | o < errors && o !in inspected
      ensures HasAnswerable(cs - {h}, o)
    {
      StillAnswerable(cs, cs - {h}, o, h, h);
    }
  }

  lemma StepAnswered(s: State, op: Op)
    requires Legal(s, op) && !Next(s, op).aborted && Answered(s.carriers, s.errors, s.inspected)
    ensures var s' := Next(s, op); Answered(s'.carriers, s'.errors, s'.inspected)
  {
    var cs, n, done := s.carriers, s.errors, s.inspected;
    match op
    case Alloc(_) =>
    case Wrap(h, b) => WrapAnswered(cs, n, done, h, Carrier(ResultKind, b, true, n));
    case Capture(h, b) => UpdateAnswered(cs, n, done, h, Carrier(CapturedKind, b, false, 0));
    case Adopt(h, p) => UpdateAnswered(cs, n, done, h, Carrier(BoxKind, p, false, 0));
    case PlainBox(h) => UpdateAnswered(cs, n, done, h, Carrier(BoxKind, 0, false, 0));
    case Copy(h, src) => HandOverAnswered(cs, n, done, h, src, cs[src].(unchecked := false));
    case Move(h, src) => HandOverAnswered(cs, n, done, h, src, cs[src].(ref := 0, unchecked := false));
    case Assign(h, src, moving) =>
      if h != src {
        var left := if moving then cs[src].(ref := 0) else cs[src];
        UpdateAnswered(cs, n, done, src, left);
        UpdateAnswered(cs[src := left], n, done, h, cs[src]);
        assert cs[src := cs[src]] == cs;
      }
    case Look(h) => InspectAnswered(cs, n, done, h);
    case ShareOf(h, src) =>
      InspectAnswered(cs, n, done, src);
      UpdateAnswered(cs[src := cs[src].(unchecked := false)], n, done + Discharged(cs[src]), h,
                     Carrier(CapturedKind, cs[src].ref, false, 0));
    case End(h) => DestroyAnswered(cs, n, done, h);
  }

  // ----- who owns what -----

  /** The owners of a word `p` after an operation, in terms of those before it. */
  function OwnersAfter(before: set<Handle>, op: Op, p: Bits): set<Handle> {
    match op
    case Wrap(h, b) => if b == p then before + {h} else before
    case Capture(h, b) => if b == p then before + {h} else before
    case Adopt(h, b) => if b == p then before + {h} else before
    case Copy(h, src) => if src in before then before + {h} else before
    case ShareOf(h, src) => if src in before then before + {h} else before
    case Move(h, src) => if src in before then before - {src} + {h} else before
    case Assign(h, src, moving) =>
      if h == src then before
      else if src !in before then before - {h}
      else if moving then before - {src} + {h}
      else before + {h}
    case End(h) => before - {h}
    case _ => before
  }

  /** A copy, and what is captured by sharing, owns what its source owns; a move hands the share over;
      an assignment gives up the left side's; nothing else changes hands. */
  lemma StepHandsOver(s: State, op: Op, p: Bits)
    requires Legal(s, op) && p != 0
    ensures OwnersOf(Next(s, op).carriers, p) == OwnersAfter(OwnersOf(s.carriers, p), op, p)
  {
    assert Next(s, op).carriers == CarriersAfter(s, op);
    forall h
      ensures h in OwnersOf(CarriersAfter(s, op), p) <==> h in OwnersAfter(OwnersOf(s.carriers, p), op, p)
    {
    }
  }

  lemma ShareThenEnd(s: State, h: Handle, src: Handle)
    requires OwnersOk(s) && Legal(s, ShareOf(h, src)) && IsSlice(s.carriers[src].ref)
    ensures var s1 := Next(s, ShareOf(h, src)); var s2 := Next(s1, End(src)); var p := s.carriers[src].ref;
            && OwnersOf(s2.carriers, p) == OwnersOf(s.carriers, p) - {src} + {h}
            && p in s2.live && s2.aborted == s.aborted
  {
    var s1, p := Next(s, ShareOf(h, src)), s.carriers[src].ref;
    StepOwners(s, ShareOf(h, src));
    StepOwners(s1, End(src));
    StepHandsOver(s, ShareOf(h, src), p);
    StepHandsOver(s1, End(src), p);
    HeldIff(Next(s1, End(src)).carriers, p);
  }

  /** A captured error outlives the Result it was shared from, which can end without being looked at
      again: the error lives on, in the hands of the captured one. */
  lemma SharedOutlives(ops: seq<Op>, h: Handle, src: Handle)
    requires Legal(Run(ops), ShareOf(h, src)) && IsSlice(Run(ops).carriers[src].ref)
    ensures var s := Run(ops); var s' := Run(ops + [ShareOf(h, src), End(src)]); var p := s.carriers[src].ref;
            && OwnersOf(s'.carriers, p) == OwnersOf(s.carriers, p) - {src} + {h}
            && p in s'.live && s'.aborted == s.aborted
  {
    var share, end := ShareOf(h, src), End(src);
    assert (ops + [share])[..|ops|] == ops && (ops + [share, end])[..|ops| + 1] == ops + [share];
    assert Run(ops + [share]) == Next(Run(ops), share);
    RunOk(ops);
    ShareThenEnd(Run(ops), h, src);
  }

  // ----- every program -----

  /** In every program both rules hold all the time. */
  lemma {:induction false} RunOk(ops: seq<Op>)
    ensures OwnersOk(Run(ops))
    ensures var s := Run(ops); !s.aborted ==> Answered(s.carriers, s.errors, s.inspected)
  {
    if ops != [] {
      var s, op := Run(ops[..|ops| - 1]), ops[|ops| - 1];
      RunOk(ops[..|ops| - 1]);
      if Legal(s, op) {
        StepOwners(s, op);
        if !Next(s, op).aborted { StepAnswered(s, op); }
      }
    }
  }

  /** One more operation of a program: it frees exactly the objects whose last owner it takes away;
      what is freed stays freed and is never owned again. */
  lemma FreedWithLastOwner(ops: seq<Op>, op: Op, p: Bits)
    requires Legal(Run(ops), op)
    ensures var s := Run(ops); var s' := Run(ops + [op]);
            && (p in s'.freed - s.freed <==>
                 IsSlice(p) && OwnersOf(s.carriers, p) != {} && OwnersOf(s'.carriers, p) == {})
            && (p in s.freed ==> p in s'.freed && p !in s'.live && OwnersOf(s'.carriers, p) == {})
  {
    var s := Run(ops);
    assert (ops + [op])[..|ops|] == ops;
    RunOk(ops);
    StepOwners(s, op);
    HeldIff(s.carriers, p);
    HeldIff(Next(s, op).carriers, p);
  }

  /** After a program that has ended the lifetime of all its carriers: everything that ever had an
      owner has been freed, and unless the program aborted every error has been looked at. */
  lemma AllGone(ops: seq<Op>)
    requires Run(ops).carriers == map[]
    ensures var s := Run(ops); s.owned == s.freed && s.owned !! s.live
    ensures var s := Run(ops); !s.aborted ==> forall o: nat :: o < s.errors ==> o in s.inspected
  {
    RunOk(ops);
  }

  /** At most one live carrier answers for an error, through any chain of copies and moves, and an
      error nobody has looked at has one. */
  lemma OneAnswerable(ops: seq<Op>, o: nat, h: Handle, k: Handle)
    requires !Run(ops).aborted
    ensures var s := Run(ops);
            && (h in s.carriers && k in s.carriers && Answerable(s.carriers[h], o) && Answerable(s.carriers[k], o) ==>
                 h == k)
            && (o < s.errors ==> (o in s.inspected <==> !HasAnswerable(s.carriers, o)))
  {
    RunOk(ops);
  }

  // ----- the counts -----

  type Counts = map<Bits, int>

  /** RetainErrorRef, and retain of a box payload; Ok and inline words have no count. */
  function Retain(counts: Counts, b: Bits): Counts
    requires IsSlice(b) ==> b in counts
  {
    if IsSlice(b) then counts[b := counts[b] + 1] else counts
  }

  /** ReleaseErrorRef, and release of a box payload: the last one deletes the object. */
  function Release(counts: Counts, b: Bits): Counts
    requires IsSlice(b) ==> b in counts
  {
    if !IsSlice(b) then counts
    else if counts[b] == 1 then counts - {b}
    else counts[b := counts[b] - 1]
  }

  function FreedBy(counts: Counts, b: Bits): set<Bits>
    requires IsSlice(b) ==> b in counts
  {
    if IsSlice(b) && counts[b] == 1 then {b} else {}
  }

  /** The refcount of every object is its number of owners. */
  ghost predicate Counted(counts: Counts, cs: Carriers) {
    && (forall p :: p in counts ==> IsSlice(p) && counts[p] == |OwnersOf(cs, p)|)
    && Held(cs) <= counts.Keys
  }

  lemma OwnerCounts(counts: Counts, cs: Carriers, h: Handle)
    requires Counted(counts, cs) && h in cs && IsSlice(cs[h].ref)
    ensures cs[h].ref in counts && cs[h].ref in Held(cs) && counts[cs[h].ref] >= 1
  {
    assert cs[h].ref in Held(cs);
    assert h in OwnersOf(cs, cs[h].ref);
  }

  /** Who owns `p` when carrier `h` becomes `c`. */
  lemma OwnersUpdate(cs: Carriers, h: Handle, c: Carrier, p: Bits)
    ensures var rest := OwnersOf(cs, p) - {h};
            && OwnersOf(cs[h := c], p) == (if c.ref == p then rest + {h} else rest)
            && OwnersOf(cs, p) == (if h in cs && cs[h].ref == p then rest + {h} else rest)
            && |OwnersOf(cs[h := c], p)| ==
               |OwnersOf(cs, p)| - (if h in cs && cs[h].ref == p then 1 else 0) + (if c.ref == p then 1 else 0)
  {
    var rest := OwnersOf(cs, p) - {h};
    assert OwnersOf(cs[h := c], p) == if c.ref == p then rest + {h} else rest;
    assert OwnersOf(cs, p) == if h in cs && cs[h].ref == p then rest + {h} else rest;
  }

  /** A carrier that owned nothing gains a share. */
  lemma HeldGains(cs: Carriers, h: Handle, c: Carrier)
    requires h !in cs || !IsSlice(cs[h].ref)
    ensures Held(cs[h := c]) == Held(cs) + SliceIn(c.ref)
  {
    forall p
      ensures p in Held(cs[h := c]) <==> p in Held(cs) + SliceIn(c.ref)
    {
      HeldIff(cs, p);
      HeldIff(cs[h := c], p);
      OwnersUpdate(cs, h, c, p);
    }
  }

  lemma RetainCounted(counts: Counts, cs: Carriers, h: Handle, c: Carrier)
    requires Counted(counts, cs) && (h !in cs || !IsSlice(cs[h].ref)) && (IsSlice(c.ref) ==> c.ref in counts)
    ensures Counted(Retain(counts, c.ref), cs[h := c]) && Retain(counts, c.ref).Keys == counts.Keys
  {
    HeldGains(cs, h, c);
    var more := Retain(counts, c.ref);
    forall p | p in more
      ensures IsSlice(p) && more[p] == |OwnersOf(cs[h := c], p)|
    {
      OwnersUpdate(cs, h, c, p);
    }
  }

  /** All that changes when a new carrier takes a share. */
  lemma TakeCounted(counts: Counts, s: State, h: Handle, c: Carrier)
    requires Counted(counts, s.carriers) && OwnersOk(s) && s.live == counts.Keys
    requires h !in s.carriers && (IsSlice(c.ref) ==> c.ref in counts)
    ensures var cs := s.carriers[h := c]; var more := Retain(counts, c.ref);
            && Counted(more, cs) && OwnersOk(Settle(s, cs))
            && Settle(s, cs) == s.(carriers := cs, owned := s.owned + Held(cs), live := more.Keys)
  {
    RetainCounted(counts, s.carriers, h, c);
    HeldGains(s.carriers, h, c);
    SettleOk(s, s.carriers[h := c]);
    SettleGains(s, s.carriers[h := c]);
  }

  /** `after` is what is left of `cs` when carrier `h` has no share any more. */
  ghost predicate LetGo(cs: Carriers, h: Handle, after: Carriers) {
    h in cs && (after == cs - {h} || after == cs[h := cs[h].(ref := 0)])
  }

  lemma OwnersLetGo(cs: Carriers, h: Handle, after: Carriers, p: Bits)
    requires LetGo(cs, h, after) && IsSlice(p)
    ensures OwnersOf(after, p) == OwnersOf(cs, p) - {h}
    ensures |OwnersOf(after, p)| == |OwnersOf(cs, p)| - (if cs[h].ref == p then 1 else 0)
  {
    OwnersUpdate(cs, h, cs[h].(ref := 0), p);
  }

  /** The object it owned loses its last owner, or nothing does. */
  lemma HeldLetGo(cs: Carriers, h: Handle, after: Carriers)
    requires LetGo(cs, h, after)
    ensures Held(after) <= Held(cs)
    ensures Held(cs) - Held(after) == if IsSlice(cs[h].ref) && |OwnersOf(cs, cs[h].ref)| == 1 then {cs[h].ref} else {}
  {
    var b := cs[h].ref;
    forall p
      ensures p in Held(after) <==> p in Held(cs) && !(p == b && |OwnersOf(cs, b)| == 1)
    {
      HeldIff(cs, p);
      HeldIff(after, p);
      if IsSlice(p) {
        OwnersLetGo(cs, h, after, p);
        assert p == b ==> h in OwnersOf(cs, p);
      }
    }
    if IsSlice(b) { HeldIff(cs, b); assert h in OwnersOf(cs, b); }
  }

  /** Releasing: the count reaches zero exactly when the last owner goes. */
  lemma ReleaseCounted(counts: Counts, cs: Carriers, h: Handle, after: Carriers)
    requires Counted(counts, cs) && LetGo(cs, h, after)
    ensures IsSlice(cs[h].ref) ==> cs[h].ref in counts
    ensures Counted(Release(counts, cs[h].ref), after) && Held(after) <= Held(cs)
    ensures FreedBy(counts, cs[h].ref) == Held(cs) - Held(after)
    ensures Release(counts, cs[h].ref).Keys == counts.Keys - (Held(cs) - Held(after))
  {
    var b := cs[h].ref;
    if IsSlice(b) { OwnerCounts(counts, cs, h); }
    HeldLetGo(cs, h, after);
    var fewer := Release(counts, b);
    forall p | p in fewer
      ensures IsSlice(p) && fewer[p] == |OwnersOf(after, p)|
    {
      OwnersLetGo(cs, h, after, p);
    }
    assert fewer.Keys == counts.Keys - FreedBy(counts, b);
  }

  /** All that changes when a carrier lets go. */
  lemma LetGoCounted(counts: Counts, s: State, h: Handle, after: Carriers)
    requires Counted(counts, s.carriers) && OwnersOk(s) && s.live == counts.Keys && LetGo(s.carriers, h, after)
    ensures var b := s.carriers[h].ref;
            && (IsSlice(b) ==> b in counts)
            && Counted(Release(counts, b), after) && OwnersOk(Settle(s, after)) && Held(after) <= Held(s.carriers)
            && Settle(s, after) ==
                 s.(carriers := after, freed := s.freed + FreedBy(counts, b), live := Release(counts, b).Keys)
  {
    ReleaseCounted(counts, s.carriers, h, after);
    SettleOk(s, after);
  }

  /** All that changes in an assignment after the left side let go. */
  lemma AssignCounted(counts: Counts, s: State, h: Handle, src: Handle, moving: bool)
    requires Counted(counts, s.carriers) && OwnersOk(s) && s.live == counts.Keys
    requires h in s.carriers && src in s.carriers && h != src && s.carriers[h].ref == 0
    ensures var c := s.carriers[src]; var cs := Assigned(s.carriers, h, src, moving);
            && (IsSlice(c.ref) ==> c.ref in counts)
            && Counted(if moving then counts else Retain(counts, c.ref), cs) && Held(cs) == Held(s.carriers)
  {
    var c := s.carriers[src];
    if IsSlice(c.ref) { OwnerCounts(counts, s.carriers, src); }
    if moving {
      MoveCounted(counts, s.carriers, h, src, c.(ref := 0));
    } else {
      RetainCounted(counts, s.carriers, h, c);
      HeldGains(s.carriers, h, c);
    }
  }

  /** It does not matter that the left side let go first. */
  lemma AssignInTwoSteps(s: State, s1: State, h: Handle, src: Handle, moving: bool)
    requires Legal(s, Assign(h, src, moving)) && h != src
    requires s1 == Settle(s, s.carriers[h := s.carriers[h].(ref := 0)]) && OwnersOk(s1)
    requires Held(Assigned(s1.carriers, h, src, moving)) == Held(s1.carriers)
    ensures var s2 := s1.(carriers := Assigned(s1.carriers, h, src, moving));
            s2 == Next(s, Assign(h, src, moving)) && OwnersOk(s2)
  {
    assert Assigned(s1.carriers, h, src, moving) == Assigned(s.carriers, h, src, moving);
    SettleSame(s, s1.carriers, Assigned(s.carriers, h, src, moving));
  }

  /** A share moves to a carrier that owned nothing: the numbers of owners stay. */
  lemma MoveCounted(counts: Counts, cs: Carriers, h: Handle, src: Handle, empty: Carrier)
    requires Counted(counts, cs) && src in cs && h != src && empty.ref == 0
    requires h in cs ==> cs[h].ref == 0
    ensures Counted(counts, cs[src := empty][h := cs[src]]) && Held(cs[src := empty][h := cs[src]]) == Held(cs)
  {
    var cs' := cs[src := empty][h := cs[src]];
    forall p
      ensures IsSlice(p) ==> |OwnersOf(cs', p)| == |OwnersOf(cs, p)|
      ensures p in Held(cs') <==> p in Held(cs)
    {
      OwnersUpdate(cs, src, empty, p);
      OwnersUpdate(cs[src := empty], h, cs[src], p);
      HeldIff(cs, p);
      HeldIff(cs', p);
    }
  }

  /** Changing flags changes no owner. */
  lemma SameOwners(counts: Counts, cs: Carriers, h: Handle, c: Carrier)
    requires Counted(counts, cs) && h in cs && c.ref == cs[h].ref
    ensures Counted(counts, cs[h := c]) && Held(cs[h := c]) == Held(cs)
  {
    forall p
      ensures OwnersOf(cs[h := c], p) == OwnersOf(cs, p)
      ensures p in Held(cs[h := c]) <==> p in Held(cs)
    {
      OwnersUpdate(cs, h, c, p);
      HeldIff(cs, p);
      HeldIff(cs[h := c], p);
    }
  }

  // ----- the code -----

  /** A running program: the counts as the code keeps them, and beside them what happened. */
  class Runtime {
    var counts: Counts                // refcounts of the objects that exist
    var freed: set<Bits>
    var carriers: Carriers
    var errors: nat
    var inspected: set<nat>
    var aborted: bool
    ghost var owned: set<Bits>

    constructor ()
      ensures Valid() && View() == EMPTY
    {
      counts, freed, carriers, errors, inspected, aborted, owned := map[], {}, map[], 0, {}, false, {};
    }

    ghost function View(): State
      reads this
    {
      State(counts.Keys, freed, owned, carriers, errors, inspected, aborted)
    }

    ghost predicate Valid()
      reads this
    {
      OwnersOk(View()) && Counted(counts, carriers)
    }

    /** AllocSlice: a slice starts with count 0 and no owner. */
    method AllocSlice(p: Bits)
      requires Valid() && Legal(View(), Alloc(p))
      modifies this
      ensures Valid() && View() == Next(old(View()), Alloc(p)) && counts == old(counts)[p := 0]
    {
      StepOwners(View(), Alloc(p));
      HeldIff(carriers, p);
      counts := counts[p := 0];
    }

    /** A new carrier takes a share. */
    method Take(h: Handle, c: Carrier)
      requires Valid() && h !in carriers && Usable(View(), c.ref)
      modifies this`counts, this`owned, this`carriers
      ensures Valid() && View() == Settle(old(View()), old(carriers)[h := c]) && counts == Retain(old(counts), c.ref)
    {
      TakeCounted(counts, View(), h, c);
      counts := Retain(counts, c.ref);
      carriers := carriers[h := c];
      owned := owned + Held(carriers);
    }

    /** Result<T>(ErrorRef): a new error to be looked at, unless the word is Ok. */
    method WrapResult(h: Handle, b: Bits)
      requires Valid() && Legal(View(), Wrap(h, b))
      modifies this
      ensures Valid() && View() == Next(old(View()), Wrap(h, b))
    {
      Take(h, Carrier(ResultKind, b, true, errors));
      if b != 0 {
        errors := errors + 1;
      }
    }

    /** AdoptObject: the payload arrives with count 1, which the box owns from now on. */
    method AdoptObject(h: Handle, p: Bits)
      requires Valid() && Legal(View(), Adopt(h, p))
      modifies this
      ensures Valid() && counts == old(counts)[p := 1] && View() == Next(old(View()), Adopt(h, p))
    {
      ghost var s := View();
      AllocSlice(p);
      assert View() == s.(live := s.live + {p});
      assert Retain(counts, p) == old(counts)[p := 1];
      Take(h, Carrier(BoxKind, p, false, 0));
    }

    /** CapturedError(ErrorRef). */
    method CaptureError(h: Handle, b: Bits)
      requires Valid() && Legal(View(), Capture(h, b))
      modifies this
      ensures Valid() && View() == Next(old(View()), Capture(h, b))
    {
      Take(h, Carrier(CapturedKind, b, false, 0));
    }

    /** A box without operations on its payload owns nothing. */
    method MakePlainBox(h: Handle)
      requires Valid() && Legal(View(), PlainBox(h))
      modifies this
      ensures Valid() && counts == old(counts) && View() == Next(old(View()), PlainBox(h))
    {
      Take(h, Carrier(BoxKind, 0, false, 0));
    }

    /** Copy construction.  A Result hands the obligation to look over to the copy. */
    method CopyFrom(h: Handle, src: Handle)
      requires Valid() && Legal(View(), Copy(h, src))
      modifies this
      ensures Valid() && View() == Next(old(View()), Copy(h, src))
    {
      var c := carriers[src];
      if IsSlice(c.ref) { OwnerCounts(counts, carriers, src); }
      ClearFlag(src);
      Take(h, c);
    }

    /** m_Unchecked of a carrier goes off. */
    method ClearFlag(h: Handle)
      requires Valid() && h in carriers
      modifies this`carriers
      ensures Valid() && Held(carriers) == Held(old(carriers))
      ensures View() == old(View()).(carriers := old(carriers)[h := old(carriers)[h].(unchecked := false)])
    {
      SameOwners(counts, carriers, h, carriers[h].(unchecked := false));
      carriers := carriers[h := carriers[h].(unchecked := false)];
    }

    /** Move construction: the share and the obligation move, no count changes. */
    method MoveFrom(h: Handle, src: Handle)
      requires Valid() && Legal(View(), Move(h, src))
      modifies this
      ensures Valid() && counts == old(counts) && View() == Next(old(View()), Move(h, src))
    {
      var c := carriers[src];
      var empty := c.(ref := 0, unchecked := false);
      MoveCounted(counts, carriers, h, src, empty);
      carriers := carriers[src := empty][h := c];
    }

    /** operator= of CapturedError and Box, copying or moving; assigning to itself does nothing.
        The old share is released before the new one is taken. */
    method AssignFrom(h: Handle, src: Handle, moving: bool)
      requires Valid() && Legal(View(), Assign(h, src, moving))
      modifies this
      ensures Valid() && View() == Next(old(View()), Assign(h, src, moving))
    {
      ghost var s := View();
      if h == src {
        return;
      }
      DropShare(h);
      FinishAssign(s, h, src, moving);
    }

    /** The second half of an assignment, from the state `s`. */
    method FinishAssign(ghost s: State, h: Handle, src: Handle, moving: bool)
      requires Valid() && Legal(s, Assign(h, src, moving)) && h != src
      requires View() == Settle(s, s.carriers[h := s.carriers[h].(ref := 0)])
      modifies this`counts, this`carriers
      ensures Valid() && View() == Next(s, Assign(h, src, moving))
    {
      AssignCounted(counts, View(), h, src, moving);
      AssignInTwoSteps(s, View(), h, src, moving);
      if !moving {
        counts := Retain(counts, carriers[src].ref);
      }
      carriers := Assigned(carriers, h, src, moving);
    }

    /** The first half of an assignment: release what the left side holds. */
    method DropShare(h: Handle)
      requires Valid() && h in carriers
      modifies this`counts, this`freed, this`carriers
      ensures Valid() && Held(carriers) <= Held(old(carriers))
      ensures View() == Settle(old(View()), old(carriers)[h := old(carriers)[h].(ref := 0)])
    {
      var c := carriers[h];
      ghost var bare := carriers[h := c.(ref := 0)];
      LetGoCounted(counts, View(), h, bare);
      freed := freed + FreedBy(counts, c.ref);
      counts := Release(counts, c.ref);
      carriers := carriers[h := c.(ref := 0)];
    }

    /** ok(), status(), error(), value_or(), ignore(): the error has been looked at. */
    method Inspect(h: Handle)
      requires Valid() && Legal(View(), Look(h))
      modifies this`carriers, this`inspected
      ensures Valid() && View() == Next(old(View()), Look(h))
    {
      inspected := inspected + Discharged(carriers[h]);
      ClearFlag(h);
    }

    /** share(): looks at the error and starts a CapturedError on it. */
    method Share(h: Handle, src: Handle)
      requires Valid() && Legal(View(), ShareOf(h, src))
      modifies this
      ensures Valid() && View() == Next(old(View()), ShareOf(h, src))
    {
      Inspect(src);
      if IsSlice(carriers[src].ref) { OwnerCounts(counts, carriers, src); }
      Take(h, Carrier(CapturedKind, carriers[src].ref, false, 0));
    }

    /** The destructors; a Result whose error nobody looked at aborts the program. */
    method Destroy(h: Handle)
      requires Valid() && Legal(View(), End(h))
      modifies this
      ensures Valid() && View() == Next(old(View()), End(h))
    {
      var c := carriers[h];
      LetGoCounted(counts, View(), h, carriers - {h});
      if Answerable(c, c.origin) {
        aborted := true;
      }
      freed := freed + FreedBy(counts, c.ref);
      counts := Release(counts, c.ref);
      carriers := carriers - {h};
    }

    /** Every operation of the code, counting, does what the rule of ownership says, and keeps every
        count equal to the number of owners. */
    method Step(op: Op)
      requires Valid() && Legal(View(), op)
      modifies this
      ensures Valid() && View() == Next(old(View()), op)
    {
      match op
      case Alloc(p) => AllocSlice(p);
      case Wrap(h, b) => WrapResult(h, b);
      case Capture(h, b) => CaptureError(h, b);
      case Adopt(h, p) => AdoptObject(h, p);
      case PlainBox(h) => MakePlainBox(h);
      case Copy(h, src) => CopyFrom(h, src);
      case Move(h, src) => MoveFrom(h, src);
      case Assign(h, src, moving) => AssignFrom(h, src, moving);
      case Look(h) => Inspect(h);
      case ShareOf(h, src) => Share(h, src);
      case End(h) => Destroy(h);
    }

    predicate LegalNow(op: Op)
      reads this
    {
      Legal(State(counts.Keys, freed, {}, carriers, errors, inspected, aborted), op)
    }
  }

  /** Any program, run by the counting code: it ends in the state that the rule of ownership gives,
      with every count the number of owners. */
  method RunProgram(ops: seq<Op>) returns (program: Runtime)
    ensures program.View() == Run(ops) && program.Valid()
    ensures forall p :: p in program.counts ==> program.counts[p] == |OwnersOf(Run(ops).carriers, p)|
  {
    program := new Runtime();
    for i := 0 to |ops|
      invariant fresh(program) && program.Valid() && program.View() == Run(ops[..i])
    {
      assert ops[..i + 1][..i] == ops[..i];
      if program.LegalNow(ops[i]) {
        program.Step(ops[i]);
      }
    }
    assert ops[..|ops|] == ops;
  }
}
