/** The library scan and the symbol queries of Dyld.  A library is named by its resolved full path;
    the file system does not change while a scan runs. */
module LibrarySearch {
  import opened Wrappers
  import SymbolIndex

  type Path = string

  /** What the scan reads from an object file; `deps` are the needed libraries, already resolved. */
  datatype ObjectFile = ObjectFile(isPie: bool, rpath: seq<string>, runpath: seq<string>, deps: seq<Path>)

  datatype Entry = Regular(path: Path) | Symlink(target: Path, toDirectory: bool) | OtherEntry

  datatype SearchDir = SearchDir(path: string, isUser: bool, realPath: string)

  /** The world a call sees: search paths, directory listings by real path, readable object files,
      the libraries that ShouldPermanentlyIgnore turns down for reasons other than being loaded or
      unreadable, and the libraries loaded now. */
  datatype World = World(search: seq<SearchDir>, listing: map<string, seq<Entry>>,
                         objects: map<Path, ObjectFile>, unfit: set<Path>, loaded: set<Path>)
  {
    predicate Ignored(p: Path) {
      p !in objects || p in unfit || p in loaded
    }

    /** A library to register: readable, not turned down, and not loaded yet. */
    predicate Fit(p: Path) {
      p in objects && p !in unfit && p !in loaded
    }

    predicate OnSearchPath(item: string) {
      exists i :: 0 <= i < |search| && search[i].path == item
    }

    /** Heuristics H1 and H2: no RPATH and no RUNPATH, or all of them searched anyway. */
    predicate SkipsDeps(p: Path)
      requires p in objects
    {
      var o := objects[p];
      || (o.rpath == [] && o.runpath == [])
      || ((forall i :: 0 <= i < |o.rpath| ==> OnSearchPath(o.rpath[i])) &&
          (forall i :: 0 <= i < |o.runpath| ==> OnSearchPath(o.runpath[i])))
    }

    /** The file says itself where its dependencies are, and at least one of these places is not searched
        anyway. */
    predicate Strays(p: Path) {
      p in objects && exists item :: item in objects[p].rpath + objects[p].runpath && Elsewhere(item)
    }

    predicate Elsewhere(item: string) {
      forall d :: d in search ==> d.path != item
    }

    /** Every dependency of a library that strays from the search paths is ignored or registered. */
    predicate Settled(p: Path, registered: set<Path>) {
      Strays(p) ==>
        forall i :: 0 <= i < |objects[p].deps| ==>
          !Fit(objects[p].deps[i]) || objects[p].deps[i] in registered
    }
  }

  /** The file behind a directory entry has been dealt with; position-independent executables found
      in a directory are dropped again unless something depends on them. */
  predicate Dealt(w: World, e: Entry, registered: set<Path>) {
    match e
    case Regular(p) => !w.Fit(p) || p in registered || w.objects[p].isPie
    case Symlink(p, toDirectory) => toDirectory || !w.Fit(p) || p in registered || w.objects[p].isPie
    case OtherEntry => true
  }

  ghost predicate DirectoryDealt(w: World, dir: string, registered: set<Path>) {
    dir in w.listing ==> forall i :: 0 <= i < |w.listing[dir]| ==> Dealt(w, w.listing[dir][i], registered)
  }

  /** The file behind a directory entry that the scan looks at. */
  function FileOf(e: Entry): Option<Path> {
    match e
    case Regular(p) => Some(p)
    case Symlink(p, toDirectory) => if toDirectory then None else Some(p)
    case OtherEntry => None
  }

  /** A file of the directory, directly or through a link to it. */
  predicate FileIn(w: World, dir: string, p: Path) {
    dir in w.listing && (Regular(p) in w.listing[dir] || Symlink(p, false) in w.listing[dir])
  }

  /** The directory is one of those searched for user or for system libraries. */
  predicate Searched(w: World, isUser: bool, dir: string) {
    exists i :: 0 <= i < |w.search| && w.search[i].isUser == isUser && w.search[i].realPath == dir
  }

  function Members(s: seq<Path>): set<Path> {
    set p | p in s
  }

  predicate NoDuplicates(s: seq<Path>) {
    forall i, j :: 0 <= i < j < |s| ==> s[i] != s[j]
  }

  /** The list without `p`, in the same order. */
  function Without(s: seq<Path>, p: Path): (r: seq<Path>)
    ensures forall q :: q in r <==> q in s && q != p
  {
    if s == [] then []
    else
      var rest := Without(s[1..], p);
      assert forall q :: q in s <==> q == s[0] || q in s[1..];
      if s[0] == p then rest else [s[0]] + rest
  }

  lemma {:induction false} WithoutAbsent(s: seq<Path>, p: Path)
    ensures p !in s ==> Without(s, p) == s
  {
    if s != [] {
      WithoutAbsent(s[1..], p);
      assert p in s[1..] ==> p in s;
    }
  }

  lemma {:induction false} WithoutOne(s: seq<Path>, p: Path, k: nat)
    requires NoDuplicates(s) && k < |s| && s[k] == p
    ensures Without(s, p) == s[..k] + s[k + 1..]
  {
    if k == 0 {
      WithoutAbsent(s[1..], p);
    } else {
      WithoutOne(s[1..], p, k - 1);
      assert s[..k] + s[k + 1..] == [s[0]] + (s[1..][..k - 1] + s[1..][k..]);
    }
  }

  /** The list without the libraries of `gone`, in the same order. */
  function Keep(s: seq<Path>, gone: set<Path>): (r: seq<Path>)
    ensures forall q :: q in r <==> q in s && q !in gone
  {
    if s == [] then []
    else
      var rest := Keep(s[1..], gone);
      assert forall q :: q in s <==> q == s[0] || q in s[1..];
      if s[0] in gone then rest else [s[0]] + rest
  }

  lemma {:induction false} KeepAll(s: seq<Path>)
    ensures Keep(s, {}) == s
  {
    if s != [] {
      KeepAll(s[1..]);
    }
  }

  lemma {:induction false} WithoutKept(s: seq<Path>, gone: set<Path>, p: Path)
    ensures Without(Keep(s, gone), p) == Keep(s, gone + {p})
  {
    if s != [] {
      WithoutKept(s[1..], gone, p);
      var rest := Keep(s[1..], gone);
      assert ([s[0]] + rest)[1..] == rest;
    }
  }

  lemma WithoutLast(s: seq<Path>, p: Path)
    requires p !in s && NoDuplicates(s)
    ensures Without(s + [p], p) == s
  {
    WithoutOne(s + [p], p, |s|);
  }

  /** An ordered list of libraries with a hash set for lookup. */
  class LibraryPaths {
    var libs: seq<Path>
    var libsH: set<Path>

    constructor ()
      ensures Valid() && libs == []
    {
      libs, libsH := [], {};
    }

    /** List and set are in step, and no library is listed twice. */
    ghost predicate Valid()
      reads this
    {
      NoDuplicates(libs) && libsH == Members(libs)
    }

    method RegisterLib(p: Path)
      requires Valid() && p !in libsH
      modifies this
      ensures Valid() && libs == old(libs) + [p]
    {
      libs := libs + [p];
      libsH := libsH + {p};
    }

    method UnregisterLib(p: Path)
      requires Valid()
      modifies this
      ensures Valid() && libs == Without(old(libs), p) && libsH == old(libsH) - {p}
    {
      WithoutAbsent(libs, p);
      if p !in libsH {
        return;
      }
      var k := 0;
      while libs[k] != p
        invariant 0 <= k < |libs| && p in libs[k..]
        decreases |libs| - k
      {
        k := k + 1;
      }
      WithoutOne(libs, p, k);
      libs := libs[..k] + libs[k + 1..];
      libsH := libsH - {p};
    }
  }

  function FirstIn(libs: seq<Path>, having: set<Path>): (r: Option<Path>)
    ensures r.Some? ==> exists k :: 0 <= k < |libs| && libs[k] == r.value && r.value in having &&
                          forall j :: 0 <= j < k ==> libs[j] !in having
    ensures r.None? ==> forall j :: 0 <= j < |libs| ==> libs[j] !in having
  {
    if libs == [] then None
    else if libs[0] in having then Some(libs[0])
    else
      FirstIn(libs[1..], having)
  }

  /** The two heuristics together: dependencies are looked at exactly for libraries that stray. */
  lemma SkipsUnlessStrays(w: World, p: Path)
    requires p in w.objects
    ensures w.SkipsDeps(p) <==> !w.Strays(p)
  {
    var o := w.objects[p];
    if !w.Strays(p) {
      forall item | item in o.rpath || item in o.runpath
        ensures w.OnSearchPath(item)
      {
        assert item in o.rpath + o.runpath;
        var d :| d in w.search && d.path == item;
      }
    }
  }

  /** `q` strays, and has `p` among its dependencies. */
  predicate Follows(w: World, q: Path, p: Path) {
    w.Strays(q) && p in w.objects[q].deps
  }

  /** `path` leads from `start` to `p` along followed dependencies, inside `libs`. */
  ghost predicate Leads(w: World, path: seq<Path>, start: Path, libs: set<Path>, p: Path) {
    && |path| > 0 && path[0] == start && path[|path| - 1] == p
    && (forall i :: 0 <= i < |path| ==> path[i] in libs)
    && (forall i :: 0 <= i < |path| - 1 ==> Follows(w, path[i], path[i + 1]))
  }

  /** `p` is reached from `start` along followed dependencies of libraries registered with it. */
  ghost predicate Reached(w: World, start: Path, libs: set<Path>, p: Path) {
    exists path :: Leads(w, path, start, libs, p)
  }

  lemma ReachedLater(w: World, start: Path, libs: set<Path>, more: set<Path>, p: Path)
    requires Reached(w, start, libs, p) && libs <= more
    ensures Reached(w, start, more, p)
  {
    var path :| Leads(w, path, start, libs, p);
    assert Leads(w, path, start, more, p);
  }

  lemma ReachedThrough(w: World, start: Path, dep: Path, libs: set<Path>, p: Path)
    requires Reached(w, dep, libs, p) && start in libs && Follows(w, start, dep)
    ensures Reached(w, start, libs, p)
  {
    var path :| Leads(w, path, dep, libs, p);
    var longer := [start] + path;
    forall i | 0 <= i < |longer| - 1
      ensures Follows(w, longer[i], longer[i + 1])
    {
      if i > 0 { assert longer[i] == path[i - 1] && longer[i + 1] == path[i]; }
    }
    assert Leads(w, longer, start, libs, p);
  }

  /** What a scan from `start` that took the registered libraries from `r0` to `r1` achieved. */
  ghost predicate Explored(w: World, start: Path, r0: set<Path>, r1: set<Path>) {
    r0 <= r1 && forall q :: q in r1 - r0 ==>
      w.Fit(q) && w.Settled(q, r1) && Reached(w, start, r1 - r0, q)
  }

  /** The same while `start` itself is still being worked on. */
  ghost predicate Exploring(w: World, start: Path, r0: set<Path>, r1: set<Path>) {
    r0 + {start} <= r1 && forall q :: q in r1 - r0 && q != start ==>
      w.Fit(q) && w.Settled(q, r1) && Reached(w, start, r1 - r0, q)
  }

  /** One more dependency of `start` explored. */
  lemma ExploreOne(w: World, start: Path, i: nat, r0: set<Path>, r1: set<Path>, r2: set<Path>)
    requires w.Strays(start) && i < |w.objects[start].deps| && start !in r0
    requires Exploring(w, start, r0, r1) && Explored(w, w.objects[start].deps[i], r1, r2)
    ensures Exploring(w, start, r0, r2)
  {
    var dep := w.objects[start].deps[i];
    forall q | q in r2 - r0 && q != start
      ensures w.Fit(q) && w.Settled(q, r2) && Reached(w, start, r2 - r0, q)
    {
      if q in r1 {
        assert w.Settled(q, r1);
        ReachedLater(w, start, r1 - r0, r2 - r0, q);
      } else {
        ReachedLater(w, dep, r2 - r1, r2 - r0, q);
        ReachedThrough(w, start, dep, r2 - r0, q);
      }
    }
  }

  /** When all dependencies of `start` have been explored. */
  lemma ExploredAll(w: World, start: Path, r0: set<Path>, r1: set<Path>)
    requires Exploring(w, start, r0, r1) && start !in r0 && w.Fit(start) && w.Settled(start, r1)
    ensures Explored(w, start, r0, r1)
  {
    assert Leads(w, [start], start, r1 - r0, start);
  }

  class Dyld {
    const libraries: LibraryPaths
    const sysLibraries: LibraryPaths
    const queried: LibraryPaths
    var firstRun: bool
    var firstRunSysLib: bool

    constructor ()
      ensures Valid() && firstRun && firstRunSysLib && fresh(Repr())
      ensures libraries.libs == [] && sysLibraries.libs == [] && queried.libs == []
    {
      libraries := new LibraryPaths();
      sysLibraries := new LibraryPaths();
      queried := new LibraryPaths();
      firstRun, firstRunSysLib := true, true;
    }

    ghost function Repr(): set<object> {
      {this, libraries, sysLibraries, queried}
    }

    /** The user and the system list are each duplicate-free and in step with their hash sets,
        and share no library. */
    ghost predicate Valid()
      reads Repr()
    {
      && libraries != sysLibraries && libraries != queried && sysLibraries != queried
      && libraries.Valid() && sysLibraries.Valid() && queried.Valid()
      && libraries.libsH !! sysLibraries.libsH
    }

    ghost function Registered(): set<Path>
      reads libraries, sysLibraries
    {
      libraries.libsH + sysLibraries.libsH
    }

    ghost function Scanning(system: bool): seq<Path>
      reads libraries, sysLibraries
    {
      if system then sysLibraries.libs else libraries.libs
    }

    ghost function Now(): Moment
      reads this, libraries, sysLibraries
    {
      Moment(libraries.libs, sysLibraries.libs, !firstRun, !firstRunSysLib)
    }

    /** Only the list being scanned for changes, and it only gets longer at its end. */
    twostate predicate OnlyAppends(system: bool)
      reads libraries, sysLibraries
    {
      if system then libraries.libs == old(libraries.libs) && old(sysLibraries.libs) <= sysLibraries.libs
      else sysLibraries.libs == old(sysLibraries.libs) && old(libraries.libs) <= libraries.libs
    }

    /** HandleLib: a depth-first walk over a possibly cyclic dependency graph.  It terminates,
        registers nothing twice, and whatever it registers is fit, reached from `p` along followed
        dependencies, and has all its own dependencies registered or ignored. */
    method HandleLib(w: World, p: Path, level: nat, system: bool)
      requires Valid()
      modifies libraries, sysLibraries
      ensures Valid() && OnlyAppends(system)
      ensures !w.Fit(p) || p in Registered() || (level == 0 && w.objects[p].isPie)
      ensures Explored(w, p, old(Registered()), Registered())
      ensures level == 0 && Executable(w, p) ==> Registered() == old(Registered())
      decreases w.objects.Keys - Registered(), 2
    {
      if p in sysLibraries.libsH || p in libraries.libsH {
        return;
      }
      if w.Ignored(p) {
        return;
      }
      Register(p, system);
      if level == 0 && w.objects[p].isPie {
        Unregister(p, system);
        return;
      }
      ghost var r0 := old(Registered());
      SkipsUnlessStrays(w, p);
      if !w.SkipsDeps(p) {
        HandleDeps(w, p, level, system, r0);
      }
      ExploredAll(w, p, r0, Registered());
    }

    /** The last part of HandleLib; `r0` is what was registered before `p`. */
    method HandleDeps(w: World, p: Path, level: nat, system: bool, ghost r0: set<Path>)
      requires Valid() && w.Strays(p) && p !in r0 && Registered() == r0 + {p}
      modifies libraries, sysLibraries
      ensures Valid() && OnlyAppends(system)
      ensures Exploring(w, p, r0, Registered()) && w.Settled(p, Registered())
      decreases w.objects.Keys - Registered(), 3
    {
      var deps := w.objects[p].deps;
      for i := 0 to |deps|
        invariant Valid() && OnlyAppends(system)
        invariant Exploring(w, p, r0, Registered())
        invariant forall j :: 0 <= j < i ==> !w.Fit(deps[j]) || deps[j] in Registered()
      {
        ghost var r1 := Registered();
        HandleLib(w, deps[i], level + 1, system);
        ExploreOne(w, p, i, r0, r1, Registered());
      }
    }

    method Register(p: Path, system: bool)
      requires Valid() && p !in Registered()
      modifies libraries, sysLibraries
      ensures Valid() && OnlyAppends(system) && Registered() == old(Registered()) + {p}
      ensures if system then sysLibraries.libs == old(sysLibraries.libs) + [p]
              else libraries.libs == old(libraries.libs) + [p]
    {
      if system {
        sysLibraries.RegisterLib(p);
      } else {
        libraries.RegisterLib(p);
      }
    }

    /** Takes back what Register just did. */
    method Unregister(p: Path, system: bool)
      requires Valid()
      requires var l := if system then sysLibraries.libs else libraries.libs; l != [] && l[|l| - 1] == p
      modifies libraries, sysLibraries
      ensures Valid() && Registered() == old(Registered()) - {p}
      ensures if system then libraries.libs == old(libraries.libs) && sysLibraries.libs + [p] == old(sysLibraries.libs)
              else sysLibraries.libs == old(sysLibraries.libs) && libraries.libs + [p] == old(libraries.libs)
    {
      ghost var l := if system then sysLibraries.libs else libraries.libs;
      assert l == l[..|l| - 1] + [p];
      WithoutLast(l[..|l| - 1], p);
      if system {
        sysLibraries.UnregisterLib(p);
      } else {
        libraries.UnregisterLib(p);
      }
    }

    /** ScanForLibraries: all user or all system search paths. */
    method ScanForLibraries(w: World, system: bool)
      requires Valid()
      modifies libraries, sysLibraries
      ensures Valid() && OnlyAppends(system)
      ensures Scanned(w, !system, old(Registered()), Registered())
      ensures AllDealt(w, !system, Registered())
      ensures Scanning(system) in Grown(w, !system, Registered(), old(Scanning(system)))
    {
      var scannedPaths: set<string> := {};
      ghost var n, from := |Scanning(system)|, [];
      for i := 0 to |w.search|
        invariant Valid() && OnlyAppends(system) && n == |old(Scanning(system))| && From(from, i)
        invariant ListedFrom(w, !system, Registered(), Scanning(system)[n..], from)
        invariant Scanned(w, !system, old(Registered()), Registered())
        invariant forall d :: d in scannedPaths ==> DirectoryDealt(w, d, Registered())
        invariant forall j :: 0 <= j < i && w.search[j].isUser != system && w.search[j].realPath != "" ==>
          DirectoryDealt(w, w.search[j].realPath, Registered())
      {
        var dir := w.search[i];
        if dir.isUser != system && dir.realPath in w.listing && dir.realPath != "" && dir.realPath !in scannedPaths {
          ghost var r1 := Registered();
          from := ScanDirectory(w, i, dir.realPath, system, n, from);
          ScanThen(w, !system, old(Registered()), r1, Registered());
          scannedPaths := scannedPaths + {dir.realPath};
        }
      }
    }

    /** One directory, number `d` of the search paths; `from` tells where the libraries listed behind
        place `n` were found. */
    method ScanDirectory(w: World, d: nat, dir: string, system: bool, ghost n: nat, ghost from0: seq<Place>)
      returns (ghost from: seq<Place>)
      requires Valid() && dir in w.listing && d < |w.search| && w.search[d] == SearchDir(w.search[d].path, !system, dir)
      requires n <= |Scanning(system)| && From(from0, d)
      requires ListedFrom(w, !system, Registered(), Scanning(system)[n..], from0)
      modifies libraries, sysLibraries
      ensures From(from, d + 1) && n <= |Scanning(system)|
      ensures ListedFrom(w, !system, Registered(), Scanning(system)[n..], from)
      ensures Valid() && OnlyAppends(system)
      ensures Scanned(w, !system, old(Registered()), Registered())
      ensures DirectoryDealt(w, dir, Registered())
    {
      var entries := w.listing[dir];
      from := from0;
      for i := 0 to |entries|
        invariant Valid() && OnlyAppends(system) && n <= |Scanning(system)| && FromIn(from, d, i)
        invariant ListedFrom(w, !system, Registered(), Scanning(system)[n..], from)
        invariant Scanned(w, !system, old(Registered()), Registered())
        invariant forall j :: 0 <= j < i ==> Dealt(w, entries[j], Registered())
      {
        ghost var r1 := Registered();
        from := ScanEntry(w, d, i, system, n, from);
        ScanThen(w, !system, old(Registered()), r1, Registered());
      }
    }

    /** One entry. */
    method ScanEntry(w: World, d: nat, i: nat, system: bool, ghost n: nat, ghost from0: seq<Place>)
      returns (ghost from: seq<Place>)
      requires Valid() && d < |w.search| && w.search[d].isUser != system && w.search[d].realPath in w.listing
      requires i < |w.listing[w.search[d].realPath]| && n <= |Scanning(system)| && FromIn(from0, d, i)
      requires ListedFrom(w, !system, Registered(), Scanning(system)[n..], from0)
      modifies libraries, sysLibraries
      ensures Valid() && OnlyAppends(system) && n <= |Scanning(system)| && FromIn(from, d, i + 1)
      ensures ListedFrom(w, !system, Registered(), Scanning(system)[n..], from)
      ensures Scanned(w, !system, old(Registered()), Registered())
      ensures Dealt(w, w.listing[w.search[d].realPath][i], Registered())
    {
      from := from0;
      var dir := w.search[d].realPath;
      var file := FileOf(w.listing[dir][i]);
      if file.Some? {
        ghost var r1, listed := Registered(), Scanning(system);
        HandleLib(w, file.value, 0, system);
        NewlyListed(w, file.value, r1, Registered(), listed, Scanning(system),
                    if system then libraries.libsH else sysLibraries.libsH);
        from := ListMore(w, !system, d, i, file.value, r1, Registered(), listed[n..], Scanning(system)[n..], from);
        assert FileIn(w, dir, file.value);
        ScanMore(w, !system, dir, file.value, old(Registered()), r1, Registered());
      }
    }

    /** Drops the libraries that were handed out earlier and have been loaded since. */
    method DropLoaded(w: World)
      requires Valid()
      modifies libraries, sysLibraries
      ensures Valid()
      ensures libraries.libs == Keep(old(libraries.libs), queried.libsH * w.loaded)
      ensures sysLibraries.libs == Keep(old(sysLibraries.libs), queried.libsH * w.loaded)
    {
      KeepAll(libraries.libs);
      KeepAll(sysLibraries.libs);
      assert Members(queried.libs[..0]) * w.loaded == {};
      for i := 0 to |queried.libs|
        invariant Valid()
        invariant libraries.libs == Keep(old(libraries.libs), Members(queried.libs[..i]) * w.loaded)
        invariant sysLibraries.libs == Keep(old(sysLibraries.libs), Members(queried.libs[..i]) * w.loaded)
      {
        var p := queried.libs[i];
        ghost var gone := Members(queried.libs[..i]) * w.loaded;
        assert Members(queried.libs[..i + 1]) * w.loaded == gone + if p in w.loaded then {p} else {};
        if p in w.loaded {
          WithoutKept(old(libraries.libs), gone, p);
          WithoutKept(old(sysLibraries.libs), gone, p);
          libraries.UnregisterLib(p);
          sysLibraries.UnregisterLib(p);
        } else {
          assert gone + {} == gone;
        }
      }
      assert queried.libs[..|queried.libs|] == queried.libs;
    }

    /** The first part of a query: the user scan, if it has not been made, and the loaded libraries. */
    method Refresh(w: World)
      requires Valid()
      modifies this`firstRun, libraries, sysLibraries
      ensures Valid() && Refreshed(w, queried.libsH, old(Now()), Now())
    {
      if firstRun {
        ScanForLibraries(w, false);
        firstRun := false;
      }
      ghost var r0, listed, sysListed := Registered(), libraries.libs, sysLibraries.libs;
      DropLoaded(w);
      KeepAll(listed);
      KeepAll(sysListed);
      assert queried.libsH * w.loaded == {} ==> libraries.libs == listed && Registered() == r0;
      assert All(Now()) == Registered();
      if old(firstRun) { StillDealt(w, true, r0, Registered()); }
      DroppedIsFit(w, old(Registered()), r0, Registered());
    }

    /** The system scan, if it has not been made. */
    method AddSystem(w: World)
      requires Valid() && Registered() * queried.libsH !! w.loaded
      modifies this`firstRunSysLib, libraries, sysLibraries
      ensures Valid() && Extended(w, queried.libsH, old(Now()), Now())
    {
      if firstRunSysLib {
        ScanForLibraries(w, true);
        firstRunSysLib := false;
        forall q | q in Registered() && q in queried.libsH
          ensures q !in w.loaded
        {
          assert q in old(Registered()) || FitIn(w, false, old(Registered()), Registered(), q);
        }
        if AllDealt(w, true, old(Registered())) { StillDealt(w, true, old(Registered()), Registered()); }
      }
    }

    /** searchLibrariesForSymbol.  Each list has an index object per library, built on first use from
        what the library's file lists; `gates` are the files that can be read and pass their own
        filter for the name.  The answer is the first library of the user list that has the symbol,
        then of the system list. */
    method SearchLibrariesForSymbol(q: Query, user: Indexes, system: Indexes, bloomSize: nat -> nat, ghost files: Files)
      returns (r: Option<Path>)
      requires Valid() && IndexOf(user, files.user) && IndexOf(system, files.system) && SizesOk(bloomSize)
      requires q.w.objects.Keys <= files.user.Keys * files.system.Keys
      requires Covered(files, Now()) && user.Values !! system.Values
      modifies Repr(), user.Values, system.Values
      ensures Valid() && IndexOf(user, files.user) && IndexOf(system, files.system)
      ensures Covered(files, Now())
      ensures Told(files, q, old(queried.libsH), old(Now()), Now(), r)
      ensures queried.libsH == old(queried.libsH) + (if r.Some? then {r.value} else {})
    {
      r := SearchBoth(q, user, system, bloomSize, files);
      ghost var n := Now();
      Remember(r);
      assert Now() == n;
    }

    /** The two parts of a query. */
    method SearchBoth(q: Query, user: Indexes, system: Indexes, bloomSize: nat -> nat, ghost files: Files)
      returns (r: Option<Path>)
      requires Valid() && IndexOf(user, files.user) && IndexOf(system, files.system) && SizesOk(bloomSize)
      requires q.w.objects.Keys <= files.user.Keys * files.system.Keys
      requires Covered(files, Now()) && user.Values !! system.Values
      modifies this`firstRun, this`firstRunSysLib, libraries, sysLibraries, user.Values, system.Values
      ensures Valid() && IndexOf(user, files.user) && IndexOf(system, files.system) && Covered(files, Now())
      ensures Told(files, q, queried.libsH, old(Now()), Now(), r)
    {
      ghost var m := Now();
      r := SearchUser(q, user, bloomSize, files);
      if r.None? && q.searchSystem {
        r := SearchSystem(q, system, bloomSize, files, m, Now());
      }
    }

    /** The first part of a query. */
    method SearchUser(q: Query, user: Indexes, bloomSize: nat -> nat, ghost files: Files) returns (r: Option<Path>)
      requires Valid() && IndexOf(user, files.user) && SizesOk(bloomSize) && Covered(files, Now())
      requires q.w.objects.Keys <= files.user.Keys * files.system.Keys
      modifies this`firstRun, libraries, sysLibraries, user.Values
      ensures Valid() && IndexOf(user, files.user) && Covered(files, Now())
      ensures Refreshed(q.w, queried.libsH, old(Now()), Now())
      ensures r == FirstIn(libraries.libs, Having(files.user, q.gates, q.name))
      ensures r.Some? || !q.searchSystem ==> Told(files, q, queried.libsH, old(Now()), Now(), r)
    {
      ghost var m := Now();
      Refresh(q.w);
      AfterRefresh(files, q, queried.libsH, m, Now());
      r := FirstContaining(libraries.libs, user, q.name, q.gates, bloomSize, files.user);
    }

    /** The second part of a query, after the user list did not have the symbol. */
    method SearchSystem(q: Query, system: Indexes, bloomSize: nat -> nat, ghost files: Files, ghost m: Moment,
                        ghost n1: Moment)
      returns (r: Option<Path>)
      requires Valid() && IndexOf(system, files.system) && SizesOk(bloomSize) && n1 == Now() && Covered(files, n1)
      requires q.w.objects.Keys <= files.user.Keys * files.system.Keys && Refreshed(q.w, queried.libsH, m, n1)
      requires FirstIn(n1.user, Having(files.user, q.gates, q.name)).None? && q.searchSystem
      modifies this`firstRunSysLib, libraries, sysLibraries, system.Values
      ensures Valid() && IndexOf(system, files.system) && Covered(files, Now())
      ensures Told(files, q, queried.libsH, m, Now(), r)
    {
      AddSystem(q.w);
      AfterSystem(files, q, queried.libsH, m, n1, Now());
      r := FirstContaining(sysLibraries.libs, system, q.name, q.gates, bloomSize, files.system);
    }

    /** The answer joins the libraries handed out. */
    method Remember(r: Option<Path>)
      requires Valid()
      modifies queried
      ensures Valid() && queried.libsH == old(queried.libsH) + (if r.Some? then {r.value} else {})
    {
      if r.Some? && r.value !in queried.libsH {
        queried.RegisterLib(r.value);
      }
    }
  }

  // ----- the index of each library -----

  type Name = SymbolIndex.Name
  type Indexes = map<Path, SymbolIndex.LibraryPath>

  /** What the files list, under the flags used for user and for system libraries. */
  datatype Files = Files(user: map<Path, seq<Name>>, system: map<Path, seq<Name>>)

  ghost predicate SizesOk(bloomSize: nat -> nat) {
    forall n: nat :: n > 0 ==> bloomSize(n) > 0
  }

  /** The index objects are those of the files, each built or not. */
  ghost predicate IndexOf(index: Indexes, files: map<Path, seq<Name>>)
    reads index.Values
  {
    index.Keys == files.Keys && forall p :: p in index ==> index[p].Valid() && index[p].collected == files[p]
  }

  /** The libraries that have the symbol. */
  function Having(files: map<Path, seq<Name>>, gates: set<Path>, name: Name): set<Path> {
    set p | p in files && p in gates && name in files[p]
  }

  /** The loop over a list: the first library whose index contains the symbol is the first that has it. */
  method FirstContaining(libs: seq<Path>, index: Indexes, name: Name, gates: set<Path>, bloomSize: nat -> nat,
                         ghost files: map<Path, seq<Name>>) returns (r: Option<Path>)
    requires IndexOf(index, files) && SizesOk(bloomSize) && Members(libs) <= files.Keys
    modifies index.Values
    ensures IndexOf(index, files) && r == FirstIn(libs, Having(files, gates, name))
  {
    var i := 0;
    assert libs[0..] == libs;
    while i < |libs|
      invariant 0 <= i <= |libs| && IndexOf(index, files)
      invariant FirstIn(libs[i..], Having(files, gates, name)) == FirstIn(libs, Having(files, gates, name))
    {
      var lib := index[libs[i]];
      var found := lib.ContainsSymbol(name, libs[i] in gates, bloomSize(|lib.collected|));
      if found {
        return Some(libs[i]);
      }
      assert libs[i..][1..] == libs[i + 1..];
      i := i + 1;
    }
    return None;
  }

  method MakeIndexes(files: map<Path, seq<Name>>) returns (index: Indexes)
    ensures IndexOf(index, files) && fresh(index.Values)
  {
    index := map[];
    var todo := files.Keys;
    while todo != {}
      invariant todo <= files.Keys && index.Keys == files.Keys - todo
      invariant forall p :: p in index ==> fresh(index[p]) && index[p].Valid() && index[p].collected == files[p]
    {
      var p :| p in todo;
      var lib := new SymbolIndex.LibraryPath(files[p]);
      index := index[p := lib];
      todo := todo - {p};
    }
  }

  // ----- the order of the lists -----

  /** An entry of a searched directory, both by number. */
  datatype Place = Place(dir: nat, entry: nat)

  predicate NotAfter(p: Place, q: Place) {
    p.dir < q.dir || (p.dir == q.dir && p.entry <= q.entry)
  }

  /** Places before directory `d`, or before entry `e` of it, in order. */
  predicate FromIn(from: seq<Place>, d: nat, e: nat) {
    && (forall k :: 0 <= k < |from| ==> from[k].dir < d || (from[k].dir == d && from[k].entry < e))
    && forall k, l :: 0 <= k < l < |from| ==> NotAfter(from[k], from[l])
  }

  predicate From(from: seq<Place>, d: nat) {
    FromIn(from, d, 0)
  }

  /** `q` is reached from the file at this place. */
  ghost predicate FoundAt(w: World, isUser: bool, libs: set<Path>, p: Place, q: Path) {
    && p.dir < |w.search| && w.search[p.dir].isUser == isUser && w.search[p.dir].realPath in w.listing
    && var entries := w.listing[w.search[p.dir].realPath];
       && p.entry < |entries|
       && exists start ::
            && (entries[p.entry] == Regular(start) || entries[p.entry] == Symlink(start, false))
            && Reached(w, start, libs, q)
  }

  ghost predicate ListedFrom(w: World, isUser: bool, libs: set<Path>, listed: seq<Path>, from: seq<Place>) {
    |from| == |listed| && forall k :: 0 <= k < |listed| ==> FoundAt(w, isUser, libs, from[k], listed[k])
  }

  /** Libraries are listed in the order of the search paths and of the directories: what was found from
      an earlier place stands before what was found from a later one. */
  ghost predicate InOrder(w: World, isUser: bool, libs: set<Path>, listed: seq<Path>) {
    exists from, d :: From(from, d) && ListedFrom(w, isUser, libs, listed, from)
  }

  /** What a list can have grown to, in that order. */
  ghost function Grown(w: World, isUser: bool, libs: set<Path>, before: seq<Path>): iset<seq<Path>> {
    iset after: seq<Path> | before <= after && InOrder(w, isUser, libs, after[|before|..])
  }

  lemma GrownLater(w: World, isUser: bool, libs: set<Path>, more: set<Path>, before: seq<Path>, after: seq<Path>)
    requires after in Grown(w, isUser, libs, before) && libs <= more
    ensures after in Grown(w, isUser, more, before)
  {
    var listed := after[|before|..];
    var from, d :| From(from, d) && ListedFrom(w, isUser, libs, listed, from);
    forall k | 0 <= k < |listed|
      ensures FoundAt(w, isUser, more, from[k], listed[k])
    {
      FoundAtLater(w, isUser, libs, more, from[k], listed[k]);
    }
    assert ListedFrom(w, isUser, more, listed, from);
  }

  lemma FoundAtLater(w: World, isUser: bool, libs: set<Path>, more: set<Path>, p: Place, q: Path)
    requires FoundAt(w, isUser, libs, p, q) && libs <= more
    ensures FoundAt(w, isUser, more, p, q)
  {
    var entries := w.listing[w.search[p.dir].realPath];
    var start :| (entries[p.entry] == Regular(start) || entries[p.entry] == Symlink(start, false)) &&
                 Reached(w, start, libs, q);
    ReachedLater(w, start, libs, more, q);
  }

  /** What a walk adds to the list it has reached. */
  lemma NewlyListed(w: World, start: Path, r1: set<Path>, r2: set<Path>, listed: seq<Path>, listed': seq<Path>,
                    other: set<Path>)
    requires Explored(w, start, r1, r2) && r1 == Members(listed) + other && Members(listed') <= r2
    requires listed <= listed' && NoDuplicates(listed') && Members(listed') !! other
    ensures forall k :: |listed| <= k < |listed'| ==> Reached(w, start, r2, listed'[k])
  {
    forall k | |listed| <= k < |listed'|
      ensures Reached(w, start, r2, listed'[k])
    {
      assert listed'[k] in Members(listed') && listed'[k] !in Members(listed);
      ReachedLater(w, start, r2 - r1, r2, listed'[k]);
    }
  }

  /** After one more file. */
  lemma ListMore(w: World, isUser: bool, d: nat, e: nat, file: Path, r1: set<Path>, r2: set<Path>, listed: seq<Path>,
                 listed': seq<Path>, from: seq<Place>) returns (from': seq<Place>)
    requires ListedFrom(w, isUser, r1, listed, from) && FromIn(from, d, e) && listed <= listed' && r1 <= r2
    requires d < |w.search| && w.search[d].isUser == isUser && w.search[d].realPath in w.listing
    requires var entries := w.listing[w.search[d].realPath];
             e < |entries| && (entries[e] == Regular(file) || entries[e] == Symlink(file, false))
    requires forall k :: |listed| <= k < |listed'| ==> Reached(w, file, r2, listed'[k])
    ensures ListedFrom(w, isUser, r2, listed', from') && FromIn(from', d, e + 1)
  {
    from' := from + seq(|listed'| - |listed|, _ => Place(d, e));
    forall k | 0 <= k < |listed'|
      ensures FoundAt(w, isUser, r2, from'[k], listed'[k])
    {
      if k < |listed| { FoundAtLater(w, isUser, r1, r2, from[k], listed[k]); }
    }
  }

  // ----- what scans add -----

  /** `q` was found from a file in a searched directory of this kind, one that is no executable. */
  ghost predicate FoundFrom(w: World, isUser: bool, libs: set<Path>, q: Path) {
    exists dir, start :: Searched(w, isUser, dir) && FileIn(w, dir, start) && !Executable(w, start) &&
      Reached(w, start, libs, q)
  }

  predicate Executable(w: World, p: Path) {
    p in w.objects && w.objects[p].isPie
  }

  /** Every library that came in is fit, has its dependencies settled, and was found from a file in a
      searched directory. */
  ghost predicate NewAreFit(w: World, isUser: bool, r0: set<Path>, r1: set<Path>) {
    forall q :: q in r1 - r0 ==> FitIn(w, isUser, r0, r1, q)
  }

  ghost predicate FitIn(w: World, isUser: bool, r0: set<Path>, r1: set<Path>, q: Path) {
    w.Fit(q) && w.Settled(q, r1) && FoundFrom(w, isUser, r1 - r0, q)
  }

  ghost predicate Scanned(w: World, isUser: bool, r0: set<Path>, r1: set<Path>) {
    r0 <= r1 && NewAreFit(w, isUser, r0, r1)
  }

  lemma FoundLater(w: World, isUser: bool, libs: set<Path>, more: set<Path>, q: Path)
    requires FoundFrom(w, isUser, libs, q) && libs <= more
    ensures FoundFrom(w, isUser, more, q)
  {
    var dir, start :| Searched(w, isUser, dir) && FileIn(w, dir, start) && !Executable(w, start) &&
                      Reached(w, start, libs, q);
    ReachedLater(w, start, libs, more, q);
  }

  /** Registering more, and dropping loaded libraries, keeps a newcomer fit. */
  lemma StaysFit(w: World, isUser: bool, r0: set<Path>, r1: set<Path>, r2: set<Path>, r3: set<Path>, q: Path)
    requires FitIn(w, isUser, r0, r1, q) && r1 - r0 <= r3 - r2
    requires forall p :: p in r1 && p !in r3 ==> p in w.loaded
    ensures FitIn(w, isUser, r2, r3, q)
  {
    FoundLater(w, isUser, r1 - r0, r3 - r2, q);
  }

  lemma ScanThen(w: World, isUser: bool, r0: set<Path>, r1: set<Path>, r2: set<Path>)
    requires Scanned(w, isUser, r0, r1) && Scanned(w, isUser, r1, r2)
    ensures Scanned(w, isUser, r0, r2)
  {
    forall q | q in r2 - r0
      ensures FitIn(w, isUser, r0, r2, q)
    {
      if q in r1 {
        StaysFit(w, isUser, r0, r1, r0, r2, q);
      } else {
        StaysFit(w, isUser, r1, r2, r0, r2, q);
      }
    }
  }

  lemma ScanMore(w: World, isUser: bool, dir: string, file: Path, r0: set<Path>, r1: set<Path>, r2: set<Path>)
    requires Scanned(w, isUser, r0, r1) && Explored(w, file, r1, r2)
    requires Searched(w, isUser, dir) && FileIn(w, dir, file) && (Executable(w, file) ==> r2 == r1)
    ensures Scanned(w, isUser, r0, r2)
  {
    forall q | q in r2 - r1
      ensures FitIn(w, isUser, r1, r2, q)
    {
      assert Reached(w, file, r2 - r1, q);
    }
    ScanThen(w, isUser, r0, r1, r2);
  }

  /** After the user scan, dropping loaded libraries: newcomers are not loaded. */
  lemma DroppedIsFit(w: World, r0: set<Path>, r1: set<Path>, r2: set<Path>)
    requires r1 == r0 || Scanned(w, true, r0, r1)
    requires r2 <= r1 && forall p :: p in r1 && p !in r2 ==> p in w.loaded
    ensures NewAreFit(w, true, r0, r2)
  {
    forall p | p in r1 - r0
      ensures p in r2 && FitIn(w, true, r0, r1, p)
    {
      assert FitIn(w, true, r0, r1, p);
    }
    forall q | q in r2 - r0
      ensures FitIn(w, true, r0, r2, q)
    {
      StaysFit(w, true, r0, r1, r0, r2, q);
    }
  }

  /** What is new on both lists after a query whose system scan followed the user scan. */
  lemma FitThen(w: World, r0: set<Path>, r1: set<Path>, r2: set<Path>, user: set<Path>, system: set<Path>)
    requires NewAreFit(w, true, r0, r1) && NewAreFit(w, false, r1, r2) && r1 <= r2
    requires user <= r1 && user !! system && system <= r2 && system * r1 <= r0
    requires forall p :: p in r0 && p !in r1 ==> p in w.loaded
    ensures NewestFit(w, r0, r2, user, system)
  {
    forall q | q in r2 - r1
      ensures q !in r0
    {
      assert FitIn(w, false, r1, r2, q);
    }
    forall q | q in user - r0
      ensures FitIn(w, true, r0, r2, q)
    {
      StaysFit(w, true, r0, r1, r0, r2, q);
    }
    forall q | q in system - r0
      ensures FitIn(w, false, r0, r2, q)
    {
      StaysFit(w, false, r1, r2, r0, r2, q);
    }
  }

  ghost predicate NewestFit(w: World, r0: set<Path>, r1: set<Path>, user: set<Path>, system: set<Path>) {
    && (forall q :: q in user - r0 ==> FitIn(w, true, r0, r1, q))
    && (forall q :: q in system - r0 ==> FitIn(w, false, r0, r1, q))
  }

  /** What Refresh promises, as one relation. */
  ghost predicate Refreshed(w: World, returned: set<Path>, m: Moment, n: Moment) {
    var gone := returned * w.loaded;
    && n.userScanned && n.systemScanned == m.systemScanned && All(n) * returned !! w.loaded
    && (if m.userScanned then n.user == Keep(m.user, gone) else AllDealt(w, true, All(n)))
    && (!m.userScanned && gone == {} ==> n.user in Grown(w, true, All(n), m.user))
    && n.system == Keep(m.system, gone)
    && NewAreFit(w, true, All(m), All(n))
    && Members(n.user) * All(m) <= Members(m.user) && Members(n.system) * All(m) <= Members(m.system)
    && forall p :: p in All(m) && p !in All(n) ==> p in w.loaded
  }

  /** What AddSystem promises, as one relation. */
  ghost predicate Extended(w: World, returned: set<Path>, m: Moment, n: Moment) {
    && n.systemScanned && n.userScanned == m.userScanned && n.user == m.user && All(m) <= All(n)
    && All(n) * returned !! w.loaded
    && (if m.systemScanned then n.system == m.system else AllDealt(w, false, All(n)))
    && (!m.systemScanned ==> n.system in Grown(w, false, All(n), m.system))
    && (AllDealt(w, true, All(m)) ==> AllDealt(w, true, All(n)))
    && NewAreFit(w, false, All(m), All(n))
    && Members(n.user) * All(m) <= Members(m.user) && Members(n.system) * All(m) <= Members(m.system)
  }

  ghost predicate InStep(m: Moment) {
    NoDuplicates(m.user) && NoDuplicates(m.system) && Members(m.user) !! Members(m.system)
  }

  ghost predicate Covered(files: Files, m: Moment) {
    Members(m.user) <= files.user.Keys && Members(m.system) <= files.system.Keys
  }

  lemma StillCovered(files: Files, m: Moment, n: Moment)
    requires Covered(files, m) && All(n) - All(m) <= files.user.Keys * files.system.Keys
    requires Members(n.user) * All(m) <= Members(m.user) && Members(n.system) * All(m) <= Members(m.system)
    ensures Covered(files, n)
  {
    forall p | p in Members(n.user)
      ensures p in files.user
    {
      assert if p in All(m) then p in Members(n.user) * All(m) else p in All(n) - All(m);
    }
    forall p | p in Members(n.system)
      ensures p in files.system
    {
      assert if p in All(m) then p in Members(n.system) * All(m) else p in All(n) - All(m);
    }
  }

  /** The user part of a query is enough where the user list has the symbol, or no more is asked. */
  lemma AfterRefresh(files: Files, q: Query, returned: set<Path>, m: Moment, n: Moment)
    requires Refreshed(q.w, returned, m, n) && InStep(n) && Covered(files, m)
    requires q.w.objects.Keys <= files.user.Keys * files.system.Keys
    ensures Covered(files, n)
    ensures FirstIn(n.user, Having(files.user, q.gates, q.name)).Some? || !q.searchSystem ==>
      Told(files, q, returned, m, n, Answer(files, n.user, n.system, q))
  {
    StillCovered(files, m, n);
  }

  /** Otherwise the system part completes it. */
  lemma AfterSystem(files: Files, q: Query, returned: set<Path>, m: Moment, n1: Moment, n: Moment)
    requires Refreshed(q.w, returned, m, n1) && Extended(q.w, returned, n1, n) && InStep(n) && Covered(files, n1)
    requires q.w.objects.Keys <= files.user.Keys * files.system.Keys
    requires FirstIn(n.user, Having(files.user, q.gates, q.name)).None? && q.searchSystem
    ensures Covered(files, n) && Told(files, q, returned, m, n, Answer(files, n.user, n.system, q))
  {
    StillCovered(files, n1, n);
    if !m.userScanned && returned * q.w.loaded == {} {
      GrownLater(q.w, true, All(n1), All(n), m.user, n1.user);
    }
    KeepAll(m.system);
    FitThen(q.w, All(m), All(n1), All(n), Members(n.user), Members(n.system));
  }

  // ----- sequences of queries -----

  /** One query of a client, and the world at that moment: libraries get loaded in between. */
  datatype Query = Query(w: World, name: Name, gates: set<Path>, searchSystem: bool)

  /** The answer from the two lists: the first library that has the symbol. */
  function Answer(files: Files, user: seq<Path>, system: seq<Path>, q: Query): Option<Path> {
    var r := FirstIn(user, Having(files.user, q.gates, q.name));
    if r.Some? || !q.searchSystem then r else FirstIn(system, Having(files.system, q.gates, q.name))
  }

  function Returned(answers: seq<Option<Path>>): set<Path> {
    set i | 0 <= i < |answers| && answers[i].Some? :: answers[i].value
  }

  /** The two lists, and whether the directories behind them have been scanned. */
  datatype Moment = Moment(user: seq<Path>, system: seq<Path>, userScanned: bool, systemScanned: bool)

  function All(m: Moment): set<Path> {
    Members(m.user) + Members(m.system)
  }

  const START: Moment := Moment([], [], false, false)

  /** No library twice, none in both lists, and none that was returned before and is loaded. */
  ghost predicate ListsOk(q: Query, returned: set<Path>, m: Moment) {
    InStep(m) && All(m) * returned !! q.w.loaded
  }

  /** All directories of one kind have been dealt with. */
  ghost predicate AllDealt(w: World, isUser: bool, registered: set<Path>) {
    forall i :: 0 <= i < |w.search| && w.search[i].isUser == isUser && w.search[i].realPath != "" ==>
      DirectoryDealt(w, w.search[i].realPath, registered)
  }

  /** One query: the lists go from `m` to `n`.  The first query scans the user directories, the first
      one to get past the user list the system directories, and what they find is listed in the order
      of the search; apart from that a list only loses the libraries returned earlier and loaded now.
      The answer is the first match in the user list, then in the system list. */
  ghost predicate Told(files: Files, q: Query, returned: set<Path>, m: Moment, n: Moment, answer: Option<Path>) {
    var gone := returned * q.w.loaded;
    var inUser := FirstIn(n.user, Having(files.user, q.gates, q.name));
    && ListsOk(q, returned, n) && answer == Answer(files, n.user, n.system, q)
    && n.userScanned && NewestFit(q.w, All(m), All(n), Members(n.user), Members(n.system))
    && (if m.userScanned then n.user == Keep(m.user, gone) else AllDealt(q.w, true, All(n)))
    && n.systemScanned == (m.systemScanned || (q.searchSystem && inUser.None?))
    && (if m.systemScanned || !n.systemScanned then n.system == Keep(m.system, gone) else AllDealt(q.w, false, All(n)))
    && (!m.userScanned && gone == {} ==> n.user in Grown(q.w, true, All(n), m.user))
    && (!m.systemScanned && n.systemScanned && gone == {} ==> n.system in Grown(q.w, false, All(n), m.system))
  }

  /** Libraries may be added, and loaded ones may go. */
  lemma StillDealt(w: World, isUser: bool, r0: set<Path>, r1: set<Path>)
    requires AllDealt(w, isUser, r0) && forall p :: p in r0 && p !in r1 ==> p in w.loaded
    ensures AllDealt(w, isUser, r1)
  {
    forall d | DirectoryDealt(w, d, r0)
      ensures DirectoryDealt(w, d, r1)
    {
    }
  }

  lemma ReturnedMore(answers: seq<Option<Path>>, r: Option<Path>)
    ensures Returned(answers + [r]) == Returned(answers) + if r.Some? then {r.value} else {}
  {
    var longer := answers + [r];
    forall p | p in Returned(answers)
      ensures p in Returned(longer)
    {
      var i :| 0 <= i < |answers| && answers[i].Some? && answers[i].value == p;
      assert longer[i] == answers[i];
    }
    if r.Some? { assert longer[|answers|] == r; }
  }

  /** Any client, any sequence of queries, with libraries loaded in between, over files that do not
      change: `history` are the lists before and after every query.  A returned library that got
      loaded never comes back. */
  method AnswerAll(files: Files, queries: seq<Query>, bloomSize: nat -> nat)
    returns (answers: seq<Option<Path>>, ghost history: seq<Moment>)
    requires SizesOk(bloomSize)
    requires forall i :: 0 <= i < |queries| ==> queries[i].w.objects.Keys <= files.user.Keys * files.system.Keys
    ensures |answers| == |queries| && |history| == |queries| + 1 && history[0] == START
    ensures forall i :: 0 <= i < |queries| ==>
      Told(files, queries[i], Returned(answers[..i]), history[i], history[i + 1], answers[i])
    ensures forall i, j :: 0 <= i < j < |queries| && answers[i].Some? && answers[i].value in queries[j].w.loaded ==>
      answers[j] != answers[i]
  {
    var dyld := new Dyld();
    var user := MakeIndexes(files.user);
    var system := MakeIndexes(files.system);
    answers, history := [], [START];
    for k := 0 to |queries|
      invariant dyld.Valid() && fresh(dyld.Repr()) && |answers| == k && |history| == k + 1 && history[0] == START
      invariant fresh(user.Values) && fresh(system.Values)
      invariant IndexOf(user, files.user) && IndexOf(system, files.system) && user.Values !! system.Values
      invariant Covered(files, dyld.Now())
      invariant dyld.queried.libsH == Returned(answers) && history[k] == dyld.Now()
      invariant forall i :: 0 <= i < k ==>
        Told(files, queries[i], Returned(answers[..i]), history[i], history[i + 1], answers[i])
    {
      ghost var before := answers;
      var r := dyld.SearchLibrariesForSymbol(queries[k], user, system, bloomSize, files);
      answers, history := answers + [r], history + [dyld.Now()];
      assert forall i :: 0 <= i <= k ==> answers[..i] == before[..i];
      assert before[..k] == before;
      ReturnedMore(before, r);
    }
    NoneComesBack(files, queries, answers, history);
  }

  lemma NoneComesBack(files: Files, queries: seq<Query>, answers: seq<Option<Path>>, history: seq<Moment>)
    requires |answers| == |queries| && |history| == |queries| + 1
    requires forall i :: 0 <= i < |queries| ==>
      Told(files, queries[i], Returned(answers[..i]), history[i], history[i + 1], answers[i])
    ensures forall i, j :: 0 <= i < j < |queries| && answers[i].Some? && answers[i].value in queries[j].w.loaded ==>
      answers[j] != answers[i]
  {
    forall i, j | 0 <= i < j < |queries| && answers[i].Some? && answers[i].value in queries[j].w.loaded
      ensures answers[j] != answers[i]
    {
      assert answers[..j][i] == answers[i];
      NotReturnedAgain(files, queries[j], Returned(answers[..j]), history[j], history[j + 1], answers[j],
                       answers[i].value);
    }
  }

  lemma NotReturnedAgain(files: Files, q: Query, returned: set<Path>, m: Moment, n: Moment, answer: Option<Path>,
                         p: Path)
    requires Told(files, q, returned, m, n, answer) && p in returned && p in q.w.loaded
    ensures answer != Some(p)
  {
  }
}
