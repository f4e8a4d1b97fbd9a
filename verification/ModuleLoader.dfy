/** Loading a project (src/support/project.c:1375-1391, 1703-1893): a depth-first walk over the
    imports that marks a module while it is being loaded. */
module ModuleLoader {
  import opened Ir
  import opened ModuleGraph
  import opened ModuleOrder

  /** What loading reports: a fault of the files, or a library module met before a file of its
      name. */
  ghost predicate Fault(fs: Files, entry: string) {
    FileFault(fs, entry) || ClashReported(fs, entry)
  }

  /** The files not loaded yet, which every new module uses up. */
  ghost function Unloaded(fs: Files, ms: seq<Module>): set<string> {
    set p | p in fs.contents && !Loaded(ms, p)
  }

  /** Longer lists leave less to load. */
  lemma {:induction false} UnloadedShrinks(fs: Files, ms: seq<Module>, ms': seq<Module>)
    requires |ms| <= |ms'| && forall i :: 0 <= i < |ms| ==> ms'[i].path == ms[i].path && ms'[i].builtin == ms[i].builtin
    ensures Unloaded(fs, ms') <= Unloaded(fs, ms)
  {
    forall p | Loaded(ms, p)
      ensures Loaded(ms', p)
    {
      var i :| 0 <= i < |ms| && !ms[i].builtin && ms[i].path == p;
      assert ms'[i].path == p;
    }
  }

  lemma {:induction false} PushUnloads(fs: Files, ms: seq<Module>, m: Module)
    requires !m.builtin && m.path in fs.contents && !Loaded(ms, m.path)
    ensures Unloaded(fs, ms + [m]) < Unloaded(fs, ms)
  {
    UnloadedShrinks(fs, ms, ms + [m]);
    assert (ms + [m])[|ms|].path == m.path;
    assert m.path in Unloaded(fs, ms) && m.path !in Unloaded(fs, ms + [m]);
  }

  lemma {:induction false} ResolvedGrows(fs: Files, ms: seq<Module>, ms': seq<Module>, p: string, names: seq<string>,
      imports: seq<Option<nat>>, n: nat)
    requires AllResolved(fs, ms, p, names, imports, n) && |ms| <= |ms'|
    requires forall j :: 0 <= j < |ms| && (ms[j].builtin || !ms[j].loading) ==> ms'[j] == ms[j]
    ensures AllResolved(fs, ms', p, names, imports, n)
  {
    hide ImportTarget;
    forall k | 0 <= k < n
      ensures Resolved(fs, ms', p, names[k], imports[k])
    {
      assert Resolved(fs, ms, p, names[k], imports[k]);
    }
  }

  /** The file on top of the trail imports this path. */
  ghost predicate ImportsPath(fs: Files, p: string, path: string) {
    exists k :: 0 <= k < |ImportsOf(fs, p)| && !fs.stdlib(ImportsOf(fs, p)[k]) && fs.resolve(p,
      ImportsOf(fs, p)[k]) == Some(path)
  }

  /** Where a load request comes from: the entry, or an import of the file on top of the trail. */
  ghost predicate Requested(fs: Files, entry: string, ms: seq<Module>, trail: seq<string>, path: string) {
    if trail == [] then ms == [] && fs.absolute(path) == Some(entry)
    else ImportsPath(fs, trail[|trail| - 1], path)
  }

  lemma {:induction false} RequestReaches(fs: Files, entry: string, ms: seq<Module>, trail: seq<string>, path: string)
    requires OnTrail(fs, entry, ms, trail) && Requested(fs, entry, ms, trail, path)
    ensures fs.absolute(path).None? ==> Unresolved(fs, entry)
    ensures fs.absolute(path).Some? ==> Reaches(fs, entry, fs.absolute(path).value)
    ensures fs.absolute(path).Some? && trail != [] ==> Edge(fs, trail[|trail| - 1], fs.absolute(path).value)
  {
    hide Loaded;
    if trail == [] {
      ReachesItself(fs, entry);
    } else {
      var p := trail[|trail| - 1];
      TrailReaches(fs, trail, |trail| - 1);
      var k :| 0 <= k < |ImportsOf(fs, p)| && !fs.stdlib(ImportsOf(fs, p)[k]) && fs.resolve(p,
        ImportsOf(fs, p)[k]) == Some(path);
      assert ImportTarget(fs, p, ImportsOf(fs, p)[k]) == fs.absolute(path);
      if fs.absolute(path).Some? {
        ReachesOn(fs, entry, p, fs.absolute(path).value);
      }
    }
  }

  lemma {:induction false} LoadingIsCycle(fs: Files, entry: string, ms: seq<Module>, trail: seq<string>, path: string,
      i: nat)
    requires OnTrail(fs, entry, ms, trail) && Requested(fs, entry, ms, trail, path)
    requires i < |ms| && ms[i].loading && fs.absolute(path) == Some(ms[i].path)
    ensures Cyclic(fs, entry)
  {
    hide Loaded, Edge, Route, Reaches, Cyclic;
    RequestReaches(fs, entry, ms, trail, path);
    ClosesCycle(fs, trail, ms[i].path);
  }

  /** A module with the name of the next file. */
  lemma {:induction false} ClashIsFault(fs: Files, entry: string, ms: seq<Module>, i: nat, p: string)
    requires AllKnown(fs, entry, ms) && i < |ms| && ms[i].name == fs.nameOf(p) && ms[i].path != p
    requires Reaches(fs, entry, p)
    requires Items(ms) + [FileItem(p)] <= Order(fs, entry)
    ensures Fault(fs, entry)
  {
    hide Reaches, ImportsStdlib, Visit, LibFirst;
    assert Known(fs, entry, ms[i]);
    if ms[i].builtin {
      LibBefore(fs, ms, i, p);
      PrefixClash(fs, Items(ms) + [FileItem(p)], Order(fs, entry));
    } else {
      assert SameName(fs, entry);
    }
  }

  lemma LibBefore(fs: Files, ms: seq<Module>, i: nat, p: string)
    requires i < |ms| && ms[i].builtin && ms[i].name == fs.nameOf(p)
    ensures LibFirst(fs, Items(ms) + [FileItem(p)])
  {
    var o := Items(ms) + [FileItem(p)];
    assert o[i] == LibItem(ms[i].name) && o[|ms|] == FileItem(p);
  }

  lemma ItemsPush(ms: seq<Module>, m: Module)
    ensures Items(ms + [m]) == Items(ms) + [ItemOf(m)]
  {
  }

  /** A path is loaded, or a library module created, exactly if it was met. */
  lemma ItemsHold(ms: seq<Module>, x: Item)
    ensures x in Items(ms) <==> exists i :: 0 <= i < |ms| && ItemOf(ms[i]) == x
  {
    forall i | 0 <= i < |ms|
      ensures ItemOf(ms[i]) in Items(ms)
    {
      assert Items(ms)[i] == ItemOf(ms[i]);
    }
  }

  /** A load without a diagnostic met no library module before a file of its name. */
  lemma {:induction false} NoClash(fs: Files, entry: string, ms: seq<Module>)
    requires AllKnown(fs, entry, ms) && Apart(ms)
    ensures !LibFirst(fs, Items(ms))
  {
    hide Reaches, ImportsStdlib;
    forall i, j | 0 <= i < j < |ms| && ms[i].builtin && !ms[j].builtin
      ensures fs.nameOf(ms[j].path) != ms[i].name
    {
      assert Known(fs, entry, ms[j]);
    }
  }

  class Project {
    const fs: Files
    const entryPath: string
    var modules: seq<Module>
    var diagnosed: bool
    var root: Option<nat>
    ghost var trail: seq<string>
    ghost var rank: seq<nat>
    ghost var clock: nat

    constructor (fs: Files, entryPath: string)
      requires Rooted(fs)
      ensures this.fs == fs && this.entryPath == entryPath && Valid() && modules == [] && trail == [] && !diagnosed
      ensures root == None
    {
      this.fs, this.entryPath := fs, entryPath;
      modules, diagnosed, root := [], false, None;
      trail, rank, clock := [], [], 0;
    }

    ghost function Entry(): string {
      var p := fs.absolute(entryPath);
      if p.Some? then p.value else ""
    }

    ghost predicate Valid()
      reads this
    {
      && Rooted(fs)
      && AllKnown(fs, Entry(), modules) && Apart(modules) && OnTrail(fs, Entry(), modules, trail)
      && |rank| == |modules|
      && (if diagnosed then Fault(fs, Entry()) else Settled(fs, modules, rank, clock))
    }

    method FindByPath(path: string) returns (r: Option<nat>)
      ensures r.Some? ==> r.value < |modules| && modules[r.value].path == path
      ensures r.None? ==> forall i :: 0 <= i < |modules| ==> modules[i].path != path
    {
      for i := 0 to |modules|
        invariant forall k :: 0 <= k < i ==> modules[k].path != path
      {
        if modules[i].path == path {
          return Some(i);
        }
      }
      return None;
    }

    method FindByName(name: string) returns (r: Option<nat>)
      ensures r.Some? ==> r.value < |modules| && modules[r.value].name == name
      ensures r.None? ==> forall i :: 0 <= i < |modules| ==> modules[i].name != name
    {
      for i := 0 to |modules|
        invariant forall k :: 0 <= k < i ==> modules[k].name != name
      {
        if modules[i].name == name {
          return Some(i);
        }
      }
      return None;
    }

    method Diagnose()
      requires Valid() && Fault(fs, Entry())
      modifies this`diagnosed
      ensures Valid() && diagnosed
    {
      hide AllKnown, Apart, OnTrail, Settled, Fault;
      diagnosed := true;
    }

    /** A standard library module, created at its first import. */
    method LoadBuiltin(name: string) returns (i: nat)
      requires Valid() && ImportsStdlib(fs, Entry(), name)
      modifies this`modules, this`rank
      ensures Valid() && old(modules) <= modules && i < |modules| && modules[i].builtin && modules[i].name == name
      ensures Items(modules) ==
        if LibItem(name) in Items(old(modules)) then Items(old(modules)) else Items(old(modules)) + [LibItem(name)]
    {
      hide Settled, ImportsStdlib, Fault, Reaches, Route, Edge, Loaded, Items;
      i := 0;
      ItemsHold(modules, LibItem(name));
      while i < |modules|
        invariant i <= |modules| && forall k :: 0 <= k < i ==> ItemOf(modules[k]) != LibItem(name)
      {
        if modules[i].builtin && modules[i].name == name {
          return;
        }
        i := i + 1;
      }
      var m := Module(StdlibPath(name), name, true, None, [], false);
      if !diagnosed {
        PushKeepsSettled(fs, modules, rank, clock, m);
      }
      LoadedStays(modules, m, trail);
      ItemsPush(modules, m);
      modules, rank := modules + [m], rank + [0];
    }

    /** A new file, marked as being loaded. */
    method Push(path: string, name: string)
      requires Valid() && Reaches(fs, Entry(), path) && name == fs.nameOf(path) && !IsStdlibPath(path)
      requires forall i :: 0 <= i < |modules| ==> modules[i].path != path && modules[i].name != name
      requires trail == [] ==> path == Entry()
      requires trail != [] ==> Edge(fs, trail[|trail| - 1], path)
      modifies this`modules, this`trail, this`rank
      ensures Valid() && modules == old(modules) + [Module(path, name, false, None, [], true)]
      ensures trail == old(trail) + [path]
    {
      hide Settled, Reaches, Fault, Edge, Loaded;
      var m := Module(path, name, false, None, [], true);
      if !diagnosed {
        PushKeepsSettled(fs, modules, rank, clock, m);
      }
      LoadedStays(modules, m, trail);
      if trail != [] {
        Extend(fs, trail, path);
      }
      modules, trail, rank := modules + [m], trail + [path], rank + [0];
    }

    /** The file on top of the trail is finished. */
    method Finish(m: nat)
      requires Valid() && m < |modules| && !modules[m].builtin && modules[m].loading
      requires trail != [] && modules[m].path == trail[|trail| - 1] && trail[|trail| - 1] !in trail[..|trail| - 1]
      requires !diagnosed ==>
        && Readable(fs, modules[m].path) && modules[m].program == Some(ImportsOf(fs, modules[m].path))
        && |modules[m].imports| == |ImportsOf(fs, modules[m].path)|
        && AllResolved(fs, modules, modules[m].path, ImportsOf(fs, modules[m].path), modules[m].imports,
          |modules[m].imports|)
      modifies this`modules, this`trail, this`rank, this`clock
      ensures Valid() && modules == old(modules)[m := old(modules)[m].(loading := false)]
      ensures Items(modules) == Items(old(modules))
      ensures trail == old(trail)[..|old(trail)| - 1]
    {
      hide Settled, Reaches, Fault, Edge, Loaded, Resolved, Readable;
      if !diagnosed {
        FinishKeepsSettled(fs, modules, rank, clock, m);
      }
      LoadedSame(modules, m, modules[m].(loading := false), trail);
      modules := modules[m := modules[m].(loading := false)];
      rank := rank[m := clock];
      clock := clock + 1;
      trail := trail[..|trail| - 1];
    }

    /** Stores into a module that is being loaded. */
    method Store(m: nat, program: Option<seq<string>>, imports: seq<Option<nat>>)
      requires Valid() && m < |modules| && !modules[m].builtin && modules[m].loading
      modifies this`modules
      ensures Valid() && modules == old(modules)[m := old(modules)[m].(program := program, imports := imports)]
      ensures Items(modules) == Items(old(modules))
    {
      hide Settled, Reaches, Fault, Edge, Route, Loaded;
      var m' := modules[m].(program := program, imports := imports);
      if !diagnosed {
        UpdateKeepsSettled(fs, modules, rank, clock, m, m');
      }
      LoadedSame(modules, m, m', trail);
      modules := modules[m := m'];
    }

    method Load(path: string) returns (r: Option<nat>)
      requires Valid() && Requested(fs, Entry(), modules, trail, path)
      requires !diagnosed && fs.absolute(path).Some? ==>
        Visit(fs, Items(modules), fs.absolute(path).value) <= Order(fs, Entry())
      modifies this`modules, this`diagnosed, this`trail, this`rank, this`clock
      ensures Valid() && trail == old(trail) && old(modules) <= modules
      ensures old(diagnosed) ==> diagnosed
      ensures !diagnosed ==>
        && r.Some? && r.value < |modules| && !modules[r.value].builtin && !modules[r.value].loading
        && fs.absolute(path) == Some(modules[r.value].path)
        && Items(modules) == Visit(fs, Items(old(modules)), modules[r.value].path)
      decreases Unloaded(fs, modules), 1
    {
      hide AllKnown, Apart, OnTrail, Settled, Requested, Reaches, Edge, Fault, Unloaded, Loaded, Visit, Items, Order;
      ghost var entry := Entry();
      RequestReaches(fs, entry, modules, trail, path);
      var absolute := fs.absolute(path);
      if absolute.None? {
        Unsound(fs, entry);
        Diagnose();
        return None;
      }
      var p := absolute.value;
      var existing := FindByPath(p);
      VisitUnfold(fs, Items(modules), p);
      if existing.Some? {
        ItemsHold(modules, FileItem(p));
        FoundIsFile(fs, entry, modules, existing.value);
        if modules[existing.value].loading {
          LoadingIsCycle(fs, entry, modules, trail, path, existing.value);
          Unsound(fs, entry);
          Diagnose();
        }
        return existing;
      }
      var name := fs.nameOf(p);
      var conflict := FindByName(name);
      if conflict.Some? {
        if !diagnosed {
          ItemsHold(modules, FileItem(p));
          ClashIsFault(fs, entry, modules, conflict.value, p);
        }
        Diagnose();
        return None;
      }
      NotOnTrail(fs, entry, modules, trail, p);
      StartOfTrail(fs, entry, modules, trail, path);
      r := LoadNew(p, name);
    }

    /** A file seen for the first time. */
    method LoadNew(p: string, name: string) returns (r: Option<nat>)
      requires Valid() && Reaches(fs, Entry(), p) && name == fs.nameOf(p) && !IsStdlibPath(p)
      requires forall i :: 0 <= i < |modules| ==> modules[i].path != p && modules[i].name != name
      requires trail == [] ==> p == Entry()
      requires trail != [] ==> Edge(fs, trail[|trail| - 1], p)
      requires p !in trail
      requires !diagnosed ==> Visit(fs, Items(modules), p) <= Order(fs, Entry())
      modifies this`modules, this`diagnosed, this`trail, this`rank, this`clock
      ensures Valid() && trail == old(trail) && old(modules) <= modules
      ensures old(diagnosed) ==> diagnosed
      ensures r == Some(|old(modules)|) && r.value < |modules|
      ensures !modules[r.value].builtin && !modules[r.value].loading && modules[r.value].path == p
      ensures !diagnosed ==> Items(modules) == Visit(fs, Items(old(modules)), p)
      decreases Unloaded(fs, modules), 0
    {
      hide AllKnown, Apart, OnTrail, Settled, Reaches, Edge, Fault, Unloaded, Loaded, Resolved, Rooted,
        Visit, VisitImports, Items, Order;
      ghost var entry := Entry();
      var m := |modules|;
      ItemsHold(modules, FileItem(p));
      VisitUnfold(fs, Items(modules), p);
      ItemsPush(modules, Module(p, name, false, None, [], true));
      r := Some(m);
      if p in fs.contents {
        NotLoaded(modules, p);
        PushUnloads(fs, modules, Module(p, name, false, None, [], true));
      }
      Push(p, name);
      if p !in fs.contents {
        UnreadableIsFault(fs, entry, p);
        Diagnose();
      } else {
        Read(m);
      }
      Finish(m);
    }

    /** Lexes and parses the file on top of the trail, then loads its imports. */
    method Read(m: nat)
      requires Valid() && m < |modules| && trail != [] && Reaches(fs, Entry(), modules[m].path)
      requires modules[m] == Module(trail[|trail| - 1], modules[m].name, false, None, [], true)
      requires modules[m].path in fs.contents
      requires !diagnosed ==> VisitImports(fs, Items(modules), modules[m].path, 0) <= Order(fs, Entry())
      modifies this`modules, this`diagnosed, this`trail, this`rank, this`clock
      ensures Valid() && trail == old(trail) && m < |modules| && old(modules)[..m] <= modules
      ensures old(diagnosed) ==> diagnosed
      ensures modules[m] == old(modules)[m].(program := modules[m].program, imports := modules[m].imports)
      ensures !diagnosed ==>
        && Readable(fs, modules[m].path) && modules[m].program == Some(ImportsOf(fs, modules[m].path))
        && |modules[m].imports| == |ImportsOf(fs, modules[m].path)|
        && AllResolved(fs, modules, modules[m].path, ImportsOf(fs, modules[m].path), modules[m].imports,
          |modules[m].imports|)
        && Items(modules) == VisitImports(fs, Items(old(modules)), modules[m].path, 0)
      decreases Unloaded(fs, modules), 4
    {
      hide AllKnown, Apart, OnTrail, Settled, Reaches, Edge, Fault, Unloaded, Loaded, Resolved, Rooted, VisitImports,
        Items, Order;
      ghost var entry := Entry();
      var p := modules[m].path;
      if !fs.contents[p].lexes {
        UnreadableIsFault(fs, entry, p);
        Diagnose();
      }
      if !diagnosed {
        if !fs.contents[p].parses {
          UnreadableIsFault(fs, entry, p);
          Diagnose();
        }
        Store(m, Some(fs.contents[p].imports), seq(|fs.contents[p].imports|, i => None));
        UnloadedShrinks(fs, old(modules), modules);
        LoadImports(m);
      }
    }

    method LoadImports(m: nat)
      requires Valid() && m < |modules| && !modules[m].builtin && modules[m].loading
      requires trail != [] && modules[m].path == trail[|trail| - 1]
      requires modules[m].path in fs.contents && modules[m].program == Some(ImportsOf(fs, modules[m].path))
      requires |modules[m].imports| == |ImportsOf(fs, modules[m].path)|
      requires !diagnosed ==> VisitImports(fs, Items(modules), modules[m].path, 0) <= Order(fs, Entry())
      modifies this`modules, this`diagnosed, this`trail, this`rank, this`clock
      ensures Valid() && trail == old(trail) && old(modules)[..m] <= modules && m < |modules|
      ensures old(diagnosed) ==> diagnosed
      ensures |modules[m].imports| == |old(modules)[m].imports|
      ensures modules[m] == old(modules)[m].(imports := modules[m].imports)
      ensures !diagnosed ==>
        AllResolved(fs, modules, modules[m].path, ImportsOf(fs, modules[m].path), modules[m].imports,
          |modules[m].imports|)
      ensures !diagnosed ==> Items(modules) == VisitImports(fs, Items(old(modules)), modules[m].path, 0)
      decreases Unloaded(fs, modules), 3
    {
      hide AllKnown, Apart, OnTrail, Settled, Reaches, Edge, Fault, Unloaded, Loaded, Resolved, Items, Step, Order;
      var p := modules[m].path;
      var names := fs.contents[p].imports;
      ghost var ms0 := modules;
      for i := 0 to |names|
        invariant Valid() && trail == old(trail)
        invariant |ms0| <= |modules| && forall j :: 0 <= j < |ms0| && j != m ==> modules[j] == ms0[j]
        invariant old(diagnosed) ==> diagnosed
        invariant |modules[m].imports| == |names| && modules[m] == ms0[m].(imports := modules[m].imports)
        invariant !diagnosed ==> AllResolved(fs, modules, p, names, modules[m].imports, i)
        invariant !diagnosed ==> VisitImports(fs, Items(modules), p, i) == VisitImports(fs, Items(ms0), p, 0)
      {
        UnloadedShrinks(fs, ms0, modules);
        ImportsUnfold(fs, Items(modules), p, i);
        LoadImport(m, i);
      }
    }

    /** One import of the file on top of the trail. */
    method LoadImport(m: nat, i: nat)
      requires Valid() && m < |modules| && !modules[m].builtin && modules[m].loading
      requires trail != [] && modules[m].path == trail[|trail| - 1]
      requires |modules[m].imports| == |ImportsOf(fs, modules[m].path)| && i < |modules[m].imports|
      requires !diagnosed ==>
        AllResolved(fs, modules, modules[m].path, ImportsOf(fs, modules[m].path), modules[m].imports, i)
      requires !diagnosed ==> Step(fs, Items(modules), modules[m].path, i) <= Order(fs, Entry())
      modifies this`modules, this`diagnosed, this`trail, this`rank, this`clock
      ensures Valid() && trail == old(trail) && |old(modules)| <= |modules|
      ensures forall j :: 0 <= j < |old(modules)| && j != m ==> modules[j] == old(modules)[j]
      ensures old(diagnosed) ==> diagnosed
      ensures |modules[m].imports| == |old(modules)[m].imports|
      ensures modules[m] == old(modules)[m].(imports := modules[m].imports)
      ensures !diagnosed ==>
        AllResolved(fs, modules, modules[m].path, ImportsOf(fs, modules[m].path), modules[m].imports, i + 1)
      ensures !diagnosed ==> Items(modules) == Step(fs, Items(old(modules)), modules[m].path, i)
      decreases Unloaded(fs, modules), 2
    {
      hide AllKnown, Apart, OnTrail, Settled, Reaches, Edge, Fault, Unloaded, Loaded, ImportsStdlib, AllResolved,
        Visit, Items, Order;
      ghost var entry, ms := Entry(), modules;
      var p, before := modules[m].path, modules[m].imports;
      var name := ImportsOf(fs, p)[i];
      ImportFaults(fs, entry, modules, trail, i);
      var target: Option<nat> := None;
      if fs.stdlib(name) {
        var j := LoadBuiltin(name);
        target := Some(j);
      } else {
        var path := fs.resolve(p, name);
        if path.None? {
          Diagnose();
        } else {
          target := Load(path.value);
        }
      }
      if !diagnosed {
        ResolvedGrows(fs, ms, modules, p, ImportsOf(fs, p), before, i);
        ResolvedOneMore(fs, modules, p, ImportsOf(fs, p), before, i, target);
      }
      ghost var grown := modules;
      Store(m, modules[m].program, before[i := target]);
      if !diagnosed {
        ResolvedGrows(fs, grown, modules, p, ImportsOf(fs, p), before[i := target], i + 1);
      }
    }

    /** The whole load. It ends without a diagnostic only when the files the entry reaches are
        sound, and then those files are what is loaded; it diagnoses only what is at fault. */
    method Run()
      requires Valid() && modules == [] && trail == [] && !diagnosed
      modifies this
      ensures Valid() || fs.absolute(entryPath).None?
      ensures fs.absolute(entryPath).None? ==> diagnosed
      ensures fs.absolute(entryPath).Some? ==> (diagnosed <==> FileFault(fs, Entry()) || ClashReported(fs, Entry()))
      ensures fs.absolute(entryPath).Some? && !StdlibClash(fs, Entry()) ==> (diagnosed <==> FileFault(fs, Entry()))
      ensures !diagnosed ==>
        && Complete(fs, Entry(), modules, rank, clock) && !FileFault(fs, Entry())
        && root.Some? && root.value < |modules| && modules[root.value].path == Entry()
        && (forall p :: Loaded(modules, p) <==> Reaches(fs, Entry(), p))
        && Items(modules) == Order(fs, Entry())
    {
      hide AllKnown, Apart, Settled, Reaches, Edge, FileFault, Visit, LibFirst, StdlibClash;
      if fs.absolute(entryPath).None? {
        diagnosed := true;
        return;
      }
      assert Items(modules) == [];
      root := Load(entryPath);
      if ClashReported(fs, Entry()) {
        ReportedIsClash(fs, Entry());
      }
      if !diagnosed {
        NoClash(fs, Entry(), modules);
        assert Loaded(modules, Entry());
        CompleteIsSound(fs, Entry(), modules, rank, clock);
      }
    }
  }

  lemma {:induction false} Unsound(fs: Files, entry: string)
    requires Unresolved(fs, entry) || Cyclic(fs, entry)
    ensures Fault(fs, entry)
  {
    hide Unresolved, Cyclic;
  }

  lemma {:induction false} UnreadableIsFault(fs: Files, entry: string, p: string)
    requires Reaches(fs, entry, p) && !Readable(fs, p)
    ensures Fault(fs, entry)
  {
    hide Reaches, Readable;
  }

  lemma {:induction false} LoadedStays(ms: seq<Module>, m: Module, trail: seq<string>)
    requires forall k :: 0 <= k < |trail| ==> Loaded(ms, trail[k])
    ensures forall k :: 0 <= k < |trail| ==> Loaded(ms + [m], trail[k])
    ensures !m.builtin ==> Loaded(ms + [m], m.path)
  {
    forall k | 0 <= k < |trail|
      ensures Loaded(ms + [m], trail[k])
    {
      assert Loaded(ms, trail[k]);
      var i :| 0 <= i < |ms| && !ms[i].builtin && ms[i].path == trail[k];
      assert (ms + [m])[i].path == trail[k];
    }
    assert (ms + [m])[|ms|] == m;
  }

  lemma {:induction false} LoadedSame(ms: seq<Module>, i: nat, m: Module, trail: seq<string>)
    requires i < |ms| && m.path == ms[i].path && m.builtin == ms[i].builtin
    requires forall k :: 0 <= k < |trail| ==> Loaded(ms, trail[k])
    ensures forall k :: 0 <= k < |trail| ==> Loaded(ms[i := m], trail[k])
  {
    forall k | 0 <= k < |trail|
      ensures Loaded(ms[i := m], trail[k])
    {
      assert Loaded(ms, trail[k]);
      var j :| 0 <= j < |ms| && !ms[j].builtin && ms[j].path == trail[k];
      assert ms[i := m][j].path == trail[k];
    }
  }

  lemma {:induction false} FoundIsFile(fs: Files, entry: string, ms: seq<Module>, i: nat)
    requires AllKnown(fs, entry, ms) && i < |ms| && !IsStdlibPath(ms[i].path)
    ensures !ms[i].builtin
  {
    hide Reaches, ImportsStdlib;
    assert Known(fs, entry, ms[i]);
  }

  lemma KnownAt(fs: Files, entry: string, ms: seq<Module>, i: nat)
    requires AllKnown(fs, entry, ms) && i < |ms|
    ensures Known(fs, entry, ms[i])
  {
  }

  lemma {:induction false} NotOnTrail(fs: Files, entry: string, ms: seq<Module>, trail: seq<string>, p: string)
    requires OnTrail(fs, entry, ms, trail) && forall i :: 0 <= i < |ms| ==> ms[i].path != p
    ensures p !in trail
  {
    hide Route;
    forall k | 0 <= k < |trail|
      ensures trail[k] != p
    {
      assert Loaded(ms, trail[k]);
    }
  }

  lemma NotLoaded(ms: seq<Module>, p: string)
    requires forall i :: 0 <= i < |ms| ==> ms[i].path != p
    ensures !Loaded(ms, p)
  {
  }

  lemma StartOfTrail(fs: Files, entry: string, ms: seq<Module>, trail: seq<string>, path: string)
    requires Requested(fs, entry, ms, trail, path)
    ensures trail == [] ==> fs.absolute(path) == Some(entry)
  {
  }

  /** What an import of the file on top of the trail is to the entry. */
  lemma {:induction false} ImportFaults(fs: Files, entry: string, ms: seq<Module>, trail: seq<string>, i: nat)
    requires OnTrail(fs, entry, ms, trail) && trail != [] && i < |ImportsOf(fs, trail[|trail| - 1])|
    ensures var p := trail[|trail| - 1]; var name := ImportsOf(fs, p)[i];
      && (fs.stdlib(name) ==> ImportsStdlib(fs, entry, name))
      && (!fs.stdlib(name) && fs.resolve(p, name).None? ==> Fault(fs, entry))
      && (!fs.stdlib(name) && fs.resolve(p, name).Some? ==> Requested(fs, entry, ms, trail, fs.resolve(p, name).value))
  {
    hide Loaded, Route, Reaches, SameName, Cyclic, Unreadable, ClashReported;
    TrailReaches(fs, trail, |trail| - 1);
    var p := trail[|trail| - 1];
    var name := ImportsOf(fs, p)[i];
    if !fs.stdlib(name) && fs.resolve(p, name).None? {
      assert ImportTarget(fs, p, ImportsOf(fs, p)[i]).None?;
      assert Unresolved(fs, entry);
    }
  }

  lemma {:induction false} ResolvedOneMore(fs: Files, ms: seq<Module>, p: string, names: seq<string>,
      imports: seq<Option<nat>>, i: nat, t: Option<nat>)
    requires AllResolved(fs, ms, p, names, imports, i) && i < |names| == |imports| && Resolved(fs, ms, p, names[i], t)
    ensures AllResolved(fs, ms, p, names, imports[i := t], i + 1)
  {
    hide Resolved;
  }
}
