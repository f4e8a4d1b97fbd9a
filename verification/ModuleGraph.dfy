/** The import graph of the files on disk, and what a list of loaded modules says about it. */
module ModuleGraph {
  import opened Ir

  /** Whether a file lexes and parses without a diagnostic, and the imports it names. */
  datatype File = File(lexes: bool, parses: bool, imports: seq<string>)

  /** What the file system and the path rules answer; only `contents` is finite. */
  datatype Files = Files(
    absolute: string -> Option<string>,
    resolve: (string, string) -> Option<string>,
    nameOf: string -> string,
    stdlib: string -> bool,
    contents: map<string, File>)

  /** A module is known by its place in the project's list. */
  datatype Module = Module(
    path: string,
    name: string,
    builtin: bool,
    program: Option<seq<string>>,
    imports: seq<Option<nat>>,
    loading: bool)

  function StdlibPath(name: string): (p: string)
    ensures IsStdlibPath(p)
  {
    "<stdlib:" + name + ">"
  }

  predicate IsStdlibPath(p: string) { p != [] && p[0] == '<' }

  /** Absolute paths start with a separator or a drive letter. */
  ghost predicate Rooted(fs: Files) {
    forall p :: fs.absolute(p).Some? ==> !IsStdlibPath(fs.absolute(p).value)
  }

  predicate Readable(fs: Files, p: string) {
    p in fs.contents && fs.contents[p].lexes && fs.contents[p].parses
  }

  function ImportsOf(fs: Files, p: string): seq<string> {
    if p in fs.contents then fs.contents[p].imports else []
  }

  /** The file an import stands for. */
  function ImportTarget(fs: Files, p: string, name: string): Option<string> {
    var path := fs.resolve(p, name);
    if path.None? then None else fs.absolute(path.value)
  }

  predicate Edge(fs: Files, p: string, q: string) {
    exists k :: 0 <= k < |ImportsOf(fs, p)| && !fs.stdlib(ImportsOf(fs, p)[k]) && ImportTarget(fs, p,
      ImportsOf(fs, p)[k]) == Some(q)
  }

  predicate Route(fs: Files, r: seq<string>) {
    r != [] && forall k, k' :: 0 <= k && k' == k + 1 < |r| ==> Edge(fs, r[k], r[k'])
  }

  ghost predicate Reaches(fs: Files, p: string, q: string) {
    exists r :: Route(fs, r) && r[0] == p && r[|r| - 1] == q
  }

  // What can be wrong with the files an entry reaches

  ghost predicate Unreadable(fs: Files, entry: string) {
    exists p :: Reaches(fs, entry, p) && !Readable(fs, p)
  }

  ghost predicate Unresolved(fs: Files, entry: string) {
    exists p, k :: Reaches(fs, entry, p) && 0 <= k < |ImportsOf(fs,
      p)| && !fs.stdlib(ImportsOf(fs, p)[k]) && ImportTarget(fs, p, ImportsOf(fs, p)[k]).None?
  }

  ghost predicate Cyclic(fs: Files, entry: string) {
    exists r :: Route(fs, r) && |r| > 1 && r[0] == r[|r| - 1] && Reaches(fs, entry, r[0])
  }

  ghost predicate SameName(fs: Files, entry: string) {
    exists p, q :: Reaches(fs, entry, p) && Reaches(fs, entry, q) && p != q && fs.nameOf(p) == fs.nameOf(q)
  }

  ghost predicate FileFault(fs: Files, entry: string) {
    Unreadable(fs, entry) || Unresolved(fs, entry) || Cyclic(fs, entry) || SameName(fs, entry)
  }

  ghost predicate ImportsStdlib(fs: Files, entry: string, name: string) {
    fs.stdlib(name) && exists p :: Reaches(fs, entry, p) && name in ImportsOf(fs, p)
  }

  /** A file is named like a standard library module that is imported too. */
  ghost predicate StdlibClash(fs: Files, entry: string) {
    exists p :: Reaches(fs, entry, p) && ImportsStdlib(fs, entry, fs.nameOf(p))
  }

  lemma {:induction false} Extend(fs: Files, r: seq<string>, q: string)
    requires Route(fs, r) && Edge(fs, r[|r| - 1], q)
    ensures Route(fs, r + [q])
  {
    hide Edge;
  }

  lemma {:induction false} ReachesItself(fs: Files, p: string)
    ensures Reaches(fs, p, p)
  {
    assert Route(fs, [p]);
  }

  lemma {:induction false} ReachesOn(fs: Files, entry: string, p: string, q: string)
    requires Reaches(fs, entry, p) && Edge(fs, p, q)
    ensures Reaches(fs, entry, q)
  {
    var r :| Route(fs, r) && r[0] == entry && r[|r| - 1] == p;
    Extend(fs, r, q);
    assert (r + [q])[0] == entry && (r + [q])[|r|] == q;
  }

  lemma {:induction false} TrailReaches(fs: Files, trail: seq<string>, k: nat)
    requires Route(fs, trail) && k < |trail|
    ensures Reaches(fs, trail[0], trail[k]) && Route(fs, trail[k..])
  {
    hide Edge;
    assert Route(fs, trail[..k + 1]);
  }

  /** An import of something that is being loaded closes a cycle. */
  lemma {:induction false} ClosesCycle(fs: Files, trail: seq<string>, q: string)
    requires Route(fs, trail) && q in trail && Edge(fs, trail[|trail| - 1], q)
    ensures Cyclic(fs, trail[0])
  {
    hide Edge;
    var k :| 0 <= k < |trail| && trail[k] == q;
    TrailReaches(fs, trail, k);
    Extend(fs, trail[k..], q);
    var r := trail[k..] + [q];
    assert r[0] == q && r[|r| - 1] == q && |r| > 1;
  }

  // The modules loaded so far

  predicate Loaded(ms: seq<Module>, p: string) {
    exists i :: 0 <= i < |ms| && !ms[i].builtin && ms[i].path == p
  }

  ghost predicate Known(fs: Files, entry: string, m: Module) {
    if m.builtin then !m.loading && m.path == StdlibPath(m.name) && ImportsStdlib(fs, entry, m.name)
    else m.name == fs.nameOf(m.path) && !IsStdlibPath(m.path) && Reaches(fs, entry, m.path)
  }

  ghost predicate AllKnown(fs: Files, entry: string, ms: seq<Module>) {
    forall i :: 0 <= i < |ms| ==> Known(fs, entry, ms[i])
  }

  /** Each file is loaded once, under a name no module before it has. */
  predicate Apart(ms: seq<Module>) {
    forall i, j :: 0 <= i < j < |ms| && !ms[j].builtin ==>
      ms[i].name != ms[j].name && (!ms[i].builtin ==> ms[i].path != ms[j].path)
  }

  /** The files being loaded, outermost first. */
  ghost predicate OnTrail(fs: Files, entry: string, ms: seq<Module>, trail: seq<string>) {
    && (forall i :: 0 <= i < |ms| ==> (ms[i].loading <==> !ms[i].builtin && ms[i].path in trail))
    && (forall k :: 0 <= k < |trail| ==> Loaded(ms, trail[k]))
    && (trail != [] ==> Route(fs, trail) && trail[0] == entry)
  }

  /** An import stored with the module it stands for, which is finished. */
  predicate Resolved(fs: Files, ms: seq<Module>, p: string, name: string, t: Option<nat>) {
    && t.Some? && t.value < |ms|
    && var m := ms[t.value];
       if fs.stdlib(name) then m.builtin && m.name == name
       else !m.builtin && !m.loading && ImportTarget(fs, p, name) == Some(m.path)
  }

  ghost predicate AllResolved(fs: Files, ms: seq<Module>, p: string, names: seq<string>, imports: seq<Option<nat>>,
      n: nat) {
    n <= |names| && n <= |imports| && forall k :: 0 <= k < n ==> Resolved(fs, ms, p, names[k], imports[k])
  }

  /** A finished file: read, and each import finished before it. */
  ghost predicate Done(fs: Files, ms: seq<Module>, rank: seq<nat>, i: nat)
    requires i < |ms| == |rank|
  {
    var m := ms[i];
    && Readable(fs, m.path) && m.program == Some(ImportsOf(fs, m.path)) && |m.imports| == |ImportsOf(fs, m.path)|
    && AllResolved(fs, ms, m.path, ImportsOf(fs, m.path), m.imports, |m.imports|)
    && forall k :: 0 <= k < |m.imports| && !fs.stdlib(ImportsOf(fs, m.path)[k]) ==> rank[m.imports[k].value] < rank[i]
  }

  ghost predicate Settled(fs: Files, ms: seq<Module>, rank: seq<nat>, clock: nat) {
    && |rank| == |ms|
    && forall i :: 0 <= i < |ms| && !ms[i].builtin && !ms[i].loading ==> rank[i] < clock && Done(fs, ms, rank, i)
  }

  lemma {:induction false} KeepsDone(fs: Files, ms: seq<Module>, rank: seq<nat>, ms': seq<Module>, rank': seq<nat>,
      i: nat)
    requires i < |ms| == |rank| <= |ms'| == |rank'|
    requires ms'[i] == ms[i] && Done(fs, ms, rank, i) && rank'[i] == rank[i]
    requires forall j :: 0 <= j < |ms| && (ms[j].builtin || !ms[j].loading) ==> ms'[j] == ms[j] && rank'[j] == rank[j]
    ensures Done(fs, ms', rank', i)
  {
    hide Readable, ImportTarget;
    var m, names := ms[i], ImportsOf(fs, ms[i].path);
    forall k | 0 <= k < |m.imports|
      ensures Resolved(fs, ms', m.path, names[k], m.imports[k])
      ensures !fs.stdlib(names[k]) ==> rank'[m.imports[k].value] < rank'[i]
    {
      assert Resolved(fs, ms, m.path, names[k], m.imports[k]);
    }
  }

  lemma {:induction false} PushKeepsSettled(fs: Files, ms: seq<Module>, rank: seq<nat>, clock: nat, m: Module)
    requires Settled(fs, ms, rank, clock) && (m.builtin || m.loading)
    ensures Settled(fs, ms + [m], rank + [0], clock)
  {
    hide Done;
    var ms', rank' := ms + [m], rank + [0];
    forall i | 0 <= i < |ms'| && !ms'[i].builtin && !ms'[i].loading
      ensures rank'[i] < clock && Done(fs, ms', rank', i)
    {
      KeepsDone(fs, ms, rank, ms', rank', i);
    }
  }

  /** Storing an import of a module that is still being loaded. */
  lemma {:induction false} UpdateKeepsSettled(fs: Files, ms: seq<Module>, rank: seq<nat>, clock: nat, i: nat, m: Module)
    requires Settled(fs, ms, rank, clock) && i < |ms| && !ms[i].builtin && ms[i].loading && m.loading
    ensures Settled(fs, ms[i := m], rank, clock)
  {
    hide Done;
    var ms' := ms[i := m];
    forall j | 0 <= j < |ms'| && !ms'[j].builtin && !ms'[j].loading
      ensures rank[j] < clock && Done(fs, ms', rank, j)
    {
      KeepsDone(fs, ms, rank, ms', rank, j);
    }
  }

  /** A file whose imports are all finished is the next to finish. */
  lemma {:induction false} FinishKeepsSettled(fs: Files, ms: seq<Module>, rank: seq<nat>, clock: nat, i: nat)
    requires Settled(fs, ms, rank, clock) && i < |ms| && !ms[i].builtin && ms[i].loading
    requires Readable(fs, ms[i].path) && ms[i].program == Some(ImportsOf(fs, ms[i].path))
    requires |ms[i].imports| == |ImportsOf(fs, ms[i].path)|
    requires AllResolved(fs, ms, ms[i].path, ImportsOf(fs, ms[i].path), ms[i].imports, |ms[i].imports|)
    ensures Settled(fs, ms[i := ms[i].(loading := false)], rank[i := clock], clock + 1)
  {
    hide Readable, ImportTarget;
    var ms', rank' := ms[i := ms[i].(loading := false)], rank[i := clock];
    forall j | 0 <= j < |ms'| && !ms'[j].builtin && !ms'[j].loading
      ensures rank'[j] < clock + 1 && Done(fs, ms', rank', j)
    {
      if j != i {
        KeepsDone(fs, ms, rank, ms', rank', j);
      } else {
        var m, names := ms[i], ImportsOf(fs, ms[i].path);
        forall k | 0 <= k < |m.imports|
          ensures Resolved(fs, ms', m.path, names[k], m.imports[k])
          ensures !fs.stdlib(names[k]) ==> rank'[m.imports[k].value] < clock
        {
          assert Resolved(fs, ms, m.path, names[k], m.imports[k]);
        }
      }
    }
  }

  // A finished load

  /** Nothing is being loaded and every file is finished. */
  ghost predicate Complete(fs: Files, entry: string, ms: seq<Module>, rank: seq<nat>, clock: nat) {
    && AllKnown(fs, entry, ms) && Apart(ms) && Settled(fs, ms, rank, clock)
    && Loaded(ms, entry) && forall i :: 0 <= i < |ms| ==> !ms[i].loading
  }

  /** The module of a loaded path, which an edge leads to a module finished earlier. */
  lemma {:induction false} StepDown(fs: Files, entry: string, ms: seq<Module>, rank: seq<nat>, clock: nat, i: nat,
      q: string)
    returns (j: nat)
    requires Complete(fs, entry, ms, rank, clock) && i < |ms| && !ms[i].builtin && Edge(fs, ms[i].path, q)
    ensures j < |ms| && !ms[j].builtin && ms[j].path == q && rank[j] < rank[i]
  {
    hide Known, Apart, Readable, ImportTarget;
    assert Done(fs, ms, rank, i);
    var names := ImportsOf(fs, ms[i].path);
    var k :| 0 <= k < |names| && !fs.stdlib(names[k]) && ImportTarget(fs, ms[i].path, names[k]) == Some(q);
    assert Resolved(fs, ms, ms[i].path, names[k], ms[i].imports[k]);
    j := ms[i].imports[k].value;
  }

  /** A route out of a loaded file stays inside what is loaded and goes down in rank. */
  lemma {:induction false} RouteDown(fs: Files, entry: string, ms: seq<Module>, rank: seq<nat>, clock: nat, i: nat,
      r: seq<string>)
    returns (j: nat)
    requires Complete(fs, entry, ms, rank, clock) && i < |ms| && !ms[i].builtin
    requires Route(fs, r) && r[0] == ms[i].path
    ensures j < |ms| && !ms[j].builtin && ms[j].path == r[|r| - 1] && (|r| > 1 ==> rank[j] < rank[i])
    decreases |r|
  {
    hide Done, Known, Edge;
    if |r| == 1 {
      j := i;
    } else {
      var j1 := StepDown(fs, entry, ms, rank, clock, i, r[1]);
      j := RouteDown(fs, entry, ms, rank, clock, j1, r[1..]);
    }
  }

  /** What is loaded is exactly what the entry reaches. */
  lemma {:induction false} LoadedIsReached(fs: Files, entry: string, ms: seq<Module>, rank: seq<nat>, clock: nat,
      p: string)
    requires Complete(fs, entry, ms, rank, clock)
    ensures Loaded(ms, p) <==> Reaches(fs, entry, p)
  {
    hide Edge, Settled, Apart;
    if Reaches(fs, entry, p) {
      var r :| Route(fs, r) && r[0] == entry && r[|r| - 1] == p;
      var i :| 0 <= i < |ms| && !ms[i].builtin && ms[i].path == entry;
      var j := RouteDown(fs, entry, ms, rank, clock, i, r);
    }
    if Loaded(ms, p) {
      var i :| 0 <= i < |ms| && !ms[i].builtin && ms[i].path == p;
      assert Known(fs, entry, ms[i]);
    }
  }

  lemma {:induction false} NoCycle(fs: Files, entry: string, ms: seq<Module>, rank: seq<nat>, clock: nat)
    requires Complete(fs, entry, ms, rank, clock)
    ensures !Cyclic(fs, entry)
  {
    hide Edge, Settled, Route, Reaches, Known;
    if Cyclic(fs, entry) {
      var r :| Route(fs, r) && |r| > 1 && r[0] == r[|r| - 1] && Reaches(fs, entry, r[0]);
      LoadedIsReached(fs, entry, ms, rank, clock, r[0]);
      var i :| 0 <= i < |ms| && !ms[i].builtin && ms[i].path == r[0];
      var j := RouteDown(fs, entry, ms, rank, clock, i, r);
    }
  }

  lemma {:induction false} AllReadable(fs: Files, entry: string, ms: seq<Module>, rank: seq<nat>, clock: nat)
    requires Complete(fs, entry, ms, rank, clock)
    ensures !Unreadable(fs, entry) && !Unresolved(fs, entry)
  {
    hide Edge, Reaches, Apart, Known, Readable;
    forall p | Reaches(fs, entry, p)
      ensures Readable(fs, p)
      ensures forall k :: 0 <= k < |ImportsOf(fs, p)| && !fs.stdlib(ImportsOf(fs, p)[k]) ==>
        ImportTarget(fs, p, ImportsOf(fs, p)[k]).Some?
    {
      LoadedIsReached(fs, entry, ms, rank, clock, p);
      var i :| 0 <= i < |ms| && !ms[i].builtin && ms[i].path == p;
      assert Done(fs, ms, rank, i);
      forall k | 0 <= k < |ImportsOf(fs, p)| && !fs.stdlib(ImportsOf(fs, p)[k])
        ensures ImportTarget(fs, p, ImportsOf(fs, p)[k]).Some?
      {
        assert Resolved(fs, ms, p, ImportsOf(fs, p)[k], ms[i].imports[k]);
      }
    }
  }

  lemma {:induction false} NamesApart(fs: Files, entry: string, ms: seq<Module>, rank: seq<nat>, clock: nat)
    requires Complete(fs, entry, ms, rank, clock)
    ensures !SameName(fs, entry)
  {
    hide Edge, Reaches, Settled;
    forall p, q | Reaches(fs, entry, p) && Reaches(fs, entry, q) && p != q
      ensures fs.nameOf(p) != fs.nameOf(q)
    {
      LoadedIsReached(fs, entry, ms, rank, clock, p);
      LoadedIsReached(fs, entry, ms, rank, clock, q);
      var i :| 0 <= i < |ms| && !ms[i].builtin && ms[i].path == p;
      var j :| 0 <= j < |ms| && !ms[j].builtin && ms[j].path == q;
      assert Known(fs, entry, ms[i]) && Known(fs, entry, ms[j]);
    }
  }

  /** A load that completes without a diagnostic proves the files sound. */
  lemma {:induction false} CompleteIsSound(fs: Files, entry: string, ms: seq<Module>, rank: seq<nat>, clock: nat)
    requires Complete(fs, entry, ms, rank, clock)
    ensures !FileFault(fs, entry)
    ensures forall p :: Loaded(ms, p) <==> Reaches(fs, entry, p)
  {
    hide Complete, Cyclic, Unreadable, Unresolved, SameName, Loaded, Reaches;
    NoCycle(fs, entry, ms, rank, clock);
    AllReadable(fs, entry, ms, rank, clock);
    NamesApart(fs, entry, ms, rank, clock);
    forall p
      ensures Loaded(ms, p) <==> Reaches(fs, entry, p)
    {
      LoadedIsReached(fs, entry, ms, rank, clock, p);
    }
  }
}
