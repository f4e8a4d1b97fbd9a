/** The order in which loading meets files and standard library modules: depth first along the
    import lists (src/support/project.c:1817-1857). */
module ModuleOrder {
  import opened Ir
  import opened ModuleGraph

  datatype Item = FileItem(path: string) | LibItem(name: string)

  function ItemOf(m: Module): Item { if m.builtin then LibItem(m.name) else FileItem(m.path) }

  function Items(ms: seq<Module>): (r: seq<Item>)
    ensures |r| == |ms|
  {
    seq(|ms|, i requires 0 <= i < |ms| => ItemOf(ms[i]))
  }

  ghost function Unseen(fs: Files, seen: seq<Item>): set<string> {
    set p | p in fs.contents && FileItem(p) !in seen
  }

  lemma UnseenShrinks(fs: Files, seen: seq<Item>, seen': seq<Item>)
    requires seen <= seen'
    ensures Unseen(fs, seen') <= Unseen(fs, seen)
  {
    forall x | x in seen
      ensures x in seen'
    {
      var i :| 0 <= i < |seen| && seen[i] == x;
      assert seen'[i] == x;
    }
  }

  lemma UnseenLess(fs: Files, seen: seq<Item>, p: string)
    requires p in fs.contents && FileItem(p) !in seen
    ensures Unseen(fs, seen + [FileItem(p)]) < Unseen(fs, seen)
  {
    UnseenShrinks(fs, seen, seen + [FileItem(p)]);
    assert (seen + [FileItem(p)])[|seen|] == FileItem(p);
    assert p in Unseen(fs, seen) && p !in Unseen(fs, seen + [FileItem(p)]);
  }

  /** What is met once the file at p has been loaded. */
  ghost function Visit(fs: Files, seen: seq<Item>, p: string): (r: seq<Item>)
    ensures seen <= r
    decreases Unseen(fs, seen), 0, 0
  {
    if FileItem(p) in seen then seen
    else if p !in fs.contents then seen + [FileItem(p)]
    else
      UnseenLess(fs, seen, p);
      VisitImports(fs, seen + [FileItem(p)], p, 0)
  }

  /** From import i of the file at p on. */
  ghost function VisitImports(fs: Files, seen: seq<Item>, p: string, i: nat): (r: seq<Item>)
    ensures seen <= r
    decreases Unseen(fs, seen), 2, |ImportsOf(fs, p)| - i
  {
    if i >= |ImportsOf(fs, p)| then seen
    else
      var next := Step(fs, seen, p, i);
      UnseenShrinks(fs, seen, next);
      VisitImports(fs, next, p, i + 1)
  }

  /** Import i alone. */
  ghost function Step(fs: Files, seen: seq<Item>, p: string, i: nat): (r: seq<Item>)
    requires i < |ImportsOf(fs, p)|
    ensures seen <= r
    decreases Unseen(fs, seen), 1, 0
  {
    var name := ImportsOf(fs, p)[i];
    if fs.stdlib(name) then (if LibItem(name) in seen then seen else seen + [LibItem(name)])
    else
      var q := ImportTarget(fs, p, name);
      if q.None? then seen else Visit(fs, seen, q.value)
  }

  ghost function Order(fs: Files, entry: string): seq<Item> { Visit(fs, [], entry) }

  /** A library module is met before a file of the same name. */
  predicate LibFirst(fs: Files, o: seq<Item>) {
    exists i, j :: 0 <= i < j < |o| && o[i].LibItem? && o[j].FileItem? && fs.nameOf(o[j].path) == o[i].name
  }

  /** The name clash with the standard library that loading reports. */
  ghost predicate ClashReported(fs: Files, entry: string) { LibFirst(fs, Order(fs, entry)) }

  lemma VisitUnfold(fs: Files, seen: seq<Item>, p: string)
    ensures FileItem(p) in seen ==> Visit(fs, seen, p) == seen
    ensures FileItem(p) !in seen ==> seen + [FileItem(p)] <= Visit(fs, seen, p)
    ensures FileItem(p) !in seen && p in fs.contents ==>
      Visit(fs, seen, p) == VisitImports(fs, seen + [FileItem(p)], p, 0)
  {
  }

  lemma ImportsUnfold(fs: Files, seen: seq<Item>, p: string, i: nat)
    requires i < |ImportsOf(fs, p)|
    ensures Step(fs, seen, p, i) <= VisitImports(fs, seen, p, i)
    ensures VisitImports(fs, seen, p, i) == VisitImports(fs, Step(fs, seen, p, i), p, i + 1)
  {
  }

  /** A clash among the first modules is a clash of the whole order. */
  lemma PrefixClash(fs: Files, a: seq<Item>, b: seq<Item>)
    requires a <= b && LibFirst(fs, a)
    ensures LibFirst(fs, b)
  {
    var i, j :| 0 <= i < j < |a| && a[i].LibItem? && a[j].FileItem? && fs.nameOf(a[j].path) == a[i].name;
    assert b[i] == a[i] && b[j] == a[j];
  }

  // What is met is reached

  ghost predicate Met(fs: Files, entry: string, seen: seq<Item>) {
    forall k :: 0 <= k < |seen| ==>
      if seen[k].FileItem? then Reaches(fs, entry, seen[k].path) else ImportsStdlib(fs, entry, seen[k].name)
  }

  lemma {:induction false} VisitMeets(fs: Files, entry: string, seen: seq<Item>, p: string)
    requires Met(fs, entry, seen) && Reaches(fs, entry, p)
    ensures Met(fs, entry, Visit(fs, seen, p))
    decreases Unseen(fs, seen), 0, 0
  {
    hide Reaches, ImportsStdlib;
    if FileItem(p) !in seen && p in fs.contents {
      UnseenLess(fs, seen, p);
      ImportsMeet(fs, entry, seen + [FileItem(p)], p, 0);
    }
  }

  lemma {:induction false} ImportsMeet(fs: Files, entry: string, seen: seq<Item>, p: string, i: nat)
    requires Met(fs, entry, seen) && Reaches(fs, entry, p)
    ensures Met(fs, entry, VisitImports(fs, seen, p, i))
    decreases Unseen(fs, seen), 2, |ImportsOf(fs, p)| - i
  {
    hide Reaches, ImportsStdlib;
    if i < |ImportsOf(fs, p)| {
      StepMeets(fs, entry, seen, p, i);
      UnseenShrinks(fs, seen, Step(fs, seen, p, i));
      ImportsMeet(fs, entry, Step(fs, seen, p, i), p, i + 1);
    }
  }

  lemma {:induction false} StepMeets(fs: Files, entry: string, seen: seq<Item>, p: string, i: nat)
    requires Met(fs, entry, seen) && Reaches(fs, entry, p) && i < |ImportsOf(fs, p)|
    ensures Met(fs, entry, Step(fs, seen, p, i))
    decreases Unseen(fs, seen), 1, 0
  {
    hide Reaches, Visit;
    var name := ImportsOf(fs, p)[i];
    if !fs.stdlib(name) {
      var q := ImportTarget(fs, p, name);
      if q.Some? {
        assert Edge(fs, p, q.value);
        ReachesOn(fs, entry, p, q.value);
        VisitMeets(fs, entry, seen, q.value);
      }
    }
  }

  /** A clash that is reported is one of the files reached. */
  lemma {:induction false} ReportedIsClash(fs: Files, entry: string)
    requires ClashReported(fs, entry)
    ensures StdlibClash(fs, entry)
  {
    hide Reaches, ImportsStdlib, Visit;
    ReachesItself(fs, entry);
    VisitMeets(fs, entry, [], entry);
    var o := Order(fs, entry);
    var i, j :| 0 <= i < j < |o| && o[i].LibItem? && o[j].FileItem? && fs.nameOf(o[j].path) == o[i].name;
    assert Reaches(fs, entry, o[j].path) && ImportsStdlib(fs, entry, o[i].name);
  }
}
