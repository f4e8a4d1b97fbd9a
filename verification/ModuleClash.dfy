/** Files on which the standard library name clash is reported or not depending only on the
    order of two imports (src/support/project.c:1708-1718, 1759-1772). */
module ModuleClash {
  import opened Ir
  import opened ModuleGraph
  import opened ModuleOrder
  import opened ModuleLoader

  const MAIN := "/p/main"
  const TOOL := "/p/std/tool"
  const MATH := "/p/std/math"
  const LIB := "std.math"

  function AbsolutePath(p: string): Option<string> { if p != [] && p[0] == '/' then Some(p) else None }

  /** `std.tool` is found from the root, and `math` beside the file that imports it. */
  function ResolvePath(p: string, name: string): Option<string> {
    if name == "std.tool" then Some(TOOL)
    else if name == "math" && p == TOOL then Some(MATH)
    else None
  }

  /** Names follow the path from the project's root. */
  function NameOfPath(p: string): string {
    if p == MAIN then "main" else if p == TOOL then "std.tool" else if p == MATH then LIB else p
  }

  function MainImports(libFirst: bool): seq<string> { if libFirst then [LIB, "std.tool"] else ["std.tool", LIB] }

  /** The entry imports the library's `std.math` and a file that imports a `std.math` of its
      own. */
  function ClashFiles(libFirst: bool): Files {
    Files(AbsolutePath, ResolvePath, NameOfPath, name => name == LIB,
      map[MAIN := File(true, true, MainImports(libFirst)), TOOL := File(true, true, ["math"]),
        MATH := File(true, true, [])])
  }

  lemma Paths()
    ensures MAIN != TOOL && MAIN != MATH && TOOL != MATH && AbsolutePath(TOOL) == Some(TOOL)
    ensures AbsolutePath(MATH) == Some(MATH)
    ensures "std.tool" != LIB && "math" != LIB && "math" != "std.tool"
  {
    assert MAIN[3] == 'm' && TOOL[3] == 's' && MATH[3] == 's' && TOOL[7] == 't' && MATH[7] == 'm';
    assert "std.tool"[4] == 't' && LIB[4] == 'm' && "math"[0] == 'm' && "std.tool"[0] == 's' && LIB[0] == 's';
  }

  lemma Steps(libFirst: bool, seen: seq<Item>)
    ensures
      var fs := ClashFiles(libFirst);
      && ImportsOf(fs, MAIN) == MainImports(libFirst) && ImportsOf(fs, TOOL) == ["math"] && ImportsOf(fs, MATH) == []
      && (LibItem(LIB) !in seen ==> Step(fs, seen, MAIN, if libFirst then 0 else 1) == seen + [LibItem(LIB)])
      && Step(fs, seen, MAIN, if libFirst then 1 else 0) == Visit(fs, seen, TOOL)
      && Step(fs, seen, TOOL, 0) == Visit(fs, seen, MATH)
  {
    hide Visit;
    Paths();
    var fs := ClashFiles(libFirst);
    assert ImportTarget(fs, MAIN, "std.tool") == Some(TOOL) && ImportTarget(fs, TOOL, "math") == Some(MATH);
  }

  /** The file under `std` and the file it imports. */
  lemma VisitTool(libFirst: bool, seen: seq<Item>)
    requires FileItem(TOOL) !in seen && FileItem(MATH) !in seen
    ensures Visit(ClashFiles(libFirst), seen, TOOL) == seen + [FileItem(TOOL), FileItem(MATH)]
  {
    hide Visit, VisitImports, Step;
    Paths();
    var fs := ClashFiles(libFirst);
    var seen1 := seen + [FileItem(TOOL)];
    Steps(libFirst, seen1);
    VisitUnfold(fs, seen, TOOL);
    ImportsUnfold(fs, seen1, TOOL, 0);
    VisitUnfold(fs, seen1, MATH);
    var seen2 := seen1 + [FileItem(MATH)];
    ImportsEnd(fs, seen2, MATH, 0);
    ImportsEnd(fs, seen2, TOOL, 1);
    assert seen2 == seen + [FileItem(TOOL), FileItem(MATH)];
  }

  lemma ImportsEnd(fs: Files, seen: seq<Item>, p: string, i: nat)
    requires i >= |ImportsOf(fs, p)|
    ensures VisitImports(fs, seen, p, i) == seen
  {
  }

  lemma OrderOfClash(libFirst: bool)
    ensures Order(ClashFiles(libFirst), MAIN) ==
      if libFirst then [FileItem(MAIN), LibItem(LIB), FileItem(TOOL), FileItem(MATH)]
      else [FileItem(MAIN), FileItem(TOOL), FileItem(MATH), LibItem(LIB)]
  {
    hide Visit, VisitImports, Step, ClashFiles;
    if libFirst {
      LibThenFile();
    } else {
      FileThenLib();
    }
  }

  lemma LibThenFile()
    ensures Order(ClashFiles(true), MAIN) == [FileItem(MAIN), LibItem(LIB), FileItem(TOOL), FileItem(MATH)]
  {
    hide Visit, VisitImports, Step, ClashFiles;
    Paths();
    var fs, s0, s1 := ClashFiles(true), [FileItem(MAIN)], [FileItem(MAIN), LibItem(LIB)];
    Begin(true);
    Steps(true, s0);
    ImportsUnfold(fs, s0, MAIN, 0);
    assert s0 + [LibItem(LIB)] == s1;
    Steps(true, s1);
    ImportsUnfold(fs, s1, MAIN, 1);
    VisitTool(true, s1);
    ImportsEnd(fs, s1 + [FileItem(TOOL), FileItem(MATH)], MAIN, 2);
  }

  lemma FileThenLib()
    ensures Order(ClashFiles(false), MAIN) == [FileItem(MAIN), FileItem(TOOL), FileItem(MATH), LibItem(LIB)]
  {
    hide Visit, VisitImports, Step, ClashFiles;
    Paths();
    var fs, s0, s1 := ClashFiles(false), [FileItem(MAIN)], [FileItem(MAIN), FileItem(TOOL), FileItem(MATH)];
    Begin(false);
    Steps(false, s0);
    ImportsUnfold(fs, s0, MAIN, 0);
    VisitTool(false, s0);
    assert s0 + [FileItem(TOOL), FileItem(MATH)] == s1;
    Steps(false, s1);
    ImportsUnfold(fs, s1, MAIN, 1);
    ImportsEnd(fs, s1 + [LibItem(LIB)], MAIN, 2);
  }

  lemma Begin(libFirst: bool)
    ensures Order(ClashFiles(libFirst), MAIN) == VisitImports(ClashFiles(libFirst), [FileItem(MAIN)], MAIN, 0)
  {
    hide Visit, VisitImports;
    VisitUnfold(ClashFiles(libFirst), [], MAIN);
    assert [] + [FileItem(MAIN)] == [FileItem(MAIN)];
  }

  /** The modules of a load that reports nothing. */
  function ClashModules(libFirst: bool): seq<Module> {
    [ Module(MAIN, "main", false, Some(MainImports(libFirst)),
      if libFirst then [Some(3), Some(1)] else [Some(1), Some(3)], false),
      Module(TOOL, "std.tool", false, Some(["math"]), [Some(2)], false),
      Module(MATH, LIB, false, Some([]), [], false),
      Module(StdlibPath(LIB), LIB, true, None, [], false) ]
  }

  lemma ClashReaches(libFirst: bool)
    ensures
      var fs := ClashFiles(libFirst);
      Reaches(fs, MAIN, MAIN) && Reaches(fs, MAIN, TOOL) && Reaches(fs, MAIN, MATH) && ImportsStdlib(fs, MAIN, LIB)
  {
    hide Reaches;
    Paths();
    var fs := ClashFiles(libFirst);
    ReachesItself(fs, MAIN);
    var k := if libFirst then 1 else 0;
    assert ImportsOf(fs, MAIN)[k] == "std.tool" && ImportTarget(fs, MAIN, "std.tool") == Some(TOOL);
    assert Edge(fs, MAIN, TOOL);
    ReachesOn(fs, MAIN, MAIN, TOOL);
    assert ImportsOf(fs, TOOL)[0] == "math" && ImportTarget(fs, TOOL, "math") == Some(MATH);
    assert Edge(fs, TOOL, MATH);
    ReachesOn(fs, MAIN, TOOL, MATH);
    assert MainImports(libFirst)[1 - k] == LIB;
  }

  lemma ClashSettled(libFirst: bool)
    ensures Settled(ClashFiles(libFirst), ClashModules(libFirst), [2, 1, 0, 0], 3)
  {
    Paths();
    var fs, ms, rank := ClashFiles(libFirst), ClashModules(libFirst), [2, 1, 0, 0];
    assert ImportTarget(fs, MAIN, "std.tool") == Some(TOOL) && ImportTarget(fs, TOOL, "math") == Some(MATH);
    assert Resolved(fs, ms, MAIN, "std.tool", Some(1)) && Resolved(fs, ms, MAIN, LIB, Some(3));
    assert Resolved(fs, ms, TOOL, "math", Some(2));
    assert Done(fs, ms, rank, 0) && Done(fs, ms, rank, 1) && Done(fs, ms, rank, 2);
  }

  /** Nothing else is wrong with the files. */
  lemma ClashIsSound(libFirst: bool)
    ensures !FileFault(ClashFiles(libFirst), MAIN) && StdlibClash(ClashFiles(libFirst), MAIN)
  {
    hide FileFault, Reaches, ImportsStdlib, Settled;
    Paths();
    var fs, ms := ClashFiles(libFirst), ClashModules(libFirst);
    ClashReaches(libFirst);
    ClashSettled(libFirst);
    assert ms[0].path == MAIN && Loaded(ms, MAIN);
    assert "main"[0] == 'm' && LIB[0] == 's' && "std.tool"[0] == 's' && MAIN[0] == '/' && TOOL[0] == '/';
    assert MATH[0] == '/';
    assert Known(fs, MAIN, ms[0]) && Known(fs, MAIN, ms[1]) && Known(fs, MAIN, ms[2]) && Known(fs, MAIN, ms[3]);
    CompleteIsSound(fs, MAIN, ms, [2, 1, 0, 0], 3);
    assert fs.nameOf(MATH) == LIB;
  }

  /** The same clash is reported with the imports in one order and not in the other. */
  lemma ClashDependsOnOrder(libFirst: bool)
    ensures ClashReported(ClashFiles(libFirst), MAIN) <==> libFirst
  {
    hide Order;
    Paths();
    OrderOfClash(libFirst);
    var fs, o := ClashFiles(libFirst), Order(ClashFiles(libFirst), MAIN);
    if libFirst {
      assert o[1] == LibItem(LIB) && o[3] == FileItem(MATH) && fs.nameOf(o[3].path) == LIB;
    } else {
      assert o[0].FileItem? && o[1].FileItem? && o[2].FileItem?;
    }
  }

  /** Loading them. */
  method LoadClash(libFirst: bool) returns (diagnosed: bool)
    ensures diagnosed == libFirst
  {
    var fs := ClashFiles(libFirst);
    var project := new Project(fs, MAIN);
    project.Run();
    ClashIsSound(libFirst);
    ClashDependsOnOrder(libFirst);
    diagnosed := project.diagnosed;
  }
}
