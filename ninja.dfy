/**
 * The Ninja build description (lod.py, lines 231-297): the split of the
 * object files into archives, and the lines of build.ninja. Ninja reads a
 * file of variable bindings, `rule` blocks, `build <outputs>: <rule>
 * <inputs>` edges and a `default` target.
 */
module Ninja {
  import opened Text
  import opened Layout
  import opened Units

  /** One archive to build: its .a path and the sources whose objects go into it. */
  datatype Library = Library(name: string, sources: seq<string>)

  /** Python's s[start:end] for non-negative bounds: both bounds are clamped to the length. */
  function Slice(s: seq<string>, start: nat, end: nat): (r: seq<string>)
    ensures |r| == RangeLength(Min(start, |s|), Min(end, |s|))
    ensures forall m :: 0 <= m < |r| ==> start + m < |s| && r[m] == s[start + m]
  {
    var e := Min(end, |s|);
    if start < e then s[start..e] else []
  }

  // ---------------------------------------------------------------------
  // split_object_files_into_libraries
  // ---------------------------------------------------------------------

  /** Entry i of the split: archive i holds the objects of its leaf range and of library unit i. */
  function LibraryEntry(o: Options, obj: seq<string>, lib: seq<string>, i: nat): Library
    requires o.libraryCapacity > 0 && i < |lib|
  {
    var (start, end) := LibSrcIndices(o, i);
    Library(LibFilePath(o, i), Slice(obj, start, end) + [lib[i]])
  }

  /** The whole split, one entry per library in index order, when the library list is long enough. */
  function LibraryPlan(o: Options, obj: seq<string>, lib: seq<string>): seq<Library>
    requires o.libraryCapacity > 0 && NumLibraries(o) <= |lib|
  {
    seq(NumLibraries(o), i requires 0 <= i < NumLibraries(o) => LibraryEntry(o, obj, lib, i))
  }

  /**
   * split_object_files_into_libraries: a zero capacity raises on the library
   * count, and a library list shorter than the count raises on lib_src[i];
   * otherwise the result is the plan, built one entry per iteration.
   */
  method SplitObjectFilesIntoLibraries(o: Options, obj: seq<string>, lib: seq<string>) returns (r: Result<seq<Library>>)
    ensures o.libraryCapacity == 0 ==> r == Err(ZeroDivisionError)
    ensures o.libraryCapacity > 0 && |lib| < NumLibraries(o) ==> r == Err(IndexError)
    ensures o.libraryCapacity > 0 && NumLibraries(o) <= |lib| ==> r == Ok(LibraryPlan(o, obj, lib))
  {
    var count := NumLibrariesToBuild(o);
    if count.Err? {
      return Err(count.error);
    }
    assert count.value == NumLibraries(o);
    var libraries: seq<Library> := [];
    for i := 0 to count.value
      invariant i <= |lib|
      invariant |libraries| == i
      invariant forall k :: 0 <= k < i ==> libraries[k] == LibraryEntry(o, obj, lib, k)
    {
      var libName := LibFilePath(o, i);
      var (srcStart, srcEnd) := LibSrcIndices(o, i);
      if i >= |lib| {
        return Err(IndexError);
      }
      var entry := Library(libName, Slice(obj, srcStart, srcEnd) + [lib[i]]);
      assert entry == LibraryEntry(o, obj, lib, i);
      PlanStep(o, obj, lib, libraries, i);
      libraries := libraries + [entry];
    }
    PlanComplete(o, obj, lib, libraries);
    return Ok(libraries);
  }

  /** Appending entry i to the first i entries gives the first i + 1. */
  lemma PlanStep(o: Options, obj: seq<string>, lib: seq<string>, libraries: seq<Library>, i: nat)
    requires o.libraryCapacity > 0 && i < |lib| && |libraries| == i
    requires forall k :: 0 <= k < i ==> libraries[k] == LibraryEntry(o, obj, lib, k)
    ensures forall k :: 0 <= k < i + 1 ==>
      (libraries + [LibraryEntry(o, obj, lib, i)])[k] == LibraryEntry(o, obj, lib, k)
  {
  }

  /** Once every entry is in place, the list is the plan. */
  lemma PlanComplete(o: Options, obj: seq<string>, lib: seq<string>, libraries: seq<Library>)
    requires o.libraryCapacity > 0 && |libraries| == NumLibraries(o) <= |lib|
    requires forall k :: 0 <= k < |libraries| ==> libraries[k] == LibraryEntry(o, obj, lib, k)
    ensures libraries == LibraryPlan(o, obj, lib)
  {
  }

  /** The concatenation of a list of lists, in order. */
  function Concat(parts: seq<seq<string>>): seq<string>
  {
    if parts == [] then [] else Concat(parts[..|parts| - 1]) + parts[|parts| - 1]
  }

  /** The leaf part of each entry: its sources without the trailing library unit. */
  function LeafParts(plan: seq<Library>): seq<seq<string>>
  {
    seq(|plan|, i requires 0 <= i < |plan| =>
      var s := plan[i].sources; if s == [] then [] else s[..|s| - 1])
  }

  lemma MulSucc(i: nat, c: nat)
    ensures (i + 1) * c == i * c + c
  {
  }

  /** The leaf part of entry i is the slice of its range, which lies inside a full-length object list. */
  lemma LeafPartAt(o: Options, obj: seq<string>, lib: seq<string>, i: nat)
    requires o.libraryCapacity > 0 && NumLibraries(o) <= |lib| && |obj| == o.leafCount
    requires i < NumLibraries(o)
    ensures i * o.libraryCapacity < o.leafCount
    ensures LeafParts(LibraryPlan(o, obj, lib))[i]
         == obj[i * o.libraryCapacity..Min((i + 1) * o.libraryCapacity, o.leafCount)]
  {
    LibraryRangeNonEmpty(o, i);
    MulSucc(i, o.libraryCapacity);
    var srcs := LibraryPlan(o, obj, lib)[i].sources;
    assert srcs[..|srcs| - 1] == Slice(obj, LibSrcIndices(o, i).0, LibSrcIndices(o, i).1);
  }

  lemma ConcatStep(parts: seq<seq<string>>, m: nat)
    requires 0 < m <= |parts|
    ensures Concat(parts[..m]) == Concat(parts[..m - 1]) + parts[m - 1]
  {
    assert parts[..m][..m - 1] == parts[..m - 1];
  }

  lemma {:induction false} LeafPartsPrefix(o: Options, obj: seq<string>, lib: seq<string>, m: nat)
    requires o.libraryCapacity > 0 && NumLibraries(o) <= |lib| && |obj| == o.leafCount
    requires m <= NumLibraries(o)
    ensures Concat(LeafParts(LibraryPlan(o, obj, lib))[..m]) == obj[..Min(m * o.libraryCapacity, o.leafCount)]
  {
    if m > 0 {
      var i, cap, parts := m - 1, o.libraryCapacity, LeafParts(LibraryPlan(o, obj, lib));
      LeafPartsPrefix(o, obj, lib, i);
      LeafPartAt(o, obj, lib, i);
      ConcatStep(parts, m);
      var s, e := i * cap, Min(m * cap, o.leafCount);
      assert Concat(parts[..i]) == obj[..s] && parts[i] == obj[s..e];
      PrefixAppend(obj, s, e);
    }
  }

  lemma PrefixAppend(s: seq<string>, i: nat, j: nat)
    requires i <= j <= |s|
    ensures s[..i] + s[i..j] == s[..j]
  {
  }

  /**
   * When there is one object per leaf, the leaf parts of the split, in order,
   * are exactly the object list: every leaf goes into some archive, none
   * twice, and the order is kept.
   */
  lemma LeafPartsCoverObjects(o: Options, obj: seq<string>, lib: seq<string>)
    requires o.libraryCapacity > 0 && NumLibraries(o) <= |lib| && |obj| == o.leafCount
    ensures Concat(LeafParts(LibraryPlan(o, obj, lib))) == obj
  {
    var parts := LeafParts(LibraryPlan(o, obj, lib));
    LeafPartsPrefix(o, obj, lib, NumLibraries(o));
    assert parts[..NumLibraries(o)] == parts;
  }

  /** Each entry is named by its archive path and ends with its library unit. */
  lemma PlanEntry(o: Options, obj: seq<string>, lib: seq<string>, i: nat)
    requires o.libraryCapacity > 0 && NumLibraries(o) <= |lib| && i < NumLibraries(o)
    ensures var e := LibraryPlan(o, obj, lib)[i];
      e.name == LibFilePath(o, i) && e.sources != [] && e.sources[|e.sources| - 1] == lib[i] &&
      |e.sources| <= o.libraryCapacity + 1
  {
  }

  // ---------------------------------------------------------------------
  // generate_ninja_file
  // ---------------------------------------------------------------------

  /** The banner section() writes: a blank line and a three-line comment. */
  function Section(name: string): seq<string>
  {
    ["", "#", "# " + name, "#"]
  }

  /** The compiler flags: fixed warning, optimisation and debug flags, then the user's. */
  function CFlags(o: Options): string
  {
    "-Wall -Wextra -O0 -g -gsplit-dwarf " + o.cflags
  }

  /** The variable bindings and the three rules. */
  function Preamble(c: string, cflags: string, linker: string, linkflags: string): seq<string>
  {
    Section("Variables")
    + ["c = " + c, "cflags = " + cflags, "linker = " + linker, "linkflags = " + linkflags]
    + Section("Rules")
    + ["rule cc", "  command = $c $cflags -c $in -o $out",
       "rule archive", "  command = ar rcs $out $in",
       "rule link", "  command = $linker $linkflags -o $out $in"]
  }

  /** The object path of every source, in order. */
  function ObjFiles(o: Options, sources: seq<string>): (r: seq<string>)
    ensures |r| == |sources|
  {
    seq(|sources|, m requires 0 <= m < |sources| => ObjFilePath(o, sources[m]))
  }

  /** The archive paths of the split, in order. */
  function LibraryNames(plan: seq<Library>): (r: seq<string>)
    ensures |r| == |plan|
  {
    seq(|plan|, i requires 0 <= i < |plan| => plan[i].name)
  }

  function CompileEdges(o: Options, sources: seq<string>): (r: seq<string>)
    ensures |r| == |sources|
  {
    seq(|sources|, m requires 0 <= m < |sources| => "build " + ObjFilePath(o, sources[m]) + ": cc " + sources[m])
  }

  function ArchiveEdges(o: Options, plan: seq<Library>): (r: seq<string>)
    ensures |r| == |plan|
  {
    seq(|plan|, i requires 0 <= i < |plan| =>
      "build " + plan[i].name + ": archive " + Join(ObjFiles(o, plan[i].sources), " "))
  }

  function LinkInputs(o: Options, main: seq<string>, plan: seq<Library>): seq<string>
  {
    ObjFiles(o, main) + LibraryNames(plan)
  }

  /** The lines of build.ninja for the given source lists. */
  function NinjaLines(o: Options, obj: seq<string>, lib: seq<string>, main: seq<string>): seq<string>
    requires o.libraryCapacity > 0 && NumLibraries(o) <= |lib|
  {
    var plan := LibraryPlan(o, obj, lib);
    Preamble(o.clang, CFlags(o), o.clang, "-g")
    + Section("Build object files") + CompileEdges(o, obj + lib + main)
    + Section("Build libraries") + ArchiveEdges(o, plan)
    + Section("Build main executable") + ["build " + MainExe(o) + ": link " + Join(LinkInputs(o, main, plan), " ")]
    + Section("Define the default target") + ["default " + MainExe(o)]
  }

  /** Assembles build.ninja from its parts, in the order generate_ninja_file writes them. */
  lemma NinjaLinesParts(o: Options, obj: seq<string>, lib: seq<string>, main: seq<string>,
                        compiled: seq<string>, archived: seq<string>, lines: seq<string>)
    requires o.libraryCapacity > 0 && NumLibraries(o) <= |lib|
    requires compiled == Preamble(o.clang, CFlags(o), o.clang, "-g") + Section("Build object files") + CompileEdges(o, obj + lib + main)
    requires archived == compiled + Section("Build libraries") + ArchiveEdges(o, LibraryPlan(o, obj, lib))
    requires lines == archived + Section("Build main executable")
      + ["build " + MainExe(o) + ": link " + Join(LinkInputs(o, main, LibraryPlan(o, obj, lib)), " ")]
      + Section("Define the default target") + ["default " + MainExe(o)]
    ensures lines == NinjaLines(o, obj, lib, main)
  {
  }

  /**
   * generate_ninja_file: the split is computed before the file is opened, so
   * its errors leave nothing written; otherwise build.ninja is written line
   * by line, with one loop over the sources and one over the libraries.
   */
  method GenerateNinjaFile(o: Options, obj: seq<string>, lib: seq<string>, main: seq<string>) returns (r: Result<TextFile>)
    ensures o.libraryCapacity == 0 ==> r == Err(ZeroDivisionError)
    ensures o.libraryCapacity > 0 && |lib| < NumLibraries(o) ==> r == Err(IndexError)
    ensures o.libraryCapacity > 0 && NumLibraries(o) <= |lib| ==>
      r == Ok(TextFile(NinjaFilePath(o), NinjaLines(o, obj, lib, main)))
  {
    var c := o.clang;
    var cflags := "-Wall -Wextra -O0 -g -gsplit-dwarf " + o.cflags;
    var linker := o.clang;
    var linkflags := "-g";
    var split := SplitObjectFilesIntoLibraries(o, obj, lib);
    if split.Err? {
      return Err(split.error);
    }
    var libraries := split.value;
    var ninjaFilePath := NinjaFilePath(o);
    var lines: seq<string> := Section("Variables");
    lines := lines + ["c = " + c, "cflags = " + cflags, "linker = " + linker, "linkflags = " + linkflags];
    lines := lines + Section("Rules");
    lines := lines + ["rule cc", "  command = $c $cflags -c $in -o $out",
                      "rule archive", "  command = ar rcs $out $in",
                      "rule link", "  command = $linker $linkflags -o $out $in"];
    assert lines == Preamble(c, cflags, linker, linkflags);

    lines := lines + Section("Build object files");
    var sources := obj + lib + main;
    ghost var head := lines;
    for m := 0 to |sources|
      invariant lines == head + CompileEdges(o, sources)[..m]
    {
      var objFile := ObjFilePath(o, sources[m]);
      PrefixExtend(CompileEdges(o, sources), m);
      lines := lines + ["build " + objFile + ": cc " + sources[m]];
    }
    assert CompileEdges(o, sources)[..|sources|] == CompileEdges(o, sources);
    ghost var compiled := lines;

    lines := lines + Section("Build libraries");
    head := lines;
    for i := 0 to |libraries|
      invariant lines == head + ArchiveEdges(o, libraries)[..i]
    {
      var objFiles := ObjFiles(o, libraries[i].sources);
      PrefixExtend(ArchiveEdges(o, libraries), i);
      lines := lines + ["build " + libraries[i].name + ": archive " + Join(objFiles, " ")];
    }
    assert ArchiveEdges(o, libraries)[..|libraries|] == ArchiveEdges(o, libraries);
    ghost var archived := lines;

    lines := lines + Section("Build main executable");
    var mainObjFiles := ObjFiles(o, main);
    var mainLibFiles := LibraryNames(libraries);
    var mainLinkInputs := mainObjFiles + mainLibFiles;
    var mainExe := BinFilePath(o, "lod");
    lines := lines + ["build " + mainExe + ": link " + Join(mainLinkInputs, " ")];

    lines := lines + Section("Define the default target");
    lines := lines + ["default " + mainExe];
    NinjaLinesParts(o, obj, lib, main, compiled, archived, lines);
    return Ok(TextFile(ninjaFilePath, lines));
  }

  // ---------------------------------------------------------------------
  // Properties of the build description
  // ---------------------------------------------------------------------

  /**
   * Where each statement sits: the compile edges start at line 22, one per
   * source of obj + lib + main in that order; the archive edges follow the
   * next banner, one per library in index order; then the link edge, and
   * the default target is the last line.
   */
  lemma NinjaStatementOrder(o: Options, obj: seq<string>, lib: seq<string>, main: seq<string>)
    requires o.libraryCapacity > 0 && NumLibraries(o) <= |lib|
    ensures var lines, all, plan := NinjaLines(o, obj, lib, main), obj + lib + main, LibraryPlan(o, obj, lib);
      var a, l := |all|, |plan|;
      |lines| == 36 + a + l &&
      (forall m :: 0 <= m < a ==> lines[22 + m] == "build " + ObjFilePath(o, all[m]) + ": cc " + all[m]) &&
      (forall i :: 0 <= i < l ==>
         lines[26 + a + i] == "build " + LibFilePath(o, i) + ": archive " + Join(ObjFiles(o, plan[i].sources), " ")) &&
      lines[30 + a + l] == "build " + MainExe(o) + ": link " + Join(LinkInputs(o, main, plan), " ") &&
      lines[35 + a + l] == "default " + MainExe(o)
  {
    var lines, all, plan := NinjaLines(o, obj, lib, main), obj + lib + main, LibraryPlan(o, obj, lib);
    var a, l := |all|, |plan|;
    var t := NinjaHead(o, all, plan) + ArchiveEdges(o, plan) + Section("Build main executable");
    assert |t| == 30 + a + l;
    assert lines == t + (["build " + MainExe(o) + ": link " + Join(LinkInputs(o, main, plan), " ")]
                        + Section("Define the default target") + ["default " + MainExe(o)]);
    forall m | 0 <= m < a
      ensures lines[22 + m] == "build " + ObjFilePath(o, all[m]) + ": cc " + all[m]
    {
      NinjaCompileLine(o, obj, lib, main, m);
    }
    forall i | 0 <= i < l
      ensures lines[26 + a + i] == "build " + LibFilePath(o, i) + ": archive " + Join(ObjFiles(o, plan[i].sources), " ")
    {
      NinjaArchiveLine(o, obj, lib, main, i);
    }
  }

  /** The lines before the archive edges. */
  function NinjaHead(o: Options, all: seq<string>, plan: seq<Library>): (r: seq<string>)
    ensures |r| == 26 + |all|
  {
    Preamble(o.clang, CFlags(o), o.clang, "-g") + Section("Build object files")
    + CompileEdges(o, all) + Section("Build libraries")
  }

  lemma NinjaLinesHead(o: Options, obj: seq<string>, lib: seq<string>, main: seq<string>)
    requires o.libraryCapacity > 0 && NumLibraries(o) <= |lib|
    ensures var plan := LibraryPlan(o, obj, lib);
      NinjaLines(o, obj, lib, main) == NinjaHead(o, obj + lib + main, plan) + (ArchiveEdges(o, plan)
        + Section("Build main executable") + ["build " + MainExe(o) + ": link " + Join(LinkInputs(o, main, plan), " ")]
        + Section("Define the default target") + ["default " + MainExe(o)])
  {
  }

  lemma NinjaCompileLine(o: Options, obj: seq<string>, lib: seq<string>, main: seq<string>, m: nat)
    requires o.libraryCapacity > 0 && NumLibraries(o) <= |lib| && m < |obj + lib + main|
    ensures NinjaLines(o, obj, lib, main)[22 + m] == CompileEdges(o, obj + lib + main)[m]
  {
    var all := obj + lib + main;
    var p := Preamble(o.clang, CFlags(o), o.clang, "-g") + Section("Build object files");
    NinjaLinesHead(o, obj, lib, main);
    assert |p| == 22;
    assert NinjaHead(o, all, LibraryPlan(o, obj, lib)) == p + CompileEdges(o, all) + Section("Build libraries");
  }

  lemma NinjaArchiveLine(o: Options, obj: seq<string>, lib: seq<string>, main: seq<string>, i: nat)
    requires o.libraryCapacity > 0 && NumLibraries(o) <= |lib| && i < NumLibraries(o)
    ensures NinjaLines(o, obj, lib, main)[26 + |obj + lib + main| + i] == ArchiveEdges(o, LibraryPlan(o, obj, lib))[i]
  {
    NinjaLinesHead(o, obj, lib, main);
  }

  /** The m-th source of archive i is one of the sources compiled, so its object is a compile output. */
  lemma ArchiveInputBuilt(o: Options, obj: seq<string>, lib: seq<string>, main: seq<string>, i: nat, m: nat)
    requires o.libraryCapacity > 0 && NumLibraries(o) <= |lib| && i < NumLibraries(o)
    requires m < |LibraryPlan(o, obj, lib)[i].sources|
    ensures ObjFiles(o, LibraryPlan(o, obj, lib)[i].sources)[m] in ObjFiles(o, obj + lib + main)
  {
    var srcs, all := LibraryPlan(o, obj, lib)[i].sources, obj + lib + main;
    var (s, e) := LibSrcIndices(o, i);
    var slice := Slice(obj, s, e);
    assert srcs == slice + [lib[i]];
    if m < |slice| {
      assert srcs[m] == all[s + m];
      assert ObjFiles(o, all)[s + m] == ObjFilePath(o, srcs[m]);
    } else {
      assert srcs[m] == all[|obj| + i];
      assert ObjFiles(o, all)[|obj| + i] == ObjFilePath(o, srcs[m]);
    }
  }

  /**
   * The build graph is closed: every object an archive edge consumes is the
   * output of a compile edge, and every link input is the output of a
   * compile edge or of an archive edge.
   */
  lemma EveryInputIsBuilt(o: Options, obj: seq<string>, lib: seq<string>, main: seq<string>)
    requires o.libraryCapacity > 0 && NumLibraries(o) <= |lib|
    ensures var plan, outputs := LibraryPlan(o, obj, lib), ObjFiles(o, obj + lib + main);
      (forall i, x :: 0 <= i < |plan| && x in ObjFiles(o, plan[i].sources) ==> x in outputs) &&
      (forall x :: x in LinkInputs(o, main, plan) ==> x in outputs || x in LibraryNames(plan))
  {
    var plan, all := LibraryPlan(o, obj, lib), obj + lib + main;
    var outputs := ObjFiles(o, all);
    forall i, x | 0 <= i < |plan| && x in ObjFiles(o, plan[i].sources)
      ensures x in outputs
    {
      var m :| 0 <= m < |plan[i].sources| && ObjFiles(o, plan[i].sources)[m] == x;
      ArchiveInputBuilt(o, obj, lib, main, i, m);
    }
    forall x | x in ObjFiles(o, main)
      ensures x in outputs
    {
      var m :| 0 <= m < |main| && ObjFiles(o, main)[m] == x;
      assert outputs[|obj| + |lib| + m] == x;
    }
  }

  // ---------------------------------------------------------------------
  // The build description of a generated tree
  // ---------------------------------------------------------------------

  /** The objects of the generated list: leaf objects, then library-unit objects, then the main object. */
  lemma GeneratedLeafObject(o: Options, k: nat)
    requires o.libraryCapacity > 0 && k < o.leafCount
    ensures ObjFiles(o, GeneratedSourceList(o))[k] == ObjName(o, k, "src")
  {
    assert GeneratedSourceList(o)[k] == SourceFilePath(o, k, "src");
    ObjOfSource(o, k, "src");
  }

  lemma GeneratedLibObject(o: Options, j: nat)
    requires o.libraryCapacity > 0 && j < NumLibraries(o)
    ensures ObjFiles(o, GeneratedSourceList(o))[o.leafCount + j] == ObjName(o, j, "lib")
  {
    assert GeneratedSourceList(o)[o.leafCount + j] == SourceFilePath(o, j, "lib");
    ObjOfSource(o, j, "lib");
  }

  lemma GeneratedMainObject(o: Options)
    requires o.libraryCapacity > 0
    ensures ObjFiles(o, GeneratedSourceList(o))[o.leafCount + NumLibraries(o)] == ObjName(o, 0, "main")
  {
    assert GeneratedSourceList(o)[o.leafCount + NumLibraries(o)] == SourceFilePath(o, 0, "main");
    ObjOfSource(o, 0, "main");
  }

  lemma GeneratedObjectAt(o: Options, a: nat)
    requires o.libraryCapacity > 0 && a < |GeneratedSourceList(o)|
    ensures var (i, p) := GeneratedOrigin(o, a);
      ObjFiles(o, GeneratedSourceList(o))[a] == ObjName(o, i, p)
  {
    var n, l := o.leafCount, NumLibraries(o);
    if a < n {
      GeneratedLeafObject(o, a);
    } else if a < n + l {
      GeneratedLibObject(o, a - n);
    } else {
      GeneratedMainObject(o);
    }
  }

  lemma GeneratedObjectPair(o: Options, a: nat, b: nat)
    requires o.libraryCapacity > 0 && a < b < |GeneratedSourceList(o)|
    ensures ObjFiles(o, GeneratedSourceList(o))[a] != ObjFiles(o, GeneratedSourceList(o))[b]
  {
    var (i, p1) := GeneratedOrigin(o, a);
    var (j, p2) := GeneratedOrigin(o, b);
    GeneratedObjectAt(o, a);
    GeneratedObjectAt(o, b);
    GeneratedOriginsDiffer(o, a, b);
    ObjNamesDiffer(o, i, p1, j, p2);
  }

  /** Object paths of distinct generated sources are distinct. */
  lemma GeneratedObjectsDistinct(o: Options)
    requires o.libraryCapacity > 0
    ensures Distinct(ObjFiles(o, GeneratedSourceList(o)))
  {
    var objs := ObjFiles(o, GeneratedSourceList(o));
    forall a, b | 0 <= a < b < |objs| ensures objs[a] != objs[b] {
      GeneratedObjectPair(o, a, b);
    }
  }

  /**
   * For the generated tree, archive i holds the objects of the leaves of its
   * range, in order, followed by the object of library unit i: positions
   * s .. e - 1 and n + i of the compiled objects.
   */
  lemma GeneratedArchiveContents(o: Options, i: nat)
    requires o.libraryCapacity > 0 && i < NumLibraries(o)
    ensures var (s, e) := LibSrcIndices(o, i);
      var objs := ObjFiles(o, LibraryPlan(o, LeafSources(o), LibSources(o))[i].sources);
      var all := ObjFiles(o, GeneratedSourceList(o));
      s < e <= o.leafCount && |objs| == e - s + 1 &&
      (forall m :: 0 <= m < e - s ==> objs[m] == all[s + m]) &&
      objs[e - s] == all[o.leafCount + i]
  {
    var (s, e) := LibSrcIndices(o, i);
    GeneratedArchiveSources(o, i);
    ObjFilesPicked(o, LibraryPlan(o, LeafSources(o), LibSources(o))[i].sources, GeneratedSourceList(o),
                   s, e, o.leafCount + i);
  }

  /** The sources of archive i sit at positions s .. e - 1 and n + i of the generated list. */
  lemma GeneratedArchiveSources(o: Options, i: nat)
    requires o.libraryCapacity > 0 && i < NumLibraries(o)
    ensures var (s, e) := LibSrcIndices(o, i);
      var srcs := LibraryPlan(o, LeafSources(o), LibSources(o))[i].sources;
      var gen := GeneratedSourceList(o);
      s < e <= o.leafCount && |srcs| == e - s + 1 &&
      (forall m :: 0 <= m < e - s ==> srcs[m] == gen[s + m]) &&
      srcs[e - s] == gen[o.leafCount + i]
  {
    LibraryRangeNonEmpty(o, i);
  }

  /** Picking sources by position picks their objects at the same positions. */
  lemma ObjFilesPicked(o: Options, srcs: seq<string>, gen: seq<string>, s: nat, e: nat, t: nat)
    requires s <= e <= |gen| && t < |gen| && |srcs| == e - s + 1
    requires forall m :: 0 <= m < e - s ==> srcs[m] == gen[s + m]
    requires srcs[e - s] == gen[t]
    ensures var objs, all := ObjFiles(o, srcs), ObjFiles(o, gen);
      (forall m :: 0 <= m < e - s ==> objs[m] == all[s + m]) && objs[e - s] == all[t]
  {
  }

  /**
   * A list picked from distinct values at positions s .. e - 1 and then t
   * (t outside that range) holds the value at position k once when k is in
   * the range and not at all otherwise.
   */
  lemma PickedCount(all: seq<string>, objs: seq<string>, s: nat, e: nat, t: nat, k: nat)
    requires Distinct(all) && s <= e <= t < |all| && k < |all| && k != t
    requires |objs| == e - s + 1 && objs[e - s] == all[t]
    requires forall m :: 0 <= m < e - s ==> objs[m] == all[s + m]
    ensures multiset(objs)[all[k]] == if s <= k < e then 1 else 0
  {
    var pos := (m: nat) => if m < e - s then s + m else t;
    assert forall m :: 0 <= m < |objs| ==> pos(m) < |all| && objs[m] == all[pos(m)];
    forall a, b | 0 <= a < b < |objs| ensures objs[a] != objs[b] {
      assert pos(a) < pos(b);
    }
    CountDistinct(objs, all[k]);
    if all[k] in objs {
      var m :| 0 <= m < |objs| && objs[m] == all[k];
      assert pos(m) == k;
    }
    if s <= k < e {
      assert objs[k - s] == all[k];
    }
  }

  /**
   * For the generated tree, the object of leaf k is archived exactly once,
   * in library k / capacity, and in no other library.
   */
  lemma LeafObjectInOneArchive(o: Options, k: nat, i: nat)
    requires o.libraryCapacity > 0 && k < o.leafCount && i < NumLibraries(o)
    ensures var srcs := LibraryPlan(o, LeafSources(o), LibSources(o))[i].sources;
      multiset(ObjFiles(o, srcs))[ObjName(o, k, "src")] == if i == k / o.libraryCapacity then 1 else 0
  {
    LeafOwnedByOneLibrary(o, k);
    ArchivedLeafCount(o, k, i);
    GeneratedLeafObject(o, k);
  }

  /** The object at position k of the compiled list occurs in archive i once if k is in its range, else never. */
  lemma ArchivedLeafCount(o: Options, k: nat, i: nat)
    requires o.libraryCapacity > 0 && k < o.leafCount && i < NumLibraries(o)
    ensures var srcs := LibraryPlan(o, LeafSources(o), LibSources(o))[i].sources;
      var (s, e) := LibSrcIndices(o, i);
      multiset(ObjFiles(o, srcs))[ObjFiles(o, GeneratedSourceList(o))[k]] == if s <= k < e then 1 else 0
  {
    var (s, e) := LibSrcIndices(o, i);
    var all := ObjFiles(o, GeneratedSourceList(o));
    var objs := ObjFiles(o, LibraryPlan(o, LeafSources(o), LibSources(o))[i].sources);
    GeneratedArchiveContents(o, i);
    GeneratedObjectsDistinct(o);
    PickedCount(all, objs, s, e, o.leafCount + i, k);
  }

  /** The link inputs are the main objects followed by the archives, each in order. */
  lemma LinkInputsShape(o: Options, main: seq<string>, plan: seq<Library>)
    ensures var inputs := LinkInputs(o, main, plan);
      |inputs| == |main| + |plan| &&
      (forall m :: 0 <= m < |main| ==> inputs[m] == ObjFilePath(o, main[m])) &&
      (forall i :: 0 <= i < |plan| ==> inputs[|main| + i] == plan[i].name)
  {
  }

  /** Archive i of the plan is named lib_<i>.a in the library directory. */
  lemma LibraryPlanNames(o: Options, obj: seq<string>, lib: seq<string>)
    requires o.libraryCapacity > 0 && NumLibraries(o) <= |lib|
    ensures var plan := LibraryPlan(o, obj, lib);
      |plan| == NumLibraries(o) && forall i :: 0 <= i < |plan| ==> plan[i].name == LibFilePath(o, i)
  {
  }

  /** A list holding one entry and then the archive paths in index order is sorted after its first entry. */
  lemma ArchivesSorted(o: Options, inputs: seq<string>)
    requires o.libraryCapacity > 0 && |inputs| == 1 + NumLibraries(o)
    requires forall i :: 0 <= i < NumLibraries(o) ==> inputs[1 + i] == LibFilePath(o, i)
    ensures forall i, j :: 1 <= i < j < |inputs| ==> LexLess(inputs[i], inputs[j])
  {
    forall i, j | 1 <= i < j < |inputs| ensures LexLess(inputs[i], inputs[j]) {
      assert inputs[i] == LibFilePath(o, i - 1) && inputs[j] == LibFilePath(o, j - 1);
      LibPathOrder(o, i - 1, j - 1);
    }
  }

  /**
   * For the generated tree, the executable links the main object followed by
   * every archive in index order, which is also increasing path order.
   */
  lemma GeneratedLinkInputs(o: Options)
    requires o.libraryCapacity > 0
    ensures var inputs := LinkInputs(o, [MainSourcePath(o)], LibraryPlan(o, LeafSources(o), LibSources(o)));
      |inputs| == 1 + NumLibraries(o) &&
      inputs[0] == ObjName(o, 0, "main") &&
      (forall i :: 0 <= i < NumLibraries(o) ==> inputs[1 + i] == LibFilePath(o, i)) &&
      (forall i, j :: 1 <= i < j < |inputs| ==> LexLess(inputs[i], inputs[j]))
  {
    var main, plan := [MainSourcePath(o)], LibraryPlan(o, LeafSources(o), LibSources(o));
    var inputs := LinkInputs(o, main, plan);
    LinkInputsShape(o, main, plan);
    LibraryPlanNames(o, LeafSources(o), LibSources(o));
    ObjOfSource(o, 0, "main");
    ArchivesSorted(o, inputs);
  }
}
