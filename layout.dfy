/**
 * The run's options, identifier padding, artifact paths and the partition of
 * leaf indices into libraries (lod.py, lines 42-103).
 */
module Layout {
  import opened Text

  /** The options the generator reads (parsed from the command line by the tool). */
  datatype Options = Options(
    leafCount: nat,           // --count-of-leaf-source-files
    libraryCapacity: nat,     // --library_object_count
    outputDirectory: string,  // --output-directory
    clang: string,            // --clang
    cflags: string)           // --cflags

  /**
   * The exceptions the generator can raise: a capacity of zero divides by
   * zero, and a library list shorter than the library count is indexed past
   * its end.
   */
  datatype Error = ZeroDivisionError | IndexError

  datatype Result<T> = Ok(value: T) | Err(error: Error)

  // ---------------------------------------------------------------------
  // Padding and library count
  // ---------------------------------------------------------------------

  /** get_src_name_padding: the number of digits of the leaf count. */
  function SrcNamePadding(o: Options): nat
  {
    |Decimal(o.leafCount)|
  }

  /** math.ceil(leafCount / libraryCapacity), for a positive capacity. */
  function NumLibraries(o: Options): (r: nat)
    requires o.libraryCapacity > 0
    ensures o.leafCount <= r * o.libraryCapacity < o.leafCount + o.libraryCapacity
  {
    var n, cap := o.leafCount, o.libraryCapacity;
    if n % cap == 0 then n / cap else n / cap + 1
  }

  /** get_num_libraries_to_build: the library count, or the error a zero capacity raises. */
  function NumLibrariesToBuild(o: Options): (r: Result<nat>)
    ensures r.Err? <==> o.libraryCapacity == 0
    ensures r.Ok? ==> o.leafCount <= r.value * o.libraryCapacity < o.leafCount + o.libraryCapacity
  {
    if o.libraryCapacity == 0 then Err(ZeroDivisionError) else Ok(NumLibraries(o))
  }

  /** get_lib_name_padding: the number of digits of the library count. */
  function LibNamePadding(o: Options): nat
    requires o.libraryCapacity > 0
  {
    |Decimal(NumLibraries(o))|
  }

  // ---------------------------------------------------------------------
  // Directories and artifact paths
  // ---------------------------------------------------------------------

  function BuildDirectory(o: Options): string
  {
    o.outputDirectory
  }

  function SrcDirectory(o: Options): string
  {
    PathJoin(BuildDirectory(o), "src")
  }

  function ObjDirectory(o: Options): string
  {
    PathJoin(BuildDirectory(o), "obj")
  }

  function LibDirectory(o: Options): string
  {
    PathJoin(BuildDirectory(o), "lib")
  }

  function BinDirectory(o: Options): string
  {
    PathJoin(BuildDirectory(o), "bin")
  }

  /** get_source_file_path: src/<prefix>_<index zero-filled to the LEAF padding>.cpp, for every prefix. */
  function SourceFilePath(o: Options, fileIndex: nat, prefix: string): string
  {
    PathJoin(SrcDirectory(o), prefix + "_" + ZeroPad(fileIndex, SrcNamePadding(o)) + ".cpp")
  }

  /** get_obj_file_path: obj/ followed by the last component of the source path with ".cpp" replaced by ".o". */
  function ObjFilePath(o: Options, srcFile: string): string
  {
    PathJoin(ObjDirectory(o), Basename(ReplaceAll(srcFile, ".cpp", ".o")))
  }

  /** get_lib_file_path: lib/lib_<index zero-filled to the library padding>.a. */
  function LibFilePath(o: Options, libIndex: nat): string
    requires o.libraryCapacity > 0
  {
    PathJoin(LibDirectory(o), "lib_" + ZeroPad(libIndex, LibNamePadding(o)) + ".a")
  }

  /** get_get_bin_file_path. */
  function BinFilePath(o: Options, name: string): string
  {
    PathJoin(BinDirectory(o), name)
  }

  /** get_main_exe: the executable bin/lod. */
  function MainExe(o: Options): string
  {
    BinFilePath(o, "lod")
  }

  /** get_ninja_file_path. */
  function NinjaFilePath(o: Options): string
  {
    PathJoin(BuildDirectory(o), "build.ninja")
  }

  // ---------------------------------------------------------------------
  // Partition
  // ---------------------------------------------------------------------

  /** get_lib_src_indices: library i owns leaves [i * capacity, min(i * capacity + capacity, leafCount)). */
  function LibSrcIndices(o: Options, libIndex: nat): (nat, nat)
  {
    var start := libIndex * o.libraryCapacity;
    var end := start + o.libraryCapacity;
    (start, Min(end, o.leafCount))
  }

  /** Python's min on two naturals. */
  function Min(a: nat, b: nat): nat
  {
    if a < b then a else b
  }

  // ---------------------------------------------------------------------
  // Properties of the partition
  // ---------------------------------------------------------------------

  lemma MulMonotone(a: nat, b: nat, c: nat)
    requires a <= b
    ensures a * c <= b * c
  {
    assert b * c == a * c + (b - a) * c;
  }

  /** With no leaves there is no library, and the library padding is len("0") == 1. */
  lemma NoLeavesNoLibraries(o: Options)
    requires o.libraryCapacity > 0 && o.leafCount == 0
    ensures NumLibraries(o) == 0 && LibNamePadding(o) == 1 && SrcNamePadding(o) == 1
  {
    var r := NumLibraries(o);
    if r > 0 {
      MulMonotone(1, r, o.libraryCapacity);
    }
  }

  /** Every library index below the count owns a non-empty range of at most `capacity` leaves. */
  lemma {:induction false} LibraryRangeNonEmpty(o: Options, i: nat)
    requires o.libraryCapacity > 0 && i < NumLibraries(o)
    ensures var (s, e) := LibSrcIndices(o, i);
      s == i * o.libraryCapacity && s < e <= o.leafCount && e - s <= o.libraryCapacity
  {
    var n, cap, l := o.leafCount, o.libraryCapacity, NumLibraries(o);
    MulMonotone(i + 1, l, cap);
    assert (i + 1) * cap == i * cap + cap;
  }

  /** Consecutive ranges meet: each range ends where the next one starts. */
  lemma {:induction false} LibraryRangesAdjacent(o: Options, i: nat)
    requires o.libraryCapacity > 0 && i + 1 < NumLibraries(o)
    ensures LibSrcIndices(o, i).1 == LibSrcIndices(o, i + 1).0
  {
    var cap := o.libraryCapacity;
    LibraryRangeNonEmpty(o, i + 1);
    assert (i + 1) * cap == i * cap + cap;
  }

  /** The first range starts at leaf 0 and the last one ends at the leaf count. */
  lemma {:induction false} LibraryRangesSpan(o: Options)
    requires o.libraryCapacity > 0 && NumLibraries(o) > 0
    ensures LibSrcIndices(o, 0).0 == 0
    ensures LibSrcIndices(o, NumLibraries(o) - 1).1 == o.leafCount
  {
    var n, cap, l := o.leafCount, o.libraryCapacity, NumLibraries(o);
    assert (l - 1) * cap + cap == l * cap;
  }

  lemma DivRange(k: nat, cap: nat, i: nat)
    requires cap > 0 && i * cap <= k < i * cap + cap
    ensures k / cap == i
  {
    var q := k / cap;
    assert k == q * cap + k % cap;
    if q < i {
      MulMonotone(q + 1, i, cap);
    } else if q > i {
      MulMonotone(i + 1, q, cap);
    }
  }

  /**
   * The ranges tile [0, leafCount): leaf k lies in the range of library
   * k / capacity, which is a library that is built, and in no other range.
   */
  lemma {:induction false} LeafOwnedByOneLibrary(o: Options, k: nat)
    requires o.libraryCapacity > 0 && k < o.leafCount
    ensures k / o.libraryCapacity < NumLibraries(o)
    ensures forall i :: 0 <= i < NumLibraries(o) ==>
      (LibSrcIndices(o, i).0 <= k < LibSrcIndices(o, i).1 <==> i == k / o.libraryCapacity)
  {
    var n, cap, l := o.leafCount, o.libraryCapacity, NumLibraries(o);
    var j := k / cap;
    assert k == j * cap + k % cap;
    if j >= l {
      MulMonotone(l, j, cap);
    }
    forall i | 0 <= i < l
      ensures LibSrcIndices(o, i).0 <= k < LibSrcIndices(o, i).1 <==> i == j
    {
      if LibSrcIndices(o, i).0 <= k < LibSrcIndices(o, i).1 {
        DivRange(k, cap, i);
      }
      if i == j {
        assert j * cap + cap > k;
      }
    }
  }

  // ---------------------------------------------------------------------
  // Properties of names and paths
  // ---------------------------------------------------------------------

  /** A file-name prefix as the generator uses them ("src", "lib", "main"). */
  predicate PlainPrefix(prefix: string)
  {
    prefix != [] && '/' !in prefix && '.' !in prefix
  }

  /** Every leaf index below the count is written with exactly SrcNamePadding digits. */
  lemma LeafNameWidth(o: Options, i: nat)
    requires i < o.leafCount
    ensures |ZeroPad(i, SrcNamePadding(o))| == SrcNamePadding(o)
  {
    ZeroPadWidth(i, o.leafCount);
  }

  /** Every library index below the count is written with exactly LibNamePadding digits. */
  lemma LibNameWidth(o: Options, j: nat)
    requires o.libraryCapacity > 0 && j < NumLibraries(o)
    ensures |ZeroPad(j, LibNamePadding(o))| == LibNamePadding(o)
  {
    ZeroPadWidth(j, NumLibraries(o));
  }

  /** The directory part that os.path.join puts in front of a relative name. */
  function JoinHead(a: string): (h: string)
    ensures h == [] || h[|h| - 1] == '/'
  {
    if a == [] || a[|a| - 1] == '/' then a else a + "/"
  }

  lemma PathJoinRelative(a: string, b: string)
    requires b != [] && b[0] != '/'
    ensures PathJoin(a, b) == JoinHead(a) + b
  {
  }

  /** The source directory never ends in '/', so a source path is that directory, '/', and the file name. */
  lemma SourcePathShape(o: Options, i: nat, prefix: string)
    requires PlainPrefix(prefix)
    ensures SourceFilePath(o, i, prefix)
         == SrcDirectory(o) + "/" + (prefix + "_" + ZeroPad(i, SrcNamePadding(o)) + ".cpp")
  {
    var d := SrcDirectory(o);
    PathJoinRelative(BuildDirectory(o), "src");
    assert d[|d| - 1] == 'c';
    var name := prefix + "_" + ZeroPad(i, SrcNamePadding(o)) + ".cpp";
    assert name[0] == prefix[0];
  }

  /** Two names that differ only in a middle part of one length are equal only if the parts are. */
  lemma MiddleEqual(p: string, x: string, y: string, q: string)
    requires p + x + q == p + y + q && |x| == |y|
    ensures x == y
  {
    assert x == (p + x + q)[|p|..|p| + |x|];
    assert y == (p + y + q)[|p|..|p| + |y|];
  }

  /** Two units with different prefixes, or one prefix and different indices, get different source paths. */
  lemma SourcePathsDiffer(o: Options, i: nat, p1: string, j: nat, p2: string)
    requires PlainPrefix(p1) && PlainPrefix(p2)
    requires if p1 == p2 then i != j else p1[0] != p2[0]
    ensures SourceFilePath(o, i, p1) != SourceFilePath(o, j, p2)
  {
    if p1 != p2 {
      SourcePathsDisjoint(o, i, j, p1, p2);
    } else if SourceFilePath(o, i, p1) == SourceFilePath(o, j, p2) {
      SourcePathInjective(o, i, j, p1);
    }
  }

  /** Distinct indices give distinct source paths: naming is collision-free for any count. */
  lemma SourcePathInjective(o: Options, i: nat, j: nat, prefix: string)
    requires PlainPrefix(prefix)
    requires SourceFilePath(o, i, prefix) == SourceFilePath(o, j, prefix)
    ensures i == j
  {
    var w := SrcNamePadding(o);
    var x, y := ZeroPad(i, w), ZeroPad(j, w);
    SourcePathShape(o, i, prefix);
    SourcePathShape(o, j, prefix);
    var p := SrcDirectory(o) + "/" + prefix + "_";
    assert SourceFilePath(o, i, prefix) == p + x + ".cpp";
    assert SourceFilePath(o, j, prefix) == p + y + ".cpp";
    MiddleEqual(p, x, y, ".cpp");
    ZeroPadInjective(i, j, w);
  }

  /** Source paths with prefixes of different first letters never collide ("src", "lib", "main"). */
  lemma SourcePathsDisjoint(o: Options, i: nat, j: nat, p1: string, p2: string)
    requires PlainPrefix(p1) && PlainPrefix(p2) && p1[0] != p2[0]
    ensures SourceFilePath(o, i, p1) != SourceFilePath(o, j, p2)
  {
    SourcePathShape(o, i, p1);
    SourcePathShape(o, j, p2);
    var d := SrcDirectory(o) + "/";
    assert SourceFilePath(o, i, p1)[|d|] == p1[0];
    assert SourceFilePath(o, j, p2)[|d|] == p2[0];
  }

  /** For indices up to the leaf count, source paths sort exactly as their indices do. */
  lemma SourcePathOrder(o: Options, i: nat, j: nat, prefix: string)
    requires PlainPrefix(prefix) && i <= o.leafCount && j <= o.leafCount
    ensures LexLess(SourceFilePath(o, i, prefix), SourceFilePath(o, j, prefix)) <==> i < j
  {
    var w := SrcNamePadding(o);
    var x, y := ZeroPad(i, w), ZeroPad(j, w);
    SourcePathShape(o, i, prefix);
    SourcePathShape(o, j, prefix);
    var p := SrcDirectory(o) + "/" + prefix + "_";
    assert SourceFilePath(o, i, prefix) == p + (x + ".cpp");
    assert SourceFilePath(o, j, prefix) == p + (y + ".cpp");
    LexLessCommonPrefix(p, x + ".cpp", y + ".cpp");
    ZeroPadOrder(i, j, o.leafCount);
    if i == j {
      LexLessIrreflexive(x + ".cpp");
    } else {
      if x == y {
        ZeroPadInjective(i, j, w);
      }
      ZeroPadWidth(i, o.leafCount);
      ZeroPadWidth(j, o.leafCount);
      LexLessSameLength(x, y, ".cpp", ".cpp");
    }
  }

  /** Distinct library indices give distinct archive paths. */
  lemma LibPathInjective(o: Options, i: nat, j: nat)
    requires o.libraryCapacity > 0
    requires LibFilePath(o, i) == LibFilePath(o, j)
    ensures i == j
  {
    var w := LibNamePadding(o);
    var x, y := ZeroPad(i, w), ZeroPad(j, w);
    var h := JoinHead(LibDirectory(o)) + "lib_";
    PathJoinRelative(LibDirectory(o), "lib_" + x + ".a");
    PathJoinRelative(LibDirectory(o), "lib_" + y + ".a");
    assert LibFilePath(o, i) == h + x + ".a";
    assert LibFilePath(o, j) == h + y + ".a";
    MiddleEqual(h, x, y, ".a");
    ZeroPadInjective(i, j, w);
  }

  /** For library indices up to the library count, archive paths sort exactly as their indices do. */
  lemma LibPathOrder(o: Options, i: nat, j: nat)
    requires o.libraryCapacity > 0 && i <= NumLibraries(o) && j <= NumLibraries(o)
    ensures LexLess(LibFilePath(o, i), LibFilePath(o, j)) <==> i < j
  {
    var l, w := NumLibraries(o), LibNamePadding(o);
    var x, y := ZeroPad(i, w), ZeroPad(j, w);
    var h := JoinHead(LibDirectory(o)) + "lib_";
    PathJoinRelative(LibDirectory(o), "lib_" + x + ".a");
    PathJoinRelative(LibDirectory(o), "lib_" + y + ".a");
    assert LibFilePath(o, i) == h + (x + ".a");
    assert LibFilePath(o, j) == h + (y + ".a");
    LexLessCommonPrefix(h, x + ".a", y + ".a");
    ZeroPadOrder(i, j, l);
    if i == j {
      LexLessIrreflexive(x + ".a");
    } else {
      if x == y {
        ZeroPadInjective(i, j, w);
      }
      ZeroPadWidth(i, l);
      ZeroPadWidth(j, l);
      LexLessSameLength(x, y, ".a", ".a");
    }
  }

  /** obj/<prefix>_<index zero-filled to the leaf padding>.o: where the object of a generated source goes. */
  function ObjName(o: Options, i: nat, prefix: string): string
  {
    PathJoin(ObjDirectory(o), prefix + "_" + ZeroPad(i, SrcNamePadding(o)) + ".o")
  }

  /** The object of a generated source is obj/<prefix>_<padded index>.o, whatever the output directory is called. */
  lemma ObjOfSource(o: Options, i: nat, prefix: string)
    requires PlainPrefix(prefix)
    ensures ObjFilePath(o, SourceFilePath(o, i, prefix)) == ObjName(o, i, prefix)
  {
    var stem := prefix + ("_" + ZeroPad(i, SrcNamePadding(o)));
    SourcePathShape(o, i, prefix);
    assert SourceFilePath(o, i, prefix) == (SrcDirectory(o) + "/") + (stem + ".cpp");
    CppToObjName(SrcDirectory(o) + "/", stem);
    assert stem + ".o" == prefix + "_" + ZeroPad(i, SrcNamePadding(o)) + ".o";
  }

  /**
   * Object names of two different generated sources differ: the same prefix
   * with different indices, or prefixes with different first letters.
   */
  lemma ObjNamesDiffer(o: Options, i: nat, p1: string, j: nat, p2: string)
    requires PlainPrefix(p1) && PlainPrefix(p2)
    requires if p1 == p2 then i != j else p1[0] != p2[0]
    ensures ObjName(o, i, p1) != ObjName(o, j, p2)
  {
    var w := SrcNamePadding(o);
    var x, y := ZeroPad(i, w), ZeroPad(j, w);
    var h := JoinHead(ObjDirectory(o));
    PathJoinRelative(ObjDirectory(o), p1 + "_" + x + ".o");
    PathJoinRelative(ObjDirectory(o), p2 + "_" + y + ".o");
    if p1 == p2 {
      if ObjName(o, i, p1) == ObjName(o, j, p2) {
        assert ObjName(o, i, p1) == (h + p1 + "_") + x + ".o";
        assert ObjName(o, j, p2) == (h + p1 + "_") + y + ".o";
        MiddleEqual(h + p1 + "_", x, y, ".o");
        ZeroPadInjective(i, j, w);
      }
    } else {
      assert ObjName(o, i, p1)[|h|] == p1[0];
      assert ObjName(o, j, p2)[|h|] == p2[0];
    }
  }

  // ---------------------------------------------------------------------
  // The executable and the Ninja file
  // ---------------------------------------------------------------------

  /** The executable is bin/lod and the Ninja file build.ninja, both under the output directory; they differ. */
  lemma TopLevelPaths(o: Options)
    ensures MainExe(o) == JoinHead(o.outputDirectory) + "bin/lod"
    ensures NinjaFilePath(o) == JoinHead(o.outputDirectory) + "build.ninja"
    ensures MainExe(o) != NinjaFilePath(o)
  {
    var h := JoinHead(o.outputDirectory);
    PathJoinRelative(BuildDirectory(o), "bin");
    assert JoinHead(BinDirectory(o)) == h + "bin/";
    PathJoinRelative(BinDirectory(o), "lod");
    PathJoinRelative(BuildDirectory(o), "build.ninja");
    assert MainExe(o)[|h| + 1] == 'i' && NinjaFilePath(o)[|h| + 1] == 'u';
  }

  /** No archive is written where the executable goes. */
  lemma ExeIsNoArchive(o: Options, i: nat)
    requires o.libraryCapacity > 0
    ensures LibFilePath(o, i) != MainExe(o)
  {
    var h := JoinHead(o.outputDirectory);
    TopLevelPaths(o);
    PathJoinRelative(BuildDirectory(o), "lib");
    var name := "lib_" + ZeroPad(i, LibNamePadding(o)) + ".a";
    PathJoinRelative(LibDirectory(o), name);
    assert LibFilePath(o, i)[|h|] == 'l' && MainExe(o)[|h|] == 'b';
  }
}
