/**
 * The generated C++ units (lod.py, lines 105-229): one leaf unit per leaf
 * index, one aggregator unit per library and one main unit. Each file write
 * is modelled by the lines it writes; a generation run returns the paths it
 * wrote, in order, together with a map from path to the lines written there.
 */
module Units {
  import opened Text
  import opened Layout

  /** A written text file: its path and its lines, in order. */
  datatype TextFile = TextFile(path: string, lines: seq<string>)

  /** The three path lists that generate_source_files returns. */
  datatype GeneratedSources = GeneratedSources(obj: seq<string>, lib: seq<string>, main: seq<string>)

  // ---------------------------------------------------------------------
  // Function names and the lines that mention them
  // ---------------------------------------------------------------------

  /** src_<i>, zero-filled to the leaf padding. */
  function LeafFunctionName(o: Options, i: nat): string
  {
    "src_" + ZeroPad(i, SrcNamePadding(o))
  }

  /** lib_<j>, zero-filled to the LIBRARY padding (the file lib_<j>.cpp uses the leaf padding). */
  function LibFunctionName(o: Options, j: nat): string
    requires o.libraryCapacity > 0
  {
    "lib_" + ZeroPad(j, LibNamePadding(o))
  }

  /** The text around a name in a prototype `int <name>();` and in a call `  ret += <name>();`. */
  const PrototypeOpen := "int "
  const CallOpen := "  ret += "
  const CallClose := "();"

  /** The prototype line that declares a function. */
  function Prototype(name: string): string
  {
    PrototypeOpen + name + CallClose
  }

  /** The line that adds a function's result to `ret`. */
  function CallLine(name: string): string
  {
    CallOpen + name + CallClose
  }

  /** The line that opens the definition of a leaf function. */
  function LeafDefinition(name: string): string
  {
    "        int " + name + "() {"
  }

  // ---------------------------------------------------------------------
  // Leaf units
  // ---------------------------------------------------------------------

  /** The fixed part of a leaf unit before its definition line: a blank line, ten includes, a blank line. */
  const LeafHead: seq<string> := [
    "",
    "        #include <vector>",
    "        #include <set>",
    "        #include <list>",
    "        #include <map>",
    "        #include <unordered_map>",
    "        #include <unordered_set>",
    "        #include <deque>",
    "        #include <string>",
    "        #include <bitset>",
    "        #include <tuple>",
    ""
  ]

  /** The fixed container-stressing body of every leaf function, up to the unterminated last line. */
  const LeafBody: seq<string> := [
    "            std::set<int> s;",
    "            s.insert(1);",
    "",
    "            std::list<int> l;",
    "            l.emplace_back(1);",
    "",
    "            std::map<int, int> m;",
    "            m[1] = 1;",
    "",
    "            std::unordered_map<int, bool> um;",
    "            um[1] = false;",
    "",
    "            std::unordered_set<double> us;",
    "            us.insert(1.0);",
    "",
    "            std::deque<int> d;",
    "            d.push_front(1);",
    "",
    "            std::bitset<8> b8;",
    "            b8.set(1);",
    "",
    "            std::bitset<16> b16;",
    "            b16.set(1);",
    "",
    "            std::string str = \"hello\";",
    "",
    "            std::tuple<int, int, int> t = std::make_tuple(1, 2, 3);",
    "            std::get<0>(t);",
    "",
    "            std::vector<int> v;",
    "            v.push_back((1));",
    "            return v.back();",
    "        }",
    "        "
  ]

  /**
   * The text of leaf unit i, split at its newlines: the template with the
   * definition line naming src_<i>. Unlike the other units, its text does
   * not end in a newline (its last line is eight spaces).
   */
  function LeafUnitLines(o: Options, i: nat): seq<string>
  {
    LeafHead + [LeafDefinition(LeafFunctionName(o, i))] + LeafBody
  }

  /** generate_obj_source_file: writes leaf unit i at the leaf's source path. */
  function GenerateObjSourceFile(o: Options, srcIndex: nat): TextFile
  {
    TextFile(SourceFilePath(o, srcIndex, "src"), LeafUnitLines(o, srcIndex))
  }

  // ---------------------------------------------------------------------
  // Library and main units, as specifications
  // ---------------------------------------------------------------------

  /** The number of indices in Python's range(start, end). */
  function RangeLength(start: nat, end: nat): nat
  {
    if start < end then end - start else 0
  }

  /** One generated line per name, each the name between a fixed prefix and suffix. */
  function Wrap(prefix: string, names: seq<string>, suffix: string): (r: seq<string>)
    ensures |r| == |names|
  {
    seq(|names|, m requires 0 <= m < |names| => prefix + names[m] + suffix)
  }

  /** Growing a prefix of wrapped lines by one wraps the next name. */
  lemma WrapStep(prefix: string, names: seq<string>, suffix: string, k: nat)
    requires k < |names|
    ensures Wrap(prefix, names, suffix)[..k + 1] == Wrap(prefix, names, suffix)[..k] + [prefix + names[k] + suffix]
  {
  }

  /** One Prototype line per name, in order. */
  function Prototypes(names: seq<string>): seq<string>
  {
    Wrap(PrototypeOpen, names, CallClose)
  }

  /** One CallLine per name, in order. */
  function Calls(names: seq<string>): seq<string>
  {
    Wrap(CallOpen, names, CallClose)
  }

  /** Growing a prefix of the prototypes by one declares the next name. */
  lemma PrototypesStep(names: seq<string>, k: nat)
    requires k < |names|
    ensures Prototypes(names)[..k + 1] == Prototypes(names)[..k] + [Prototype(names[k])]
  {
    WrapStep(PrototypeOpen, names, CallClose, k);
  }

  /** Growing a prefix of the calls by one calls the next name. */
  lemma CallsStep(names: seq<string>, k: nat)
    requires k < |names|
    ensures Calls(names)[..k + 1] == Calls(names)[..k] + [CallLine(names[k])]
  {
    WrapStep(CallOpen, names, CallClose, k);
  }

  /**
   * The shape shared by library and main units: a prototype per callee, a
   * blank line, then a function (opened by `header`) that adds up one call
   * per callee, in the same order.
   */
  function SummingUnit(callees: seq<string>, header: string): seq<string>
  {
    Prototypes(callees) + ["", header, "  int ret = 0;"] + Calls(callees) + ["  return ret;", "}"]
  }

  /** The leaf function names of range(start, end), in order. */
  function LeafNames(o: Options, start: nat, end: nat): seq<string>
  {
    var count := RangeLength(start, end);
    seq(count, m requires 0 <= m < count => LeafFunctionName(o, start + m))
  }

  /** The library function names lib_0 .. lib_{L-1}, in order. */
  function LibNames(o: Options): seq<string>
    requires o.libraryCapacity > 0
  {
    var count := NumLibraries(o);
    seq(count, j requires 0 <= j < count => LibFunctionName(o, j))
  }

  /** The lines of library unit j: it sums the leaves of its range through the function lib_<j>. */
  function LibUnitLines(o: Options, libIndex: nat): seq<string>
    requires o.libraryCapacity > 0
  {
    var (start, end) := LibSrcIndices(o, libIndex);
    SummingUnit(LeafNames(o, start, end), "int " + LibFunctionName(o, libIndex) + "() {")
  }

  /** The lines of the main unit: main() sums every library function. */
  function MainUnitLines(o: Options): seq<string>
    requires o.libraryCapacity > 0
  {
    SummingUnit(LibNames(o), "int main() {")
  }

  /** The paths generate_obj_source_files returns: one per leaf, in index order. */
  function LeafSources(o: Options): seq<string>
  {
    seq(o.leafCount, i requires 0 <= i < o.leafCount => SourceFilePath(o, i, "src"))
  }

  /** The paths generate_lib_source_files returns: one per library, in index order. */
  function LibSources(o: Options): seq<string>
    requires o.libraryCapacity > 0
  {
    seq(NumLibraries(o), j requires 0 <= j < NumLibraries(o) => SourceFilePath(o, j, "lib"))
  }

  /** The main unit's path: index 0 with the "main" prefix, zero-filled to the LEAF padding. */
  function MainSourcePath(o: Options): string
  {
    SourceFilePath(o, 0, "main")
  }

  /** The sources of the generated tree, as generate_source_files returns them, in build order. */
  function GeneratedSourceList(o: Options): seq<string>
    requires o.libraryCapacity > 0
  {
    LeafSources(o) + LibSources(o) + [MainSourcePath(o)]
  }

  /** Which unit position a of the generated list belongs to: its index and its file prefix. */
  function GeneratedOrigin(o: Options, a: nat): (nat, string)
    requires o.libraryCapacity > 0
  {
    var n, l := o.leafCount, NumLibraries(o);
    if a < n then (a, "src") else if a < n + l then (a - n, "lib") else (0, "main")
  }

  /** Two positions of the generated list have different prefixes, or the same prefix and different indices. */
  lemma GeneratedOriginsDiffer(o: Options, a: nat, b: nat)
    requires o.libraryCapacity > 0 && a < b < |GeneratedSourceList(o)|
    ensures var (i, p1) := GeneratedOrigin(o, a);
      var (j, p2) := GeneratedOrigin(o, b);
      PlainPrefix(p1) && PlainPrefix(p2) && if p1 == p2 then i != j else p1[0] != p2[0]
  {
  }

  // ---------------------------------------------------------------------
  // The generators
  // ---------------------------------------------------------------------

  /** The path of leaf i is none of the paths written before it, so writing it overwrites none of them. */
  lemma FreshLeafSource(o: Options, i: nat)
    requires i < o.leafCount
    ensures LeafSources(o)[i] !in LeafSources(o)[..i]
  {
    var sources := LeafSources(o);
    forall k | 0 <= k < i
      ensures sources[k] != sources[i]
    {
      if sources[k] == sources[i] {
        SourcePathInjective(o, k, i, "src");
      }
    }
  }

  /** The path of library unit j is none of the paths written before it. */
  lemma FreshLibSource(o: Options, j: nat)
    requires o.libraryCapacity > 0 && j < NumLibraries(o)
    ensures LibSources(o)[j] !in LibSources(o)[..j]
  {
    var sources := LibSources(o);
    forall k | 0 <= k < j
      ensures sources[k] != sources[j]
    {
      if sources[k] == sources[j] {
        SourcePathInjective(o, k, j, "lib");
      }
    }
  }

  /** files holds exactly the written paths, each with the lines written to it. */
  ghost predicate Recorded(sources: seq<string>, contents: seq<seq<string>>, files: map<string, seq<string>>)
  {
    |contents| == |sources| &&
    (forall p :: p in files <==> p in sources) &&
    (forall k :: 0 <= k < |sources| ==> files[sources[k]] == contents[k])
  }

  lemma PrefixExtend(s: seq<string>, i: nat)
    requires i < |s|
    ensures s[..i + 1] == s[..i] + [s[i]]
  {
  }

  /** Appending a line after head + done extends done. */
  lemma AppendAfterHead(head: seq<string>, done: seq<string>, line: string)
    ensures head + done + [line] == head + (done + [line])
  {
  }

  /** Writing a fresh path records it with its lines and keeps every earlier file. */
  lemma RecordedStep(sources: seq<string>, contents: seq<seq<string>>, files: map<string, seq<string>>,
                     path: string, lines: seq<string>)
    requires Recorded(sources, contents, files) && path !in sources
    ensures Recorded(sources + [path], contents + [lines], files[path := lines])
  {
  }

  /** generate_obj_source_files: writes every leaf unit, in index order, and returns their paths. */
  method GenerateObjSourceFiles(o: Options) returns (sources: seq<string>, files: map<string, seq<string>>)
    ensures sources == LeafSources(o)
    ensures forall p :: p in files <==> p in sources
    ensures forall i :: 0 <= i < |sources| ==> files[sources[i]] == LeafUnitLines(o, i)
  {
    var numObjectFiles := o.leafCount;
    sources, files := [], map[];
    ghost var contents: seq<seq<string>> := [];
    for i := 0 to numObjectFiles
      invariant sources == LeafSources(o)[..i]
      invariant |contents| == i && forall k :: 0 <= k < i ==> contents[k] == LeafUnitLines(o, k)
      invariant Recorded(sources, contents, files)
    {
      var f := GenerateObjSourceFile(o, i);
      var path, lines := f.path, f.lines;
      assert path == LeafSources(o)[i] && lines == LeafUnitLines(o, i);
      FreshLeafSource(o, i);
      RecordedStep(sources, contents, files, path, lines);
      PrefixExtend(LeafSources(o), i);
      files := files[path := lines];
      sources := sources + [path];
      contents := contents + [lines];
    }
    assert sources == LeafSources(o);
  }

  /** generate_lib_source_file: writes library unit j through two loops over its leaf range. */
  method GenerateLibSourceFile(o: Options, libIndex: nat) returns (f: TextFile)
    requires o.libraryCapacity > 0
    ensures f == TextFile(SourceFilePath(o, libIndex, "lib"), LibUnitLines(o, libIndex))
  {
    var sourcePath := SourceFilePath(o, libIndex, "lib");
    var (start, end) := LibSrcIndices(o, libIndex);
    ghost var names := LeafNames(o, start, end);
    var lines: seq<string> := [];
    var src := start;
    while src < end
      invariant start <= src <= start + |names|
      invariant lines == Prototypes(names)[..src - start]
    {
      LeafNameAt(o, start, end, src);
      PrototypesStep(names, src - start);
      lines := lines + [Prototype(LeafFunctionName(o, src))];
      src := src + 1;
    }
    assert lines == Prototypes(names);
    var header := "int " + LibFunctionName(o, libIndex) + "() {";
    lines := lines + ["", header, "  int ret = 0;"];
    ghost var head := lines;
    src := start;
    while src < end
      invariant start <= src <= start + |names|
      invariant lines == head + Calls(names)[..src - start]
    {
      LeafNameAt(o, start, end, src);
      CallsStep(names, src - start);
      AppendAfterHead(head, Calls(names)[..src - start], CallLine(LeafFunctionName(o, src)));
      lines := lines + [CallLine(LeafFunctionName(o, src))];
      src := src + 1;
    }
    assert lines == head + Calls(names);
    lines := lines + ["  return ret;", "}"];
    assert lines == SummingUnit(names, header);
    LibUnitLinesOf(o, libIndex, start, end);
    f := TextFile(sourcePath, lines);
  }

  /** Entry src - start of the names of range(start, end) is the name of leaf src. */
  lemma LeafNameAt(o: Options, start: nat, end: nat, src: nat)
    requires start <= src < end
    ensures |LeafNames(o, start, end)| == end - start
    ensures LeafNames(o, start, end)[src - start] == LeafFunctionName(o, src)
  {
  }

  /** Library unit j sums the leaves of the range LibSrcIndices gives. */
  lemma LibUnitLinesOf(o: Options, libIndex: nat, start: nat, end: nat)
    requires o.libraryCapacity > 0 && (start, end) == LibSrcIndices(o, libIndex)
    ensures LibUnitLines(o, libIndex) == SummingUnit(LeafNames(o, start, end), "int " + LibFunctionName(o, libIndex) + "() {")
  {
  }

  /** generate_lib_source_files: writes every library unit, in index order, and returns their paths. */
  method GenerateLibSourceFiles(o: Options) returns (sources: seq<string>, files: map<string, seq<string>>)
    requires o.libraryCapacity > 0
    ensures sources == LibSources(o)
    ensures forall p :: p in files <==> p in sources
    ensures forall j :: 0 <= j < |sources| ==> files[sources[j]] == LibUnitLines(o, j)
  {
    var numLibFiles := NumLibraries(o);
    sources, files := [], map[];
    ghost var contents: seq<seq<string>> := [];
    for i := 0 to numLibFiles
      invariant sources == LibSources(o)[..i]
      invariant |contents| == i && forall k :: 0 <= k < i ==> contents[k] == LibUnitLines(o, k)
      invariant Recorded(sources, contents, files)
    {
      var f := GenerateLibSourceFile(o, i);
      var path, lines := f.path, f.lines;
      assert path == LibSources(o)[i] && lines == LibUnitLines(o, i);
      FreshLibSource(o, i);
      RecordedStep(sources, contents, files, path, lines);
      PrefixExtend(LibSources(o), i);
      files := files[path := lines];
      sources := sources + [path];
      contents := contents + [lines];
    }
    assert sources == LibSources(o);
  }

  /** generate_main_source_file: writes the main unit through two loops over the libraries. */
  method GenerateMainSourceFile(o: Options) returns (f: TextFile)
    requires o.libraryCapacity > 0
    ensures f == TextFile(MainSourcePath(o), MainUnitLines(o))
  {
    var numLibFiles := NumLibraries(o);
    var sourcePath := SourceFilePath(o, 0, "main");
    ghost var names := LibNames(o);
    var lines: seq<string> := [];
    for src := 0 to numLibFiles
      invariant lines == Prototypes(names)[..src]
    {
      PrototypesStep(names, src);
      lines := lines + [Prototype(LibFunctionName(o, src))];
    }
    assert lines == Prototypes(names);
    lines := lines + ["", "int main() {", "  int ret = 0;"];
    ghost var head := lines;
    for src := 0 to numLibFiles
      invariant lines == head + Calls(names)[..src]
    {
      CallsStep(names, src);
      AppendAfterHead(head, Calls(names)[..src], CallLine(LibFunctionName(o, src)));
      lines := lines + [CallLine(LibFunctionName(o, src))];
    }
    assert lines == head + Calls(names);
    lines := lines + ["  return ret;", "}"];
    f := TextFile(sourcePath, lines);
  }

  /**
   * generate_source_files: leaves, then libraries, then main. A zero capacity
   * fails only when the library count is first needed, after every leaf unit
   * has been written.
   */
  method GenerateSourceFiles(o: Options) returns (r: Result<GeneratedSources>, files: map<string, seq<string>>)
    ensures r.Err? <==> o.libraryCapacity == 0
    ensures r.Err? ==> r.error == ZeroDivisionError
    ensures r.Ok? ==> r.value == GeneratedSources(LeafSources(o), LibSources(o), [MainSourcePath(o)])
    ensures forall i :: 0 <= i < o.leafCount ==>
      SourceFilePath(o, i, "src") in files && files[SourceFilePath(o, i, "src")] == LeafUnitLines(o, i)
    ensures r.Err? ==> forall p :: p in files <==> p in LeafSources(o)
    ensures r.Ok? ==> forall p :: p in files <==> p in r.value.obj + r.value.lib + r.value.main
    ensures r.Ok? ==> forall j :: 0 <= j < |r.value.lib| ==> files[r.value.lib[j]] == LibUnitLines(o, j)
    ensures r.Ok? ==> files[MainSourcePath(o)] == MainUnitLines(o)
  {
    var objSources, objFiles := GenerateObjSourceFiles(o);
    forall i | 0 <= i < o.leafCount
      ensures SourceFilePath(o, i, "src") in objFiles
      ensures objFiles[SourceFilePath(o, i, "src")] == LeafUnitLines(o, i)
    {
      assert objSources[i] == SourceFilePath(o, i, "src");
    }
    if o.libraryCapacity == 0 {
      return Err(ZeroDivisionError), objFiles;
    }
    var libSources, libFiles := GenerateLibSourceFiles(o);
    var main := GenerateMainSourceFile(o);
    files := (objFiles + libFiles)[main.path := main.lines];
    MergedFiles(o, objFiles, libFiles, main);
    r := Ok(GeneratedSources(objSources, libSources, [main.path]));
  }

  /** A leaf's path is neither a library unit's nor the main unit's. */
  lemma LeafPathElsewhere(o: Options, i: nat)
    requires o.libraryCapacity > 0
    ensures SourceFilePath(o, i, "src") !in LibSources(o)
    ensures SourceFilePath(o, i, "src") != MainSourcePath(o)
  {
    var libSources := LibSources(o);
    forall j | 0 <= j < |libSources|
      ensures libSources[j] != SourceFilePath(o, i, "src")
    {
      SourcePathsDisjoint(o, j, i, "lib", "src");
    }
    SourcePathsDisjoint(o, 0, i, "main", "src");
  }

  /** The three groups of written files never share a path, so merging them loses no write. */
  lemma MergedFiles(o: Options, objFiles: map<string, seq<string>>, libFiles: map<string, seq<string>>, main: TextFile)
    requires o.libraryCapacity > 0
    requires forall p :: p in objFiles <==> p in LeafSources(o)
    requires forall i :: 0 <= i < o.leafCount ==> objFiles[LeafSources(o)[i]] == LeafUnitLines(o, i)
    requires forall p :: p in libFiles <==> p in LibSources(o)
    requires forall j :: 0 <= j < NumLibraries(o) ==> libFiles[LibSources(o)[j]] == LibUnitLines(o, j)
    requires main == TextFile(MainSourcePath(o), MainUnitLines(o))
    ensures var files := (objFiles + libFiles)[main.path := main.lines];
      (forall i :: 0 <= i < o.leafCount ==>
         SourceFilePath(o, i, "src") in files && files[SourceFilePath(o, i, "src")] == LeafUnitLines(o, i)) &&
      (forall p :: p in files <==> p in GeneratedSourceList(o)) &&
      (forall j :: 0 <= j < NumLibraries(o) ==> files[LibSources(o)[j]] == LibUnitLines(o, j)) &&
      files[MainSourcePath(o)] == MainUnitLines(o)
  {
    var files := (objFiles + libFiles)[main.path := main.lines];
    var objSources, libSources := LeafSources(o), LibSources(o);
    forall i | 0 <= i < o.leafCount
      ensures SourceFilePath(o, i, "src") in files
      ensures files[SourceFilePath(o, i, "src")] == LeafUnitLines(o, i)
    {
      assert objSources[i] == SourceFilePath(o, i, "src");
      LeafPathElsewhere(o, i);
    }
    forall j | 0 <= j < |libSources|
      ensures libSources[j] in files && files[libSources[j]] == LibUnitLines(o, j)
    {
      SourcePathsDisjoint(o, j, 0, "lib", "main");
    }
    forall p
      ensures p in files <==> p in objSources + libSources + [main.path]
    {
      assert p in objSources + libSources + [main.path] <==> p in objSources || p in libSources || p == main.path;
    }
  }

  // ---------------------------------------------------------------------
  // Properties of the units
  // ---------------------------------------------------------------------

  predicate Distinct(s: seq<string>)
  {
    forall a, b :: 0 <= a < b < |s| ==> s[a] != s[b]
  }

  /** A sequence without repeated elements holds each value at most once. */
  lemma {:induction false} CountDistinct(s: seq<string>, x: string)
    requires Distinct(s)
    ensures multiset(s)[x] == if x in s then 1 else 0
    decreases |s|
  {
    if s != [] {
      assert s == [s[0]] + s[1..];
      assert Distinct(s[1..]) by {
        forall a, b | 0 <= a < b < |s[1..]| ensures s[1..][a] != s[1..][b] {
          assert s[1..][a] == s[a + 1] && s[1..][b] == s[b + 1];
        }
      }
      CountDistinct(s[1..], x);
      if x == s[0] {
        assert x !in s[1..] by {
          forall b | 0 <= b < |s[1..]| ensures s[1..][b] != x {
            assert s[1..][b] == s[b + 1];
          }
        }
      }
    }
  }

  /** Wrapping distinct names gives distinct lines, and a wrapped name is present exactly when the name is. */
  lemma WrapCount(prefix: string, names: seq<string>, suffix: string, name: string)
    requires Distinct(names)
    ensures multiset(Wrap(prefix, names, suffix))[prefix + name + suffix] == if name in names then 1 else 0
  {
    var lines := Wrap(prefix, names, suffix);
    var line := prefix + name + suffix;
    forall a, b | 0 <= a < b < |lines| ensures lines[a] != lines[b] {
      if lines[a] == lines[b] {
        MiddleEqual(prefix, names[a], names[b], suffix);
      }
    }
    CountDistinct(lines, line);
    if line in lines {
      var m :| 0 <= m < |lines| && lines[m] == line;
      MiddleEqual(prefix, names[m], name, suffix);
    }
    if name in names {
      var m :| 0 <= m < |names| && names[m] == name;
      assert lines[m] == line;
    }
  }

  /** Every wrapped line starts with the prefix's first character. */
  lemma WrapFirstChar(prefix: string, names: seq<string>, suffix: string, line: string)
    requires prefix != [] && line != [] && line[0] != prefix[0]
    ensures multiset(Wrap(prefix, names, suffix))[line] == 0
  {
    var lines := Wrap(prefix, names, suffix);
    forall m | 0 <= m < |lines| ensures lines[m][0] == prefix[0] { }
  }

  /**
   * A summing unit declares, and calls, each distinct callee exactly once and
   * nothing else: the prototype and the call of a name each occur once if the
   * name is a callee and never otherwise.
   */
  lemma SummingUnitMentions(callees: seq<string>, header: string, name: string)
    requires Distinct(callees)
    requires header != [] && header[|header| - 1] == '{'
    ensures var n := if name in callees then 1 else 0;
      multiset(SummingUnit(callees, header))[Prototype(name)] == n &&
      multiset(SummingUnit(callees, header))[CallLine(name)] == n
  {
    SummingUnitPrototypes(callees, header, name);
    SummingUnitCalls(callees, header, name);
  }

  /** A line ending in ';' occurs in a summing unit as often as among its prototypes and calls together. */
  lemma SummingUnitCount(callees: seq<string>, header: string, line: string)
    requires header != [] && header[|header| - 1] == '{'
    requires line != [] && line[|line| - 1] == ';' && line != "  int ret = 0;" && line != "  return ret;"
    ensures multiset(SummingUnit(callees, header))[line]
         == multiset(Prototypes(callees))[line] + multiset(Calls(callees))[line]
  {
    var middle, tail := ["", header, "  int ret = 0;"], ["  return ret;", "}"];
    assert line !in middle && line !in tail;
    assert SummingUnit(callees, header) == Prototypes(callees) + middle + Calls(callees) + tail;
  }

  lemma SummingUnitPrototypes(callees: seq<string>, header: string, name: string)
    requires Distinct(callees)
    requires header != [] && header[|header| - 1] == '{'
    ensures multiset(SummingUnit(callees, header))[Prototype(name)] == if name in callees then 1 else 0
  {
    var proto := Prototype(name);
    assert proto[|proto| - 1] == ';' && proto[0] == 'i';
    SummingUnitCount(callees, header, proto);
    WrapCount("int ", callees, "();", name);
    WrapFirstChar("  ret += ", callees, "();", proto);
  }

  lemma SummingUnitCalls(callees: seq<string>, header: string, name: string)
    requires Distinct(callees)
    requires header != [] && header[|header| - 1] == '{'
    ensures multiset(SummingUnit(callees, header))[CallLine(name)] == if name in callees then 1 else 0
  {
    var call := CallLine(name);
    assert call[|call| - 1] == ';' && call[0] == ' ' && call[2] == 'r' && call[5] == ' ';
    SummingUnitCount(callees, header, call);
    WrapCount("  ret += ", callees, "();", name);
    WrapFirstChar("int ", callees, "();", call);
  }

  lemma LeafNameInjective(o: Options, a: nat, b: nat)
    requires LeafFunctionName(o, a) == LeafFunctionName(o, b)
    ensures a == b
  {
    var w := SrcNamePadding(o);
    assert ZeroPad(a, w) == LeafFunctionName(o, a)[4..];
    assert ZeroPad(b, w) == LeafFunctionName(o, b)[4..];
    ZeroPadInjective(a, b, w);
  }

  lemma LibNameInjective(o: Options, a: nat, b: nat)
    requires o.libraryCapacity > 0
    requires LibFunctionName(o, a) == LibFunctionName(o, b)
    ensures a == b
  {
    var w := LibNamePadding(o);
    assert ZeroPad(a, w) == LibFunctionName(o, a)[4..];
    assert ZeroPad(b, w) == LibFunctionName(o, b)[4..];
    ZeroPadInjective(a, b, w);
  }

  /** The leaf names of a range are pairwise distinct. */
  lemma LeafNamesDistinct(o: Options, start: nat, end: nat)
    ensures Distinct(LeafNames(o, start, end))
  {
    var names := LeafNames(o, start, end);
    forall a, b | 0 <= a < b < |names| ensures names[a] != names[b] {
      if names[a] == names[b] {
        LeafNameInjective(o, start + a, start + b);
      }
    }
  }

  /** Leaf k is among the names of a range exactly when k lies in the range. */
  lemma LeafNameInRange(o: Options, start: nat, end: nat, k: nat)
    ensures LeafFunctionName(o, k) in LeafNames(o, start, end) <==> start <= k < end
  {
    var names := LeafNames(o, start, end);
    if LeafFunctionName(o, k) in names {
      var m :| 0 <= m < |names| && names[m] == LeafFunctionName(o, k);
      LeafNameInjective(o, start + m, k);
    }
    if start <= k < end {
      assert names[k - start] == LeafFunctionName(o, k);
    }
  }

  /**
   * Library unit j declares leaf k, and calls it, exactly once when k lies in
   * the library's range and not at all otherwise: no missing leaf (an
   * undefined reference) and no stray one.
   */
  lemma LibUnitMentionsItsRange(o: Options, libIndex: nat, k: nat)
    requires o.libraryCapacity > 0
    ensures var (s, e) := LibSrcIndices(o, libIndex);
      var n := if s <= k < e then 1 else 0;
      multiset(LibUnitLines(o, libIndex))[Prototype(LeafFunctionName(o, k))] == n &&
      multiset(LibUnitLines(o, libIndex))[CallLine(LeafFunctionName(o, k))] == n
  {
    var (s, e) := LibSrcIndices(o, libIndex);
    LeafNamesDistinct(o, s, e);
    LeafNameInRange(o, s, e, k);
    SummingUnitMentions(LeafNames(o, s, e), "int " + LibFunctionName(o, libIndex) + "() {", LeafFunctionName(o, k));
  }

  /**
   * Over all libraries that are built, each leaf is declared and called by
   * exactly one: library k / capacity.
   */
  lemma LeafInExactlyOneLibrary(o: Options, k: nat)
    requires o.libraryCapacity > 0 && k < o.leafCount
    ensures k / o.libraryCapacity < NumLibraries(o)
    ensures forall j :: 0 <= j < NumLibraries(o) ==>
      multiset(LibUnitLines(o, j))[Prototype(LeafFunctionName(o, k))] == (if j == k / o.libraryCapacity then 1 else 0)
    ensures forall j :: 0 <= j < NumLibraries(o) ==>
      multiset(LibUnitLines(o, j))[CallLine(LeafFunctionName(o, k))] == (if j == k / o.libraryCapacity then 1 else 0)
  {
    LeafOwnedByOneLibrary(o, k);
    forall j | 0 <= j < NumLibraries(o)
      ensures multiset(LibUnitLines(o, j))[Prototype(LeafFunctionName(o, k))] == (if j == k / o.libraryCapacity then 1 else 0)
      ensures multiset(LibUnitLines(o, j))[CallLine(LeafFunctionName(o, k))] == (if j == k / o.libraryCapacity then 1 else 0)
    {
      LibUnitMentionsItsRange(o, j, k);
    }
  }

  /** The main unit declares and calls library j exactly once when j is a built library, and never otherwise. */
  lemma MainUnitMentionsEveryLibrary(o: Options, j: nat)
    requires o.libraryCapacity > 0
    ensures var n := if j < NumLibraries(o) then 1 else 0;
      multiset(MainUnitLines(o))[Prototype(LibFunctionName(o, j))] == n &&
      multiset(MainUnitLines(o))[CallLine(LibFunctionName(o, j))] == n
  {
    var names := LibNames(o);
    forall a, b | 0 <= a < b < |names| ensures names[a] != names[b] {
      if names[a] == names[b] {
        LibNameInjective(o, a, b);
      }
    }
    if LibFunctionName(o, j) in names {
      var m :| 0 <= m < |names| && names[m] == LibFunctionName(o, j);
      LibNameInjective(o, m, j);
    }
    if j < |names| {
      assert names[j] == LibFunctionName(o, j);
    }
    SummingUnitMentions(names, "int main() {", LibFunctionName(o, j));
  }

  /** With no leaves the main unit declares and calls nothing and returns 0. */
  lemma MainUnitWithoutLeaves(o: Options)
    requires o.libraryCapacity > 0 && o.leafCount == 0
    ensures MainUnitLines(o) == ["", "int main() {", "  int ret = 0;", "  return ret;", "}"]
  {
    NoLeavesNoLibraries(o);
    assert LibNames(o) == [];
  }

  /**
   * The index enters a leaf unit only through its definition line: two leaf
   * units agree on every other line, and that line, which opens src_<i>,
   * differs between different leaves.
   */
  lemma LeafUnitsDifferOnlyInName(o: Options, i: nat, k: nat)
    ensures |LeafUnitLines(o, i)| == |LeafHead| + 1 + |LeafBody|
    ensures LeafUnitLines(o, i)[|LeafHead|] == LeafDefinition(LeafFunctionName(o, i))
    ensures forall m :: 0 <= m < |LeafUnitLines(o, i)| ==>
      (LeafUnitLines(o, i)[m] == LeafUnitLines(o, k)[m] <==> m != |LeafHead| || i == k)
  {
    var x, y := LeafDefinition(LeafFunctionName(o, i)), LeafDefinition(LeafFunctionName(o, k));
    if x == y {
      MiddleEqual("        int ", LeafFunctionName(o, i), LeafFunctionName(o, k), "() {");
      LeafNameInjective(o, i, k);
    }
    OneLineDiffers(LeafHead, x, y, LeafBody);
  }

  /** Two line lists that differ only in one middle line agree everywhere else. */
  lemma OneLineDiffers(head: seq<string>, x: string, y: string, body: seq<string>)
    ensures |head + [x] + body| == |head| + 1 + |body| && (head + [x] + body)[|head|] == x
    ensures forall m :: 0 <= m < |head + [x] + body| ==>
      ((head + [x] + body)[m] == (head + [y] + body)[m] <==> m != |head| || x == y)
  {
  }

  /** All n + L + 1 generated units have distinct paths, so no write overwrites another. */
  lemma GeneratedPathsDistinct(o: Options)
    requires o.libraryCapacity > 0
    ensures Distinct(GeneratedSourceList(o))
  {
    var all := GeneratedSourceList(o);
    forall a, b | 0 <= a < b < |all| ensures all[a] != all[b] {
      GeneratedPathPair(o, a, b);
    }
  }

  /** Position a of the generated list holds the source path of the unit GeneratedOrigin names. */
  lemma GeneratedSourceAt(o: Options, a: nat)
    requires o.libraryCapacity > 0 && a < |GeneratedSourceList(o)|
    ensures var (i, p) := GeneratedOrigin(o, a);
      GeneratedSourceList(o)[a] == SourceFilePath(o, i, p)
  {
  }

  /** Two positions of the generated list hold different paths. */
  lemma GeneratedPathPair(o: Options, a: nat, b: nat)
    requires o.libraryCapacity > 0 && a < b < |GeneratedSourceList(o)|
    ensures GeneratedSourceList(o)[a] != GeneratedSourceList(o)[b]
  {
    GeneratedSourceAt(o, a);
    GeneratedSourceAt(o, b);
    GeneratedOriginsDiffer(o, a, b);
    var (i, p1) := GeneratedOrigin(o, a);
    var (j, p2) := GeneratedOrigin(o, b);
    SourcePathsDiffer(o, i, p1, j, p2);
  }

  /** Leaf paths come out in increasing string order, as the zero-filling intends. */
  lemma LeafSourcesSorted(o: Options)
    ensures forall a, b :: 0 <= a < b < o.leafCount ==> LexLess(LeafSources(o)[a], LeafSources(o)[b])
  {
    forall a, b | 0 <= a < b < o.leafCount ensures LexLess(LeafSources(o)[a], LeafSources(o)[b]) {
      SourcePathOrder(o, a, b, "src");
    }
  }
}
