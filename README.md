# lod.py generator, modelled in Dafny

`lod.py` builds a large C++ program for stress-testing linkers and debuggers.
It takes a leaf count `n`, a library capacity `cap` and an output directory,
and produces the following:

- `n` leaf units `src/src_<i>.cpp`. Each defines `int src_<i>()` over a fixed
  body that exercises the standard containers.
- `ceil(n / cap)` library units `src/lib_<j>.cpp`. Each declares and sums the
  leaves of its range `[j*cap, min(j*cap+cap, n))`.
- One `src/main_<0 zero-filled to the leaf width>.cpp` (`main_0.cpp` when
  `n < 10`). It declares and sums every library function.
- A `build.ninja`. It compiles every unit, archives each library's objects
  into `lib/lib_<j>.a` and links `bin/lod`.

The project models this deterministic generator. It is split into four modules:

- `text.dfy` (`Text`) holds the pieces of Python the generator leans on:
  - `str(n)` and the zero-filled format `{n:0{w}}`;
  - string comparison;
  - `' '.join` and its inverse, splitting at a separator;
  - `str.replace`;
  - POSIX `os.path.join` and `os.path.basename`.
- `layout.dfy` (`Layout`) holds the options, the two paddings, every artifact
  path, the library count and the partition of leaves into libraries.
- `units.dfy` (`Units`) holds the text of the three kinds of C++ unit, and the
  generators that write them and return their paths.
- `ninja.dfy` (`Ninja`) holds the split of objects into archives and the lines
  of `build.ninja`.

A file write is modelled by the path and the lines written there. A run of the
generators returns its path lists together with a map from path to lines. The
generators keep the source's form:

- The loops that append to a list (`generate_obj_source_files`,
  `generate_lib_source_files`, `split_object_files_into_libraries`) are
  methods with loop invariants.
- So are the line-by-line writers (`generate_lib_source_file`,
  `generate_main_source_file`, `generate_ninja_file`).
- Each method is proved equal to a specification function. The properties are
  then proved about those functions.

The model follows the code as written. Four of its behaviours are easy to
miss:

- Library and main file names are padded to the leaf width, not the library
  width. They go through `get_source_file_path`. Only the function names
  `lib_<j>` inside the units use the library width.
- With a zero capacity, the leaf units are written first. The division by zero
  comes only when the library count is first needed. `GenerateSourceFiles`
  returns the error together with the leaf files already written.
- `split_object_files_into_libraries` runs before `build.ninja` is opened, so
  its errors leave no Ninja file. It can raise two errors:
  - a zero capacity gives a division by zero;
  - a library list shorter than the library count gives an `IndexError`.
- `os.path.join` and `basename` are modelled with their POSIX behaviour. An
  absolute second argument wins; a first argument ending in `/` gets no second
  separator.

## Model

| member | source | states |
|---|---|---|
| Text.Decimal | lod.py:43 | `str(n)` is a non-empty string of digits with no leading zero unless it is "0" |
| Text.ValueOfDecimal | lod.py:43 | reading the digits of `str(n)` back gives `n` |
| Text.DecimalLengthMonotone | lod.py:42-43 | a larger number never has fewer digits |
| Text.ZeroPad | lod.py:69 | `{n:0{w}}` is all digits and has length `max(w, len(str(n)))` |
| Text.ZeroPadValue | lod.py:69 | the zero-filled text still reads as `n` |
| Text.ZeroPadInjective | lod.py:69 | two numbers zero-filled to the same width give equal text only if they are equal |
| Text.ZeroPadWidth | lod.py:42-43 | a number no larger than a bound fills exactly `len(str(bound))` characters |
| Text.ZeroPadOrder | lod.py:69 | zero-filled to the width of a bound, string order is numeric order, in both directions |
| Text.LexLess | lod.py:66-70 | Python's `a < b` on strings: code point by code point, a proper prefix first; its order facts are the `LexLess*` lemmas below |
| Text.LexLessDigits | lod.py:69 | for digit strings of equal length, `<` on strings agrees with `<` on their values |
| Text.LexLessCommonPrefix | lod.py:66-70 | a shared prefix does not change how two strings compare |
| Text.LexLessSameLength | lod.py:66-70 | two different strings of equal length compare the same whatever follows them |
| Text.LexLessIrreflexive | lod.py:66-70 | no string is less than itself |
| Text.Join | lod.py:286 | `sep.join(xs)`: the items with `sep` between neighbours, `""` for no items; `SplitJoin` is its inverse |
| Text.SplitJoin | lod.py:286 | splitting `sep.join(xs)` at `sep` gives back `xs` for a non-empty list of items without `sep` (`"".split(" ")` is `[""]`, so the empty list does not come back) |
| Text.ReplaceAll | lod.py:74 | `s.replace(pat, rep)` for a non-empty pattern: every occurrence, left to right, without overlap; its behaviour on paths is the `ReplaceAll*` lemmas and `CppToObjName` |
| Text.ReplaceAllSkip | lod.py:74 | text without the first character of the pattern passes through `replace` unchanged |
| Text.ReplaceAllKeepsFirst | lod.py:74 | without an occurrence at the front, `replace` keeps the first character |
| Text.ReplaceAllSplitAtSlash | lod.py:74 | for a pattern without `/`, `replace` on `a + b` with `a` ending in `/` is `replace(a) + replace(b)` |
| Text.ReplaceAllEndsWithSlash | lod.py:74 | replacing a pattern without `/` keeps a trailing `/` |
| Text.PathJoin | lod.py:55-91 | POSIX `os.path.join(a, b)`: an absolute `b` wins; otherwise one `/` separates them unless `a` is empty or ends in `/`; `Layout.PathJoinRelative` gives its relative case |
| Text.Basename | lod.py:74 | `basename` contains no `/` |
| Text.BasenameAfterSlash | lod.py:74 | `basename` of a directory ending in `/` followed by a slash-free name is that name |
| Text.CppToObjName | lod.py:74 | `basename(replace(dir/<stem>.cpp, ".cpp", ".o"))` is `<stem>.o` for any directory, even one that contains ".cpp" |
| Layout.SrcNamePadding | lod.py:42-43 | `len(str(n))`; `Layout.LeafNameWidth` shows every leaf index fills exactly this width |
| Layout.NumLibraries | lod.py:48-49 | the library count `r` is the integer ceiling of `n / cap`: `n <= r*cap < n + cap` |
| Layout.NumLibrariesToBuild | lod.py:48-49 | the count fails with a division by zero exactly when `cap = 0`; otherwise it is the ceiling |
| Layout.LibNamePadding | lod.py:45-46 | `len(str(L))` for the library count `L`; `Layout.LibNameWidth` shows every library index fills exactly this width |
| Layout.LibSrcIndices | lod.py:100-103 | `(i*cap, min(i*cap + cap, n))`; the range lemmas below show these ranges tile `[0, n)` |
| Layout.NoLeavesNoLibraries | lod.py:42-49 | with `n = 0` there are no libraries, and both paddings are 1 (`len("0")`) |
| Layout.LibraryRangeNonEmpty | lod.py:100-103 | range `i` of an existing library starts at `i*cap` and is non-empty, inside `[0, n)` and at most `cap` long |
| Layout.LibraryRangesAdjacent | lod.py:100-103 | each range ends where the next one starts |
| Layout.LibraryRangesSpan | lod.py:100-103 | the first range starts at 0 and the last ends at `n`, so the ranges tile `[0, n)` |
| Layout.DivRange | lod.py:100-103 | an index in `[i*cap, i*cap+cap)` divides to `i` |
| Layout.LeafOwnedByOneLibrary | lod.py:100-103 | leaf `k` lies in range `i` exactly when `i = k / cap`, and that library exists |
| Layout.LeafNameWidth | lod.py:42-43 | every leaf index below `n` is zero-filled to exactly `len(str(n))` digits |
| Layout.LibNameWidth | lod.py:45-46 | every library index below the count is zero-filled to exactly the library width |
| Layout.BuildDirectory | lod.py:51-52 | the output directory itself |
| Layout.SrcDirectory | lod.py:54-55 | `os.path.join(<out>, "src")` |
| Layout.ObjDirectory | lod.py:57-58 | `os.path.join(<out>, "obj")` |
| Layout.LibDirectory | lod.py:60-61 | `os.path.join(<out>, "lib")` |
| Layout.BinDirectory | lod.py:63-64 | `os.path.join(<out>, "bin")`; `Layout.TopLevelPaths` gives the executable's path under it |
| Layout.SourceFilePath | lod.py:66-70 | `<out>/src/<prefix>_<index zero-filled to the leaf width>.cpp`, for every prefix; shape, injectivity, disjointness and order are the lemmas below |
| Layout.ObjFilePath | lod.py:72-75 | `<out>/obj/` joined to the basename of the source path with `.cpp` replaced by `.o`; `Layout.ObjOfSource` evaluates it on generated sources |
| Layout.LibFilePath | lod.py:77-81 | `<out>/lib/lib_<index zero-filled to the library width>.a`; `Layout.LibPathInjective` and `Layout.LibPathOrder` are its properties |
| Layout.BinFilePath | lod.py:83-85 | `<out>/bin` joined to a name |
| Layout.MainExe | lod.py:87-88 | the executable `<out>/bin/lod` |
| Layout.NinjaFilePath | lod.py:90-91 | `<out>/build.ninja` |
| Layout.PathJoinRelative | lod.py:70 | `os.path.join(a, b)` for a relative `b` is `a`, a separator if needed, then `b` |
| Layout.SourcePathShape | lod.py:66-70 | a source path is `<out>/src/<prefix>_<i zero-filled to the leaf width>.cpp` |
| Layout.SourcePathInjective | lod.py:66-70 | two indices give the same source path only if they are equal |
| Layout.SourcePathsDisjoint | lod.py:66-70 | prefixes with different first letters (`src`, `lib`, `main`) never give the same path |
| Layout.SourcePathsDiffer | lod.py:66-70 | two units with different prefixes, or the same prefix and different indices, get different source paths |
| Layout.SourcePathOrder | lod.py:66-70 | up to `n`, source paths sort exactly as their indices do |
| Layout.LibPathInjective | lod.py:77-81 | two indices give the same archive path only if they are equal |
| Layout.LibPathOrder | lod.py:77-81 | up to the library count, archive paths sort exactly as their indices do |
| Layout.ObjOfSource | lod.py:72-75 | the object path of source `<prefix>_<i>.cpp` is `<out>/obj/<prefix>_<i>.o` |
| Layout.ObjNamesDiffer | lod.py:72-75 | objects of different units get different paths: same prefix with different indices, or different prefixes |
| Layout.TopLevelPaths | lod.py:83-91 | the executable is `<out>/` + `bin/lod` and the Ninja file `<out>/` + `build.ninja`, with the separator `os.path.join` adds; the two differ |
| Layout.ExeIsNoArchive | lod.py:77-88 | no archive path is the executable's path |
| Units.LeafFunctionName | lod.py:121 | `src_<i>` with `i` zero-filled to the leaf width, the name used at lod.py:121, 178 and 185; `Units.LeafNameInjective` is its property |
| Units.LibFunctionName | lod.py:182 | `lib_<j>` with `j` zero-filled to the LIBRARY width, the name used at lod.py:182, 208 and 215 (the file `lib_<j>.cpp` uses the leaf width); `Units.LibNameInjective` is its property |
| Units.MainSourcePath | lod.py:204 | `SourceFilePath(0, "main")`: `main_<0 zero-filled to the leaf width>.cpp`; `Units.LeafPathElsewhere` and `Units.GeneratedPathsDistinct` separate it from every other unit path |
| Units.Prototype | lod.py:178 | `int <name>();`, the declaration written at lod.py:178 and 208 (its text pieces are the constants `PrototypeOpen` and `CallClose`); `Units.SummingUnitMentions` counts it |
| Units.CallLine | lod.py:185 | `  ret += <name>();`, the call written at lod.py:185 and 215 (constants `CallOpen` and `CallClose`); `Units.SummingUnitMentions` counts it |
| Units.LeafDefinition | lod.py:121 | `        int <name>() {`, the definition line of the leaf template, with the template's eight-space indent; `Units.LeafUnitsDifferOnlyInName` shows it is the only line that differs between leaves |
| Units.LeafUnitLines | lod.py:105-157 | the leaf template of lod.py:109-155, line by line: the constant `LeafHead` (the blank first line and the includes, lines 109-120), then `LeafDefinition(src_<i>)`, then the constant `LeafBody` (lines 122-155, ending in eight spaces); `Units.LeafUnitsDifferOnlyInName` is its property |
| Units.GenerateObjSourceFile | lod.py:105-157 | leaf unit `i` written at `SourceFilePath(i, "src")` |
| Units.LibUnitLines | lod.py:170-188 | the prototypes of the range's leaves, a blank line, `int lib_<j>() {`, `int ret = 0;`, one call per leaf, `return ret;`, `}`; `Units.LibUnitMentionsItsRange` is its property |
| Units.MainUnitLines | lod.py:201-218 | the same shape over `lib_0 .. lib_{L-1}` with `int main() {`; `Units.MainUnitMentionsEveryLibrary` is its property |
| Units.FreshLeafSource | lod.py:164-166 | the path of leaf `i` is none of the paths written before it |
| Units.FreshLibSource | lod.py:195-197 | the path of library unit `j` is none of the paths written before it |
| Units.LeafSources | lod.py:159-168 | the list `generate_obj_source_files` returns: `SourceFilePath(i, "src")` for `i` in `0 .. n-1`, in order; `Units.LeafSourcesSorted` and `Units.FreshLeafSource` are its properties |
| Units.LibSources | lod.py:190-199 | the list `generate_lib_source_files` returns: `SourceFilePath(j, "lib")` for `j` in `0 .. L-1`, in order; `Units.FreshLibSource` is its property |
| Units.GeneratedSourceList | lod.py:225-229 | the three returned lists in the order `generate_ninja_file` compiles them: leaves, library units, main; `Units.GeneratedPathsDistinct` is its property |
| Units.GenerateObjSourceFiles | lod.py:105-168 | returns the `n` leaf paths in index order; the files written are exactly those paths, each holding leaf unit `i` |
| Units.GenerateLibSourceFile | lod.py:170-188 | writes, at `lib_<j>` with the leaf padding, the prototypes of its range, the blank line, `int lib_<j>() {`, `int ret = 0;`, one call per leaf of the range in the same order, `return ret;` and `}` |
| Units.GenerateLibSourceFiles | lod.py:190-199 | returns the library unit paths in index order; the files written are exactly those, each holding library unit `j` |
| Units.GenerateMainSourceFile | lod.py:201-218 | writes, at `main_0` with the leaf padding, the prototypes of `lib_0 .. lib_{L-1}`, `int main() {` and one call per library in the same order |
| Units.GenerateSourceFiles | lod.py:220-229 | with capacity 0, fails with a division by zero after writing every leaf unit; otherwise returns the three path lists, every file holding its unit |
| Units.LeafPathElsewhere | lod.py:66-70 | no leaf path is a library unit's or the main unit's path |
| Units.MergedFiles | lod.py:225-229 | the three groups of written files share no path, so every write survives in the merged tree |
| Units.SummingUnitMentions | lod.py:170-218 | a library or main unit declares, and calls, each of its distinct callees exactly once and no other name |
| Units.LeafNameInjective | lod.py:121 | two leaf indices give the same function name `src_<i>` only if they are equal |
| Units.LibNameInjective | lod.py:182 | two library indices give the same `lib_<j>` only if they are equal |
| Units.LeafNamesDistinct | lod.py:177-178 | the leaf names of a range are pairwise distinct |
| Units.LeafNameInRange | lod.py:176-178 | leaf `k` is named in a range exactly when `k` lies in it |
| Units.LibUnitMentionsItsRange | lod.py:170-188 | library unit `j` declares leaf `k` once and calls it once when `k` is in its range, and never otherwise |
| Units.LeafInExactlyOneLibrary | lod.py:100-103 | every leaf is declared and called by exactly one library unit, number `k / cap`, and by no other |
| Units.MainUnitMentionsEveryLibrary | lod.py:201-218 | the main unit declares and calls `lib_<j>` once for each existing library and never for any other index |
| Units.MainUnitWithoutLeaves | lod.py:201-218 | with no leaves the main unit has no prototypes and no calls; it returns 0 |
| Units.LeafUnitsDifferOnlyInName | lod.py:105-157 | two leaf units differ only in their definition line, which names `src_<i>` |
| Units.GeneratedPathsDistinct | lod.py:225-229 | all generated unit paths (leaves, libraries, main) are pairwise distinct |
| Units.GeneratedOriginsDiffer | lod.py:225-229 | two positions of the generated list come from units with different prefixes, or the same prefix and different indices |
| Units.GeneratedSourceAt | lod.py:225-229 | position `a` of the generated list is the source path of the unit it comes from: leaf `a`, library unit `a - n`, or main |
| Units.GeneratedPathPair | lod.py:225-229 | two different positions of the generated list hold different paths |
| Units.LeafSourcesSorted | lod.py:159-168 | the leaf paths come in increasing string order |
| Ninja.Slice | lod.py:238 | a Python slice with clamped bounds: its length and its elements |
| Ninja.LibraryEntry | lod.py:236-239 | one pass of the split loop: `(LibFilePath(i), obj[start:end] + [lib[i]])` for the range `(start, end)` of library `i`; `Ninja.PlanEntry` is its property |
| Ninja.LibraryPlan | lod.py:232-240 | one entry per library in index order: `(LibFilePath(i), obj[start:end] + [lib[i]])`; `Ninja.LeafPartsCoverObjects` and `Ninja.PlanEntry` are its properties |
| Ninja.SplitObjectFilesIntoLibraries | lod.py:232-240 | a zero capacity raises a division by zero; a short library list raises an index error; otherwise it returns one `(lib path, obj[start:end] + [lib[i]])` entry per library, in index order |
| Ninja.PlanEntry | lod.py:236-239 | entry `i` is named by archive `i` and ends with library unit `i`; it holds at most `cap + 1` sources |
| Ninja.LeafPartAt | lod.py:237-238 | the leaf part of entry `i` is `obj[i*cap : min((i+1)*cap, n)]` |
| Ninja.LeafPartsPrefix | lod.py:232-240 | the leaf parts of the first `m` entries, concatenated, are `obj[: min(m*cap, n)]` |
| Ninja.LeafPartsCoverObjects | lod.py:232-240 | concatenating the leaf parts of all entries gives back `obj_src` |
| Ninja.Section | lod.py:255-259 | the banner `section(name)` prints: a blank line, `#`, `# <name>`, `#` |
| Ninja.CFlags | lod.py:244 | `-Wall -Wextra -O0 -g -gsplit-dwarf ` followed by the user's flags |
| Ninja.Preamble | lod.py:261-276 | the Variables banner, the four bindings `c`, `cflags`, `linker`, `linkflags`, the Rules banner and the rules `cc`, `archive` and `link` with their commands |
| Ninja.ObjFiles | lod.py:285 | the object path of each source, in order, as the comprehensions at lod.py:285 and 289 build it |
| Ninja.LibraryNames | lod.py:290 | the archive name of each entry of the split, in order |
| Ninja.CompileEdges | lod.py:279-281 | `build <obj>: cc <src>` for each source, in order |
| Ninja.ArchiveEdges | lod.py:284-286 | `build <lib>: archive <objs joined by spaces>` for each entry of the split, in order |
| Ninja.LinkInputs | lod.py:289-291 | the main objects followed by the archive names; `Ninja.LinkInputsShape` is its property |
| Ninja.NinjaLines | lod.py:242-297 | the lines of `build.ninja`: variables, rules, compile edges, archive edges, link edge and default, each section under its banner; `Ninja.NinjaStatementOrder` is its property |
| Ninja.GenerateNinjaFile | lod.py:242-297 | split errors are returned before anything is written; otherwise `build.ninja` holds the variables, rules, compile, archive, link and default statements |
| Ninja.NinjaStatementOrder | lod.py:278-297 | the file has `36 + sources + libraries` lines: one `cc` edge per source in `obj + lib + main` order, then one `archive` edge per library in index order, the link edge, and `default` last |
| Ninja.NinjaCompileLine | lod.py:279-281 | line `22 + m` is the compile edge of source `m` |
| Ninja.NinjaArchiveLine | lod.py:284-286 | the archive edge of library `i` sits `i` lines after the start of the archive section |
| Ninja.ArchiveInputBuilt | lod.py:279-286 | every object an archive edge consumes is the output of a compile edge |
| Ninja.EveryInputIsBuilt | lod.py:278-293 | the build graph is closed: every archive input, and every link input, is produced by a compile edge or an archive edge |
| Ninja.GeneratedLeafObject | lod.py:279-281 | for the generated tree, compile output `k` is the object of leaf `k` |
| Ninja.GeneratedLibObject | lod.py:279-281 | compile output `n + j` is the object of library unit `j` |
| Ninja.GeneratedMainObject | lod.py:279-281 | the last compile output is the main object |
| Ninja.GeneratedObjectAt | lod.py:279-281 | every compile output of the generated tree is the object of the unit at that position |
| Ninja.GeneratedObjectPair | lod.py:279-281 | two different positions of the generated tree compile to different objects |
| Ninja.GeneratedObjectsDistinct | lod.py:279-281 | the compile edges of the generated tree have pairwise distinct outputs |
| Ninja.GeneratedArchiveSources | lod.py:238 | the sources of archive `i` are the leaves of its range and then library unit `i` |
| Ninja.GeneratedArchiveContents | lod.py:284-286 | archive `i` holds the objects of its range's leaves, in order, followed by the object of library unit `i` |
| Ninja.LeafObjectInOneArchive | lod.py:232-240 | the object of leaf `k` appears once in archive `k / cap` and in no other archive |
| Ninja.LinkInputsShape | lod.py:289-291 | the link inputs are the main objects followed by the archive paths, each in order |
| Ninja.LibraryPlanNames | lod.py:236 | the split names its entries by archive path in index order |
| Ninja.GeneratedLinkInputs | lod.py:288-293 | the executable links the main object, then archives `0 .. L-1` in index order, which is also increasing path order |

## Left out

- `parse_args` (lod.py:11-40) is not modelled. The options are a plain datatype: leaf count, capacity, output directory, compiler and extra flags.
- Counts are natural numbers. argparse would accept negative counts; they are not modelled.
- `get_num_libraries_to_build` uses `math.ceil` on a float quotient. It is modelled as the exact integer ceiling, so float rounding for huge counts is not modelled.
- `create_output_dirs` and the `open`/`write` calls are not modelled. A write is modelled by the path and the lines written, and a run of writes by a map from path to lines.
- I/O errors are not modelled.
- Progress output with `print` (lod.py:163-167, 194-198, 221, 251) is left out; it is console output only.
- `build`, `run`, `sizeof_fmt`, `get_file_sizes`, `stats` and `main` (lod.py:299 onwards) are left out. They run subprocesses, do floating-point formatting or list directories.
- Lines are modelled without their terminating newline. The leaf unit is split at its newlines; its last line is eight spaces and has no newline, as in the source.
- Ninja's `$` escaping is not modelled, because the source writes paths unescaped.
- Text.SplitJoin: is a statement about `str.join` only. No lemma reads an archive or link line back the way Ninja does; Ninja's lexer also ends a path at a space, `:` or `|` and treats `$` as an escape, and the source escapes none of them, so an output directory holding any of these characters gives a broken edge.
- Option strings (`--clang`, `--cflags`, the output directory) are assumed to hold no newline. A line of the model is one `puts` call, so `Ninja.NinjaStatementOrder` counts `puts` lines, not physical lines.
- GenerateLibSourceFile: requires a positive capacity. With capacity 0 the source raises ZeroDivisionError while computing the library padding. That error is modelled where the run first reaches it, in NumLibrariesToBuild and GenerateSourceFiles.
- GenerateLibSourceFiles: requires a positive capacity, for the same reason.
- GenerateMainSourceFile: requires a positive capacity, for the same reason.
- The path, name and unit helpers that need the library count require a positive capacity for the same reason: `LibNamePadding`, `LibFilePath`, `LibFunctionName`, `LibSources`, `LibUnitLines` and `MainUnitLines`.
- SplitObjectFilesIntoLibraries and GenerateNinjaFile need no positive capacity; both return the errors.
- Ninja.LeafPartsCoverObjects: assumes `obj_src` holds exactly `n` paths, which is what `generate_obj_source_files` returns. For a list of another length, the slices clamp and the statement does not apply.
