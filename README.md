# Coverage data store, modelled in Dafny

This project models `CoverageData`, the store at the heart of coverage.py's
data file handling (`coverage/data.py`). The store keeps two maps in memory:
source file name to the set of executed line numbers, and source file name to
the set of executed arcs (pairs of line numbers). It accumulates measurements
into those maps, turns them into the record that is pickled to the data file,
reads such a record back defensively, merges the data files written by
parallel runs, and answers queries about what was executed.

Modules:

- `Wrappers` (`wrappers.dfy`): `Option`, for Python's `None`-or-value.
- `Sorting` (`sorting.dfy`): sorting a finite set into a strictly increasing
  sequence under a strict total order (`Sorted`), the two orders Python uses
  here (`IntLess` for line numbers, `PairLess`, lexicographic, for arcs), and
  the fact that a strictly sorted sequence is determined by its elements.
- `Paths` (`paths.dfy`): `str.startswith` and the last path component
  (`os.path.split(p)[1]`, the same as `os.path.basename(p)` on POSIX).
- `Data` (`data.dfy`): the store maps as `map<string, set<T>>`, the
  specification functions (`Merge` for `setdefault(f, {}).update(...)`,
  `CombineLines` for the combine loop, `Gathered` as an order-free reference
  for what the parallel files hold), the record format (`Stored`), its
  construction (`BuildRecord`) and defensive decoding (`DecodeFile`), the
  lemmas about them, and the class `CoverageData` with the fields
  `collector`, `useFile`, `filename`, `lines` and `arcs`, whose methods update
  them in place.

The pickled file is modelled by the datatype `Stored`: either something that
is not a dict, or a dict whose 'lines', 'arcs' and 'collector' entries are each
absent, present, or present but impossible to unpack (`Malformed`: `.items()`
or iteration would raise). What loading a file gives is an `Option<Stored>`,
`None` standing for a load that raised (missing file, unreadable or corrupt
pickle). A directory listing is a sequence of entry names, each with what
loading that entry gives.

`BuildRecord` follows `write_file`'s `if arcs:` test (coverage/data.py:110-112):
'arcs' is written when the arc map has any file at all, so a file recorded
with an empty arc set still produces the key. The combine step folds in only
the line data of the parallel files (coverage/data.py:166-168), and the model
keeps that: `CombineParallelData` leaves the arcs unchanged.

## Model

| member | source | states |
|---|---|---|
| `Data.DataFileName` | coverage/data.py:48-51 | case by case, the name is the non-empty base name followed by the suffix (nothing for no suffix); with no or an empty base name, the environment value (even an empty one) followed by the suffix; with neither, `.coverage` followed by the suffix |
| `Data.CoverageData.constructor` | coverage/data.py:30-65 | a new store (base name, suffix and collector default to none, as in the source) keeps the collector, uses a file, has the resolved data-file name and empty line and arc maps |
| `Data.CoverageData.UseFile` | coverage/data.py:67-69 | the file-use flag becomes the argument (default true) and nothing else changes |
| `Data.CoverageData.Read` | coverage/data.py:71-76 | with a file, the maps become what decoding the data file gives; without one, both become empty; nothing else changes |
| `Data.CoverageData.Write` | coverage/data.py:78-81 | a record is written exactly when a file is used; it is the record built from the store and decodes back to the store's maps |
| `Data.CoverageData.Erase` | coverage/data.py:83-89 | both maps become empty whatever the file-use flag; the file is removed exactly when a file is used, the name is non-empty and the file exists |
| `Data.CoverageData.LineData` | coverage/data.py:91-95 | the same files as the line map, each with a strictly increasing list holding exactly its set, as many entries as the set |
| `Data.CoverageData.ArcData` | coverage/data.py:97-101 | the same files as the arc map, each with a list strictly increasing in tuple order holding exactly its set |
| `Data.Snapshot` | coverage/data.py:93-100 | the snapshot has the map's files, and each list is strictly sorted, of the set's size, with exactly the set's elements |
| `Sorting.Sorted` | coverage/data.py:94 | the sorted list of a set is strictly increasing, holds exactly the set's elements and has its size |
| `Sorting.SortedUnique` | coverage/data.py:94-100 | two strictly sorted lists with the same elements are equal, so the snapshot is determined by the set alone |
| `Data.BuildRecord` | coverage/data.py:103-115 | the record is a dict that always has 'lines' (the line snapshot), has 'arcs' exactly when the arc map has a file (then the arc snapshot), and has 'collector' exactly when a non-empty collector is configured |
| `Data.CoverageData.ReadFile` | coverage/data.py:124-126 | the maps become what decoding the given file gives |
| `Data.FromKeys` | coverage/data.py:145-153 | unpacking keeps the files of the loaded map and gives each the set of its list's elements |
| `Data.DecodeFile` | coverage/data.py:137-156 | never fails: a failed load, a non-dict or unpackable 'lines' gives two empty maps; an absent key gives an empty map; present keys give their files with exactly their elements; unpackable 'arcs' gives empty arcs but keeps the lines |
| `Data.RoundTrip` | coverage/data.py:109-153 | decoding the record built from any line and arc maps gives back exactly those maps, an absent 'arcs' key decoding to no arcs |
| `Data.CoverageData.AddLineData` | coverage/data.py:170-177 | the line map becomes the old one merged with the input: each input file gets its old set (or none) united with the input set; other files and the arcs are unchanged |
| `Data.CoverageData.AddArcData` | coverage/data.py:179-186 | the arc map becomes the old one merged with the input; the lines are unchanged |
| `Data.Get` | coverage/data.py:199 | the set stored for a file, the empty set for a file with no entry (`get(f) or {}`) |
| `Data.MergeAt` | coverage/data.py:176-177 | `Merge`, the effect of `setdefault(f, {}).update(...)` over every input file: after a merge a file has an entry iff it had one or the input names it, and its set is the union of the two; files the input does not name keep their set |
| `Data.MergeIdempotent` | coverage/data.py:176-177 | adding the same data twice gives the same store as adding it once |
| `Data.MergeCommutes` | coverage/data.py:185-186 | two additions give the same store in either order |
| `Data.AddTwiceIsUnion` | coverage/data.py:176-177 | two separate additions of sets A and B for one file leave the old set united with A and B |
| `Data.EntryLines` | coverage/data.py:164-166 | an entry whose name lacks the prefix contributes nothing; one that has it contributes the lines decoded from it |
| `Data.CombineLines` | coverage/data.py:163-168 | folding a listing in never loses a file or a line the store had |
| `Data.CoverageData.CombineParallelData` | coverage/data.py:158-168 | the lines become the old lines with every listing entry, in order, folded in when its name starts with the last component of the data-file name; the arcs are unchanged |
| `Data.CombineIsMerge` | coverage/data.py:162-168 | the entry-by-entry fold equals merging, once, everything the matching entries hold |
| `Data.CombinedAt` | coverage/data.py:163-168 | after combining, a file has an entry iff it had one or some matching entry's decoded lines name it, and a line is recorded iff it was before or some matching entry records it |
| `Data.CombineDependsOnlyOnMatching` | coverage/data.py:163-164 | two listings with the same matching entries combine to the same store: non-matching entries contribute nothing |
| `Data.CombineOrderIndependent` | coverage/data.py:163 | any reordering of the directory listing combines to the same store |
| `Data.CombineIdempotent` | coverage/data.py:158-168 | combining the same files a second time changes nothing |
| `Data.CombineScenario` | coverage/data.py:162-168 | files `cov.1` and `cov.2` with lines {1,2,3} and {2,3,4} for `a.py` combine to {1,2,3,4}; a non-matching entry and a corrupt one add nothing |
| `Paths.StartsWith` | coverage/data.py:164 | a name starts with a prefix exactly when the prefix is no longer than the name and equals its first characters |
| `Paths.PathTail` | coverage/data.py:162 | the last path component is no longer than the path |
| `Paths.PathTailIsLastComponent` | coverage/data.py:162 | the prefix used by combine is the part of the data-file name after its last separator |
| `Paths.PathTailAppend` | coverage/data.py:162-164 | a name made by appending a separator-free suffix has the unsuffixed name's last component as a prefix, so parallel files are picked up by combine |
| `Data.CoverageData.ExecutedFiles` | coverage/data.py:188-190 | exactly the files of the line map |
| `Data.CoverageData.ExecutedLines` | coverage/data.py:192-199 | the file's set of lines, and the empty set for a file with no entry |
| `Data.CoverageData.ExecutedArcs` | coverage/data.py:201-203 | the file's set of arcs, and the empty set for a file with no entry |
| `Data.SummaryKey` | coverage/data.py:214-217 | with full paths the key is the file name itself; otherwise it is the last path component, which holds no separator |
| `Sorting.IntLessIsStrictTotalOrder` | coverage/data.py:94 | `IntLess`, the order `sorted` uses on line numbers, is a strict total order |
| `Sorting.PairLessIsStrictTotalOrder` | coverage/data.py:100 | `PairLess`, the lexicographic order `sorted` uses on arcs, is a strict total order |
| `Data.CoverageData.Summary` | coverage/data.py:205-220 | one key per file (full path, or by default the last component); each value is the line count of some file with that key; a file whose key no other file shares gets its own count; with full paths the result maps every file to its count |

## Left out

- Pickling and unpickling and the file handles of `write_file` and `raw_data` (coverage/data.py:117-122, 128-135) are byte-level I/O in a foreign library: the record is the datatype `Stored`, writing returns it, and loading is an `Option<Stored>` argument.
- `raw_data` itself is not modelled, being only that load; the ad-hoc `__main__` block that prints a data file is not modelled.
- The environment lookup of `COVERAGE_FILE` is an argument of the constructor (`envFile`).
- Data.DataFileName: does not convert the name to an absolute path (`os.path.abspath`), because that depends on the working directory; the store keeps the name as resolved from its arguments, without the normalisation `abspath` does (dropping a trailing separator, resolving `.` and `..`, turning the empty name into the working directory).
- Data.CoverageData.CombineParallelData: because the name is not made absolute, its prefix can differ from the source's: for a name with a trailing separator such as `out/` the model's prefix is empty, so every entry is combined, where the source's prefix is `out`; a name whose last component is `.` or `..` gives those as prefix where the source's resolved name gives a real directory name.
- Data.CoverageData.Erase: because the name is not made absolute, an empty name (an empty `COVERAGE_FILE`) makes the model report no removal and empty the maps, where the source's name is the working directory, which exists, so it calls `os.remove` on a directory, which raises before the maps are cleared.
- Data.CoverageData.Erase: an `os.remove` that raises (coverage/data.py:87) leaves the source's maps as they were; the model always empties them, because file-system failures are not modelled.
- Data.CoverageData.CombineParallelData: `os.listdir` raises when the data directory does not exist (coverage/data.py:163); the model takes the listing as given and has no such failure.
- Data.CoverageData.ExecutedLines: returns the set by value; the source returns the stored dict itself (coverage/data.py:199), so a caller that mutates it changes the store. Data.CoverageData.ExecutedArcs does the same (coverage/data.py:203). Aliasing is not modelled.
- Paths.PathTail: models POSIX paths with `/` as the only separator; `os.path` on other platforms splits on other separators as well.
- `os.path.exists` and `os.remove` in `erase` are replaced by the argument `fileExists` and the result `removed`; the file system itself is not modelled.
- `os.listdir` and `os.path.join` in `combine_parallel_data` are replaced by the listing argument; each entry carries what loading it gives.
- Data.CoverageData.ExecutedFiles: returns the set of files rather than a list, because the list's order is that of a dict and unspecified.
- Data.CoverageData.Summary: when two files share a last component, the count kept is that of one of them, not a specific one, because dict iteration order is unspecified; the loop visits files in an arbitrary order.
- The loaded values are typed: line numbers are integers and arcs pairs of integers. A 'lines' or 'arcs' entry of any other shape is `Malformed` as a whole, standing for the exception `_read_file` catches; elements of other hashable types, which Python would store, are not represented.
- The sets are Dafny sets; the dicts with `None` values that the source uses as sets are not modelled as dicts.
