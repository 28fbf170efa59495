/**
 * The coverage data store: per-file sets of executed lines and arcs, the
 * data-file record built from them and read back into them, and the merge of
 * parallel data files.
 */
module Data {
  import opened Wrappers
  import opened Sorting
  import opened Paths

  /** A line number. */
  type Line = int

  /** A transition between two executed lines. */
  type Arc = (int, int)

  /** A store map: source file name to the set of its executed lines or arcs. */
  type FileMap<T> = map<string, set<T>>

  /** The data-file name used when neither a name nor the environment gives one. */
  const FilenameDefault: string := ".coverage"

  // ---------------------------------------------------------------- file name

  /**
   * The data-file name: `basename` if it is given and non-empty, otherwise the
   * value of the environment variable (`envFile`, even when empty), otherwise
   * the default name; then the suffix, if any, appended.
   */
  function DataFileName(basename: Option<string>, envFile: Option<string>, suffix: Option<string>): (r: string)
    ensures basename.Some? && basename.value != "" ==> r == basename.value + suffix.GetOr("")
    ensures (basename.None? || basename.value == "") && envFile.Some? ==> r == envFile.value + suffix.GetOr("")
    ensures (basename.None? || basename.value == "") && envFile.None? ==> r == FilenameDefault + suffix.GetOr("")
  {
    var base := if basename.Some? && basename.value != "" then basename.value else envFile.GetOr(FilenameDefault);
    if suffix.Some? && suffix.value != "" then base + suffix.value else base
  }

  // ------------------------------------------------------------- accumulation

  /** The set stored for `f`, or the empty set when `f` has no entry. */
  function Get<T>(m: FileMap<T>, f: string): (r: set<T>)
    ensures f !in m ==> r == {}
    ensures f in m ==> r == m[f]
  {
    if f in m then m[f] else {}
  }

  /**
   * `m` after `m.setdefault(f, {}).update(d[f])` for every file `f` of `d`:
   * every file of either map, with the union of what the two hold for it.
   */
  function Merge<T>(m: FileMap<T>, d: FileMap<T>): FileMap<T> {
    map f | f in m.Keys + d.Keys :: Get(m, f) + Get(d, f)
  }

  /** Adding data for one file touches no other file, and unions for that one. */
  lemma MergeAt<T>(m: FileMap<T>, d: FileMap<T>, f: string)
    ensures f in Merge(m, d) <==> f in m || f in d
    ensures Get(Merge(m, d), f) == Get(m, f) + Get(d, f)
    ensures f !in d ==> Get(Merge(m, d), f) == Get(m, f)
  {
  }

  lemma MergeEmpty<T>(m: FileMap<T>)
    ensures Merge(m, map[]) == m
  {
    var r := Merge(m, map[]);
    assert r.Keys == m.Keys;
    forall f | f in m ensures r[f] == m[f] {
      MergeAt(m, map[], f);
    }
  }

  lemma MergeIntoEmpty<T>(d: FileMap<T>)
    ensures Merge(map[], d) == d
  {
    var r := Merge(map[], d);
    assert r.Keys == d.Keys;
    forall f | f in d ensures r[f] == d[f] {
      MergeAt(map[], d, f);
    }
  }

  /** Adding the same data twice is the same as adding it once. */
  lemma MergeIdempotent<T>(m: FileMap<T>, d: FileMap<T>)
    ensures Merge(Merge(m, d), d) == Merge(m, d)
  {
    assert Merge(Merge(m, d), d).Keys == Merge(m, d).Keys;
  }

  /** Two additions give the same store in either order. */
  lemma MergeCommutes<T>(m: FileMap<T>, d1: FileMap<T>, d2: FileMap<T>)
    ensures Merge(Merge(m, d1), d2) == Merge(Merge(m, d2), d1)
  {
    MergeAssociative(m, d1, d2);
    MergeAssociative(m, d2, d1);
    MergeSymmetric(d1, d2);
  }

  lemma MergeSymmetric<T>(d1: FileMap<T>, d2: FileMap<T>)
    ensures Merge(d1, d2) == Merge(d2, d1)
  {
    var r, r' := Merge(d1, d2), Merge(d2, d1);
    forall f ensures (f in r <==> f in r') && (f in r ==> r[f] == r'[f]) {
      MergeAt(d1, d2, f);
      MergeAt(d2, d1, f);
    }
  }

  lemma MergeAssociative<T>(m: FileMap<T>, d1: FileMap<T>, d2: FileMap<T>)
    ensures Merge(Merge(m, d1), d2) == Merge(m, Merge(d1, d2))
  {
    var r, r' := Merge(Merge(m, d1), d2), Merge(m, Merge(d1, d2));
    forall f ensures (f in r <==> f in r') && (f in r ==> r[f] == r'[f]) {
      MergeAt(m, d1, f);
      MergeAt(d1, d2, f);
      MergeAt(Merge(m, d1), d2, f);
      MergeAt(m, Merge(d1, d2), f);
    }
  }

  /**
   * Two separate additions `a` and `b` for the same file leave exactly
   * the union of what was there with `a` and `b`.
   */
  lemma AddTwiceIsUnion<T>(m: FileMap<T>, f: string, a: set<T>, b: set<T>)
    ensures Get(Merge(Merge(m, map[f := a]), map[f := b]), f) == Get(m, f) + a + b
  {
  }

  // ------------------------------------------------------------- the record

  /** One value of a loaded data-file dict, under a key the reader looks up. */
  datatype Field<T> =
    | Absent           // the key is missing
    | Present(value: T)
    | Malformed        // the value is there but cannot be unpacked (no `.items()`, a value that is not iterable)

  /**
   * What unpickling a data file yields when it does not raise: something
   * other than a dict, or a dict with the three keys the store knows of.
   */
  datatype Stored =
    | NotADict
    | Dict(lines: Field<map<string, seq<Line>>>, arcs: Field<map<string, seq<Arc>>>, collector: Option<string>)

  /**
   * `m` with every set as a strictly sorted list: the same files, and for
   * each exactly the elements of its set, in increasing order.
   */
  function Snapshot<T(==,!new)>(m: FileMap<T>, lt: (T, T) -> bool): (r: map<string, seq<T>>)
    requires StrictTotalOrder(lt)
    ensures r.Keys == m.Keys
    ensures forall f :: f in r ==> StrictlySorted(r[f], lt) && |r[f]| == |m[f]|
    ensures forall f, x :: f in r ==> (x in r[f] <==> x in m[f])
  {
    map f | f in m :: Sorted(m[f], lt)
  }

  /**
   * The store map rebuilt from a loaded one with `dict.fromkeys`: the same
   * files, each with the set of the elements of its list.
   */
  function FromKeys<T(!new)>(m: map<string, seq<T>>): (r: FileMap<T>)
    ensures r.Keys == m.Keys
    ensures forall f, x :: f in r ==> (x in r[f] <==> x in m[f])
  {
    map f | f in m :: set x | x in m[f]
  }

  /**
   * The record `write_file` builds: 'lines' always, 'arcs' only when the arc
   * map has a file in it, 'collector' only when a non-empty one is configured.
   */
  function BuildRecord(lines: FileMap<Line>, arcs: FileMap<Arc>, collector: Option<string>): (r: Stored)
    ensures r.Dict? && r.lines.Present?
    ensures r.lines.value.Keys == lines.Keys
    ensures forall f :: f in lines ==> StrictlySorted(r.lines.value[f], IntLess)
    ensures forall f, x :: f in lines ==> (x in r.lines.value[f] <==> x in lines[f])
    ensures r.arcs.Present? <==> arcs != map[]
    ensures r.arcs.Absent? <==> arcs == map[]
    ensures r.arcs.Present? ==> r.arcs.value.Keys == arcs.Keys
    ensures r.arcs.Present? ==> forall f :: f in arcs ==> StrictlySorted(r.arcs.value[f], PairLess)
    ensures r.arcs.Present? ==> forall f, a :: f in arcs ==> (a in r.arcs.value[f] <==> a in arcs[f])
    ensures r.collector.Some? <==> collector.Some? && collector.value != ""
    ensures r.collector.Some? ==> r.collector == collector
  {
    IntLessIsStrictTotalOrder();
    PairLessIsStrictTotalOrder();
    var arcData := Snapshot(arcs, PairLess);
    Dict(Present(Snapshot(lines, IntLess)),
         if arcData != map[] then Present(arcData) else Absent,
         if collector.Some? && collector.value != "" then collector else None)
  }

  /**
   * What reading a data file gives, from what loading it gave (`None` when
   * the load raised). It never fails: a failed load, a value that is not a
   * dict or a 'lines' entry that cannot be unpacked gives two empty maps; a
   * missing key gives an empty map; an 'arcs' entry that cannot be unpacked
   * gives empty arcs and keeps the lines already unpacked.
   */
  function DecodeFile(loaded: Option<Stored>): (r: (FileMap<Line>, FileMap<Arc>))
    ensures loaded.None? || loaded.value.NotADict? ==> r == (map[], map[])
    ensures loaded.Some? && loaded.value.Dict? && loaded.value.lines.Malformed? ==> r == (map[], map[])
    ensures loaded.Some? && loaded.value.Dict? && loaded.value.lines.Absent? ==> r.0 == map[]
    ensures loaded.Some? && loaded.value.Dict? && loaded.value.lines.Present? ==>
      r.0.Keys == loaded.value.lines.value.Keys &&
      forall f, x :: f in r.0 ==> (x in r.0[f] <==> x in loaded.value.lines.value[f])
    ensures loaded.Some? && loaded.value.Dict? && !loaded.value.arcs.Present? ==> r.1 == map[]
    ensures loaded.Some? && loaded.value.Dict? && !loaded.value.lines.Malformed? && loaded.value.arcs.Present? ==>
      r.1.Keys == loaded.value.arcs.value.Keys &&
      forall f, a :: f in r.1 ==> (a in r.1[f] <==> a in loaded.value.arcs.value[f])
  {
    match loaded
    case None => (map[], map[])
    case Some(NotADict) => (map[], map[])
    case Some(Dict(linesField, arcsField, _)) =>
      var arcs := match arcsField
        case Present(a) => FromKeys(a)
        case _ => map[];
      match linesField
      case Malformed => (map[], map[])
      case Absent => (map[], arcs)
      case Present(l) => (FromKeys(l), arcs)
  }

  lemma {:induction false} FromKeysOfSnapshot<T(!new)>(m: FileMap<T>, lt: (T, T) -> bool)
    requires StrictTotalOrder(lt)
    ensures FromKeys(Snapshot(m, lt)) == m
  {
    var r := FromKeys(Snapshot(m, lt));
    forall f | f in m ensures r[f] == m[f] {
      assert forall x :: x in r[f] <==> x in m[f];
    }
  }

  /**
   * Reading back the record built from a store gives that store's line and
   * arc maps; a record written without 'arcs' reads back as no arcs.
   */
  lemma RoundTrip(lines: FileMap<Line>, arcs: FileMap<Arc>, collector: Option<string>)
    ensures DecodeFile(Some(BuildRecord(lines, arcs, collector))) == (lines, arcs)
  {
    IntLessIsStrictTotalOrder();
    PairLessIsStrictTotalOrder();
    FromKeysOfSnapshot(lines, IntLess);
    FromKeysOfSnapshot(arcs, PairLess);
  }

  // --------------------------------------------------------- parallel combine

  /** A directory listing: each entry's name, with what loading it gives. */
  type Listing = seq<(string, Option<Stored>)>

  /** The lines an entry contributes: its decoded lines if its name has the prefix, nothing otherwise. */
  function EntryLines(prefix: string, entry: (string, Option<Stored>)): (r: FileMap<Line>)
    ensures !StartsWith(entry.0, prefix) ==> r == map[]
    ensures StartsWith(entry.0, prefix) ==> r == DecodeFile(entry.1).0
  {
    if StartsWith(entry.0, prefix) then DecodeFile(entry.1).0 else map[]
  }

  /** `m` after each entry of the listing, in order, has been folded in. */
  function CombineLines(m: FileMap<Line>, prefix: string, listing: Listing): (r: FileMap<Line>)
    ensures m.Keys <= r.Keys
    ensures forall f :: f in m ==> m[f] <= r[f]
    decreases |listing|
  {
    if listing == [] then m
    else CombineLines(Merge(m, EntryLines(prefix, listing[0])), prefix, listing[1..])
  }

  /** The files that some map of `cs` has an entry for. */
  ghost function FilesOf(cs: set<FileMap<Line>>): set<string> {
    set c, f | c in cs && f in c :: f
  }

  /** Everything the maps of `cs` hold: for each file, the union of their sets for it. */
  ghost function UnionAll(cs: set<FileMap<Line>>): FileMap<Line> {
    map f | f in FilesOf(cs) :: set c, x | c in cs && f in c && x in c[f] :: x
  }

  lemma UnionAllAt(cs: set<FileMap<Line>>, f: string, x: Line)
    ensures f in UnionAll(cs) <==> exists c :: c in cs && f in c
    ensures x in Get(UnionAll(cs), f) <==> exists c :: c in cs && x in Get(c, f)
  {
    if x in Get(UnionAll(cs), f) {
      var c :| c in cs && f in c && x in c[f];
      assert x in Get(c, f);
    }
    if exists c :: c in cs && f in c {
      var c :| c in cs && f in c;
      assert f in FilesOf(cs);
    }
    if exists c :: c in cs && x in Get(c, f) {
      var c :| c in cs && x in Get(c, f);
      assert f in FilesOf(cs);
      assert x in UnionAll(cs)[f];
    }
  }

  lemma UnionAllEqual(cs: set<FileMap<Line>>, cs': set<FileMap<Line>>)
    requires cs - {map[]} == cs' - {map[]}
    ensures UnionAll(cs) == UnionAll(cs')
  {
    var u, u' := UnionAll(cs), UnionAll(cs');
    forall f ensures (f in u <==> f in u') && (f in u ==> u[f] == u'[f]) {
      forall x ensures x in Get(u, f) <==> x in Get(u', f) {
        UnionAllAt(cs, f, x);
        UnionAllAt(cs', f, x);
        if c :| c in cs && x in Get(c, f) {
          assert f in c;
          assert c in cs - {map[]};
        }
        if c :| c in cs' && x in Get(c, f) {
          assert f in c;
          assert c in cs' - {map[]};
        }
      }
      UnionAllAt(cs, f, 0);
      UnionAllAt(cs', f, 0);
      if c :| c in cs && f in c {
        assert c in cs - {map[]};
      }
      if c :| c in cs' && f in c {
        assert c in cs' - {map[]};
      }
    }
  }

  lemma UnionAllInsert(c0: FileMap<Line>, cs: set<FileMap<Line>>)
    ensures UnionAll({c0} + cs) == Merge(c0, UnionAll(cs))
  {
    var u, r := UnionAll({c0} + cs), Merge(c0, UnionAll(cs));
    forall f ensures (f in u <==> f in r) && (f in u ==> u[f] == r[f]) {
      MergeAt(c0, UnionAll(cs), f);
      forall x ensures x in Get(u, f) <==> x in Get(r, f) {
        UnionAllAt({c0} + cs, f, x);
        UnionAllAt(cs, f, x);
      }
      UnionAllAt({c0} + cs, f, 0);
      UnionAllAt(cs, f, 0);
    }
  }

  /** What each entry of the listing contributes. */
  ghost function Contributions(prefix: string, listing: Listing): set<FileMap<Line>> {
    set e | e in listing :: EntryLines(prefix, e)
  }

  /**
   * Everything the matching entries of the listing hold, regardless of their
   * order: for each file they name, the union of their lines for it.
   */
  ghost function Gathered(prefix: string, listing: Listing): FileMap<Line> {
    UnionAll(Contributions(prefix, listing))
  }

  lemma GatheredEmpty(prefix: string)
    ensures Gathered(prefix, []) == map[]
  {
    assert Contributions(prefix, []) == {};
    assert FilesOf({}) == {};
  }

  lemma GatheredCons(prefix: string, listing: Listing)
    requires listing != []
    ensures Gathered(prefix, listing) == Merge(EntryLines(prefix, listing[0]), Gathered(prefix, listing[1..]))
  {
    assert forall e :: e in listing <==> e == listing[0] || e in listing[1..];
    assert Contributions(prefix, listing) == {EntryLines(prefix, listing[0])} + Contributions(prefix, listing[1..]);
    UnionAllInsert(EntryLines(prefix, listing[0]), Contributions(prefix, listing[1..]));
  }

  lemma ContributionsIncluded(prefix: string, listing: Listing, listing': Listing)
    requires forall e :: e in listing && StartsWith(e.0, prefix) ==> e in listing'
    ensures Contributions(prefix, listing) - {map[]} <= Contributions(prefix, listing') - {map[]}
  {
    forall c | c in Contributions(prefix, listing) && c != map[]
      ensures c in Contributions(prefix, listing')
    {
      var e :| e in listing && EntryLines(prefix, e) == c;
      assert StartsWith(e.0, prefix);
    }
  }

  /** Folding the listing in, entry by entry, adds exactly what its matching entries gather. */
  lemma {:induction false} CombineIsMerge(m: FileMap<Line>, prefix: string, listing: Listing)
    ensures CombineLines(m, prefix, listing) == Merge(m, Gathered(prefix, listing))
    decreases |listing|
  {
    if listing == [] {
      GatheredEmpty(prefix);
      MergeEmpty(m);
    } else {
      var e0 := EntryLines(prefix, listing[0]);
      CombineIsMerge(Merge(m, e0), prefix, listing[1..]);
      GatheredCons(prefix, listing);
      MergeAssociative(m, e0, Gathered(prefix, listing[1..]));
    }
  }

  /**
   * Only the entries whose name has the prefix matter: two listings with the
   * same matching entries, in any order and with any repetitions, combine to
   * the same store.
   */
  lemma CombineDependsOnlyOnMatching(m: FileMap<Line>, prefix: string, listing: Listing, listing': Listing)
    requires forall e :: e in listing && StartsWith(e.0, prefix) <==> e in listing' && StartsWith(e.0, prefix)
    ensures CombineLines(m, prefix, listing) == CombineLines(m, prefix, listing')
  {
    CombineIsMerge(m, prefix, listing);
    CombineIsMerge(m, prefix, listing');
    ContributionsIncluded(prefix, listing, listing');
    ContributionsIncluded(prefix, listing', listing);
    UnionAllEqual(Contributions(prefix, listing), Contributions(prefix, listing'));
  }

  /** The directory-listing order does not change the combined store. */
  lemma CombineOrderIndependent(m: FileMap<Line>, prefix: string, listing: Listing, listing': Listing)
    requires multiset(listing) == multiset(listing')
    ensures CombineLines(m, prefix, listing) == CombineLines(m, prefix, listing')
  {
    forall e ensures e in listing <==> e in listing' {
      assert e in listing <==> e in multiset(listing);
      assert e in listing' <==> e in multiset(listing');
    }
    CombineDependsOnlyOnMatching(m, prefix, listing, listing');
  }

  /** Combining the same files a second time changes nothing. */
  lemma CombineIdempotent(m: FileMap<Line>, prefix: string, listing: Listing)
    ensures CombineLines(CombineLines(m, prefix, listing), prefix, listing) == CombineLines(m, prefix, listing)
  {
    CombineIsMerge(m, prefix, listing);
    CombineIsMerge(CombineLines(m, prefix, listing), prefix, listing);
    MergeIdempotent(m, Gathered(prefix, listing));
  }

  /**
   * After combining, a file has an entry exactly when it had one or some
   * matching entry's decoded lines name it, and its lines are the old ones
   * together with those of every matching entry.
   */
  lemma CombinedAt(m: FileMap<Line>, prefix: string, listing: Listing, f: string, x: Line)
    ensures f in CombineLines(m, prefix, listing) <==>
      f in m || exists e :: e in listing && StartsWith(e.0, prefix) && f in DecodeFile(e.1).0
    ensures x in Get(CombineLines(m, prefix, listing), f) <==>
      x in Get(m, f) || exists e :: e in listing && StartsWith(e.0, prefix) && x in Get(DecodeFile(e.1).0, f)
  {
    CombineIsMerge(m, prefix, listing);
    var cs := Contributions(prefix, listing);
    MergeAt(m, UnionAll(cs), f);
    UnionAllAt(cs, f, x);
    if c :| c in cs && f in c {
      var e :| e in listing && EntryLines(prefix, e) == c;
      assert StartsWith(e.0, prefix);
    }
    if e :| e in listing && StartsWith(e.0, prefix) && f in DecodeFile(e.1).0 {
      assert EntryLines(prefix, e) in cs;
    }
    if c :| c in cs && x in Get(c, f) {
      var e :| e in listing && EntryLines(prefix, e) == c;
      assert f in c;
      assert StartsWith(e.0, prefix);
    }
    if e :| e in listing && StartsWith(e.0, prefix) && x in Get(DecodeFile(e.1).0, f) {
      assert EntryLines(prefix, e) in cs;
    }
  }

  /**
   * Two parallel files for `a.py`, lines {1, 2, 3} and {2, 3, 4}, combine to
   * {1, 2, 3, 4}; an entry without the prefix and a corrupt one add nothing.
   */
  lemma CombineScenario()
    ensures var listing := [
        ("cov.1", Some(Dict(Present(map["a.py" := [1, 2, 3]]), Absent, None))),
        ("notes", Some(Dict(Present(map["a.py" := [9]]), Absent, None))),
        ("cov.2", Some(Dict(Present(map["a.py" := [2, 3, 4]]), Absent, None))),
        ("cov.3", None)];
      CombineLines(map[], "cov", listing) == map["a.py" := {1, 2, 3, 4}]
  {
    var e1 := ("cov.1", Some(Dict(Present(map["a.py" := [1, 2, 3]]), Absent, None)));
    var e2 := ("notes", Some(Dict(Present(map["a.py" := [9]]), Absent, None)));
    var e3 := ("cov.2", Some(Dict(Present(map["a.py" := [2, 3, 4]]), Absent, None)));
    var e4: (string, Option<Stored>) := ("cov.3", None);
    var listing := [e1, e2, e3, e4];
    var m1, m2 := map["a.py" := {1, 2, 3}], map["a.py" := {1, 2, 3, 4}];
    EntryScenario("cov.1", [1, 2, 3], {1, 2, 3});
    EntryScenario("cov.2", [2, 3, 4], {2, 3, 4});
    assert "notes"[0] != "cov"[0];
    assert EntryLines("cov", e2) == map[];
    assert EntryLines("cov", e4) == map[];
    MergeIntoEmpty(m1);
    MergeEmpty(m1);
    MergeOneFile(m1, "a.py", {2, 3, 4});
    assert m1["a.py"] + {2, 3, 4} == {1, 2, 3, 4};
    MergeEmpty(m2);
    assert listing[1..] == [e2, e3, e4] && listing[1..][1..] == [e3, e4];
    assert listing[1..][1..][1..] == [e4] && listing[1..][1..][1..][1..] == [];
    assert CombineLines(m2, "cov", [e4]) == m2;
    assert CombineLines(m1, "cov", [e3, e4]) == m2;
    assert CombineLines(m1, "cov", [e2, e3, e4]) == m2;
  }

  lemma EntryScenario(name: string, s: seq<Line>, lines: set<Line>)
    requires StartsWith(name, "cov") && (forall x :: x in s <==> x in lines)
    ensures EntryLines("cov", (name, Some(Dict(Present(map["a.py" := s]), Absent, None)))) == map["a.py" := lines]
  {
    var r := EntryLines("cov", (name, Some(Dict(Present(map["a.py" := s]), Absent, None))));
    assert r.Keys == {"a.py"};
    assert forall x :: x in r["a.py"] <==> x in s;
    assert forall x :: x in r["a.py"] <==> x in lines;
    assert r["a.py"] == lines;
  }

  lemma MergeOneFile(m: FileMap<Line>, f: string, a: set<Line>)
    requires m.Keys == {f}
    ensures Merge(m, map[f := a]) == map[f := m[f] + a]
  {
    var r := Merge(m, map[f := a]);
    MergeAt(m, map[f := a], f);
    assert r.Keys == {f};
  }

  // ------------------------------------------------------------------ queries

  /** The key `summary` files a source file under: its full path, or its last component. */
  function SummaryKey(fullpath: bool, f: string): (k: string)
    ensures fullpath ==> k == f
    ensures !fullpath ==> k == PathTail(f) && Separator !in k
  {
    PathTailIsLastComponent(f);
    if fullpath then f else PathTail(f)
  }

  /** No other file of `m` shares `f`'s summary key. */
  ghost predicate SoleOwner(m: FileMap<Line>, fullpath: bool, f: string) {
    forall g :: g in m && SummaryKey(fullpath, g) == SummaryKey(fullpath, f) ==> g == f
  }

  // ---------------------------------------------------------------- the store

  /** The coverage data of one process, and where it is stored. */
  class CoverageData {
    var collector: Option<string>
    var useFile: bool
    var filename: string
    var lines: FileMap<Line>
    var arcs: FileMap<Arc>

    /**
     * An empty store that uses a file; `envFile` is the value of the
     * `COVERAGE_FILE` environment variable, if it is set.
     */
    constructor(envFile: Option<string>, basename: Option<string> := None, suffix: Option<string> := None,
                collector: Option<string> := None)
      ensures this.collector == collector && useFile
      ensures filename == DataFileName(basename, envFile, suffix)
      ensures lines == map[] && arcs == map[]
    {
      this.collector := collector;
      useFile := true;
      filename := DataFileName(basename, envFile, suffix);
      lines := map[];
      arcs := map[];
    }

    /** Sets whether the store reads and writes its data file. */
    method UseFile(useFile: bool := true)
      modifies this`useFile
      ensures this.useFile == useFile
    {
      this.useFile := useFile;
    }

    /**
     * Replaces the store with the contents of its data file, of which
     * `stored` is what loading it gives; without a file, empties the store.
     */
    method Read(stored: Option<Stored>)
      modifies this`lines, this`arcs
      ensures useFile ==> (lines, arcs) == DecodeFile(stored)
      ensures !useFile ==> lines == map[] && arcs == map[]
    {
      if useFile {
        lines, arcs := DecodeFile(stored).0, DecodeFile(stored).1;
      } else {
        lines, arcs := map[], map[];
      }
    }

    /** Replaces the store with what reading a file gives; `stored` is what loading it gives. */
    method ReadFile(stored: Option<Stored>)
      modifies this`lines, this`arcs
      ensures (lines, arcs) == DecodeFile(stored)
    {
      var (newLines, newArcs) := DecodeFile(stored);
      lines, arcs := newLines, newArcs;
    }

    /** The record `write` puts in the data file, or nothing when no file is used. */
    method Write() returns (written: Option<Stored>)
      ensures useFile <==> written.Some?
      ensures written.Some? ==> written.value == BuildRecord(lines, arcs, collector)
      ensures written.Some? ==> DecodeFile(written) == (lines, arcs)
    {
      if useFile {
        written := Some(BuildRecord(lines, arcs, collector));
        RoundTrip(lines, arcs, collector);
      } else {
        written := None;
      }
    }

    /**
     * Empties the store, whether or not a file is used; `fileExists` says
     * whether the data file is there, and `removed` whether it is deleted.
     */
    method Erase(fileExists: bool) returns (removed: bool)
      modifies this`lines, this`arcs
      ensures lines == map[] && arcs == map[]
      ensures removed <==> useFile && filename != "" && fileExists
    {
      removed := useFile && filename != "" && fileExists;
      lines := map[];
      arcs := map[];
    }

    /** The executed lines of every file, each as a strictly increasing list. */
    function LineData(): (r: map<string, seq<Line>>)
      reads this
      ensures r.Keys == lines.Keys
      ensures forall f :: f in r ==> StrictlySorted(r[f], IntLess) && |r[f]| == |lines[f]|
      ensures forall f, x :: f in r ==> (x in r[f] <==> x in lines[f])
    {
      IntLessIsStrictTotalOrder();
      Snapshot(lines, IntLess)
    }

    /** The executed arcs of every file, each as a strictly increasing list. */
    function ArcData(): (r: map<string, seq<Arc>>)
      reads this
      ensures r.Keys == arcs.Keys
      ensures forall f :: f in r ==> StrictlySorted(r[f], PairLess) && |r[f]| == |arcs[f]|
      ensures forall f, a :: f in r ==> (a in r[f] <==> a in arcs[f])
    {
      PairLessIsStrictTotalOrder();
      Snapshot(arcs, PairLess)
    }

    /**
     * Adds executed lines: every file of `lineData` gets the union of what it
     * had and what is added; every other file, and the arcs, stay as they were.
     */
    method AddLineData(lineData: FileMap<Line>)
      modifies this`lines
      ensures lines == Merge(old(lines), lineData)
    {
      var todo := lineData.Keys;
      StartAccumulating(lines, lineData);
      while todo != {}
        invariant todo <= lineData.Keys
        invariant lines == Merge(old(lines), lineData - todo)
        decreases todo
      {
        var f :| f in todo;
        AddOneFile(old(lines), lineData, todo, f);
        lines := lines[f := Get(lines, f) + lineData[f]];
        todo := todo - {f};
      }
      assert lineData - todo == lineData;
    }

    /** Adds measured arcs, as `AddLineData` adds lines. */
    method AddArcData(arcData: FileMap<Arc>)
      modifies this`arcs
      ensures arcs == Merge(old(arcs), arcData)
    {
      var todo := arcData.Keys;
      StartAccumulating(arcs, arcData);
      while todo != {}
        invariant todo <= arcData.Keys
        invariant arcs == Merge(old(arcs), arcData - todo)
        decreases todo
      {
        var f :| f in todo;
        AddOneFile(old(arcs), arcData, todo, f);
        arcs := arcs[f := Get(arcs, f) + arcData[f]];
        todo := todo - {f};
      }
      assert arcData - todo == arcData;
    }

    /**
     * Folds into the lines every entry of the directory listing whose name
     * starts with the last component of the data-file name; the arcs those
     * entries hold are not used.
     */
    method CombineParallelData(listing: Listing)
      modifies this`lines
      ensures lines == CombineLines(old(lines), PathTail(filename), listing)
    {
      var local := PathTail(filename);
      var i := 0;
      while i < |listing|
        invariant 0 <= i <= |listing|
        invariant CombineLines(lines, local, listing[i..]) == CombineLines(old(lines), local, listing)
      {
        var (name, loaded) := listing[i];
        assert listing[i..][1..] == listing[i + 1..];
        if StartsWith(name, local) {
          var (newLines, _) := DecodeFile(loaded);
          AddLineData(newLines);
        } else {
          MergeEmpty(lines);
        }
        i := i + 1;
      }
    }

    /** The files that have line data. */
    function ExecutedFiles(): (r: set<string>)
      reads this
      ensures forall f :: f in r <==> f in lines
    {
      lines.Keys
    }

    /** The executed lines of `f`; none for a file that has no entry. */
    function ExecutedLines(f: string): (r: set<Line>)
      reads this
      ensures f !in lines ==> r == {}
      ensures f in lines ==> r == lines[f]
    {
      Get(lines, f)
    }

    /** The executed arcs of `f`; none for a file that has no entry. */
    function ExecutedArcs(f: string): (r: set<Arc>)
      reads this
      ensures f !in arcs ==> r == {}
      ensures f in arcs ==> r == arcs[f]
    {
      Get(arcs, f)
    }

    /**
     * The number of executed lines per file, keyed by full path or by last
     * path component. The files are visited in no particular order, so when
     * two files share a key, the count kept is that of one of them.
     */
    method Summary(fullpath: bool := false) returns (summ: map<string, nat>)
      ensures summ.Keys == set f | f in lines :: SummaryKey(fullpath, f)
      ensures forall k :: k in summ ==> exists f :: f in lines && SummaryKey(fullpath, f) == k && summ[k] == |lines[f]|
      ensures forall f :: f in lines && SoleOwner(lines, fullpath, f) ==> summ[SummaryKey(fullpath, f)] == |lines[f]|
      ensures fullpath ==> summ == map f | f in lines :: |lines[f]|
    {
      summ := map[];
      var todo := lines.Keys;
      ghost var done: set<string> := {};
      while todo != {}
        invariant done == lines.Keys - todo && todo <= lines.Keys
        invariant SummaryOf(lines, fullpath, done, summ)
        decreases todo
      {
        var f :| f in todo;
        SummaryStep(lines, fullpath, done, summ, f);
        summ := summ[SummaryKey(fullpath, f) := |lines[f]|];
        todo, done := todo - {f}, done + {f};
      }
      SummaryComplete(lines, fullpath, summ);
    }
  }

  /**
   * `summ` is what the summary loop has built after visiting the files
   * `done`: one key per visited file, each holding the count of some visited
   * file with that key, and that of the file itself where no other shares it.
   */
  ghost predicate SummaryOf(m: FileMap<Line>, fullpath: bool, done: set<string>, summ: map<string, nat>) {
    && done <= m.Keys
    && summ.Keys == (set f | f in done :: SummaryKey(fullpath, f))
    && (forall k :: k in summ ==> exists f :: f in done && SummaryKey(fullpath, f) == k && summ[k] == |m[f]|)
    && (forall f :: f in done && SoleOwner(m, fullpath, f) ==> summ[SummaryKey(fullpath, f)] == |m[f]|)
  }

  lemma SummaryStep(m: FileMap<Line>, fullpath: bool, done: set<string>, summ: map<string, nat>, f: string)
    requires SummaryOf(m, fullpath, done, summ) && f in m && f !in done
    ensures SummaryOf(m, fullpath, done + {f}, summ[SummaryKey(fullpath, f) := |m[f]|])
  {
    var summ' := summ[SummaryKey(fullpath, f) := |m[f]|];
    forall k | k in summ'
      ensures exists g :: g in done + {f} && SummaryKey(fullpath, g) == k && summ'[k] == |m[g]|
    {
      if k == SummaryKey(fullpath, f) {
        assert f in done + {f};
      } else {
        var g :| g in done && SummaryKey(fullpath, g) == k && summ[k] == |m[g]|;
        assert g in done + {f};
      }
    }
  }

  lemma SummaryComplete(m: FileMap<Line>, fullpath: bool, summ: map<string, nat>)
    requires SummaryOf(m, fullpath, m.Keys, summ)
    ensures fullpath ==> summ == map f | f in m :: |m[f]|
  {
    if fullpath {
      forall f | f in m ensures summ[f] == |m[f]| {
        assert SummaryKey(fullpath, f) == f;
        assert SoleOwner(m, fullpath, f);
      }
      assert summ.Keys == m.Keys;
    }
  }

  /** Before the accumulation loops: nothing of `d` added yet. */
  lemma StartAccumulating<T>(m: FileMap<T>, d: FileMap<T>)
    ensures m == Merge(m, d - d.Keys)
  {
    assert d - d.Keys == map[];
    MergeEmpty(m);
  }

  /** One step of the accumulation loops: adding the data of file `f`. */
  lemma AddOneFile<T>(m: FileMap<T>, d: FileMap<T>, todo: set<string>, f: string)
    requires f in todo && todo <= d.Keys
    ensures var before := Merge(m, d - todo);
      before[f := Get(before, f) + d[f]] == Merge(m, d - (todo - {f}))
  {
    var before := Merge(m, d - todo);
    var after, r := before[f := Get(before, f) + d[f]], Merge(m, d - (todo - {f}));
    forall g ensures (g in after <==> g in r) && (g in after ==> after[g] == r[g]) {
      MergeAt(m, d - todo, g);
      MergeAt(m, d - (todo - {f}), g);
    }
  }
}
