/**
 * `scanFileSystem`: the scanner fed a directory handle. It walks the tree,
 * counting each directory as it enters it (with its depth, the root being at
 * depth 0) and each file as it reads it; a directory's path is its parent's
 * path, a `/` and its name, so the root's is `/` and its name.
 *
 * The directory tree the browser exposes is given as a value; its listing in
 * batches is not modelled (the batches are concatenated). Children are visited
 * one at a time, in listing order, depth first.
 */
module HandleScan {
  import opened Model
  import opened Extension
  import opened Fingerprint
  import opened DuplicateIndex
  import opened Recommendations

  /** A directory with its entries, or a file with its name, size and what reading it gives. */
  datatype Entry =
    | DirEntry(name: string, entries: seq<Entry>)
    | FileEntry(name: string, size: nat, content: Content)

  /** The counters the scan updates, and the duplicate index. */
  datatype Tally = Tally(
    index: Index,
    types: set<string>,
    totalFiles: nat,
    totalDirs: nat,
    totalSize: nat,
    totalDepth: nat,
    maxDepth: nat)

  const NoTally: Tally := Tally([], {}, 0, 0, 0, 0, 0)

  /** A directory entered at `depth` (utils.ts:192-195). */
  function EnterDir(t: Tally, depth: nat): Tally
  {
    t.(totalDirs := t.totalDirs + 1, maxDepth := Max(t.maxDepth, depth), totalDepth := t.totalDepth + depth)
  }

  /** A file read under the directory at `parentPath` (utils.ts:222-271): counted, fingerprinted, recorded. */
  function VisitFile(t: Tally, name: string, size: nat, content: Content, parentPath: string): (Node, Tally)
  {
    var ext := FileExtension(name);
    var hash := FingerprintOf(name, size, content);
    var path := parentPath + "/" + name;
    var (idx, dup) := Record(t.index, Sighting(hash, path, name, size));
    (File(name, path, size, ext, hash, dup),
     t.(index := idx, types := t.types + {ext}, totalFiles := t.totalFiles + 1, totalSize := t.totalSize + size))
  }

  /** `scanDirectory(entry, path, depth)`: the directory's node and the updated tally. */
  function ScanDirectory(e: Entry, parentPath: string, depth: nat, t: Tally): (Node, Tally)
    requires e.DirEntry?
    decreases e
  {
    var path := parentPath + "/" + e.name;
    var (children, t') := ScanEntries(e.entries, path, depth, EnterDir(t, depth));
    (Dir(e.name, path, children), t')
  }

  /** The entries of the directory at `path` (itself at `depth`), in order. */
  function ScanEntries(es: seq<Entry>, path: string, depth: nat, t: Tally): (r: (seq<Node>, Tally))
    ensures |r.0| == |es|
    decreases es
  {
    if |es| == 0 then ([], t)
    else
      var (n, t1) :=
        match es[0]
        case DirEntry(_, _) => ScanDirectory(es[0], path, depth + 1, t)
        case FileEntry(name, size, content) => VisitFile(t, name, size, content, path);
      var (rest, t2) := ScanEntries(es[1..], path, depth, t1);
      ([n] + rest, t2)
  }

  /* ---------------------------------------------------------------- */
  /* The walk as a listing                                             */
  /* ---------------------------------------------------------------- */

  /** One step of the walk: entering a directory at a depth, or reading a file under a path. */
  datatype Visit =
    | DirVisit(depth: nat)
    | FileVisit(name: string, size: nat, content: Content, parentPath: string)

  /** The pre-order listing of the walk from directory `e`, which lies under `parentPath` at `depth`. */
  ghost function Listing(e: Entry, parentPath: string, depth: nat): seq<Visit>
    requires e.DirEntry?
    decreases e
  {
    [DirVisit(depth)] + ListingOf(e.entries, parentPath + "/" + e.name, depth)
  }

  /** The listing of the entries of the directory at `path`, itself at `depth`. */
  ghost function ListingOf(es: seq<Entry>, path: string, depth: nat): seq<Visit>
    decreases es
  {
    if |es| == 0 then []
    else
      (match es[0]
       case DirEntry(_, _) => Listing(es[0], path, depth + 1)
       case FileEntry(name, size, content) => [FileVisit(name, size, content, path)])
      + ListingOf(es[1..], path, depth)
  }

  /** One visit applied to the tally, with the file node it makes, if any. */
  function Step(t: Tally, v: Visit): (Tally, seq<Node>)
  {
    match v
    case DirVisit(d) => (EnterDir(t, d), [])
    case FileVisit(name, size, content, parentPath) =>
      var (node, t') := VisitFile(t, name, size, content, parentPath);
      (t', [node])
  }

  /** Visits applied in order by `step`: the final tally and the file nodes made. */
  ghost function Fold(step: (Tally, Visit) -> (Tally, seq<Node>), t: Tally, vs: seq<Visit>): (Tally, seq<Node>)
    decreases |vs|
  {
    if |vs| == 0 then (t, [])
    else
      var first := step(t, vs[0]);
      var rest := Fold(step, first.0, vs[1..]);
      (rest.0, first.1 + rest.1)
  }

  /** The visits applied in order: the final tally and the file nodes made. */
  ghost function Run(t: Tally, vs: seq<Visit>): (Tally, seq<Node>)
  {
    Fold(Step, t, vs)
  }

  /** Folding over two runs of visits is folding over the first, then over the second. */
  lemma {:induction false} FoldAppend(step: (Tally, Visit) -> (Tally, seq<Node>), t: Tally, vs1: seq<Visit>, vs2: seq<Visit>)
    ensures Fold(step, t, vs1 + vs2).0 == Fold(step, Fold(step, t, vs1).0, vs2).0
    ensures Fold(step, t, vs1 + vs2).1 == Fold(step, t, vs1).1 + Fold(step, Fold(step, t, vs1).0, vs2).1
    decreases |vs1|
  {
    if |vs1| == 0 {
      assert vs1 + vs2 == vs2;
    } else {
      var first := step(t, vs1[0]);
      assert (vs1 + vs2)[0] == vs1[0];
      assert (vs1 + vs2)[1..] == vs1[1..] + vs2;
      FoldAppend(step, first.0, vs1[1..], vs2);
    }
  }

  lemma RunAppend(t: Tally, vs1: seq<Visit>, vs2: seq<Visit>)
    ensures Run(t, vs1 + vs2).0 == Run(Run(t, vs1).0, vs2).0
    ensures Run(t, vs1 + vs2).1 == Run(t, vs1).1 + Run(Run(t, vs1).0, vs2).1
  {
    FoldAppend(Step, t, vs1, vs2);
  }

  /** The file nodes of a tree, in pre-order. */
  ghost function FilesOf(n: Node): seq<Node>
    decreases n
  {
    match n
    case File(_, _, _, _, _, _) => [n]
    case Dir(_, _, children) => FilesIn(children)
  }

  ghost function FilesIn(cs: seq<Node>): seq<Node>
    decreases cs
  {
    if |cs| == 0 then [] else FilesOf(cs[0]) + FilesIn(cs[1..])
  }

  /**
   * The recursive scan is the listing's visits applied in order: same final
   * tally, and its tree's files are the file nodes made along the way.
   */
  lemma {:induction false} ScanDirectoryRun(e: Entry, parentPath: string, depth: nat, t: Tally)
    requires e.DirEntry?
    ensures var (n, t') := ScanDirectory(e, parentPath, depth, t);
      && t' == Run(t, Listing(e, parentPath, depth)).0
      && FilesOf(n) == Run(t, Listing(e, parentPath, depth)).1
    decreases e
  {
    var path := parentPath + "/" + e.name;
    var vs := Listing(e, parentPath, depth);
    ScanEntriesRun(e.entries, path, depth, EnterDir(t, depth));
    assert vs[0] == DirVisit(depth);
    assert vs[1..] == ListingOf(e.entries, path, depth);
  }

  lemma {:induction false} ScanEntriesRun(es: seq<Entry>, path: string, depth: nat, t: Tally)
    ensures var (cs, t') := ScanEntries(es, path, depth, t);
      && t' == Run(t, ListingOf(es, path, depth)).0
      && FilesIn(cs) == Run(t, ListingOf(es, path, depth)).1
    decreases es
  {
    if |es| > 0 {
      var rest := ListingOf(es[1..], path, depth);
      match es[0]
      case DirEntry(_, _) =>
        var (n, t1) := ScanDirectory(es[0], path, depth + 1, t);
        ScanDirectoryRun(es[0], path, depth + 1, t);
        ScanEntriesRun(es[1..], path, depth, t1);
        RunAppend(t, Listing(es[0], path, depth + 1), rest);
        var cs := ScanEntries(es, path, depth, t).0;
        assert cs[0] == n && cs[1..] == ScanEntries(es[1..], path, depth, t1).0;
      case FileEntry(name, size, content) =>
        var (n, t1) := VisitFile(t, name, size, content, path);
        ScanEntriesRun(es[1..], path, depth, t1);
        var vs := ListingOf(es, path, depth);
        assert vs[0] == FileVisit(name, size, content, path) && vs[1..] == rest;
        var cs := ScanEntries(es, path, depth, t).0;
        assert cs[0] == n && cs[1..] == ScanEntries(es[1..], path, depth, t1).0;
    }
  }

  /* ---------------------------------------------------------------- */
  /* What a run of visits adds up to                                   */
  /* ---------------------------------------------------------------- */

  /** The duplicate-index entry of a file visit: fingerprint, full path, name, size. */
  function SightingOfVisit(v: Visit): Sighting
    requires v.FileVisit?
  {
    Sighting(FingerprintOf(v.name, v.size, v.content), v.parentPath + "/" + v.name, v.name, v.size)
  }

  /** The sightings of the file visits, in order. */
  ghost function SightingsOf(vs: seq<Visit>): (ss: seq<Sighting>)
    ensures |ss| <= |vs|
    decreases |vs|
  {
    if |vs| == 0 then []
    else (if vs[0].FileVisit? then [SightingOfVisit(vs[0])] else []) + SightingsOf(vs[1..])
  }

  /** The file node a sighting becomes once the index has marked it. */
  function NodeFor(s: Sighting, mark: bool): Node
  {
    File(s.fileName, s.path, s.size, FileExtension(s.fileName), s.hash, mark)
  }

  ghost function DirVisits(vs: seq<Visit>): nat
    decreases |vs|
  {
    if |vs| == 0 then 0 else (if vs[0].DirVisit? then 1 else 0) + DirVisits(vs[1..])
  }

  ghost function VisitSize(vs: seq<Visit>): nat
    decreases |vs|
  {
    if |vs| == 0 then 0 else (if vs[0].FileVisit? then vs[0].size else 0) + VisitSize(vs[1..])
  }

  ghost function VisitTypes(vs: seq<Visit>): set<string>
    decreases |vs|
  {
    if |vs| == 0 then {} else (if vs[0].FileVisit? then {FileExtension(vs[0].name)} else {}) + VisitTypes(vs[1..])
  }

  ghost function VisitDepthSum(vs: seq<Visit>): nat
    decreases |vs|
  {
    if |vs| == 0 then 0 else (if vs[0].DirVisit? then vs[0].depth else 0) + VisitDepthSum(vs[1..])
  }

  ghost function VisitMaxDepth(vs: seq<Visit>): nat
    decreases |vs|
  {
    if |vs| == 0 then 0 else Max(if vs[0].DirVisit? then vs[0].depth else 0, VisitMaxDepth(vs[1..]))
  }

  /** The counters after a run are the counters before plus what the visits contribute. */
  lemma {:induction false} RunCounters(t: Tally, vs: seq<Visit>)
    ensures var t' := Run(t, vs).0;
      && t'.totalDirs == t.totalDirs + DirVisits(vs)
      && t'.totalFiles == t.totalFiles + |SightingsOf(vs)|
      && t'.totalSize == t.totalSize + VisitSize(vs)
      && t'.types == t.types + VisitTypes(vs)
      && t'.totalDepth == t.totalDepth + VisitDepthSum(vs)
      && t'.maxDepth == Max(t.maxDepth, VisitMaxDepth(vs))
    decreases |vs|
  {
    if |vs| > 0 {
      RunCounters(Step(t, vs[0]).0, vs[1..]);
    }
  }

  /**
   * A run records the file visits' sightings into the index in order, and
   * each file node it makes is that sighting with the mark the index gave it.
   */
  lemma {:induction false} RunIndex(t: Tally, vs: seq<Visit>)
    ensures IndexFacts(t, vs)
    decreases |vs|
  {
    if |vs| > 0 {
      RunIndex(Step(t, vs[0]).0, vs[1..]);
      if vs[0].FileVisit? {
        FileVisitIndex(t, vs);
      } else {
        DirVisitIndex(t, vs);
      }
    }
  }

  /** What `RunIndex` states about a run from `t` over `vs`. */
  ghost predicate IndexFacts(t: Tally, vs: seq<Visit>)
  {
    var (t', ns) := Run(t, vs);
    var ss := SightingsOf(vs);
    var (idx, marks) := BuildFrom(t.index, ss);
    && t'.index == idx
    && |ns| == |ss|
    && forall i :: 0 <= i < |ns| ==> ns[i] == NodeFor(ss[i], marks[i])
  }

  /** A leading file visit is recorded first, and its node comes first. */
  lemma FileVisitIndex(t: Tally, vs: seq<Visit>)
    requires |vs| > 0 && vs[0].FileVisit?
    ensures IndexFacts(Step(t, vs[0]).0, vs[1..]) ==> IndexFacts(t, vs)
  {
    var (t1, ns1) := Step(t, vs[0]);
    var ss := SightingsOf(vs);
    var s := SightingOfVisit(vs[0]);
    assert ss[0] == s && ss[1..] == SightingsOf(vs[1..]);
    assert t1.index == Record(t.index, s).0;
  }

  /** A leading directory visit leaves the index alone and makes no node. */
  lemma DirVisitIndex(t: Tally, vs: seq<Visit>)
    requires |vs| > 0 && vs[0].DirVisit?
    ensures IndexFacts(Step(t, vs[0]).0, vs[1..]) ==> IndexFacts(t, vs)
  {
    assert SightingsOf(vs) == SightingsOf(vs[1..]);
  }

  lemma {:induction false} VisitsAppend(a: seq<Visit>, b: seq<Visit>)
    ensures DirVisits(a + b) == DirVisits(a) + DirVisits(b)
    ensures SightingsOf(a + b) == SightingsOf(a) + SightingsOf(b)
    ensures VisitSize(a + b) == VisitSize(a) + VisitSize(b)
    ensures VisitTypes(a + b) == VisitTypes(a) + VisitTypes(b)
    ensures VisitDepthSum(a + b) == VisitDepthSum(a) + VisitDepthSum(b)
    ensures VisitMaxDepth(a + b) == Max(VisitMaxDepth(a), VisitMaxDepth(b))
    decreases |a|
  {
    if |a| == 0 {
      assert a + b == b;
    } else {
      assert (a + b)[0] == a[0];
      assert (a + b)[1..] == a[1..] + b;
      VisitsAppend(a[1..], b);
    }
  }

  /* ---------------------------------------------------------------- */
  /* The same figures read off the tree                                */
  /* ---------------------------------------------------------------- */

  /** The number of directories in the tree, `e` included. */
  function CountDirs(e: Entry): (n: nat)
    requires e.DirEntry?
    ensures n >= 1
    decreases e
  {
    1 + CountDirsIn(e.entries)
  }

  function CountDirsIn(es: seq<Entry>): nat
    decreases es
  {
    if |es| == 0 then 0
    else (if es[0].DirEntry? then CountDirs(es[0]) else 0) + CountDirsIn(es[1..])
  }

  /** The number of files anywhere below `e`. */
  function CountFiles(e: Entry): nat
    requires e.DirEntry?
    decreases e
  {
    CountFilesIn(e.entries)
  }

  function CountFilesIn(es: seq<Entry>): nat
    decreases es
  {
    if |es| == 0 then 0
    else (if es[0].DirEntry? then CountFiles(es[0]) else 1) + CountFilesIn(es[1..])
  }

  /** The total size of the files anywhere below `e`. */
  function TreeSize(e: Entry): nat
    requires e.DirEntry?
    decreases e
  {
    TreeSizeIn(e.entries)
  }

  function TreeSizeIn(es: seq<Entry>): nat
    decreases es
  {
    if |es| == 0 then 0
    else (if es[0].DirEntry? then TreeSize(es[0]) else es[0].size) + TreeSizeIn(es[1..])
  }

  /** The extensions of the files anywhere below `e`. */
  function TreeTypes(e: Entry): set<string>
    requires e.DirEntry?
    decreases e
  {
    TreeTypesIn(e.entries)
  }

  function TreeTypesIn(es: seq<Entry>): set<string>
    decreases es
  {
    if |es| == 0 then {}
    else (if es[0].DirEntry? then TreeTypes(es[0]) else {FileExtension(es[0].name)}) + TreeTypesIn(es[1..])
  }

  /** The sum of the depths of the directories of the tree, `e` being at `depth`. */
  function DepthSum(e: Entry, depth: nat): nat
    requires e.DirEntry?
    decreases e
  {
    depth + DepthSumIn(e.entries, depth + 1)
  }

  function DepthSumIn(es: seq<Entry>, depth: nat): nat
    decreases es
  {
    if |es| == 0 then 0
    else (if es[0].DirEntry? then DepthSum(es[0], depth) else 0) + DepthSumIn(es[1..], depth)
  }

  /** How many directory levels lie below `e`: 0 when it has no sub-directory. */
  function Height(e: Entry): nat
    requires e.DirEntry?
    decreases e
  {
    HeightIn(e.entries)
  }

  function HeightIn(es: seq<Entry>): nat
    decreases es
  {
    if |es| == 0 then 0
    else Max(if es[0].DirEntry? then 1 + Height(es[0]) else 0, HeightIn(es[1..]))
  }

  /** The listing of a tree contributes exactly the tree's counts and sums. */
  lemma {:induction false} ListingCounts(e: Entry, parentPath: string, depth: nat)
    requires e.DirEntry?
    ensures var vs := Listing(e, parentPath, depth);
      && DirVisits(vs) == CountDirs(e)
      && |SightingsOf(vs)| == CountFiles(e)
      && VisitSize(vs) == TreeSize(e)
      && VisitDepthSum(vs) == DepthSum(e, depth)
    decreases e
  {
    var path := parentPath + "/" + e.name;
    ListingOfCounts(e.entries, path, depth);
    VisitsAppend([DirVisit(depth)], ListingOf(e.entries, path, depth));
    assert [DirVisit(depth)][1..] == [];
  }

  lemma {:induction false} ListingOfCounts(es: seq<Entry>, path: string, depth: nat)
    ensures var vs := ListingOf(es, path, depth);
      && DirVisits(vs) == CountDirsIn(es)
      && |SightingsOf(vs)| == CountFilesIn(es)
      && VisitSize(vs) == TreeSizeIn(es)
      && VisitDepthSum(vs) == DepthSumIn(es, depth + 1)
    decreases es
  {
    if |es| > 0 {
      var rest := ListingOf(es[1..], path, depth);
      ListingOfCounts(es[1..], path, depth);
      match es[0]
      case DirEntry(_, _) =>
        assert ListingOf(es, path, depth) == Listing(es[0], path, depth + 1) + rest;
        ListingCounts(es[0], path, depth + 1);
        VisitsAppend(Listing(es[0], path, depth + 1), rest);
      case FileEntry(name, size, content) =>
        var v := FileVisit(name, size, content, path);
        assert ListingOf(es, path, depth) == [v] + rest;
        VisitsAppend([v], rest);
        assert [v][1..] == [];
    }
  }

  /** The listing of a tree meets exactly the extensions of the tree's files. */
  lemma {:induction false} ListingTypes(e: Entry, parentPath: string, depth: nat)
    requires e.DirEntry?
    ensures VisitTypes(Listing(e, parentPath, depth)) == TreeTypes(e)
    decreases e
  {
    var path := parentPath + "/" + e.name;
    ListingOfTypes(e.entries, path, depth);
    VisitsAppend([DirVisit(depth)], ListingOf(e.entries, path, depth));
    assert [DirVisit(depth)][1..] == [];
  }

  lemma {:induction false} ListingOfTypes(es: seq<Entry>, path: string, depth: nat)
    ensures VisitTypes(ListingOf(es, path, depth)) == TreeTypesIn(es)
    decreases es
  {
    if |es| > 0 {
      var rest := ListingOf(es[1..], path, depth);
      ListingOfTypes(es[1..], path, depth);
      match es[0]
      case DirEntry(_, _) =>
        assert ListingOf(es, path, depth) == Listing(es[0], path, depth + 1) + rest;
        ListingTypes(es[0], path, depth + 1);
        VisitsAppend(Listing(es[0], path, depth + 1), rest);
      case FileEntry(name, size, content) =>
        var v := FileVisit(name, size, content, path);
        assert ListingOf(es, path, depth) == [v] + rest;
        VisitsAppend([v], rest);
        assert [v][1..] == [];
    }
  }

  /** The deepest directory the listing enters lies `Height(e)` levels below `e`. */
  lemma {:induction false} ListingHeight(e: Entry, parentPath: string, depth: nat)
    requires e.DirEntry?
    ensures VisitMaxDepth(Listing(e, parentPath, depth)) == depth + Height(e)
    decreases e
  {
    var path := parentPath + "/" + e.name;
    ListingOfHeight(e.entries, path, depth);
    VisitsAppend([DirVisit(depth)], ListingOf(e.entries, path, depth));
    assert [DirVisit(depth)][1..] == [];
  }

  lemma {:induction false} ListingOfHeight(es: seq<Entry>, path: string, depth: nat)
    ensures Max(depth, VisitMaxDepth(ListingOf(es, path, depth))) == depth + HeightIn(es)
    decreases es
  {
    if |es| > 0 {
      ListingOfHeight(es[1..], path, depth);
      if es[0].DirEntry? {
        ListingHeight(es[0], path, depth + 1);
      }
      HeightStep(es, path, depth);
    }
  }

  /** One entry's share of the height: a sub-directory adds its own height plus one level, a file nothing. */
  lemma HeightStep(es: seq<Entry>, path: string, depth: nat)
    requires |es| > 0
    requires es[0].DirEntry? ==> VisitMaxDepth(Listing(es[0], path, depth + 1)) == depth + 1 + Height(es[0])
    requires Max(depth, VisitMaxDepth(ListingOf(es[1..], path, depth))) == depth + HeightIn(es[1..])
    ensures Max(depth, VisitMaxDepth(ListingOf(es, path, depth))) == depth + HeightIn(es)
  {
    var rest := ListingOf(es[1..], path, depth);
    var h := if es[0].DirEntry? then 1 + Height(es[0]) else 0;
    assert HeightIn(es) == Max(h, HeightIn(es[1..]));
    match es[0]
    case DirEntry(_, _) =>
      var sub := Listing(es[0], path, depth + 1);
      assert ListingOf(es, path, depth) == sub + rest;
      VisitsAppend(sub, rest);
      MaxShift(depth, VisitMaxDepth(sub), VisitMaxDepth(rest), h, HeightIn(es[1..]));
    case FileEntry(name, size, content) =>
      var v := FileVisit(name, size, content, path);
      assert ListingOf(es, path, depth) == [v] + rest;
      VisitsAppend([v], rest);
      assert [v][1..] == [];
      MaxShift(depth, VisitMaxDepth([v]), VisitMaxDepth(rest), h, HeightIn(es[1..]));
  }

  /** `max(d, max(x, y)) = d + max(hx, hy)` when `x` is `d + hx` (or both are 0) and `max(d, y) = d + hy`. */
  lemma MaxShift(d: nat, x: nat, y: nat, hx: nat, hy: nat)
    requires x == d + hx || x == hx == 0
    requires Max(d, y) == d + hy
    ensures Max(d, Max(x, y)) == d + Max(hx, hy)
  {
  }

  /* ---------------------------------------------------------------- */
  /* The shape of the result tree                                      */
  /* ---------------------------------------------------------------- */

  /**
   * Node `n` is entry `e` under `parentPath`: same kind and name, path
   * `parentPath/name`; a directory's children mirror its entries one for
   * one, in order; a file carries its size, extension and fingerprint.
   */
  ghost predicate Mirrors(n: Node, e: Entry, parentPath: string)
    decreases e
  {
    match e
    case FileEntry(name, size, content) =>
      && n.File? && n.name == name && n.path == parentPath + "/" + name && n.size == size
      && n.fileType == FileExtension(name) && n.hash == FingerprintOf(name, size, content)
    case DirEntry(name, es) =>
      && n.Dir? && n.name == name && n.path == parentPath + "/" + name
      && |n.children| == |es|
      && forall i :: 0 <= i < |es| ==> Mirrors(n.children[i], es[i], parentPath + "/" + name)
  }

  lemma {:induction false} ScanDirectoryMirrors(e: Entry, parentPath: string, depth: nat, t: Tally)
    requires e.DirEntry?
    ensures Mirrors(ScanDirectory(e, parentPath, depth, t).0, e, parentPath)
    decreases e
  {
    ScanEntriesMirrors(e.entries, parentPath + "/" + e.name, depth, EnterDir(t, depth));
  }

  lemma {:induction false} ScanEntriesMirrors(es: seq<Entry>, path: string, depth: nat, t: Tally)
    ensures var cs := ScanEntries(es, path, depth, t).0;
      forall i :: 0 <= i < |es| ==> Mirrors(cs[i], es[i], path)
    decreases es
  {
    if |es| > 0 {
      var cs := ScanEntries(es, path, depth, t).0;
      var t1 :=
        match es[0]
        case DirEntry(_, _) => ScanDirectory(es[0], path, depth + 1, t).1
        case FileEntry(name, size, content) => VisitFile(t, name, size, content, path).1;
      ScanEntriesMirrors(es[1..], path, depth, t1);
      assert cs[1..] == ScanEntries(es[1..], path, depth, t1).0;
      if es[0].DirEntry? {
        ScanDirectoryMirrors(es[0], path, depth + 1, t);
      }
      forall i | 0 <= i < |es| ensures Mirrors(cs[i], es[i], path) {
        if i > 0 {
          assert cs[i] == cs[1..][i - 1] && es[i] == es[1..][i - 1];
        }
      }
    }
  }

  /* ---------------------------------------------------------------- */
  /* The whole scan                                                    */
  /* ---------------------------------------------------------------- */

  /** The walk's listing from the chosen directory, which sits at depth 0 under the path "". */
  ghost function WalkOf(root: Entry): seq<Visit>
    requires root.DirEntry?
  {
    Listing(root, "", 0)
  }

  /** The mean depth (utils.ts:305): the depth total over the directory count, which counts as at least 1. */
  function MeanDepth(totalDepth: nat, totalDirs: nat): (avg: real)
    ensures totalDirs == 0 ==> avg == totalDepth as real
    ensures totalDirs > 0 ==> avg * totalDirs as real == totalDepth as real
  {
    totalDepth as real / Max(1, totalDirs) as real
  }

  /**
   * `scanFileSystem(directoryEntry)`: the walk from the chosen directory,
   * then the duplicate list, the statistics and the recommendations.
   */
  function ScanFileSystem(root: Entry): (r: AnalysisResult)
    requires root.DirEntry?
    ensures r.stats.totalDirs == CountDirs(root)
    ensures r.stats.totalFiles == CountFiles(root)
    ensures r.stats.totalSize == TreeSize(root)
    ensures r.stats.fileTypes == TreeTypes(root)
    ensures r.stats.maxDepth == Height(root)
    ensures r.stats.avgDepth == MeanDepth(DepthSum(root, 0), CountDirs(root))
    ensures Mirrors(r.rootNode, root, "")
    ensures forall i :: 0 <= i < |r.duplicates| ==> |r.duplicates[i].paths| > 1
    ensures r.stats.duplicateFiles == DuplicateFiles(r.duplicates) >= 2 * |r.duplicates|
    ensures r.recommendations == Generate(r.stats, r.duplicates)
  {
    var (node, t) := ScanDirectory(root, "", 0, NoTally);
    ScanTally(root);
    ScanDirectoryMirrors(root, "", 0, NoTally);
    var duplicates := Finalize(t.index);
    var stats := FileStats(t.totalSize, t.totalFiles, t.totalDirs, DuplicateFiles(duplicates),
                           t.types, MeanDepth(t.totalDepth, t.totalDirs), t.maxDepth);
    AnalysisResult(node, stats, duplicates, Generate(stats, duplicates))
  }

  /** The final tally of the walk holds the tree's figures and the index of its files. */
  lemma ScanTally(root: Entry)
    requires root.DirEntry?
    ensures var t := ScanDirectory(root, "", 0, NoTally).1;
      && t.totalDirs == CountDirs(root)
      && t.totalFiles == CountFiles(root)
      && t.totalSize == TreeSize(root)
      && t.types == TreeTypes(root)
      && t.totalDepth == DepthSum(root, 0)
      && t.maxDepth == Height(root)
      && t.index == Build(SightingsOf(WalkOf(root))).0
  {
    var vs := WalkOf(root);
    ScanDirectoryRun(root, "", 0, NoTally);
    RunCounters(NoTally, vs);
    RunIndex(NoTally, vs);
    ListingCounts(root, "", 0);
    ListingTypes(root, "", 0);
    ListingHeight(root, "", 0);
  }

  /**
   * The duplicate list is exactly the fingerprints that two or more files of
   * the walk share, each group holding every such file's path and name in
   * walk order, groups in order of first sighting.
   */
  lemma HandleDuplicates(root: Entry)
    requires root.DirEntry?
    ensures var dups := ScanFileSystem(root).duplicates;
      var ss := SightingsOf(WalkOf(root));
      && dups == Finalize(Build(ss).0)
      && (forall i :: 0 <= i < |dups| ==>
            dups[i].hash != "" && GroupOf(dups[i], ss) && |PathsWith(ss, dups[i].hash)| >= 2)
      && (forall h :: h != "" && |PathsWith(ss, h)| >= 2 ==> exists i :: 0 <= i < |dups| && dups[i].hash == h)
      && FirstSeenOrder(dups, ss)
  {
    ScanTally(root);
    FinalizeCorrect(SightingsOf(WalkOf(root)));
  }

  /**
   * The reported number of duplicate files is the number of files of the walk
   * whose non-empty fingerprint another file of the walk shares.
   */
  lemma HandleDuplicateCount(root: Entry)
    requires root.DirEntry?
    ensures ScanFileSystem(root).stats.duplicateFiles == SharedFiles(SightingsOf(WalkOf(root)))
  {
    HandleDuplicates(root);
    DuplicateCount(SightingsOf(WalkOf(root)));
  }

  /**
   * The file nodes of the result tree, in pre-order, are the files of the
   * walk: each with its path, name and fingerprint, and marked as a duplicate
   * exactly when an earlier file had the same non-empty fingerprint.
   */
  lemma HandleFileMarks(root: Entry)
    requires root.DirEntry?
    ensures var files := FilesOf(ScanFileSystem(root).rootNode);
      var ss := SightingsOf(WalkOf(root));
      && |files| == |ss|
      && forall i :: 0 <= i < |ss| ==>
           && files[i].File? && files[i].path == ss[i].path && files[i].name == ss[i].fileName
           && files[i].hash == ss[i].hash
           && (files[i].isDuplicate <==> ss[i].hash != "" && Occurs(ss[..i], ss[i].hash))
  {
    var vs := WalkOf(root);
    assert ScanFileSystem(root).rootNode == ScanDirectory(root, "", 0, NoTally).0;
    ScanDirectoryRun(root, "", 0, NoTally);
    RunIndex(NoTally, vs);
    BuildCorrect(SightingsOf(vs));
  }
}
