/**
 * `scanFilesViaInput`: the scanner fed a flat list of files, each with a
 * relative path such as `photos/2020/a.jpg`. A first pass collects every
 * directory prefix into a set whose size is the reported directory count; a
 * second pass creates directory nodes on demand (keyed by path, with the root
 * under the empty key), attaches each file to the node of its directory,
 * fingerprints it and records it in the duplicate index.
 *
 * The tree under construction is held as the log of every `children.push`
 * (which node got which child, in order) plus the set of keys of the path
 * map; the returned tree is read off the log at the end.
 */
module FlatScan {
  import opened Strings
  import opened Model
  import opened Extension
  import opened Fingerprint
  import opened DuplicateIndex
  import opened Recommendations

  /** One element of the file list: `webkitRelativePath`, `name`, `size`, and what reading it gives. */
  datatype InputFile = InputFile(relativePath: string, name: string, size: nat, content: Content)

  /* ---------------------------------------------------------------- */
  /* Paths                                                             */
  /* ---------------------------------------------------------------- */

  /** The next value of `currentPath` (utils.ts:419, 471): `part` alone while the path is still empty, else joined with `/`. */
  function Extend(current: string, part: string): string
  {
    if current == "" then part else current + "/" + part
  }

  /** The value of `currentPath` after walking over `dirs`. */
  function PathAfter(dirs: seq<string>): string
    decreases |dirs|
  {
    if |dirs| == 0 then "" else Extend(PathAfter(dirs[..|dirs| - 1]), dirs[|dirs| - 1])
  }

  /** The pieces of the relative path between the `/` separators (utils.ts:413, 442). */
  function Parts(f: InputFile): (parts: seq<string>)
    ensures |parts| >= 1
  {
    Split(f.relativePath, '/')
  }

  /** The directory parts: every piece but the last (utils.ts:414, 443). */
  function DirsOf(f: InputFile): seq<string>
  {
    Parts(f)[..|Parts(f)| - 1]
  }

  /** The file's own name: the last piece, which is empty when the path ends with `/` (utils.ts:443). */
  function LeafOf(f: InputFile): string
  {
    Last(Parts(f))
  }

  /** Every value `currentPath` takes while walking over `dirs`. */
  function Prefixes(dirs: seq<string>): set<string>
    decreases |dirs|
  {
    if |dirs| == 0 then {} else Prefixes(dirs[..|dirs| - 1]) + {PathAfter(dirs)}
  }

  /** The first pass's `dirSet`, as a definition: all prefixes of all files. */
  function DirSet(files: seq<InputFile>): set<string>
    decreases |files|
  {
    if |files| == 0 then {} else DirSet(files[..|files| - 1]) + Prefixes(DirsOf(files[|files| - 1]))
  }

  /** `path` is `name` placed under `parent`, where the empty parent is the root. */
  predicate LinkOk(parent: string, path: string, name: string)
  {
    path == parent + "/" + name || (parent == "" && path == name)
  }

  /** A relative path that begins with `/` (browsers never produce one). */
  predicate LeadingSlash(f: InputFile)
  {
    |f.relativePath| > 0 && f.relativePath[0] == '/'
  }

  /* ---------------------------------------------------------------- */
  /* Pass 1: the directory set                                         */
  /* ---------------------------------------------------------------- */

  /** The first pass (utils.ts:409-436): collects every directory prefix of every file. */
  method CollectDirs(files: seq<InputFile>) returns (dirSet: set<string>)
    ensures dirSet == DirSet(files)
  {
    dirSet := {};
    for i := 0 to |files|
      invariant dirSet == DirSet(files[..i])
    {
      var pathParts := Split(files[i].relativePath, '/');
      var dirs := pathParts[..|pathParts| - 1];
      var currentPath := "";
      ghost var before := dirSet;
      for j := 0 to |dirs|
        invariant currentPath == PathAfter(dirs[..j])
        invariant dirSet == before + Prefixes(dirs[..j])
      {
        assert dirs[..j + 1][..j] == dirs[..j];
        currentPath := if currentPath != "" then currentPath + "/" + dirs[j] else dirs[j];
        dirSet := dirSet + {currentPath};
      }
      assert dirs[..|dirs|] == dirs;
      assert files[..i + 1][..i] == files[..i];
    }
    assert files[..|files|] == files;
  }

  /* ---------------------------------------------------------------- */
  /* Pass 2: building the tree                                         */
  /* ---------------------------------------------------------------- */

  /** What was pushed onto a node's `children`: a new directory node or a file node. */
  datatype Slot = DirSlot(path: string, name: string) | FileSlot(node: Node)

  /** One `children.push`: the path-map key of the receiving node and the child. */
  datatype Push = Push(parent: string, slot: Slot)

  /** The second pass's state: path-map keys, the push log, the duplicate index and the counters. */
  datatype Pass = Pass(
    keys: set<string>,
    log: seq<Push>,
    index: Index,
    types: set<string>,
    totalFiles: nat,
    totalSize: nat,
    totalDepth: nat,
    maxDepth: nat)

  /** Before the first file: only the root, under the empty key. */
  const Start: Pass := Pass({""}, [], [], {}, 0, 0, 0, 0)

  /**
   * One turn of the directory loop (utils.ts:468-492): the directory `part` at
   * `depth`, under the directory keyed `parent`, is created unless its path is
   * already a key. A created directory is keyed first and then pushed onto its
   * parent, and only a pushed one adds to the depth figures.
   */
  function MakeDir(st: Pass, parent: string, part: string, depth: nat): Pass
  {
    var path := Extend(parent, part);
    if path in st.keys then st
    else if parent in st.keys then
      st.(keys := st.keys + {path},
          log := st.log + [Push(parent, DirSlot(path, part))],
          totalDepth := st.totalDepth + depth,
          maxDepth := Max(st.maxDepth, depth))
    else st.(keys := st.keys + {path})
  }

  /** The whole directory loop over `dirs`. */
  function MakeDirs(st: Pass, dirs: seq<string>): Pass
    decreases |dirs|
  {
    if |dirs| == 0 then st
    else
      var init := dirs[..|dirs| - 1];
      MakeDir(MakeDirs(st, init), PathAfter(init), dirs[|dirs| - 1], |dirs|)
  }

  /** The file as the duplicate index sees it; the fingerprint uses the `File`'s own name. */
  function SightingOf(f: InputFile): Sighting
  {
    Sighting(FingerprintOf(f.name, f.size, f.content), f.relativePath, LeafOf(f), f.size)
  }

  /** The node made for an attached file. */
  function FileNodeOf(f: InputFile, isDuplicate: bool): Node
  {
    File(LeafOf(f), f.relativePath, f.size, FileExtension(LeafOf(f)), SightingOf(f).hash, isDuplicate)
  }

  /** The state after counting a file: its extension, one more file, its size. */
  function Counted(st: Pass, f: InputFile): Pass
  {
    st.(types := st.types + {FileExtension(LeafOf(f))},
        totalFiles := st.totalFiles + 1,
        totalSize := st.totalSize + f.size)
  }

  /** The state after counting a file and creating its directories. */
  function Prepared(st: Pass, f: InputFile): Pass
  {
    MakeDirs(Counted(st, f), DirsOf(f))
  }

  /**
   * One turn of the file loop (utils.ts:439-529): count the file, create its
   * directories, then, if its joined directory parts name a key, fingerprint
   * it, record it and push its node.
   */
  function AddFile(st: Pass, f: InputFile): Pass
  {
    var st2 := Prepared(st, f);
    var parentPath := Join(DirsOf(f), '/');
    if parentPath in st2.keys then
      var (idx, dup) := Record(st2.index, SightingOf(f));
      st2.(index := idx, log := st2.log + [Push(parentPath, FileSlot(FileNodeOf(f, dup)))])
    else st2
  }

  /** The second pass over the whole list. */
  function ScanAll(files: seq<InputFile>): Pass
    decreases |files|
  {
    if |files| == 0 then Start else AddFile(ScanAll(files[..|files| - 1]), files[|files| - 1])
  }

  /** The children of the node keyed `key`, looking only at pushes from position `from` on. */
  function ChildrenOf(log: seq<Push>, key: string, from: nat): seq<Node>
    decreases |log| - from, 1
  {
    if from >= |log| then []
    else (if log[from].parent == key then [NodeAt(log, from)] else []) + ChildrenOf(log, key, from + 1)
  }

  /** The node pushed at position `m`; a directory's own children were all pushed after it. */
  function NodeAt(log: seq<Push>, m: nat): Node
    requires m < |log|
    decreases |log| - m, 0
  {
    match log[m].slot
    case DirSlot(path, name) => Dir(name, path, ChildrenOf(log, path, m + 1))
    case FileSlot(node) => node
  }

  /** The tree as the objects stand once all pushes are done. */
  function Materialize(log: seq<Push>): Node
  {
    Dir("root", "", ChildrenOf(log, "", 0))
  }

  /* ---------------------------------------------------------------- */
  /* Invariants of the second pass                                     */
  /* ---------------------------------------------------------------- */

  function SlotPath(sl: Slot): string
  {
    match sl
    case DirSlot(path, _) => path
    case FileSlot(node) => node.path
  }

  function SlotName(sl: Slot): string
  {
    match sl
    case DirSlot(_, name) => name
    case FileSlot(node) => node.name
  }

  /** How many directory nodes were created. */
  ghost function DirCount(log: seq<Push>): nat
    decreases |log|
  {
    if |log| == 0 then 0 else DirCount(log[..|log| - 1]) + (if log[|log| - 1].slot.DirSlot? then 1 else 0)
  }

  /** The file nodes pushed, in order. */
  ghost function FileNodes(log: seq<Push>): seq<Node>
    decreases |log|
  {
    if |log| == 0 then []
    else
      var p := log[|log| - 1];
      FileNodes(log[..|log| - 1]) + (if p.slot.FileSlot? then [p.slot.node] else [])
  }

  /**
   * What the second pass keeps true: the root key exists, every other key
   * belongs to exactly one created directory (so there is one key more than
   * there are directory nodes), every child lies under its parent's path, and
   * only files are pushed as file slots.
   */
  ghost predicate Sound(st: Pass)
  {
    && "" in st.keys
    && |st.keys| == 1 + DirCount(st.log)
    && (forall i :: 0 <= i < |st.log| && st.log[i].slot.DirSlot? ==> st.log[i].slot.path in st.keys)
    && (forall i, j :: 0 <= i < j < |st.log| && st.log[i].slot.DirSlot? && st.log[j].slot.DirSlot? ==>
          st.log[i].slot.path != st.log[j].slot.path)
    && LogLinked(st.log)
  }

  /** Every pushed child lies under its parent's path, and file slots hold file nodes. */
  ghost predicate LogLinked(log: seq<Push>)
  {
    && (forall i :: 0 <= i < |log| ==> LinkOk(log[i].parent, SlotPath(log[i].slot), SlotName(log[i].slot)))
    && (forall i :: 0 <= i < |log| && log[i].slot.FileSlot? ==> log[i].slot.node.File?)
  }

  /** Soundness only looks at the keys and the log. */
  lemma SoundKeepsShape(st: Pass, st': Pass)
    requires Sound(st) && st'.keys == st.keys && st'.log == st.log
    ensures Sound(st')
  {
  }

  lemma PushCounts(log: seq<Push>, p: Push)
    ensures DirCount(log + [p]) == DirCount(log) + (if p.slot.DirSlot? then 1 else 0)
    ensures FileNodes(log + [p]) == FileNodes(log) + (if p.slot.FileSlot? then [p.slot.node] else [])
  {
    assert (log + [p])[..|log|] == log;
  }

  /** Creating a directory whose parent exists keeps the pass sound and adds exactly its path as a key. */
  lemma MakeDirSound(st: Pass, parent: string, part: string, depth: nat)
    requires Sound(st) && parent in st.keys
    ensures var st' := MakeDir(st, parent, part, depth);
      && Sound(st')
      && st'.keys == st.keys + {Extend(parent, part)}
      && FileNodes(st'.log) == FileNodes(st.log)
      && st'.index == st.index && st'.types == st.types
      && st'.totalFiles == st.totalFiles && st'.totalSize == st.totalSize
  {
    var path := Extend(parent, part);
    if path !in st.keys {
      var p := Push(parent, DirSlot(path, part));
      PushCounts(st.log, p);
      assert LinkOk(parent, path, part);
      PushDirSound(st, p);
      SoundKeepsShape(st.(keys := st.keys + {path}, log := st.log + [p]), MakeDir(st, parent, part, depth));
    }
  }

  /** Keying and pushing a new directory that lies under its parent's path keeps the pass sound. */
  lemma PushDirSound(st: Pass, p: Push)
    requires Sound(st) && p.slot.DirSlot? && p.slot.path !in st.keys
    requires LinkOk(p.parent, SlotPath(p.slot), SlotName(p.slot))
    ensures Sound(st.(keys := st.keys + {p.slot.path}, log := st.log + [p]))
  {
    var log := st.log + [p];
    var keys := st.keys + {p.slot.path};
    PushCounts(st.log, p);
    assert |keys| == |st.keys| + 1;
    assert forall i :: 0 <= i < |st.log| ==> log[i] == st.log[i];
    assert log[|st.log|] == p;
    forall i, j | 0 <= i < j < |log| && log[i].slot.DirSlot? && log[j].slot.DirSlot?
      ensures log[i].slot.path != log[j].slot.path
    {
      if j == |st.log| {
        assert log[i].slot.path in st.keys;
      }
    }
  }

  /** The directory loop keys every prefix of `dirs`, and leaves everything but directories alone. */
  lemma {:induction false} MakeDirsSound(st: Pass, dirs: seq<string>)
    requires Sound(st)
    ensures var st' := MakeDirs(st, dirs);
      && Sound(st')
      && st'.keys == st.keys + Prefixes(dirs)
      && PathAfter(dirs) in st'.keys
      && FileNodes(st'.log) == FileNodes(st.log)
      && st'.index == st.index && st'.types == st.types
      && st'.totalFiles == st.totalFiles && st'.totalSize == st.totalSize
    decreases |dirs|
  {
    if |dirs| > 0 {
      var init := dirs[..|dirs| - 1];
      MakeDirsSound(st, init);
      MakeDirSound(MakeDirs(st, init), PathAfter(init), dirs[|dirs| - 1], |dirs|);
    }
  }

  /** A file's path is its name under its joined directory parts. */
  lemma FileLink(f: InputFile)
    ensures LinkOk(Join(DirsOf(f), '/'), f.relativePath, LeafOf(f))
  {
    var parts := Parts(f);
    var dirs := DirsOf(f);
    JoinSplit(f.relativePath, '/');
    if |parts| > 1 {
      assert parts[..|parts| - 1] == dirs;
    }
  }

  /** Without a leading empty part, `currentPath` ends up as the joined parts. */
  lemma {:induction false} PathAfterJoin(dirs: seq<string>)
    requires |dirs| == 0 || dirs[0] != ""
    ensures PathAfter(dirs) == Join(dirs, '/')
    ensures |dirs| > 0 ==> PathAfter(dirs) != ""
    decreases |dirs|
  {
    if |dirs| > 1 {
      PathAfterJoin(dirs[..|dirs| - 1]);
    }
  }

  /** A path not starting with `/` has no empty first directory part. */
  lemma FirstDirNonEmpty(f: InputFile)
    requires !LeadingSlash(f)
    ensures |DirsOf(f)| == 0 || DirsOf(f)[0] != ""
  {
    if |f.relativePath| > 0 {
      FirstPieceEmpty(f.relativePath, '/');
    }
  }

  lemma PreparedSound(st: Pass, f: InputFile)
    requires Sound(st)
    ensures var st2 := Prepared(st, f);
      && Sound(st2)
      && st2.keys == st.keys + Prefixes(DirsOf(f))
      && PathAfter(DirsOf(f)) in st2.keys
      && FileNodes(st2.log) == FileNodes(st.log) && st2.index == st.index
      && st2.totalFiles == st.totalFiles + 1
      && st2.totalSize == st.totalSize + f.size
      && st2.types == st.types + {FileExtension(LeafOf(f))}
  {
    SoundKeepsShape(st, Counted(st, f));
    MakeDirsSound(Counted(st, f), DirsOf(f));
  }

  /** Pushing an attached file's node keeps the pass sound. */
  lemma AttachSound(st2: Pass, f: InputFile)
    requires Sound(st2) && Join(DirsOf(f), '/') in st2.keys
    ensures var r := Record(st2.index, SightingOf(f));
      var st' := st2.(index := r.0, log := st2.log + [Push(Join(DirsOf(f), '/'), FileSlot(FileNodeOf(f, r.1)))]);
      && Sound(st')
      && FileNodes(st'.log) == FileNodes(st2.log) + [FileNodeOf(f, r.1)]
  {
    var r := Record(st2.index, SightingOf(f));
    var p := Push(Join(DirsOf(f), '/'), FileSlot(FileNodeOf(f, r.1)));
    PushCounts(st2.log, p);
    FileLink(f);
    PushFileSound(st2, p);
    SoundKeepsShape(st2.(log := st2.log + [p]), st2.(index := r.0, log := st2.log + [p]));
  }

  /** Pushing a file node that lies under its parent's path keeps the pass sound. */
  lemma PushFileSound(st: Pass, p: Push)
    requires Sound(st) && p.slot.FileSlot? && p.slot.node.File?
    requires LinkOk(p.parent, SlotPath(p.slot), SlotName(p.slot))
    ensures Sound(st.(log := st.log + [p]))
  {
    var log := st.log + [p];
    PushCounts(st.log, p);
    assert forall i :: 0 <= i < |st.log| ==> log[i] == st.log[i];
    assert log[|st.log|] == p;
  }

  /** A file whose path does not start with `/` always finds its directory. */
  lemma AttachedWithoutLeadingSlash(st: Pass, f: InputFile)
    requires Sound(st) && !LeadingSlash(f)
    ensures Join(DirsOf(f), '/') in Prepared(st, f).keys
  {
    PreparedSound(st, f);
    FirstDirNonEmpty(f);
    PathAfterJoin(DirsOf(f));
  }

  /**
   * One file: the counters move by one file, its directory prefixes become
   * keys, and it is fingerprinted, recorded and pushed exactly when its joined
   * directory parts name a key, which always happens when its path does not
   * start with `/`.
   */
  lemma AddFileSound(st: Pass, f: InputFile)
    requires Sound(st)
    ensures var st' := AddFile(st, f);
      && Sound(st')
      && st'.keys == st.keys + Prefixes(DirsOf(f))
      && st'.totalFiles == st.totalFiles + 1
      && st'.totalSize == st.totalSize + f.size
      && st'.types == st.types + {FileExtension(LeafOf(f))}
      && (Join(DirsOf(f), '/') in st'.keys ==>
            && st'.index == Record(st.index, SightingOf(f)).0
            && FileNodes(st'.log) == FileNodes(st.log) + [FileNodeOf(f, Record(st.index, SightingOf(f)).1)])
      && (Join(DirsOf(f), '/') !in st'.keys ==>
            st'.index == st.index && FileNodes(st'.log) == FileNodes(st.log))
      && (!LeadingSlash(f) ==> Join(DirsOf(f), '/') in st'.keys)
  {
    var st2 := Prepared(st, f);
    PreparedSound(st, f);
    if Join(DirsOf(f), '/') in st2.keys {
      AttachSound(st2, f);
    }
    if !LeadingSlash(f) {
      AttachedWithoutLeadingSlash(st, f);
    }
  }

  /* ---------------------------------------------------------------- */
  /* The whole second pass                                             */
  /* ---------------------------------------------------------------- */

  function SizeSum(files: seq<InputFile>): nat
    decreases |files|
  {
    if |files| == 0 then 0 else SizeSum(files[..|files| - 1]) + files[|files| - 1].size
  }

  /** The extension of every file's own name. */
  function TypesOf(files: seq<InputFile>): set<string>
    decreases |files|
  {
    if |files| == 0 then {} else TypesOf(files[..|files| - 1]) + {FileExtension(LeafOf(files[|files| - 1]))}
  }

  function Sightings(files: seq<InputFile>): (ss: seq<Sighting>)
    ensures |ss| == |files|
  {
    seq(|files|, i requires 0 <= i < |files| => SightingOf(files[i]))
  }

  predicate NoLeadingSlash(files: seq<InputFile>)
  {
    forall i :: 0 <= i < |files| ==> !LeadingSlash(files[i])
  }

  /**
   * Whatever the paths, the second pass counts every file, its size and its
   * extension, and its path-map keys are the root's plus exactly the first
   * pass's directory set.
   */
  lemma ScanAllSound(files: seq<InputFile>)
    ensures var st := ScanAll(files);
      && Sound(st)
      && st.keys == {""} + DirSet(files)
      && st.totalFiles == |files|
      && st.totalSize == SizeSum(files)
      && st.types == TypesOf(files)
  {
    ScanAllShape(files);
    ScanAllKeySet(files);
    ScanAllCounters(files);
  }

  /** Every file keeps the pass sound. */
  lemma {:induction false} ScanAllShape(files: seq<InputFile>)
    ensures Sound(ScanAll(files))
    decreases |files|
  {
    if |files| > 0 {
      var init := files[..|files| - 1];
      ScanAllShape(init);
      AddFileShape(ScanAll(init), files[|files| - 1]);
    }
  }

  /** The directory loop keys exactly the prefixes of `dirs`, sound or not. */
  lemma {:induction false} MakeDirsKeys(st: Pass, dirs: seq<string>)
    ensures MakeDirs(st, dirs).keys == st.keys + Prefixes(dirs)
    decreases |dirs|
  {
    if |dirs| > 0 {
      MakeDirsKeys(st, dirs[..|dirs| - 1]);
    }
  }

  /** The path-map keys of the second pass are the root's plus the first pass's directory set. */
  lemma {:induction false} ScanAllKeySet(files: seq<InputFile>)
    ensures ScanAll(files).keys == {""} + DirSet(files)
    decreases |files|
  {
    if |files| > 0 {
      var init := files[..|files| - 1];
      var f := files[|files| - 1];
      ScanAllKeySet(init);
      AddFileKeys(ScanAll(init), f);
      assert ScanAll(files) == AddFile(ScanAll(init), f);
    }
  }

  /** One turn of the file loop keys exactly the prefixes of the file's directory parts. */
  lemma AddFileKeys(st: Pass, f: InputFile)
    ensures AddFile(st, f).keys == st.keys + Prefixes(DirsOf(f))
  {
    MakeDirsKeys(Counted(st, f), DirsOf(f));
    assert AddFile(st, f).keys == Prepared(st, f).keys;
  }

  lemma {:induction false} ScanAllCounters(files: seq<InputFile>)
    ensures var st := ScanAll(files);
      && st.totalFiles == |files|
      && st.totalSize == SizeSum(files)
      && st.types == TypesOf(files)
    decreases |files|
  {
    if |files| > 0 {
      var init := files[..|files| - 1];
      var f := files[|files| - 1];
      ScanAllCounters(init);
      ScanAllShape(init);
      AddFileCounts(ScanAll(init), f);
      assert ScanAll(files) == AddFile(ScanAll(init), f);
    }
  }

  /** The soundness part of `AddFileSound`. */
  lemma AddFileShape(st: Pass, f: InputFile)
    requires Sound(st)
    ensures Sound(AddFile(st, f))
  {
    AddFileSound(st, f);
  }

  /** The counting half of `AddFileSound`. */
  lemma AddFileCounts(st: Pass, f: InputFile)
    requires Sound(st)
    ensures var st' := AddFile(st, f);
      && st'.totalFiles == st.totalFiles + 1
      && st'.totalSize == st.totalSize + f.size
      && st'.types == st.types + {FileExtension(LeafOf(f))}
  {
    AddFileSound(st, f);
  }

  /** A `/`-free path names a file at the top level: it is pushed onto the root. */
  lemma RootFile(st: Pass, f: InputFile)
    requires Sound(st) && '/' !in f.relativePath
    ensures AddFile(st, f).log ==
      Prepared(st, f).log + [Push("", FileSlot(FileNodeOf(f, Record(st.index, SightingOf(f)).1)))]
    ensures Prepared(st, f).log == st.log
  {
    SplitFree(f.relativePath, '/');
    assert DirsOf(f) == [];
    PreparedSound(st, f);
  }

  /** The key facts of `ScanAllSound` alone. */
  lemma ScanAllKeys(files: seq<InputFile>)
    ensures ScanAll(files).keys == {""} + DirSet(files)
    ensures |ScanAll(files).keys| == 1 + DirCount(ScanAll(files).log)
  {
    ScanAllKeySet(files);
    ScanAllShape(files);
  }

  /** `currentPath` ends up empty exactly when every part walked over is empty. */
  lemma {:induction false} PathAfterEmpty(dirs: seq<string>)
    ensures PathAfter(dirs) == "" <==> forall i :: 0 <= i < |dirs| ==> dirs[i] == ""
    decreases |dirs|
  {
    if |dirs| > 0 {
      var init := dirs[..|dirs| - 1];
      PathAfterEmpty(init);
      if PathAfter(init) == "" && dirs[|dirs| - 1] == "" {
        forall i | 0 <= i < |dirs| ensures dirs[i] == "" {
          if i < |init| { assert dirs[i] == init[i]; }
        }
      }
      if forall i :: 0 <= i < |dirs| ==> dirs[i] == "" {
        assert forall i :: 0 <= i < |init| ==> init[i] == dirs[i];
      }
    }
  }

  /** The empty path is among the prefixes exactly when the first part is empty. */
  lemma {:induction false} EmptyPrefix(dirs: seq<string>)
    ensures "" in Prefixes(dirs) <==> |dirs| > 0 && dirs[0] == ""
    decreases |dirs|
  {
    if |dirs| > 0 {
      var init := dirs[..|dirs| - 1];
      EmptyPrefix(init);
      PathAfterEmpty(dirs);
      if |init| > 0 {
        assert init[0] == dirs[0];
      } else if dirs[0] == "" {
        assert PathAfter(dirs) == Extend("", "");
      }
    }
  }

  /** A file's directory parts start with an empty part exactly when its path starts with `/`. */
  lemma LeadingSlashParts(f: InputFile)
    ensures LeadingSlash(f) <==> |DirsOf(f)| > 0 && DirsOf(f)[0] == ""
  {
    if |f.relativePath| > 0 {
      FirstPieceEmpty(f.relativePath, '/');
    }
  }

  /** The first pass counts the empty path as a directory exactly when some path starts with `/`. */
  lemma {:induction false} EmptyInDirSet(files: seq<InputFile>)
    ensures "" in DirSet(files) <==> exists i :: 0 <= i < |files| && LeadingSlash(files[i])
    decreases |files|
  {
    if |files| > 0 {
      var init := files[..|files| - 1];
      var f := files[|files| - 1];
      EmptyInDirSet(init);
      EmptyPrefix(DirsOf(f));
      LeadingSlashParts(f);
      if exists i :: 0 <= i < |init| && LeadingSlash(init[i]) {
        var i :| 0 <= i < |init| && LeadingSlash(init[i]);
        assert files[i] == init[i];
      }
      if exists i :: 0 <= i < |files| && LeadingSlash(files[i]) {
        var i :| 0 <= i < |files| && LeadingSlash(files[i]);
        if i < |init| { assert files[i] == init[i]; }
      }
    }
  }

  /**
   * When no path starts with `/`, the reported directory count (the size of
   * the first pass's set) is exactly the number of directory nodes the second
   * pass creates.
   */
  lemma DirCountMatches(files: seq<InputFile>)
    requires NoLeadingSlash(files)
    ensures DirCount(ScanAll(files).log) == |DirSet(files)|
  {
    ScanAllKeys(files);
    EmptyInDirSet(files);
    assert {""} + DirSet(files) == DirSet(files) + {""};
    assert |DirSet(files) + {""}| == |DirSet(files)| + 1;
  }

  /**
   * With a path starting with `/` the two passes disagree: the first counts
   * the empty path, which the second never creates as a directory.
   */
  lemma DirCountWithLeadingSlash(files: seq<InputFile>)
    requires exists i :: 0 <= i < |files| && LeadingSlash(files[i])
    ensures DirCount(ScanAll(files).log) == |DirSet(files)| - 1
  {
    EmptyInDirSet(files);
    EmptyKeyCount(files);
  }

  /** With the empty path already in the directory set, the root key adds nothing to it. */
  lemma EmptyKeyCount(files: seq<InputFile>)
    requires "" in DirSet(files)
    ensures DirCount(ScanAll(files).log) == |DirSet(files)| - 1
  {
    ScanAllKeys(files);
    assert {""} + DirSet(files) == DirSet(files);
  }

  /** The marks the duplicate index gives the files, in order. */
  ghost function Marks(files: seq<InputFile>): (marks: seq<bool>)
    ensures |marks| == |files|
  {
    Build(Sightings(files)).1
  }

  lemma SightingsSnoc(files: seq<InputFile>)
    requires |files| > 0
    ensures Sightings(files) == Sightings(files[..|files| - 1]) + [SightingOf(files[|files| - 1])]
  {
  }

  /** The record-keeping half of `AddFileSound`, for a file that is attached. */
  lemma AddFileRecords(st: Pass, f: InputFile)
    requires Sound(st) && !LeadingSlash(f)
    ensures AddFile(st, f).index == Record(st.index, SightingOf(f)).0
    ensures FileNodes(AddFile(st, f).log) == FileNodes(st.log) + [FileNodeOf(f, Record(st.index, SightingOf(f)).1)]
  {
    AddFileSound(st, f);
  }

  /**
   * When no path starts with `/`, every file is attached: the index is the one
   * recording all files in list order builds, and the file nodes pushed are
   * one per file, in order, each marked as that index marks it.
   */
  lemma {:induction false} ScanAllIndex(files: seq<InputFile>)
    requires NoLeadingSlash(files)
    ensures ScanAll(files).index == Build(Sightings(files)).0
    decreases |files|
  {
    if |files| > 0 {
      var init := files[..|files| - 1];
      var f := files[|files| - 1];
      assert NoLeadingSlash(init) by {
        forall i | 0 <= i < |init| ensures !LeadingSlash(init[i]) { assert init[i] == files[i]; }
      }
      ScanAllIndex(init);
      assert Sound(ScanAll(init)) by { ScanAllShape(init); }
      AddFileRecords(ScanAll(init), f);
      SightingsSnoc(files);
      BuildSnoc(Sightings(init), SightingOf(f));
    }
  }

  lemma {:induction false} ScanAllRecords(files: seq<InputFile>)
    requires NoLeadingSlash(files)
    ensures ScanAll(files).index == Build(Sightings(files)).0
    ensures var nodes := FileNodes(ScanAll(files).log);
      && |nodes| == |files|
      && forall i :: 0 <= i < |files| ==> nodes[i] == FileNodeOf(files[i], Marks(files)[i])
    decreases |files|
  {
    ScanAllIndex(files);
    if |files| > 0 {
      var init := files[..|files| - 1];
      var f := files[|files| - 1];
      assert NoLeadingSlash(init) by {
        forall i | 0 <= i < |init| ensures !LeadingSlash(init[i]) { assert init[i] == files[i]; }
      }
      ScanAllRecords(init);
      assert Sound(ScanAll(init)) by { ScanAllShape(init); }
      AddFileRecords(ScanAll(init), f);
      SightingsSnoc(files);
      BuildSnoc(Sightings(init), SightingOf(f));
      NodesSnoc(files, Marks(files), FileNodes(ScanAll(init).log));
    }
  }

  /** One more file node, marked as the last mark says, extends a node list that matches the earlier files. */
  lemma NodesSnoc(files: seq<InputFile>, marks: seq<bool>, before: seq<Node>)
    requires |files| > 0 && |marks| == |files| && |before| == |files| - 1
    requires forall i :: 0 <= i < |before| ==> before[i] == FileNodeOf(files[..|files| - 1][i], marks[..|files| - 1][i])
    ensures var nodes := before + [FileNodeOf(files[|files| - 1], marks[|files| - 1])];
      forall i :: 0 <= i < |files| ==> nodes[i] == FileNodeOf(files[i], marks[i])
  {
  }

  /** The depth of a directory path: how many segments it has. */
  function Segments(path: string): nat
  {
    |Split(path, '/')|
  }

  /** The summed depth of the directory nodes created. */
  ghost function DepthSum(log: seq<Push>): nat
    decreases |log|
  {
    if |log| == 0 then 0
    else
      var p := log[|log| - 1];
      DepthSum(log[..|log| - 1]) + (if p.slot.DirSlot? then Segments(p.slot.path) else 0)
  }

  /** The greatest depth of a directory node created, 0 when there is none. */
  ghost function DepthMax(log: seq<Push>): nat
    decreases |log|
  {
    if |log| == 0 then 0
    else
      var p := log[|log| - 1];
      Max(DepthMax(log[..|log| - 1]), if p.slot.DirSlot? then Segments(p.slot.path) else 0)
  }

  /** The depth counters agree with the segment counts of the directories created. */
  ghost predicate DepthOk(st: Pass)
  {
    st.totalDepth == DepthSum(st.log) && st.maxDepth == DepthMax(st.log)
  }

  lemma PushDepth(log: seq<Push>, p: Push)
    ensures DepthSum(log + [p]) == DepthSum(log) + (if p.slot.DirSlot? then Segments(p.slot.path) else 0)
    ensures DepthMax(log + [p]) == Max(DepthMax(log), if p.slot.DirSlot? then Segments(p.slot.path) else 0)
  {
    assert (log + [p])[..|log|] == log;
  }

  /** The loop's `depth` is the segment count of the path it creates, when the parts are clean. */
  lemma {:induction false} MakeDirsDepth(st: Pass, dirs: seq<string>)
    requires DepthOk(st)
    requires |dirs| == 0 || dirs[0] != ""
    requires forall i :: 0 <= i < |dirs| ==> '/' !in dirs[i]
    ensures DepthOk(MakeDirs(st, dirs))
    decreases |dirs|
  {
    if |dirs| > 0 {
      var init := dirs[..|dirs| - 1];
      MakeDirsDepth(st, init);
      var st1 := MakeDirs(st, init);
      var path := Extend(PathAfter(init), dirs[|dirs| - 1]);
      assert path == PathAfter(dirs);
      PathAfterJoin(dirs);
      SplitJoin(dirs, '/');
      assert Segments(path) == |dirs|;
      if path !in st1.keys && PathAfter(init) in st1.keys {
        PushDepth(st1.log, Push(PathAfter(init), DirSlot(path, dirs[|dirs| - 1])));
      }
    }
  }

  lemma AddFileDepth(st: Pass, f: InputFile)
    requires DepthOk(st) && !LeadingSlash(f)
    ensures DepthOk(AddFile(st, f))
  {
    DirsClean(f);
    MakeDirsDepth(Counted(st, f), DirsOf(f));
    FileDepth(st, f);
  }

  /** Without a leading `/`, the directory parts are non-empty at the front and free of `/`. */
  lemma DirsClean(f: InputFile)
    requires !LeadingSlash(f)
    ensures |DirsOf(f)| == 0 || DirsOf(f)[0] != ""
    ensures forall i :: 0 <= i < |DirsOf(f)| ==> '/' !in DirsOf(f)[i]
  {
    var dirs := DirsOf(f);
    FirstDirNonEmpty(f);
    assert forall i :: 0 <= i < |dirs| ==> dirs[i] == Parts(f)[i];
  }

  /** Pushing the file node, if any, keeps the depth figures, which count directories only. */
  lemma FileDepth(st: Pass, f: InputFile)
    requires DepthOk(Prepared(st, f))
    ensures DepthOk(AddFile(st, f))
  {
    var st2 := Prepared(st, f);
    if Join(DirsOf(f), '/') in st2.keys {
      var r := Record(st2.index, SightingOf(f));
      PushDepth(st2.log, Push(Join(DirsOf(f), '/'), FileSlot(FileNodeOf(f, r.1))));
    }
  }

  /**
   * When no path starts with `/`, `totalDepth` is the summed segment count of
   * the directories created and `maxDepth` the largest one.
   */
  lemma {:induction false} ScanAllDepth(files: seq<InputFile>)
    requires NoLeadingSlash(files)
    ensures DepthOk(ScanAll(files))
    decreases |files|
  {
    if |files| > 0 {
      var init := files[..|files| - 1];
      assert NoLeadingSlash(init) by {
        forall i | 0 <= i < |init| ensures !LeadingSlash(init[i]) { assert init[i] == files[i]; }
      }
      ScanAllDepth(init);
      AddFileDepth(ScanAll(init), files[|files| - 1]);
    }
  }

  /** Every child in the tree lies under its parent's path: `parent/name`, or `name` under the root. */
  ghost predicate Linked(n: Node)
    decreases n
  {
    n.Dir? ==>
      forall i :: 0 <= i < |n.children| ==>
        LinkOk(n.path, n.children[i].path, n.children[i].name) && Linked(n.children[i])
  }

  /** Each of `cs` lies under `parent` and is itself linked. */
  ghost predicate AllUnder(parent: string, cs: seq<Node>)
  {
    forall i :: 0 <= i < |cs| ==> LinkOk(parent, cs[i].path, cs[i].name) && Linked(cs[i])
  }

  lemma AllUnderCons(parent: string, n: Node, rest: seq<Node>)
    requires LinkOk(parent, n.path, n.name) && Linked(n) && AllUnder(parent, rest)
    ensures AllUnder(parent, [n] + rest)
  {
    var cs := [n] + rest;
    forall i | 0 <= i < |cs| ensures LinkOk(parent, cs[i].path, cs[i].name) && Linked(cs[i]) {
      if i > 0 {
        assert cs[i] == rest[i - 1];
      }
    }
  }

  lemma DirLinked(name: string, path: string, cs: seq<Node>)
    requires AllUnder(path, cs)
    ensures Linked(Dir(name, path, cs))
  {
  }

  lemma {:induction false} ChildrenLinked(log: seq<Push>, key: string, from: nat)
    requires LogLinked(log)
    ensures AllUnder(key, ChildrenOf(log, key, from))
    decreases |log| - from, 1
  {
    if from < |log| {
      var rest := ChildrenOf(log, key, from + 1);
      ChildrenLinked(log, key, from + 1);
      if log[from].parent == key {
        NodeAtLinked(log, from);
        var n := NodeAt(log, from);
        assert LinkOk(key, n.path, n.name) by {
          assert LinkOk(log[from].parent, SlotPath(log[from].slot), SlotName(log[from].slot));
        }
        AllUnderCons(key, n, rest);
        assert ChildrenOf(log, key, from) == [n] + rest;
      } else {
        assert ChildrenOf(log, key, from) == [] + rest;
      }
    }
  }

  lemma {:induction false} NodeAtLinked(log: seq<Push>, m: nat)
    requires LogLinked(log) && m < |log|
    ensures Linked(NodeAt(log, m))
    ensures NodeAt(log, m).path == SlotPath(log[m].slot) && NodeAt(log, m).name == SlotName(log[m].slot)
    decreases |log| - m, 0
  {
    match log[m].slot
    case DirSlot(path, name) =>
      ChildrenLinked(log, path, m + 1);
      DirLinked(name, path, ChildrenOf(log, path, m + 1));
    case FileSlot(node) =>
      assert node.File?;
  }

  /** The returned tree is the root with every child placed under its parent's path. */
  lemma MaterializeLinked(log: seq<Push>)
    requires LogLinked(log)
    ensures var root := Materialize(log);
      root.Dir? && root.name == "root" && root.path == "" && Linked(root)
  {
    ChildrenLinked(log, "", 0);
    DirLinked("root", "", ChildrenOf(log, "", 0));
  }

  /* ---------------------------------------------------------------- */
  /* The result                                                        */
  /* ---------------------------------------------------------------- */

  /** The mean depth (utils.ts:547): the depth total over the directory count, or 0 without directories. */
  function AverageDepth(totalDepth: nat, totalDirs: nat): (avg: real)
    ensures totalDirs == 0 ==> avg == 0.0
    ensures totalDirs > 0 ==> avg * totalDirs as real == totalDepth as real
  {
    if totalDirs > 0 then totalDepth as real / totalDirs as real else 0.0
  }

  /**
   * `scanFilesViaInput(files)`: both passes, then the duplicate list, the
   * statistics and the recommendations. Whatever the paths, every file is
   * counted, the directory count is the first pass's set, and the tree places
   * every child under its parent's path.
   */
  function ScanFilesViaInput(files: seq<InputFile>): (r: AnalysisResult)
    ensures r.stats.totalFiles == |files|
    ensures r.stats.totalSize == SizeSum(files)
    ensures r.stats.fileTypes == TypesOf(files)
    ensures r.stats.totalDirs == |DirSet(files)|
    ensures r.rootNode.Dir? && r.rootNode.name == "root" && r.rootNode.path == "" && Linked(r.rootNode)
    ensures forall i :: 0 <= i < |r.duplicates| ==> |r.duplicates[i].paths| > 1
    ensures r.stats.duplicateFiles == DuplicateFiles(r.duplicates) >= 2 * |r.duplicates|
    ensures r.recommendations == Generate(r.stats, r.duplicates)
  {
    var st := ScanAll(files);
    ScanAllSound(files);
    MaterializeLinked(st.log);
    var totalDirs := |DirSet(files)|;
    var duplicates := Finalize(st.index);
    var stats := FileStats(st.totalSize, st.totalFiles, totalDirs, DuplicateFiles(duplicates),
                           st.types, AverageDepth(st.totalDepth, totalDirs), st.maxDepth);
    AnalysisResult(Materialize(st.log), stats, duplicates, Generate(stats, duplicates))
  }

  /**
   * When no path starts with `/`, the duplicate list is exactly the
   * fingerprints two or more files share, each group holding every such
   * file's path and name in list order, groups in order of first sighting.
   */
  lemma FlatDuplicates(files: seq<InputFile>)
    requires NoLeadingSlash(files)
    ensures var dups := ScanFilesViaInput(files).duplicates;
      var ss := Sightings(files);
      && dups == Finalize(Build(ss).0)
      && (forall i :: 0 <= i < |dups| ==>
            dups[i].hash != "" && GroupOf(dups[i], ss) && |PathsWith(ss, dups[i].hash)| >= 2)
      && (forall h :: h != "" && |PathsWith(ss, h)| >= 2 ==> exists i :: 0 <= i < |dups| && dups[i].hash == h)
      && FirstSeenOrder(dups, ss)
  {
    assert ScanFilesViaInput(files).duplicates == Finalize(ScanAll(files).index);
    ScanAllRecords(files);
    FinalizeCorrect(Sightings(files));
  }

  /**
   * When no path starts with `/`, the reported number of duplicate files is
   * the number of listed files whose non-empty fingerprint another listed
   * file shares.
   */
  lemma FlatDuplicateCount(files: seq<InputFile>)
    requires NoLeadingSlash(files)
    ensures ScanFilesViaInput(files).stats.duplicateFiles == SharedFiles(Sightings(files))
  {
    FlatDuplicates(files);
    DuplicateCount(Sightings(files));
  }

  /** Where the depth figures of the statistics come from. */
  lemma StatsOf(files: seq<InputFile>)
    ensures var stats := ScanFilesViaInput(files).stats;
      && stats.totalDirs == |DirSet(files)|
      && stats.maxDepth == ScanAll(files).maxDepth
      && stats.avgDepth == AverageDepth(ScanAll(files).totalDepth, |DirSet(files)|)
  {
  }

  /**
   * When no path starts with `/`, the directory count is the number of
   * directory nodes created, `maxDepth` their greatest segment count and
   * `avgDepth` their mean segment count.
   */
  lemma FlatDepthStats(files: seq<InputFile>)
    requires NoLeadingSlash(files)
    ensures var stats := ScanFilesViaInput(files).stats;
      var log := ScanAll(files).log;
      && stats.totalDirs == DirCount(log)
      && stats.maxDepth == DepthMax(log)
      && stats.avgDepth == AverageDepth(DepthSum(log), DirCount(log))
  {
    var st := ScanAll(files);
    StatsOf(files);
    DirCountMatches(files);
    ScanAllDepth(files);
    assert st.totalDepth == DepthSum(st.log);
  }

  /**
   * With a leading `/` the depth figures count the empty first part: the
   * directory `x` of `/x/a` is created at depth 2, although its path has one
   * segment, and the file itself is never attached.
   */
  lemma LeadingSlashDepth()
    ensures var f := InputFile("/x/a", "a", 0, Unreadable);
      var log := ScanAll([f]).log;
      && log == [Push("", DirSlot("x", "x"))]
      && DepthMax(log) == 1
      && ScanFilesViaInput([f]).stats.maxDepth == 2
  {
    var f := InputFile("/x/a", "a", 0, Unreadable);
    SlashPathScan(f);
    var log := ScanAll([f]).log;
    assert Segments("x") == 1 by {
      assert "x"[..0] == "";
    }
    assert log[..0] == [];
    StatsOf([f]);
  }

  /** The second pass over the single file `/x/a` pushes only the directory `x`, at depth 2. */
  lemma SlashPathScan(f: InputFile)
    requires f.relativePath == "/x/a"
    ensures ScanAll([f]).log == [Push("", DirSlot("x", "x"))] && ScanAll([f]).maxDepth == 2
  {
    SlashPathPrepared(f);
    SlashPathUnkeyed(f);
    assert [f][..0] == [];
    assert ScanAll([f]) == AddFile(Start, f);
  }

  /** Counting `/x/a` and creating its directories pushes only `x`, at depth 2. */
  lemma SlashPathPrepared(f: InputFile)
    requires f.relativePath == "/x/a"
    ensures var st2 := Prepared(Start, f);
      st2.log == [Push("", DirSlot("x", "x"))] && st2.maxDepth == 2 && st2.keys == {"", "x"}
  {
    SlashPathDirs(f);
    SlashPathDirsMade(Counted(Start, f));
  }

  /** The joined parts of `/x/a` name no key, so the file itself is not pushed. */
  lemma SlashPathUnkeyed(f: InputFile)
    requires f.relativePath == "/x/a"
    ensures AddFile(Start, f) == Prepared(Start, f)
  {
    SlashPathParent(f);
    SlashPathPrepared(f);
    assert |"/x"| == 2 && |""| == 0 && |"x"| == 1;
    UnkeyedFile(Start, f);
  }

  /** The directory parts of `/x/a` join back to `/x`. */
  lemma SlashPathParent(f: InputFile)
    requires f.relativePath == "/x/a"
    ensures Join(DirsOf(f), '/') == "/x"
  {
    SlashPathDirs(f);
    assert ["", "x"][..1] == [""];
  }

  /** A file whose joined directory parts name no key is counted but not pushed. */
  lemma UnkeyedFile(st: Pass, f: InputFile)
    requires Join(DirsOf(f), '/') !in Prepared(st, f).keys
    ensures AddFile(st, f) == Prepared(st, f)
  {
  }

  /** The path `/x/a` has the directory parts `""` and `x`. */
  lemma SlashPathDirs(f: InputFile)
    requires f.relativePath == "/x/a"
    ensures DirsOf(f) == ["", "x"]
  {
    SplitSnoc("", '/', "x");
    assert "" + ['/'] + "x" == "/x";
    SplitSnoc("/x", '/', "a");
    assert "/x" + ['/'] + "a" == "/x/a";
    assert Parts(f) == ["", "x", "a"];
  }

  /** From the start, the parts `""` and `x` create the directory `x` at depth 2. */
  lemma SlashPathDirsMade(st: Pass)
    requires st.keys == {""} && st.log == [] && st.maxDepth == 0
    ensures var st2 := MakeDirs(st, ["", "x"]);
      st2.log == [Push("", DirSlot("x", "x"))] && st2.maxDepth == 2 && st2.keys == {"", "x"}
  {
    assert ["", "x"][..1] == [""];
    assert [""][..0] == [];
    assert MakeDirs(st, [""]) == st;
    assert PathAfter([""]) == "";
  }

  /**
   * When no path starts with `/`, the file nodes are one per file in list
   * order, and a file is marked a duplicate exactly when an earlier file had
   * the same non-empty fingerprint.
   */
  lemma FileMarks(files: seq<InputFile>)
    requires NoLeadingSlash(files)
    ensures var nodes := FileNodes(ScanAll(files).log);
      && |nodes| == |files|
      && forall i :: 0 <= i < |files| ==>
           && nodes[i].File? && nodes[i].path == files[i].relativePath && nodes[i].name == LeafOf(files[i])
           && (nodes[i].isDuplicate <==>
                 SightingOf(files[i]).hash != "" && Occurs(Sightings(files)[..i], SightingOf(files[i]).hash))
  {
    ScanAllRecords(files);
    BuildCorrect(Sightings(files));
  }
}
