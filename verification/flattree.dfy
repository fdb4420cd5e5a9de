/**
 * What the returned tree of `scanFilesViaInput` holds. The tree is read off
 * the push log, grouping every push under the node whose key it names, so its
 * files come in tree order rather than list order. This module shows that the
 * tree nevertheless holds every pushed file node exactly once, and one
 * directory node per directory created besides the root.
 *
 * The argument counts places: how many times the child list of a key occurs
 * in the tree read off the log. A push adds its node once per such place, and
 * while the pass runs every key has exactly one place.
 */
module FlatTree {
  import opened Model
  import opened Strings
  import opened DuplicateIndex
  import opened FlatScan

  /* ---------------------------------------------------------------- */
  /* Contents of a tree                                                */
  /* ---------------------------------------------------------------- */

  /** The file nodes of a tree, counted with multiplicity. */
  ghost function TreeFiles(n: Node): multiset<Node>
    decreases n
  {
    match n
    case File(_, _, _, _, _, _) => multiset{n}
    case Dir(_, _, children) => TreeFilesIn(children)
  }

  ghost function TreeFilesIn(cs: seq<Node>): multiset<Node>
    decreases cs
  {
    if |cs| == 0 then multiset{} else TreeFiles(cs[0]) + TreeFilesIn(cs[1..])
  }

  /** The directory nodes of a tree, itself included. */
  ghost function TreeDirs(n: Node): nat
    decreases n
  {
    match n
    case File(_, _, _, _, _, _) => 0
    case Dir(_, _, children) => 1 + TreeDirsIn(children)
  }

  ghost function TreeDirsIn(cs: seq<Node>): nat
    decreases cs
  {
    if |cs| == 0 then 0 else TreeDirs(cs[0]) + TreeDirsIn(cs[1..])
  }

  /** `k` copies of `m`. */
  ghost function Times(m: multiset<Node>, k: nat): multiset<Node>
    decreases k
  {
    if k == 0 then multiset{} else Times(m, k - 1) + m
  }

  lemma {:induction false} TimesAdd(m: multiset<Node>, a: nat, b: nat)
    ensures Times(m, a + b) == Times(m, a) + Times(m, b)
    decreases b
  {
    if b > 0 {
      TimesAdd(m, a, b - 1);
    }
  }

  lemma {:induction false} TimesEmpty(k: nat)
    ensures Times(multiset{}, k) == multiset{}
    decreases k
  {
    if k > 0 {
      TimesEmpty(k - 1);
    }
  }

  lemma TreeFilesCons(n: Node, rest: seq<Node>)
    ensures TreeFilesIn([n] + rest) == TreeFiles(n) + TreeFilesIn(rest)
    ensures TreeDirsIn([n] + rest) == TreeDirs(n) + TreeDirsIn(rest)
  {
    assert ([n] + rest)[1..] == rest;
  }

  /* ---------------------------------------------------------------- */
  /* Places of a key                                                   */
  /* ---------------------------------------------------------------- */

  /**
   * How many times the child list of key `q` occurs in the part of the tree
   * made of the child list of `key` (built from position `from` on) and
   * everything below it.
   */
  ghost function Places(log: seq<Push>, key: string, from: nat, q: string): nat
    decreases |log| - from, 1
  {
    (if q == key then 1 else 0) + PlacesBelow(log, key, from, q)
  }

  /** The places of `q` inside the directories pushed under `key` from position `from` on. */
  ghost function PlacesBelow(log: seq<Push>, key: string, from: nat, q: string): nat
    decreases |log| - from, 0
  {
    if from >= |log| then 0
    else
      (if log[from].parent == key && log[from].slot.DirSlot? then Places(log, log[from].slot.path, from + 1, q) else 0)
      + PlacesBelow(log, key, from + 1, q)
  }

  /** The file nodes a push adds at each place of its parent. */
  ghost function NewFiles(p: Push): multiset<Node>
  {
    if p.slot.FileSlot? then multiset{p.slot.node} else multiset{}
  }

  /** The directory nodes a push adds at `k` places of its parent. */
  function NewDirs(p: Push, k: nat): nat
  {
    if p.slot.DirSlot? then k else 0
  }

  /** The children of `key` read from `from` on: the push at `from`, if it names `key`, then the rest. */
  lemma ChildrenStep(log: seq<Push>, key: string, from: nat)
    requires from < |log|
    ensures ChildrenOf(log, key, from) ==
      (if log[from].parent == key then [NodeAt(log, from)] else []) + ChildrenOf(log, key, from + 1)
  {
  }

  /**
   * One more push adds its node once at every place of its parent: to the
   * children of `key` read from `from` on, and below them.
   */
  lemma {:induction false} ChildrenSnoc(log: seq<Push>, p: Push, key: string, from: nat)
    requires from <= |log|
    requires p.slot.FileSlot? ==> p.slot.node.File?
    ensures var k := Places(log, key, from, p.parent);
      && TreeFilesIn(ChildrenOf(log + [p], key, from)) == TreeFilesIn(ChildrenOf(log, key, from)) + Times(NewFiles(p), k)
      && TreeDirsIn(ChildrenOf(log + [p], key, from)) == TreeDirsIn(ChildrenOf(log, key, from)) + NewDirs(p, k)
    decreases |log| - from, 1
  {
    if from == |log| {
      ChildrenSnocLast(log, p, key);
    } else {
      ChildrenSnoc(log, p, key, from + 1);
      assert (log + [p])[from] == log[from];
      if log[from].parent == key {
        NodeSnoc(log, p, from);
        ChildrenSnocHit(log, log + [p], p, key, from);
      } else {
        ChildrenSnocMiss(log, log + [p], p, key, from);
      }
    }
  }

  /** The new push is the only child of `key` read from its own position on. */
  lemma ChildrenSnocLast(log: seq<Push>, p: Push, key: string)
    requires p.slot.FileSlot? ==> p.slot.node.File?
    ensures var k := Places(log, key, |log|, p.parent);
      && TreeFilesIn(ChildrenOf(log + [p], key, |log|)) == TreeFilesIn(ChildrenOf(log, key, |log|)) + Times(NewFiles(p), k)
      && TreeDirsIn(ChildrenOf(log + [p], key, |log|)) == TreeDirsIn(ChildrenOf(log, key, |log|)) + NewDirs(p, k)
  {
    var log' := log + [p];
    var n := |log|;
    var last := NodeAt(log', n);
    assert log'[n] == p;
    ChildrenStep(log', key, n);
    assert ChildrenOf(log', key, n + 1) == [];
    assert ChildrenOf(log, key, n) == [];
    assert PlacesBelow(log, key, n, p.parent) == 0;
    assert TreeFiles(last) == NewFiles(p) && TreeDirs(last) == NewDirs(p, 1) by {
      if p.slot.DirSlot? {
        assert ChildrenOf(log', p.slot.path, n + 1) == [];
      }
    }
    if p.parent == key {
      assert ChildrenOf(log', key, n) == [last] + [];
      TreeFilesCons(last, []);
      assert Times(NewFiles(p), 1) == NewFiles(p);
    } else {
      assert ChildrenOf(log', key, n) == [] + [];
    }
  }

  /** What `ChildrenSnoc` states of the children of `key` read from `from` on. */
  ghost predicate ChildrenGrow(log: seq<Push>, log': seq<Push>, p: Push, key: string, from: nat)
  {
    var k := Places(log, key, from, p.parent);
    && TreeFilesIn(ChildrenOf(log', key, from)) == TreeFilesIn(ChildrenOf(log, key, from)) + Times(NewFiles(p), k)
    && TreeDirsIn(ChildrenOf(log', key, from)) == TreeDirsIn(ChildrenOf(log, key, from)) + NewDirs(p, k)
  }

  /** The step of `ChildrenSnoc` at a push before the new one that names `key`. */
  lemma ChildrenSnocHit(log: seq<Push>, log': seq<Push>, p: Push, key: string, from: nat)
    requires from < |log| < |log'| && log'[from] == log[from] && log[from].parent == key
    requires ChildrenGrow(log, log', p, key, from + 1)
    requires var k := if log[from].slot.DirSlot? then Places(log, log[from].slot.path, from + 1, p.parent) else 0;
      && TreeFiles(NodeAt(log', from)) == TreeFiles(NodeAt(log, from)) + Times(NewFiles(p), k)
      && TreeDirs(NodeAt(log', from)) == TreeDirs(NodeAt(log, from)) + NewDirs(p, k)
    ensures ChildrenGrow(log, log', p, key, from)
  {
    var q := p.parent;
    var below := if log[from].slot.DirSlot? then Places(log, log[from].slot.path, from + 1, q) else 0;
    PlacesStep(log, key, from, q);
    ChildrenHit(log, key, from);
    ChildrenHit(log', key, from);
    GrowSum(TreeFilesIn(ChildrenOf(log', key, from)), TreeFilesIn(ChildrenOf(log, key, from)),
            TreeFiles(NodeAt(log', from)), TreeFiles(NodeAt(log, from)),
            TreeFilesIn(ChildrenOf(log', key, from + 1)), TreeFilesIn(ChildrenOf(log, key, from + 1)),
            TreeDirsIn(ChildrenOf(log', key, from)), TreeDirsIn(ChildrenOf(log, key, from)),
            TreeDirs(NodeAt(log', from)), TreeDirs(NodeAt(log, from)),
            TreeDirsIn(ChildrenOf(log', key, from + 1)), TreeDirsIn(ChildrenOf(log, key, from + 1)),
            p, Places(log, key, from, q), below, Places(log, key, from + 1, q));
  }

  /** The step of `ChildrenSnoc` at a push before the new one that names another key. */
  lemma ChildrenSnocMiss(log: seq<Push>, log': seq<Push>, p: Push, key: string, from: nat)
    requires from < |log| < |log'| && log'[from] == log[from] && log[from].parent != key
    requires ChildrenGrow(log, log', p, key, from + 1)
    ensures ChildrenGrow(log, log', p, key, from)
  {
    PlacesStep(log, key, from, p.parent);
    ChildrenStep(log, key, from);
    ChildrenStep(log', key, from);
    assert ChildrenOf(log', key, from) == ChildrenOf(log', key, from + 1);
    assert ChildrenOf(log, key, from) == ChildrenOf(log, key, from + 1);
  }

  /** The places below `key` from `from` on: those inside the push at `from`, then the rest. */
  lemma PlacesStep(log: seq<Push>, key: string, from: nat, q: string)
    requires from < |log|
    ensures Places(log, key, from, q) ==
      (if log[from].parent == key && log[from].slot.DirSlot? then Places(log, log[from].slot.path, from + 1, q) else 0)
      + Places(log, key, from + 1, q)
  {
  }

  /** The contents of the children of `key` read from a push that names `key`: its node's, then the rest's. */
  lemma ChildrenHit(log: seq<Push>, key: string, from: nat)
    requires from < |log| && log[from].parent == key
    ensures TreeFilesIn(ChildrenOf(log, key, from)) == TreeFiles(NodeAt(log, from)) + TreeFilesIn(ChildrenOf(log, key, from + 1))
    ensures TreeDirsIn(ChildrenOf(log, key, from)) == TreeDirs(NodeAt(log, from)) + TreeDirsIn(ChildrenOf(log, key, from + 1))
  {
    ChildrenStep(log, key, from);
    TreeFilesCons(NodeAt(log, from), ChildrenOf(log, key, from + 1));
  }

  /**
   * A whole made of a part and a rest grows by `k` places' worth when the
   * part grows by `k0` and the rest by `k1`, with `k == k0 + k1`: `a` and `d`
   * are the bag of files and the count of directories of the whole, `n`, `e`
   * of the part, `r`, `g` of the rest; primed after the push.
   */
  lemma GrowSum(a': multiset<Node>, a: multiset<Node>, n': multiset<Node>, n: multiset<Node>, r': multiset<Node>, r: multiset<Node>,
                d': nat, d: nat, e': nat, e: nat, g': nat, g: nat, p: Push, k: nat, k0: nat, k1: nat)
    requires a' == n' + r' && a == n + r && d' == e' + g' && d == e + g && k == k0 + k1
    requires n' == n + Times(NewFiles(p), k0) && e' == e + NewDirs(p, k0)
    requires r' == r + Times(NewFiles(p), k1) && g' == g + NewDirs(p, k1)
    ensures a' == a + Times(NewFiles(p), k) && d' == d + NewDirs(p, k)
  {
    TimesAdd(NewFiles(p), k0, k1);
  }

  /** The node pushed at `m` gains the new push at every place of its parent inside it. */
  lemma {:induction false} NodeSnoc(log: seq<Push>, p: Push, m: nat)
    requires m < |log|
    requires p.slot.FileSlot? ==> p.slot.node.File?
    ensures var k := if log[m].slot.DirSlot? then Places(log, log[m].slot.path, m + 1, p.parent) else 0;
      && TreeFiles(NodeAt(log + [p], m)) == TreeFiles(NodeAt(log, m)) + Times(NewFiles(p), k)
      && TreeDirs(NodeAt(log + [p], m)) == TreeDirs(NodeAt(log, m)) + NewDirs(p, k)
    decreases |log| - m, 0
  {
    assert (log + [p])[m] == log[m];
    match log[m].slot
    case DirSlot(path, name) =>
      ChildrenSnoc(log, p, path, m + 1);
    case FileSlot(node) =>
  }

  /** One more push adds a place for a new directory's key wherever its parent has one. */
  lemma {:induction false} PlacesSnoc(log: seq<Push>, p: Push, key: string, from: nat, r: string)
    requires from <= |log|
    ensures Places(log + [p], key, from, r) ==
      Places(log, key, from, r) + (if p.slot.DirSlot? && p.slot.path == r then Places(log, key, from, p.parent) else 0)
    decreases |log| - from
  {
    var log' := log + [p];
    if from == |log| {
      assert PlacesBelow(log, key, from, r) == 0 && PlacesBelow(log, key, from, p.parent) == 0;
      assert PlacesBelow(log', key, from + 1, r) == 0;
      if p.slot.DirSlot? && p.parent == key {
        assert PlacesBelow(log', p.slot.path, from + 1, r) == 0;
        assert PlacesBelow(log', key, from, r) == Places(log', p.slot.path, from + 1, r);
      } else {
        assert PlacesBelow(log', key, from, r) == 0;
      }
    } else {
      assert log'[from] == log[from];
      PlacesSnoc(log, p, key, from + 1, r);
      if log[from].parent == key && log[from].slot.DirSlot? {
        PlacesSnoc(log, p, log[from].slot.path, from + 1, r);
      }
    }
  }

  /* ---------------------------------------------------------------- */
  /* The invariant of the second pass                                  */
  /* ---------------------------------------------------------------- */

  /**
   * Every key has exactly one place in the tree and no other string has
   * one; the tree holds exactly the file nodes pushed, and one directory
   * node per directory pushed besides the root.
   */
  ghost predicate TreeOk(st: Pass)
  {
    && (forall r :: Places(st.log, "", 0, r) == if r in st.keys then 1 else 0)
    && TreeFiles(Materialize(st.log)) == multiset(FileNodes(st.log))
    && TreeDirs(Materialize(st.log)) == 1 + DirCount(st.log)
  }

  lemma StartTree()
    ensures TreeOk(Start)
  {
    forall r ensures Places([], "", 0, r) == if r in Start.keys then 1 else 0 {
      assert PlacesBelow([], "", 0, r) == 0;
    }
  }

  /** The tree of `log` in terms of the children of the root. */
  lemma MaterializeFigures(log: seq<Push>)
    ensures TreeFiles(Materialize(log)) == TreeFilesIn(ChildrenOf(log, "", 0))
    ensures TreeDirs(Materialize(log)) == 1 + TreeDirsIn(ChildrenOf(log, "", 0))
  {
  }

  /**
   * Pushing onto an existing key a file node, or a directory whose path is
   * not yet a key (and becomes one), keeps the invariant.
   */
  lemma PushTree(st: Pass, p: Push, keys': set<string>)
    requires TreeOk(st) && p.parent in st.keys
    requires p.slot.FileSlot? ==> p.slot.node.File?
    requires p.slot.DirSlot? ==> p.slot.path !in st.keys && keys' == st.keys + {p.slot.path}
    requires p.slot.FileSlot? ==> keys' == st.keys
    ensures TreeOk(st.(keys := keys', log := st.log + [p]))
  {
    var log' := st.log + [p];
    assert Places(st.log, "", 0, p.parent) == 1;
    forall r ensures Places(log', "", 0, r) == if r in keys' then 1 else 0 {
      PlacesSnoc(st.log, p, "", 0, r);
    }
    ChildrenSnoc(st.log, p, "", 0);
    MaterializeFigures(st.log);
    MaterializeFigures(log');
    PushCounts(st.log, p);
    if p.slot.DirSlot? {
      TimesEmpty(1);
      assert NewDirs(p, 1) == 1;
    } else {
      assert Times(NewFiles(p), 1) == multiset{p.slot.node};
    }
  }

  /** Changing nothing but keys-free parts of the pass keeps the invariant. */
  lemma TreeKeepsShape(st: Pass, st': Pass)
    requires TreeOk(st) && st'.keys == st.keys && st'.log == st.log
    ensures TreeOk(st')
  {
  }

  lemma MakeDirTree(st: Pass, parent: string, part: string, depth: nat)
    requires Sound(st) && TreeOk(st) && parent in st.keys
    ensures TreeOk(MakeDir(st, parent, part, depth))
  {
    var path := Extend(parent, part);
    if path !in st.keys {
      var p := Push(parent, DirSlot(path, part));
      PushTree(st, p, st.keys + {path});
      TreeKeepsShape(st.(keys := st.keys + {path}, log := st.log + [p]), MakeDir(st, parent, part, depth));
    }
  }

  lemma {:induction false} MakeDirsTree(st: Pass, dirs: seq<string>)
    requires Sound(st) && TreeOk(st)
    ensures TreeOk(MakeDirs(st, dirs))
    decreases |dirs|
  {
    if |dirs| > 0 {
      var init := dirs[..|dirs| - 1];
      MakeDirsTree(st, init);
      MakeDirsSound(st, init);
      MakeDirTree(MakeDirs(st, init), PathAfter(init), dirs[|dirs| - 1], |dirs|);
    }
  }

  lemma AddFileTree(st: Pass, f: InputFile)
    requires Sound(st) && TreeOk(st)
    ensures TreeOk(AddFile(st, f))
  {
    var st1 := Counted(st, f);
    SoundKeepsShape(st, st1);
    TreeKeepsShape(st, st1);
    MakeDirsTree(st1, DirsOf(f));
    var st2 := Prepared(st, f);
    var parentPath := Join(DirsOf(f), '/');
    if parentPath in st2.keys {
      var r := Record(st2.index, SightingOf(f));
      var p := Push(parentPath, FileSlot(FileNodeOf(f, r.1)));
      PushTree(st2, p, st2.keys);
      TreeKeepsShape(st2.(keys := st2.keys, log := st2.log + [p]), AddFile(st, f));
    }
  }

  lemma {:induction false} ScanAllTree(files: seq<InputFile>)
    ensures TreeOk(ScanAll(files))
    decreases |files|
  {
    if |files| == 0 {
      StartTree();
    } else {
      var init := files[..|files| - 1];
      ScanAllTree(init);
      ScanAllShape(init);
      AddFileTree(ScanAll(init), files[|files| - 1]);
    }
  }

  /* ---------------------------------------------------------------- */
  /* The returned tree                                                 */
  /* ---------------------------------------------------------------- */

  /**
   * Whatever the paths, the returned tree holds every file node the pass
   * pushed, each exactly once, and one directory node per directory created
   * besides the root.
   */
  lemma TreeContents(files: seq<InputFile>)
    ensures var root := ScanFilesViaInput(files).rootNode;
      var log := ScanAll(files).log;
      && TreeFiles(root) == multiset(FileNodes(log))
      && TreeDirs(root) == 1 + DirCount(log)
  {
    ScanAllTree(files);
    assert ScanFilesViaInput(files).rootNode == Materialize(ScanAll(files).log);
  }

  /** The node of every listed file, marked as the duplicate index marks it. */
  ghost function ListedNodes(files: seq<InputFile>): (nodes: seq<Node>)
    ensures |nodes| == |files|
  {
    seq(|files|, i requires 0 <= i < |files| => FileNodeOf(files[i], Marks(files)[i]))
  }

  /**
   * When no path starts with `/`, the returned tree holds exactly one node per
   * listed file, with its mark, and besides the root exactly as many
   * directories as the reported count.
   */
  lemma TreeFileMarks(files: seq<InputFile>)
    requires NoLeadingSlash(files)
    ensures var r := ScanFilesViaInput(files);
      && TreeFiles(r.rootNode) == multiset(ListedNodes(files))
      && TreeDirs(r.rootNode) == 1 + r.stats.totalDirs
  {
    var log := ScanAll(files).log;
    TreeContents(files);
    DirCountMatches(files);
    assert FileNodes(log) == ListedNodes(files) by {
      ScanAllRecords(files);
    }
  }

  /**
   * With a path starting with `/`, the returned tree has exactly as many
   * directories, the root included, as the reported count.
   */
  lemma TreeDirsWithLeadingSlash(files: seq<InputFile>)
    requires exists i :: 0 <= i < |files| && LeadingSlash(files[i])
    ensures var r := ScanFilesViaInput(files);
      TreeDirs(r.rootNode) == r.stats.totalDirs
  {
    TreeContents(files);
    DirCountWithLeadingSlash(files);
  }
}
