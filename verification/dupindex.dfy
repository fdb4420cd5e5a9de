/**
 * The fingerprint-to-group map both scanners feed (the `fileHashes` map of
 * src/lib/utils.ts), and its finalisation into the reported duplicate list.
 *
 * A JavaScript `Map` iterates in insertion order, so the index is modelled as
 * the sequence of its groups in the order their fingerprints were first seen.
 */
module DuplicateIndex {
  import opened Optional
  import opened Model

  /** One file as the index sees it: its fingerprint, full path, bare name and size. */
  datatype Sighting = Sighting(hash: string, path: string, fileName: string, size: nat)

  type Index = seq<DuplicateGroup>

  /** Groups have distinct non-empty fingerprints and parallel, non-empty path and name lists. */
  predicate WellFormed(idx: Index)
  {
    && (forall i :: 0 <= i < |idx| ==>
          idx[i].hash != "" && |idx[i].paths| >= 1 && |idx[i].paths| == |idx[i].fullFilenames|)
    && (forall i, j :: 0 <= i < j < |idx| ==> idx[i].hash != idx[j].hash)
  }

  /** The position of the group for fingerprint `h`, if the index has one (utils.ts:511-512). */
  function Find(idx: Index, h: string): (r: Option<nat>)
    ensures r.Some? ==> r.value < |idx| && idx[r.value].hash == h
    ensures r.None? <==> forall i :: 0 <= i < |idx| ==> idx[i].hash != h
    decreases |idx|
  {
    if |idx| == 0 then None
    else if idx[0].hash == h then Some(0)
    else
      match Find(idx[1..], h)
      case None => None
      case Some(k) => Some(k + 1)
  }

  /** The group a file founds when its fingerprint is new. */
  function Singleton(s: Sighting): DuplicateGroup
  {
    DuplicateGroup(s.hash, s.fileName, s.size, [s.path], [s.fileName])
  }

  /** The index with file `s` appended to group `k`. */
  function Appended(idx: Index, k: nat, s: Sighting): Index
    requires k < |idx|
  {
    idx[k := idx[k].(paths := idx[k].paths + [s.path], fullFilenames := idx[k].fullFilenames + [s.fileName])]
  }

  /**
   * Records one file and says whether its node is marked `isDuplicate`.
   * An empty fingerprint (unreadable file) is skipped. A new fingerprint
   * founds a one-member group and is not marked; a known one appends the
   * path and name to its group and is marked.
   */
  function Record(idx: Index, s: Sighting): (r: (Index, bool))
    ensures s.hash == "" ==> r == (idx, false)
    ensures r.1 <==> s.hash != "" && exists i :: 0 <= i < |idx| && idx[i].hash == s.hash
    ensures s.hash != "" && !r.1 ==> r.0 == idx + [Singleton(s)]
    ensures r.1 ==> exists k :: 0 <= k < |idx| && idx[k].hash == s.hash && r.0 == Appended(idx, k, s)
    ensures WellFormed(idx) ==> WellFormed(r.0)
  {
    if s.hash == "" then (idx, false)
    else
      match Find(idx, s.hash)
      case None => (idx + [Singleton(s)], false)
      case Some(k) => (Appended(idx, k, s), true)
  }

  /** Records the files in order, starting from `idx`; also returns each file's mark. */
  function BuildFrom(idx: Index, ss: seq<Sighting>): (r: (Index, seq<bool>))
    ensures |r.1| == |ss|
    decreases |ss|
  {
    if |ss| == 0 then (idx, [])
    else
      var (idx1, mark) := Record(idx, ss[0]);
      var (idx2, marks) := BuildFrom(idx1, ss[1..]);
      (idx2, [mark] + marks)
  }

  function Build(ss: seq<Sighting>): (Index, seq<bool>)
  {
    BuildFrom([], ss)
  }

  /** Keeps the groups with more than one member, in first-seen order. */
  function Finalize(idx: Index): (dups: Index)
    ensures |dups| <= |idx|
    ensures forall i :: 0 <= i < |dups| ==> |dups[i].paths| > 1
    decreases |idx|
  {
    if |idx| == 0 then []
    else
      var g := idx[|idx| - 1];
      Finalize(idx[..|idx| - 1]) + (if |g.paths| > 1 then [g] else [])
  }

  /** Positions in `idx` of the groups `Finalize` keeps, in increasing order. */
  ghost function Kept(idx: Index): (pos: seq<nat>)
    ensures forall i :: 0 <= i < |pos| ==> pos[i] < |idx|
    ensures forall i, j :: 0 <= i < j < |pos| ==> pos[i] < pos[j]
    decreases |idx|
  {
    if |idx| == 0 then []
    else Kept(idx[..|idx| - 1]) + (if |idx[|idx| - 1].paths| > 1 then [|idx| - 1] else [])
  }

  /** Finalisation is a subsequence: the kept groups are the groups at the kept positions. */
  lemma {:induction false} FinalizeKeepsOrder(idx: Index)
    ensures var dups := Finalize(idx); var pos := Kept(idx);
      && |pos| == |dups|
      && (forall i :: 0 <= i < |pos| ==> dups[i] == idx[pos[i]])
    decreases |idx|
  {
    if |idx| > 0 {
      var init := idx[..|idx| - 1];
      FinalizeKeepsOrder(init);
      var pos := Kept(idx);
      var dups := Finalize(idx);
      forall i | 0 <= i < |Kept(init)| ensures dups[i] == idx[pos[i]] {
        assert pos[i] == Kept(init)[i];
        assert dups[i] == Finalize(init)[i];
        assert idx[pos[i]] == init[pos[i]];
      }
    }
  }

  /** Every group with more than one path is at a kept position. */
  lemma {:induction false} KeptComplete(idx: Index)
    ensures forall a :: 0 <= a < |idx| && |idx[a].paths| > 1 ==> a in Kept(idx)
    decreases |idx|
  {
    if |idx| > 0 {
      var init := idx[..|idx| - 1];
      KeptComplete(init);
      var last := |idx| - 1;
      assert Kept(idx) == Kept(init) + (if |idx[last].paths| > 1 then [last] else []);
      forall a | 0 <= a < |init| && |idx[a].paths| > 1 ensures a in Kept(idx) {
        assert init[a] == idx[a];
      }
    }
  }

  /** The number of paths summed over all groups of the duplicate list (utils.ts:553). */
  function DuplicateFiles(dups: Index): (n: nat)
    ensures (forall i :: 0 <= i < |dups| ==> |dups[i].paths| > 1) ==> n >= 2 * |dups|
    decreases |dups|
  {
    if |dups| == 0 then 0
    else DuplicateFiles(dups[..|dups| - 1]) + |dups[|dups| - 1].paths|
  }

  /* ---------------------------------------------------------------- */
  /* Reference definitions over the sequence of recorded files         */
  /* ---------------------------------------------------------------- */

  ghost predicate Occurs(ss: seq<Sighting>, h: string)
  {
    exists k :: 0 <= k < |ss| && ss[k].hash == h
  }

  /** Paths of the files with fingerprint `h`, in order. */
  ghost function PathsWith(ss: seq<Sighting>, h: string): seq<string>
    decreases |ss|
  {
    if |ss| == 0 then []
    else PathsWith(ss[..|ss| - 1], h) + (if ss[|ss| - 1].hash == h then [ss[|ss| - 1].path] else [])
  }

  /** Bare names of the files with fingerprint `h`, in order. */
  ghost function NamesWith(ss: seq<Sighting>, h: string): seq<string>
    decreases |ss|
  {
    if |ss| == 0 then []
    else NamesWith(ss[..|ss| - 1], h) + (if ss[|ss| - 1].hash == h then [ss[|ss| - 1].fileName] else [])
  }

  /** Position of the first file with fingerprint `h`. */
  ghost function FirstWith(ss: seq<Sighting>, h: string): (k: nat)
    requires Occurs(ss, h)
    ensures k < |ss| && ss[k].hash == h
    ensures forall m :: 0 <= m < k ==> ss[m].hash != h
    decreases |ss|
  {
    if ss[0].hash == h then 0
    else
      assert Occurs(ss[1..], h) by {
        var k :| 0 <= k < |ss| && ss[k].hash == h;
        assert ss[1..][k - 1] == ss[k];
      }
      1 + FirstWith(ss[1..], h)
  }

  /** What a group recorded from `ss` must hold. */
  ghost predicate GroupOf(g: DuplicateGroup, ss: seq<Sighting>)
  {
    && Occurs(ss, g.hash)
    && g.paths == PathsWith(ss, g.hash)
    && g.fullFilenames == NamesWith(ss, g.hash)
    && g.fileName == ss[FirstWith(ss, g.hash)].fileName
    && g.size == ss[FirstWith(ss, g.hash)].size
  }

  /** `idx` is exactly the index that recording `ss` must produce. */
  ghost predicate Summarizes(idx: Index, ss: seq<Sighting>)
  {
    WellFormed(idx) && AllGroupsOf(idx, ss) && Covers(idx, ss) && FirstSeenOrder(idx, ss)
  }

  ghost predicate AllGroupsOf(idx: Index, ss: seq<Sighting>)
  {
    forall i :: 0 <= i < |idx| ==> GroupOf(idx[i], ss)
  }

  /** Every non-empty fingerprint that occurs has a group. */
  ghost predicate Covers(idx: Index, ss: seq<Sighting>)
  {
    forall h :: h != "" && Occurs(ss, h) ==> exists i :: 0 <= i < |idx| && idx[i].hash == h
  }

  /** Groups are listed in the order their fingerprints were first seen. */
  ghost predicate FirstSeenOrder(idx: Index, ss: seq<Sighting>)
  {
    forall i, j :: 0 <= i < j < |idx| ==> SeenBefore(ss, idx[i].hash, idx[j].hash)
  }

  /** Both fingerprints occur, and `h1` is first seen strictly before `h2`. */
  ghost predicate SeenBefore(ss: seq<Sighting>, h1: string, h2: string)
  {
    Occurs(ss, h1) && Occurs(ss, h2) && FirstWith(ss, h1) < FirstWith(ss, h2)
  }

  /* ---------------------------------------------------------------- */
  /* Lemmas                                                            */
  /* ---------------------------------------------------------------- */

  lemma PathsSnoc(ss: seq<Sighting>, s: Sighting, h: string)
    ensures PathsWith(ss + [s], h) == PathsWith(ss, h) + (if s.hash == h then [s.path] else [])
    ensures NamesWith(ss + [s], h) == NamesWith(ss, h) + (if s.hash == h then [s.fileName] else [])
  {
    assert (ss + [s])[..|ss|] == ss;
  }

  lemma {:induction false} PathsEmpty(ss: seq<Sighting>, h: string)
    requires !Occurs(ss, h)
    ensures PathsWith(ss, h) == [] && NamesWith(ss, h) == []
    decreases |ss|
  {
    if |ss| > 0 {
      var init := ss[..|ss| - 1];
      PathsEmpty(init, h);
    }
  }

  /** Exactly the fingerprints that occur have a non-empty path list. */
  lemma {:induction false} PathsNonEmpty(ss: seq<Sighting>, h: string)
    ensures |PathsWith(ss, h)| > 0 <==> Occurs(ss, h)
    decreases |ss|
  {
    if |ss| == 0 {
    } else if !Occurs(ss, h) {
      PathsEmpty(ss, h);
    } else {
      var init := ss[..|ss| - 1];
      if ss[|ss| - 1].hash != h {
        var k :| 0 <= k < |ss| && ss[k].hash == h;
        assert init[k] == ss[k];
        PathsNonEmpty(init, h);
      }
    }
  }

  lemma OccursSnoc(ss: seq<Sighting>, s: Sighting, h: string)
    ensures Occurs(ss + [s], h) <==> Occurs(ss, h) || s.hash == h
  {
    if Occurs(ss, h) {
      var k :| 0 <= k < |ss| && ss[k].hash == h;
      assert (ss + [s])[k] == ss[k];
    }
    if s.hash == h {
      assert (ss + [s])[|ss|] == s;
    }
    if Occurs(ss + [s], h) && s.hash != h {
      var k :| 0 <= k < |ss + [s]| && (ss + [s])[k].hash == h;
      assert ss[k] == (ss + [s])[k];
    }
  }

  lemma FirstSnoc(ss: seq<Sighting>, s: Sighting, h: string)
    requires Occurs(ss, h)
    ensures Occurs(ss + [s], h) && FirstWith(ss + [s], h) == FirstWith(ss, h)
  {
    OccursSnoc(ss, s, h);
    var k := FirstWith(ss, h);
    var k' := FirstWith(ss + [s], h);
    assert (ss + [s])[k] == ss[k];
  }

  lemma FirstSnocNew(ss: seq<Sighting>, s: Sighting)
    requires !Occurs(ss, s.hash)
    ensures Occurs(ss + [s], s.hash) && FirstWith(ss + [s], s.hash) == |ss|
  {
    OccursSnoc(ss, s, s.hash);
  }

  /** Groups whose fingerprint differs from the new file's are unaffected by it. */
  lemma GroupOfSnocOther(g: DuplicateGroup, ss: seq<Sighting>, s: Sighting)
    requires GroupOf(g, ss) && g.hash != s.hash
    ensures GroupOf(g, ss + [s])
  {
    PathsSnoc(ss, s, g.hash);
    FirstSnoc(ss, s, g.hash);
    assert (ss + [s])[FirstWith(ss, g.hash)] == ss[FirstWith(ss, g.hash)];
  }

  /** How occurrence and first sightings change when one file is appended. */
  lemma SnocFacts(ss: seq<Sighting>, s: Sighting)
    ensures forall h :: Occurs(ss + [s], h) <==> Occurs(ss, h) || s.hash == h
    ensures forall h :: Occurs(ss, h) ==> FirstWith(ss + [s], h) == FirstWith(ss, h)
  {
    forall h | Occurs(ss, h) ensures Occurs(ss + [s], h) && FirstWith(ss + [s], h) == FirstWith(ss, h) {
      FirstSnoc(ss, s, h);
    }
    forall h ensures Occurs(ss + [s], h) <==> Occurs(ss, h) || s.hash == h {
      OccursSnoc(ss, s, h);
    }
  }

  lemma RecordSkip(idx: Index, ss: seq<Sighting>, s: Sighting)
    requires Summarizes(idx, ss) && s.hash == ""
    ensures Summarizes(idx, ss + [s])
  {
    SnocFacts(ss, s);
    forall i | 0 <= i < |idx| ensures GroupOf(idx[i], ss + [s]) {
      GroupOfSnocOther(idx[i], ss, s);
    }
  }

  lemma RecordNewGroups(idx: Index, ss: seq<Sighting>, s: Sighting)
    requires AllGroupsOf(idx, ss) && s.hash != "" && !Occurs(ss, s.hash)
    ensures AllGroupsOf(idx + [Singleton(s)], ss + [s])
  {
    var idx' := idx + [Singleton(s)];
    var ss' := ss + [s];
    forall i | 0 <= i < |idx| ensures GroupOf(idx'[i], ss') {
      assert idx'[i] == idx[i];
      assert idx[i].hash != s.hash;
      GroupOfSnocOther(idx[i], ss, s);
    }
    PathsEmpty(ss, s.hash);
    PathsSnoc(ss, s, s.hash);
    FirstSnocNew(ss, s);
    assert GroupOf(idx'[|idx|], ss');
  }

  lemma RecordNewCovers(idx: Index, ss: seq<Sighting>, s: Sighting)
    requires Covers(idx, ss) && s.hash != ""
    ensures Covers(idx + [Singleton(s)], ss + [s])
  {
    var idx' := idx + [Singleton(s)];
    forall h | h != "" && Occurs(ss + [s], h) ensures exists i :: 0 <= i < |idx'| && idx'[i].hash == h {
      OccursSnoc(ss, s, h);
      if h == s.hash {
        assert idx'[|idx|].hash == h;
      } else {
        var i :| 0 <= i < |idx| && idx[i].hash == h;
        assert idx'[i].hash == h;
      }
    }
  }

  lemma RecordNewOrder(idx: Index, ss: seq<Sighting>, s: Sighting)
    requires AllGroupsOf(idx, ss) && FirstSeenOrder(idx, ss) && !Occurs(ss, s.hash)
    ensures FirstSeenOrder(idx + [Singleton(s)], ss + [s])
  {
    var idx' := idx + [Singleton(s)];
    var ss' := ss + [s];
    FirstSnocNew(ss, s);
    forall i, j | 0 <= i < j < |idx'|
      ensures SeenBefore(ss', idx'[i].hash, idx'[j].hash)
    {
      assert idx'[i] == idx[i];
      assert GroupOf(idx[i], ss);
      FirstSnoc(ss, s, idx[i].hash);
      if j < |idx| {
        assert idx'[j] == idx[j];
        FirstSnoc(ss, s, idx[j].hash);
      }
    }
  }

  lemma RecordNew(idx: Index, ss: seq<Sighting>, s: Sighting)
    requires Summarizes(idx, ss) && s.hash != "" && !Occurs(ss, s.hash)
    ensures Summarizes(idx + [Singleton(s)], ss + [s])
  {
    RecordNewGroups(idx, ss, s);
    RecordNewCovers(idx, ss, s);
    RecordNewOrder(idx, ss, s);
    assert WellFormed(idx + [Singleton(s)]) by {
      forall i | 0 <= i < |idx| ensures idx[i].hash != s.hash {
        assert GroupOf(idx[i], ss);
      }
    }
  }

  lemma RecordRepeatGroups(idx: Index, ss: seq<Sighting>, s: Sighting, k: nat)
    requires WellFormed(idx) && AllGroupsOf(idx, ss) && k < |idx| && idx[k].hash == s.hash
    ensures AllGroupsOf(Appended(idx, k, s), ss + [s])
  {
    var idx' := Appended(idx, k, s);
    var ss' := ss + [s];
    forall i | 0 <= i < |idx| ensures GroupOf(idx'[i], ss') {
      if i == k {
        PathsSnoc(ss, s, s.hash);
        FirstSnoc(ss, s, s.hash);
        var f := FirstWith(ss, s.hash);
        assert ss'[f] == ss[f];
      } else {
        GroupOfSnocOther(idx[i], ss, s);
      }
    }
  }

  lemma RecordRepeatCovers(idx: Index, ss: seq<Sighting>, s: Sighting, k: nat)
    requires Covers(idx, ss) && k < |idx| && idx[k].hash == s.hash
    ensures Covers(Appended(idx, k, s), ss + [s])
  {
    var idx' := Appended(idx, k, s);
    forall h | h != "" && Occurs(ss + [s], h) ensures exists i :: 0 <= i < |idx'| && idx'[i].hash == h {
      OccursSnoc(ss, s, h);
      if h == s.hash {
        assert idx'[k].hash == h;
      } else {
        var i :| 0 <= i < |idx| && idx[i].hash == h;
        assert idx'[i].hash == h;
      }
    }
  }

  lemma RecordRepeatOrder(idx: Index, ss: seq<Sighting>, s: Sighting, k: nat)
    requires FirstSeenOrder(idx, ss) && k < |idx| && idx[k].hash == s.hash
    ensures FirstSeenOrder(Appended(idx, k, s), ss + [s])
  {
    var idx' := Appended(idx, k, s);
    var ss' := ss + [s];
    assert forall i :: 0 <= i < |idx'| ==> idx'[i].hash == idx[i].hash;
    forall i, j | 0 <= i < j < |idx'|
      ensures SeenBefore(ss', idx'[i].hash, idx'[j].hash)
    {
      assert SeenBefore(ss, idx[i].hash, idx[j].hash);
      FirstSnoc(ss, s, idx[i].hash);
      FirstSnoc(ss, s, idx[j].hash);
    }
  }

  lemma RecordRepeat(idx: Index, ss: seq<Sighting>, s: Sighting, k: nat)
    requires Summarizes(idx, ss) && k < |idx| && idx[k].hash == s.hash
    ensures Summarizes(Appended(idx, k, s), ss + [s])
  {
    RecordRepeatGroups(idx, ss, s, k);
    RecordRepeatCovers(idx, ss, s, k);
    RecordRepeatOrder(idx, ss, s, k);
  }

  /** Recording one more file keeps the index exact, and marks the file iff it was seen before. */
  lemma RecordStep(idx: Index, ss: seq<Sighting>, s: Sighting)
    requires Summarizes(idx, ss)
    ensures Summarizes(Record(idx, s).0, ss + [s])
    ensures Record(idx, s).1 <==> s.hash != "" && Occurs(ss, s.hash)
  {
    if s.hash != "" && Occurs(ss, s.hash) {
      var i :| 0 <= i < |idx| && idx[i].hash == s.hash;
    }
    if Record(idx, s).1 {
      var i :| 0 <= i < |idx| && idx[i].hash == s.hash;
      assert GroupOf(idx[i], ss);
    }
    if s.hash == "" {
      RecordSkip(idx, ss, s);
    } else if !Record(idx, s).1 {
      RecordNew(idx, ss, s);
    } else {
      var k :| 0 <= k < |idx| && idx[k].hash == s.hash && Record(idx, s).0 == Appended(idx, k, s);
      RecordRepeat(idx, ss, s, k);
    }
  }

  lemma {:induction false} BuildFromAppend(idx: Index, ss1: seq<Sighting>, ss2: seq<Sighting>)
    ensures BuildFrom(idx, ss1 + ss2).0 == BuildFrom(BuildFrom(idx, ss1).0, ss2).0
    ensures BuildFrom(idx, ss1 + ss2).1 == BuildFrom(idx, ss1).1 + BuildFrom(BuildFrom(idx, ss1).0, ss2).1
    decreases |ss1|
  {
    if |ss1| == 0 {
      assert ss1 + ss2 == ss2;
    } else {
      assert (ss1 + ss2)[0] == ss1[0];
      assert (ss1 + ss2)[1..] == ss1[1..] + ss2;
      BuildFromAppend(Record(idx, ss1[0]).0, ss1[1..], ss2);
    }
  }

  lemma BuildSnoc(ss: seq<Sighting>, s: Sighting)
    ensures Build(ss + [s]).0 == Record(Build(ss).0, s).0
    ensures Build(ss + [s]).1 == Build(ss).1 + [Record(Build(ss).0, s).1]
  {
    BuildFromAppend([], ss, [s]);
  }

  /**
   * The index built from a sequence of files is exact: one group per
   * non-empty fingerprint that occurs, holding all and only that
   * fingerprint's paths and names in discovery order, labelled by its first
   * member, with groups ordered by first sighting; a file is marked exactly
   * when an earlier file had the same non-empty fingerprint.
   */
  lemma {:induction false} BuildCorrect(ss: seq<Sighting>)
    ensures Summarizes(Build(ss).0, ss)
    ensures forall k :: 0 <= k < |ss| ==>
      (Build(ss).1[k] <==> ss[k].hash != "" && Occurs(ss[..k], ss[k].hash))
    decreases |ss|
  {
    if |ss| > 0 {
      var init := ss[..|ss| - 1];
      var s := ss[|ss| - 1];
      BuildCorrect(init);
      assert ss == init + [s];
      BuildSnoc(init, s);
      RecordStep(Build(init).0, init, s);
      forall k | 0 <= k < |ss|
        ensures Build(ss).1[k] <==> ss[k].hash != "" && Occurs(ss[..k], ss[k].hash)
      {
        if k < |init| {
          assert ss[..k] == init[..k];
          assert Build(ss).1[k] == Build(init).1[k];
        } else {
          assert ss[..k] == init;
        }
      }
    }
  }

  /** Finalisation keeps groups that were right for `ss`, and only those with two or more members. */
  lemma FinalizeGroups(idx: Index, ss: seq<Sighting>)
    requires Summarizes(idx, ss)
    ensures var dups := Finalize(idx);
      forall i :: 0 <= i < |dups| ==>
        dups[i].hash != "" && GroupOf(dups[i], ss) && |dups[i].paths| >= 2
  {
    FinalizeKeepsOrder(idx);
    var dups := Finalize(idx);
    var pos := Kept(idx);
    forall i | 0 <= i < |dups| ensures dups[i].hash != "" && GroupOf(dups[i], ss) {
      assert dups[i] == idx[pos[i]];
    }
  }

  /* ---------------------------------------------------------------- */
  /* Counting the duplicate files                                      */
  /* ---------------------------------------------------------------- */

  /** The sighting at `k` has a non-empty fingerprint that two or more sightings of `ss` share. */
  ghost predicate Shared(ss: seq<Sighting>, k: nat)
    requires k < |ss|
  {
    ss[k].hash != "" && |PathsWith(ss, ss[k].hash)| >= 2
  }

  /** How many of the first `n` sightings are shared. */
  ghost function SharedUpTo(ss: seq<Sighting>, n: nat): nat
    requires n <= |ss|
    decreases n
  {
    if n == 0 then 0 else SharedUpTo(ss, n - 1) + (if Shared(ss, n - 1) then 1 else 0)
  }

  /** How many sightings of `ss` are shared, the first-seen member of each group included. */
  ghost function SharedFiles(ss: seq<Sighting>): nat
  {
    SharedUpTo(ss, |ss|)
  }

  /** How many files one more file with a fingerprint seen `c` times before adds to the count. */
  function Newly(c: nat): nat
  {
    if c == 0 then 0 else if c == 1 then 2 else 1
  }

  /**
   * Appending `s` changes whether an earlier sighting is shared only when it
   * has `s`'s fingerprint and that fingerprint was seen exactly once before.
   */
  lemma {:induction false} SharedUpToSnoc(ss: seq<Sighting>, s: Sighting, n: nat)
    requires n <= |ss|
    ensures SharedUpTo(ss + [s], n) == SharedUpTo(ss, n)
      + (if s.hash != "" && |PathsWith(ss, s.hash)| == 1 then |PathsWith(ss[..n], s.hash)| else 0)
    decreases n
  {
    if n > 0 {
      SharedUpToSnoc(ss, s, n - 1);
      var k := n - 1;
      var h := ss[k].hash;
      assert (ss + [s])[k] == ss[k];
      PathsSnoc(ss, s, h);
      assert ss[..n] == ss[..k] + [ss[k]];
      PathsSnoc(ss[..k], ss[k], s.hash);
    }
  }

  /** One more sighting adds `Newly` of the times its fingerprint was seen before. */
  lemma SharedFilesSnoc(ss: seq<Sighting>, s: Sighting)
    ensures SharedFiles(ss + [s]) == SharedFiles(ss) + (if s.hash == "" then 0 else Newly(|PathsWith(ss, s.hash)|))
  {
    SharedUpToSnoc(ss, s, |ss|);
    assert ss[..|ss|] == ss;
    PathsSnoc(ss, s, s.hash);
    assert (ss + [s])[|ss|] == s;
  }

  /** Summing the groups' path counts over one more group adds its path count. */
  lemma DuplicateFilesSnoc(dups: Index, g: DuplicateGroup)
    ensures DuplicateFiles(dups + [g]) == DuplicateFiles(dups) + |g.paths|
  {
    assert (dups + [g])[..|dups|] == dups;
  }

  /** A founding one-member group is dropped by finalisation, so the count does not move. */
  lemma FinalizeNewGroup(idx: Index, s: Sighting)
    ensures Finalize(idx + [Singleton(s)]) == Finalize(idx)
  {
    assert (idx + [Singleton(s)])[..|idx|] == idx;
  }

  /** The count after finalisation, split at the last group. */
  lemma FinalizeCountSnoc(idx: Index)
    requires |idx| > 0
    ensures var g := idx[|idx| - 1];
      DuplicateFiles(Finalize(idx))
        == DuplicateFiles(Finalize(idx[..|idx| - 1])) + (if |g.paths| > 1 then |g.paths| else 0)
  {
    var init := idx[..|idx| - 1];
    var g := idx[|idx| - 1];
    if |g.paths| > 1 {
      assert Finalize(idx) == Finalize(init) + [g];
      DuplicateFilesSnoc(Finalize(init), g);
    } else {
      assert Finalize(idx) == Finalize(init) + [];
      assert Finalize(init) + [] == Finalize(init);
    }
  }

  /** Appending to group `k` of `p` paths adds `Newly(p)` to the count after finalisation. */
  lemma {:induction false} FinalizeAppended(idx: Index, k: nat, s: Sighting)
    requires k < |idx|
    ensures DuplicateFiles(Finalize(Appended(idx, k, s)))
      == DuplicateFiles(Finalize(idx)) + Newly(|idx[k].paths|)
    decreases |idx|
  {
    var idx' := Appended(idx, k, s);
    var n := |idx|;
    var init := idx[..n - 1];
    var p := |idx[n - 1].paths|;
    var p' := |idx'[n - 1].paths|;
    FinalizeCountSnoc(idx);
    FinalizeCountSnoc(idx');
    if k == n - 1 {
      assert idx'[..n - 1] == init;
      assert p' == p + 1;
      NewlyStep(p, p');
    } else {
      assert idx'[..n - 1] == Appended(init, k, s);
      assert p' == p;
      assert init[k] == idx[k];
      FinalizeAppended(init, k, s);
    }
  }

  /** A group growing from `p` to `p + 1` paths adds `Newly(p)` to what finalisation counts of it. */
  lemma NewlyStep(p: nat, q: nat)
    requires q == p + 1
    ensures (if q > 1 then q else 0) == (if p > 1 then p else 0) + Newly(p)
  {
  }

  /** Recording one more sighting moves both counts alike. */
  lemma CountStep(idx: Index, ss: seq<Sighting>, s: Sighting)
    requires Summarizes(idx, ss)
    ensures DuplicateFiles(Finalize(Record(idx, s).0))
      == DuplicateFiles(Finalize(idx)) + (if s.hash == "" then 0 else Newly(|PathsWith(ss, s.hash)|))
  {
    if s.hash != "" {
      if Record(idx, s).1 {
        var k :| 0 <= k < |idx| && idx[k].hash == s.hash && Record(idx, s).0 == Appended(idx, k, s);
        assert GroupOf(idx[k], ss);
        FinalizeAppended(idx, k, s);
      } else {
        PathsNonEmpty(ss, s.hash);
        FinalizeNewGroup(idx, s);
      }
    }
  }

  /**
   * The reported number of duplicate files counts every sighting whose
   * non-empty fingerprint two or more sightings share, the first-seen one of
   * each group included.
   */
  lemma {:induction false} DuplicateCount(ss: seq<Sighting>)
    ensures DuplicateFiles(Finalize(Build(ss).0)) == SharedFiles(ss)
    decreases |ss|
  {
    if |ss| > 0 {
      var init := ss[..|ss| - 1];
      var s := ss[|ss| - 1];
      assert ss == init + [s];
      DuplicateCount(init);
      CountSnoc(init, s);
      SharedFilesSnoc(init, s);
    }
  }

  /** Building over one more sighting moves the count as `CountStep` says. */
  lemma CountSnoc(ss: seq<Sighting>, s: Sighting)
    ensures DuplicateFiles(Finalize(Build(ss + [s]).0))
      == DuplicateFiles(Finalize(Build(ss).0)) + (if s.hash == "" then 0 else Newly(|PathsWith(ss, s.hash)|))
  {
    BuildCorrect(ss);
    BuildSnoc(ss, s);
    CountStep(Build(ss).0, ss, s);
  }

  /** Every fingerprint seen at least twice survives finalisation. */
  lemma FinalizeCovers(idx: Index, ss: seq<Sighting>)
    requires Summarizes(idx, ss)
    ensures var dups := Finalize(idx);
      forall h :: h != "" && |PathsWith(ss, h)| >= 2 ==> exists i :: 0 <= i < |dups| && dups[i].hash == h
  {
    FinalizeKeepsOrder(idx);
    KeptComplete(idx);
    var dups := Finalize(idx);
    var pos := Kept(idx);
    forall h | h != "" && |PathsWith(ss, h)| >= 2 ensures exists i :: 0 <= i < |dups| && dups[i].hash == h {
      PathsNonEmpty(ss, h);
      var a :| 0 <= a < |idx| && idx[a].hash == h;
      assert GroupOf(idx[a], ss);
      var i :| 0 <= i < |pos| && pos[i] == a;
      assert dups[i] == idx[a];
    }
  }

  /** Finalisation keeps the first-seen order. */
  lemma FinalizeOrder(idx: Index, ss: seq<Sighting>)
    requires FirstSeenOrder(idx, ss)
    ensures FirstSeenOrder(Finalize(idx), ss)
  {
    FinalizeKeepsOrder(idx);
    var dups := Finalize(idx);
    var pos := Kept(idx);
    forall i, j | 0 <= i < j < |dups| ensures SeenBefore(ss, dups[i].hash, dups[j].hash) {
      assert dups[i] == idx[pos[i]] && dups[j] == idx[pos[j]];
      assert pos[i] < pos[j];
    }
  }

  /**
   * The finalised duplicate list is exactly the fingerprints seen at least
   * twice, each with all its paths and names in discovery order, listed in
   * order of first sighting; it counts at least two files per group.
   */
  lemma FinalizeCorrect(ss: seq<Sighting>)
    ensures var dups := Finalize(Build(ss).0);
      && (forall i :: 0 <= i < |dups| ==>
            dups[i].hash != "" && GroupOf(dups[i], ss) && |PathsWith(ss, dups[i].hash)| >= 2)
      && (forall h :: h != "" && |PathsWith(ss, h)| >= 2 ==>
            exists i :: 0 <= i < |dups| && dups[i].hash == h)
      && FirstSeenOrder(dups, ss)
      && DuplicateFiles(dups) >= 2 * |dups|
  {
    var idx := Build(ss).0;
    BuildCorrect(ss);
    FinalizeGroups(idx, ss);
    FinalizeCovers(idx, ss);
    FinalizeOrder(idx, ss);
  }
}
