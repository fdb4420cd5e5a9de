/**
 * `generateFileRecommendations`: up to four advice cards derived from the
 * statistics and the duplicate list, always in the same order.
 */
module Recommendations {
  import opened Model

  /** More than this many distinct extensions suggests organising by type. */
  const TypeThreshold: nat := 5
  /** Directories nested deeper than this suggest flattening. */
  const DepthThreshold: nat := 5
  /** More than this many files suggests splitting directories. */
  const FileThreshold: nat := 1000

  /**
   * The wasted bytes (utils.ts:59): per group, the size times the number of
   * copies beyond the first. A group with no path would count
   * negatively, so the sum is an integer.
   */
  function WastedBytes(dups: seq<DuplicateGroup>): int
    decreases |dups|
  {
    if |dups| == 0 then 0
    else
      var g := dups[|dups| - 1];
      WastedBytes(dups[..|dups| - 1]) + g.size * (|g.paths| - 1)
  }

  /** The bytes of all copies of every group. */
  function CopyBytes(dups: seq<DuplicateGroup>): nat
    decreases |dups|
  {
    if |dups| == 0 then 0
    else CopyBytes(dups[..|dups| - 1]) + dups[|dups| - 1].size * |dups[|dups| - 1].paths|
  }

  /** The bytes of one copy of every group. */
  function KeptBytes(dups: seq<DuplicateGroup>): nat
    decreases |dups|
  {
    if |dups| == 0 then 0
    else KeptBytes(dups[..|dups| - 1]) + dups[|dups| - 1].size
  }

  /** The waste is everything but one copy per group. */
  lemma {:induction false} WastedIsCopiesMinusKept(dups: seq<DuplicateGroup>)
    ensures WastedBytes(dups) == CopyBytes(dups) - KeptBytes(dups)
    decreases |dups|
  {
    if |dups| > 0 {
      WastedIsCopiesMinusKept(dups[..|dups| - 1]);
    }
  }

  /**
   * For groups of two or more copies (all a finalised duplicate list holds),
   * the waste is at least one copy per group and never more than all copies.
   */
  lemma {:induction false} WastedBounds(dups: seq<DuplicateGroup>)
    requires forall i :: 0 <= i < |dups| ==> |dups[i].paths| > 1
    ensures KeptBytes(dups) <= WastedBytes(dups) <= CopyBytes(dups)
    decreases |dups|
  {
    if |dups| > 0 {
      var g := dups[|dups| - 1];
      WastedBounds(dups[..|dups| - 1]);
      assert g.size <= g.size * (|g.paths| - 1) by {
        assert |g.paths| - 1 >= 1;
      }
    }
  }

  /** The fixed position of each kind of card in the output. */
  function Rank(r: Recommendation): nat
  {
    match r
    case CleanUpDuplicates(_, _) => 0
    case OrganizeByType(_) => 1
    case SimplifyStructure(_) => 2
    case BreakDownLarge(_) => 3
  }

  /** How many of the four rules fire. */
  function Firing(stats: FileStats, dups: seq<DuplicateGroup>): nat
  {
    (if |dups| > 0 then 1 else 0) + (if |stats.fileTypes| > TypeThreshold then 1 else 0)
    + (if stats.maxDepth > DepthThreshold then 1 else 0) + (if stats.totalFiles > FileThreshold then 1 else 0)
  }

  /** The card rule `fires` contributes: one card, or none. */
  function Card(fires: bool, r: Recommendation): (cs: seq<Recommendation>)
    ensures fires <==> cs == [r]
    ensures !fires <==> cs == []
  {
    if fires then [r] else []
  }

  /**
   * One card per rule that fires, each carrying the figures of the statistics
   * it quotes.
   */
  function Generate(stats: FileStats, dups: seq<DuplicateGroup>): (recs: seq<Recommendation>)
    ensures |recs| == Firing(stats, dups)
    ensures forall i :: 0 <= i < |recs| ==> match recs[i]
      case CleanUpDuplicates(n, w) => n == stats.duplicateFiles && w == WastedBytes(dups)
      case OrganizeByType(n) => n == |stats.fileTypes|
      case SimplifyStructure(d) => d == stats.maxDepth
      case BreakDownLarge(n) => n == stats.totalFiles
  {
    Card(|dups| > 0, CleanUpDuplicates(stats.duplicateFiles, WastedBytes(dups)))
    + Card(|stats.fileTypes| > TypeThreshold, OrganizeByType(|stats.fileTypes|))
    + Card(stats.maxDepth > DepthThreshold, SimplifyStructure(stats.maxDepth))
    + Card(stats.totalFiles > FileThreshold, BreakDownLarge(stats.totalFiles))
  }

  /** The cards come in rule order, so no kind appears twice. */
  lemma GenerateOrder(stats: FileStats, dups: seq<DuplicateGroup>)
    ensures var recs := Generate(stats, dups);
      forall i, j :: 0 <= i < j < |recs| ==> Rank(recs[i]) < Rank(recs[j])
  {
  }

  /** Each card appears exactly when its rule fires. */
  lemma GeneratePresence(stats: FileStats, dups: seq<DuplicateGroup>)
    ensures var recs := Generate(stats, dups);
      && ((exists i :: 0 <= i < |recs| && recs[i].CleanUpDuplicates?) <==> |dups| > 0)
      && ((exists i :: 0 <= i < |recs| && recs[i].OrganizeByType?) <==> |stats.fileTypes| > TypeThreshold)
      && ((exists i :: 0 <= i < |recs| && recs[i].SimplifyStructure?) <==> stats.maxDepth > DepthThreshold)
      && ((exists i :: 0 <= i < |recs| && recs[i].BreakDownLarge?) <==> stats.totalFiles > FileThreshold)
  {
    var a := Card(|dups| > 0, CleanUpDuplicates(stats.duplicateFiles, WastedBytes(dups)));
    var b := Card(|stats.fileTypes| > TypeThreshold, OrganizeByType(|stats.fileTypes|));
    var c := Card(stats.maxDepth > DepthThreshold, SimplifyStructure(stats.maxDepth));
    var recs := Generate(stats, dups);
    assert |dups| > 0 ==> recs[0].CleanUpDuplicates?;
    assert |stats.fileTypes| > TypeThreshold ==> recs[|a|].OrganizeByType?;
    assert stats.maxDepth > DepthThreshold ==> recs[|a| + |b|].SimplifyStructure?;
    assert stats.totalFiles > FileThreshold ==> recs[|a| + |b| + |c|].BreakDownLarge?;
  }
}
