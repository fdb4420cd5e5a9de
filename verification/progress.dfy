/**
 * The progress store of src/contexts/ProgressContext.tsx: a record of the
 * current scan's progress, a partial update that overwrites the fields it
 * carries (with the percentage clamped into [0, 100]), and a reset.
 */
module Progress {
  import opened Optional

  datatype Stage = Scanning | Analyzing | Visualizing | Idle

  datatype ProgressInfo = ProgressInfo(
    isProcessing: bool,
    stage: Stage,
    percentage: real,
    currentFile: string,
    processedItems: int,
    totalItems: int,
    estimatedTimeRemaining: Option<real>)

  /**
   * `Partial<ProgressInfo>`: `None` is an absent key. The time estimate may be
   * absent (`None`) or present and `null` (`Some(None)`).
   */
  datatype ProgressUpdate = ProgressUpdate(
    isProcessing: Option<bool>,
    stage: Option<Stage>,
    percentage: Option<real>,
    currentFile: Option<string>,
    processedItems: Option<int>,
    totalItems: Option<int>,
    estimatedTimeRemaining: Option<Option<real>>)

  const InitialState: ProgressInfo :=
    ProgressInfo(false, Idle, 0.0, "", 0, 0, None)

  /** Percentages are kept between these bounds. */
  const Floor: real := 0.0
  const Ceiling: real := 100.0

  predicate InRange(p: ProgressInfo) { Floor <= p.percentage <= Ceiling }

  /** The percentage forced into [0, 100] (ProgressContext.tsx:45-48). */
  function Clamp(x: real): (r: real)
    ensures Floor <= r <= Ceiling
    ensures Floor <= x <= Ceiling ==> r == x
    ensures x < Floor ==> r == Floor
    ensures x > Ceiling ==> r == Ceiling
  {
    if x < Floor then Floor else if x > Ceiling then Ceiling else x
  }

  /** The previous state overwritten by every key the update carries, with the percentage clamped (ProgressContext.tsx:41-50). */
  function UpdateProgress(prev: ProgressInfo, u: ProgressUpdate): (next: ProgressInfo)
    ensures next.isProcessing == u.isProcessing.GetOr(prev.isProcessing)
    ensures next.stage == u.stage.GetOr(prev.stage)
    ensures next.currentFile == u.currentFile.GetOr(prev.currentFile)
    ensures next.processedItems == u.processedItems.GetOr(prev.processedItems)
    ensures next.totalItems == u.totalItems.GetOr(prev.totalItems)
    ensures next.estimatedTimeRemaining == u.estimatedTimeRemaining.GetOr(prev.estimatedTimeRemaining)
    ensures u.percentage.Some? ==> next.percentage == Clamp(u.percentage.value)
    ensures u.percentage.None? ==> next.percentage == prev.percentage
    ensures InRange(prev) ==> InRange(next)
  {
    ProgressInfo(
      u.isProcessing.GetOr(prev.isProcessing),
      u.stage.GetOr(prev.stage),
      if u.percentage.Some? then Clamp(u.percentage.value) else prev.percentage,
      u.currentFile.GetOr(prev.currentFile),
      u.processedItems.GetOr(prev.processedItems),
      u.totalItems.GetOr(prev.totalItems),
      u.estimatedTimeRemaining.GetOr(prev.estimatedTimeRemaining))
  }

  function ResetProgress(): (p: ProgressInfo)
    ensures !p.isProcessing && p.stage == Idle && p.percentage == 0.0
    ensures p.currentFile == "" && p.processedItems == 0 && p.totalItems == 0
    ensures p.estimatedTimeRemaining.None?
  {
    InitialState
  }

  /** Applying the same update twice is the same as applying it once. */
  lemma UpdateIdempotent(p: ProgressInfo, u: ProgressUpdate)
    ensures UpdateProgress(UpdateProgress(p, u), u) == UpdateProgress(p, u)
  {
  }

  /** The update carrying every key of `second`, and the keys of `first` that `second` lacks. */
  function Merge(first: ProgressUpdate, second: ProgressUpdate): (m: ProgressUpdate)
  {
    ProgressUpdate(
      if second.isProcessing.Some? then second.isProcessing else first.isProcessing,
      if second.stage.Some? then second.stage else first.stage,
      if second.percentage.Some? then second.percentage else first.percentage,
      if second.currentFile.Some? then second.currentFile else first.currentFile,
      if second.processedItems.Some? then second.processedItems else first.processedItems,
      if second.totalItems.Some? then second.totalItems else first.totalItems,
      if second.estimatedTimeRemaining.Some? then second.estimatedTimeRemaining else first.estimatedTimeRemaining)
  }

  /** Two updates in a row act as their merge: later keys win, earlier ones survive otherwise. */
  lemma UpdateCompose(p: ProgressInfo, first: ProgressUpdate, second: ProgressUpdate)
    ensures UpdateProgress(UpdateProgress(p, first), second) == UpdateProgress(p, Merge(first, second))
  {
  }

  /** The state after a sequence of updates. */
  function ApplyAll(p: ProgressInfo, us: seq<ProgressUpdate>): ProgressInfo
    decreases |us|
  {
    if |us| == 0 then p else UpdateProgress(ApplyAll(p, us[..|us| - 1]), us[|us| - 1])
  }

  /** Starting from a reset, no sequence of updates takes the percentage outside [0, 100]. */
  lemma {:induction false} ReachableInRange(us: seq<ProgressUpdate>)
    ensures InRange(ApplyAll(ResetProgress(), us))
    decreases |us|
  {
    if |us| > 0 {
      ReachableInRange(us[..|us| - 1]);
    }
  }

  /** The position of the last update that carries a percentage, if any does. */
  function LastCarrier(us: seq<ProgressUpdate>): (k: Option<nat>)
    ensures k.None? ==> forall i :: 0 <= i < |us| ==> us[i].percentage.None?
    ensures k.Some? ==>
      && k.value < |us| && us[k.value].percentage.Some?
      && forall j :: k.value < j < |us| ==> us[j].percentage.None?
    decreases |us|
  {
    if |us| == 0 then None
    else if us[|us| - 1].percentage.Some? then Some(|us| - 1)
    else LastCarrier(us[..|us| - 1])
  }

  /**
   * After any sequence of updates the percentage is the clamp of the last one
   * that carried a percentage, or the starting value when none did.
   */
  lemma {:induction false} LastPercentageWins(p: ProgressInfo, us: seq<ProgressUpdate>)
    ensures ApplyAll(p, us).percentage ==
      match LastCarrier(us)
      case None => p.percentage
      case Some(k) => Clamp(us[k].percentage.value)
    decreases |us|
  {
    if |us| > 0 {
      var init := us[..|us| - 1];
      LastPercentageWins(p, init);
      if us[|us| - 1].percentage.None? {
        assert LastCarrier(us) == LastCarrier(init);
        if LastCarrier(init).Some? {
          assert us[LastCarrier(init).value] == init[LastCarrier(init).value];
        }
      }
    }
  }
}
