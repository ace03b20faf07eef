// The loading screen of components/Loader.tsx: a stage counter advanced by an interval
// tick and clamped at the last stage, and the completed / active / pending classification
// of every stage row.

module Loader {
  import opened Types
  import Constants

  function Max(a: int, b: int): int { if a < b then b else a }
  function Min(a: int, b: int): int { if a < b then a else b }

  /** The highest stage the counter can reach with `count` stages. */
  function LastStage(count: int): (k: int)
    ensures k >= 0
    ensures count >= 1 ==> k == count - 1
  {
    Max(0, count - 1)
  }

  /**
   * One tick of the interval callback: one stage further while the stage is below the
   * last one, the same stage otherwise.
   */
  function NextStage(stage: int, count: int): (n: int)
    ensures n == stage || n == stage + 1
    ensures n == stage + 1 <==> stage < count - 1
    ensures 0 <= stage <= LastStage(count) ==> n <= LastStage(count)
  {
    if stage < count - 1 then stage + 1 else stage
  }

  /** The stage after `ticks` ticks from the initial stage 0. */
  function StageAfter(ticks: nat, count: int): int {
    if ticks == 0 then 0 else NextStage(StageAfter(ticks - 1, count), count)
  }

  /** The counter climbs one stage per tick until it reaches the last stage, and stays there. */
  lemma {:induction false} StageAfterClosedForm(ticks: nat, count: int)
    ensures StageAfter(ticks, count) == Min(ticks, LastStage(count))
  {
    if ticks > 0 {
      StageAfterClosedForm(ticks - 1, count);
    }
  }

  /** The stage never goes down as ticks accumulate, and never passes the last stage. */
  lemma {:induction false} StageAfterMonotone(t1: nat, t2: nat, count: int)
    requires t1 <= t2
    ensures 0 <= StageAfter(t1, count) <= StageAfter(t2, count) <= LastStage(count)
  {
    StageAfterClosedForm(t1, count);
    StageAfterClosedForm(t2, count);
  }

  /** The three comparisons the stage list makes for row `index`. */
  predicate IsActive(index: int, stage: int) { index == stage }
  predicate IsCompleted(index: int, stage: int) { index < stage }
  predicate IsPending(index: int, stage: int) { index > stage }

  /** For every row exactly one of active, completed and pending holds. */
  lemma ExactlyOneStatus(index: int, stage: int)
    ensures IsActive(index, stage) || IsCompleted(index, stage) || IsPending(index, stage)
    ensures !(IsActive(index, stage) && IsCompleted(index, stage))
    ensures !(IsActive(index, stage) && IsPending(index, stage))
    ensures !(IsCompleted(index, stage) && IsPending(index, stage))
  {
  }

  /** The indices of the completed rows among `count` rows. */
  function CompletedRows(stage: int, count: int): set<int> {
    set i | 0 <= i < count && IsCompleted(i, stage)
  }

  /** While the stage is a row index, that row is the only active one and exactly `stage` rows are completed. */
  lemma ActiveRowIsTheStage(stage: int, count: int)
    requires 0 <= stage < count
    ensures (set i | 0 <= i < count && IsActive(i, stage)) == {stage}
    ensures |CompletedRows(stage, count)| == stage
  {
    CompletedRowsCount(stage, count);
  }

  lemma {:induction false} CompletedRowsCount(stage: nat, count: int)
    requires stage <= count
    ensures |CompletedRows(stage, count)| == stage
  {
    if stage == 0 {
      assert CompletedRows(stage, count) == {};
    } else {
      CompletedRowsCount(stage - 1, count);
      assert CompletedRows(stage, count) == CompletedRows(stage - 1, count) + {stage - 1};
    }
  }

  /** The status icon of a row: check mark, spinner or dot. */
  datatype StageStatus = Completed | Active | Pending

  /** The icon choice of the row, tested in the order the markup tests it: completed first, then active. */
  function StatusOf(index: int, stage: int): StageStatus {
    if IsCompleted(index, stage) then Completed
    else if IsActive(index, stage) then Active
    else Pending
  }

  /** The icon shown is the one classification that holds. */
  lemma StatusOfAgrees(index: int, stage: int)
    ensures StatusOf(index, stage) == Completed <==> IsCompleted(index, stage)
    ensures StatusOf(index, stage) == Active <==> IsActive(index, stage)
    ensures StatusOf(index, stage) == Pending <==> IsPending(index, stage)
  {
  }

  /** One row of the stage list. */
  datatype StageRow = StageRow(text: string, status: StageStatus)

  /** The rows of the stage list: one per loading stage text, in order. */
  function StageRows(stages: seq<string>, stage: int): (rows: seq<StageRow>)
    ensures |rows| == |stages|
    ensures forall i | 0 <= i < |rows| :: rows[i].text == stages[i]
    ensures forall i | 0 <= i < |rows| :: (rows[i].status == Active <==> i == stage)
    ensures forall i | 0 <= i < |rows| :: (rows[i].status == Completed <==> i < stage)
  {
    seq(|stages|, i requires 0 <= i < |stages| => StageRow(stages[i], StatusOf(i, stage)))
  }

  /**
   * The mounted loader: the stage state, the stage count the running interval reads, and
   * whether the interval is still scheduled.
   */
  class StageCounter {
    var currentStage: int
    var stageCount: int
    var running: bool
    ghost var ticks: nat

    /** Every locale has four stages, and the stage is the one reached after the ticks so far. */
    ghost predicate Valid()
      reads this
    {
      && stageCount == 4
      && currentStage == StageAfter(ticks, stageCount)
    }

    /** Mounting: stage 0 and an interval over the locale's loading stages. */
    constructor (lang: Language)
      ensures Valid()
      ensures currentStage == 0 && ticks == 0
      ensures stageCount == |Constants.Translations(lang).loadingStages|
      ensures running
    {
      Constants.TranslationShapes(lang);
      currentStage := 0;
      stageCount := |Constants.Translations(lang).loadingStages|;
      running := true;
      ticks := 0;
    }

    /** One interval tick; once the interval is cleared nothing happens. */
    method Tick()
      requires Valid()
      modifies this
      ensures Valid()
      ensures running == old(running) && stageCount == old(stageCount)
      ensures old(running) ==> currentStage == NextStage(old(currentStage), stageCount) && ticks == old(ticks) + 1
      ensures !old(running) ==> currentStage == old(currentStage) && ticks == old(ticks)
      ensures old(currentStage) <= currentStage <= LastStage(stageCount)
    {
      StageAfterMonotone(ticks, ticks, stageCount);
      if running {
        currentStage := if currentStage < stageCount - 1 then currentStage + 1 else currentStage;
        ticks := ticks + 1;
        StageAfterMonotone(ticks, ticks, stageCount);
      }
    }

    /**
     * A re-render with another locale.  The effect depends only on the number of stages,
     * which is the same in every locale, so the interval keeps running and the stage is kept.
     */
    method Rerender(lang: Language)
      requires Valid()
      modifies this
      ensures Valid()
      ensures stageCount == |Constants.Translations(lang).loadingStages| == old(stageCount)
      ensures currentStage == old(currentStage) && running == old(running) && ticks == old(ticks)
    {
      Constants.TranslationShapes(lang);
      stageCount := |Constants.Translations(lang).loadingStages|;
    }

    /** Unmounting clears the interval; the stage stays where it was. */
    method Teardown()
      modifies this
      ensures !running
      ensures currentStage == old(currentStage) && stageCount == old(stageCount) && ticks == old(ticks)
    {
      running := false;
    }
  }
}
