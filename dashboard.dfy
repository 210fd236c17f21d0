/**
 * components/Dashboard.tsx: which view the dashboard shows, and the
 * lead-health bar.
 */
module Dashboard {
  import opened Wrappers
  import opened Types

  /** Width, in percent, of the lead-health bar: ten points per lead, capped
      at a full bar. It lies in [0, 100], reaches 100 exactly from ten leads
      on, and is exact below that. */
  function HealthWidth(leadCount: nat): (w: nat)
    ensures w <= 100
    ensures w == 100 <==> leadCount >= 10
    ensures leadCount < 10 ==> w == 10 * leadCount
  {
    if leadCount * 10 < 100 then leadCount * 10 else 100
  }

  /** More leads never make the bar shorter. */
  lemma HealthWidthMonotone(m: nat, n: nat)
    requires m <= n
    ensures HealthWidth(m) <= HealthWidth(n)
  {
  }

  /** The label beside the bar. */
  function HealthLabel(leadCount: nat): (s: string)
    ensures s == "High" <==> leadCount > 5
    ensures s == "High" || s == "Moderate"
  {
    if leadCount > 5 then "High" else "Moderate"
  }

  /** What the lead column shows. */
  datatype LeadPane =
    | Skeletons        // four pulsing placeholders while a scan runs
    | Cards(cards: seq<Lead>)
    | NoLeadsYet

  /** The dashboard as a whole. */
  datatype View =
    | ReadyToFind      // no collection selected
    | Workspace(file: KeywordFile, pane: LeadPane, showExcluded: bool,
                health: nat, healthLabel: string)

  /** The branch `Dashboard` renders. Without an active file it is the
      empty state whatever the leads; otherwise loading takes precedence,
      "No leads found yet" appears only when not loading with an empty list,
      the cards show the leads in order, and the excluded-keyword block
      appears only when that list is non-empty. */
  function Render(activeFile: Option<KeywordFile>, leads: seq<Lead>, isLoading: bool): (v: View)
    ensures v.ReadyToFind? <==> activeFile.None?
    ensures v.Workspace? ==> v.file == activeFile.value
    ensures v.Workspace? ==> (v.pane.Skeletons? <==> isLoading)
    ensures v.Workspace? ==> (v.pane.NoLeadsYet? <==> !isLoading && leads == [])
    ensures v.Workspace? && v.pane.Cards? ==> v.pane.cards == leads && leads != []
    ensures v.Workspace? ==> (v.showExcluded <==> activeFile.value.excludeKeywords != [])
    ensures v.Workspace? ==> v.health == HealthWidth(|leads|) && v.healthLabel == HealthLabel(|leads|)
  {
    if activeFile.None? then ReadyToFind
    else
      var pane := if isLoading then Skeletons else if |leads| > 0 then Cards(leads) else NoLeadsYet;
      Workspace(activeFile.value, pane, |activeFile.value.excludeKeywords| > 0,
                HealthWidth(|leads|), HealthLabel(|leads|))
  }
}
