/**
 How the two scripts fit together: every toggle message the background sends is
 one the content script acts on, a visibility report from a page lands in that
 tab's entry, and the visibility a page last reported is what it is told on its
 next load, as long as nothing in between closes the tab, rewrites its entry or
 sweeps it as stale.
 */
module Protocol {
  import opened Js
  import opened StateKeeper
  import opened PanelController

  /** The request the content script sends once its panel is built. */
  const InitialStateRequest: Object := map["action" := Str("getInitialState")]

  /** Whichever format the icon handler draws, and whether or not it retries, the page recognises every message as a toggle. */
  lemma EveryToggleAttemptIsRecognized(first: nat, firstFailed: bool)
    requires first < |ToggleFormats|
    ensures forall i :: 0 <= i < |ToggleAttempts(first, firstFailed)| ==> IsToggleMessage(ToggleAttempts(first, firstFailed)[i])
  {
  }

  /**
   The startup request is answered but writes nothing, and a page's report writes
   its own tab's entry with the reported visibility, stamped with the time it arrived.
   */
  lemma ReportsAndRequestsReachTheTable(m: Table, tab: int, visible: bool, now: int)
    requires tab != 0
    ensures IsInitialStateRequest(InitialStateRequest) && !IsStateUpdate(InitialStateRequest)
    ensures AfterMessage(m, InitialStateRequest, Some(tab), now) == m
    ensures var after := AfterMessage(m, StateReport(visible), Some(tab), now);
            && tab in after && after[tab].timestamp == now
            && (Truthy(Lookup(after, tab)) <==> visible)
  {
  }

  /**
   The visibility a page reports is what its tab is told on a later load: after the
   report, any events that do not close the tab or write its entry, with every sweep
   at most an hour after the report, leave `getInitialState` answering that value.
   */
  lemma {:induction false} ReportedVisibilityIsRestored(m: Table, tab: int, visible: bool, now: int, later: seq<Event>)
    requires tab != 0
    requires forall i :: 0 <= i < |later| ==> !Records(later[i], tab) && later[i] != TabClosed(tab)
    requires forall i :: 0 <= i < |later| && later[i].SweepTimer? ==> later[i].now - now <= StaleAfter
    ensures Truthy(Lookup(Run(Step(m, Received(StateReport(visible), Some(tab), now)), later), tab)) <==> visible
  {
    var reported := Step(m, Received(StateReport(visible), Some(tab), now));
    ReportsAndRequestsReachTheTable(m, tab, visible, now);
    assert reported[tab].timestamp == now;
    EntrySurvivesUnrelatedEvents(reported, later, tab);
  }

  /**
   A page load: the background answers the page's startup request from its table
   and the page shows its panel exactly when the answer is truthy, reporting that
   it did.
   */
  method RestoreOnLoad(table: TabTable, panel: Panel, tab: int, now: int)
    requires panel.Valid()
    modifies panel
    ensures panel.Valid()
    ensures tab in table.entries && Truthy(table.entries[tab].state) ==>
              panel.isPanelVisible && panel.reports == old(panel.reports) + [StateReport(true)]
    ensures !(tab in table.entries && Truthy(table.entries[tab].state)) ==>
              panel.isPanelVisible == old(panel.isPanelVisible) && panel.reports == old(panel.reports)
  {
    var reply := table.ReplyInitialState(tab, now);
    panel.OnInitialStateResponse(Some(reply));
  }
}
