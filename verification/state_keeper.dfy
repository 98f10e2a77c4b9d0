/**
 The background script's per-tab visibility table (the State Keeper): the
 `updateState` upsert and the `getInitialState` lookup of its message handler,
 the delete on tab close, the staleness sweep, and the choice of toggle-message
 format (with one retry) when the toolbar icon is clicked.

 Every handler runs to completion on one event loop, so each is modelled as one
 atomic step; the clock reading `Date.now()` is passed in as `now`.
 */
module StateKeeper {
  import opened Js

  /** Entries whose timestamp is more than this many milliseconds old are swept. */
  const StaleAfter: int := 3600000

  /** One table entry: the stored (JavaScript) visibility value and the time of the last write. */
  datatype Entry = Entry(state: Value, timestamp: int)

  /** The table, keyed by tab id. */
  type Table = map<int, Entry>

  /** `sender.tab?.id` is truthy: the sender is a tab and its id is not 0. */
  predicate HasTabId(senderTab: Option<int>)
  {
    senderTab.Some? && senderTab.value != 0
  }

  /** The message asks for an upsert: its action is "updateState" or it carries a `state` field. */
  predicate IsStateUpdate(msg: Object)
  {
    Get(msg, "action") == Str("updateState") || Get(msg, "state") != Undefined
  }

  /** The message asks for the stored visibility. */
  predicate IsInitialStateRequest(msg: Object)
  {
    Get(msg, "action") == Str("getInitialState")
  }

  /**
   The value an upsert stores, `message.state || message.isVisible || false`:
   truthy exactly when one of the two fields is, and `false` itself otherwise.
   */
  function StoredState(msg: Object): (v: Value)
    ensures Truthy(v) <==> Truthy(Get(msg, "state")) || Truthy(Get(msg, "isVisible"))
    ensures Truthy(Get(msg, "state")) ==> v == Get(msg, "state")
    ensures !Truthy(v) ==> v == Bool(false)
  {
    Or(Get(msg, "state"), Or(Get(msg, "isVisible"), Bool(false)))
  }

  /**
   The table after the message handler has seen `msg` from `senderTab` at time `now`.
   Only a state update from a tab with a truthy id writes, and it writes only that
   tab's entry, stamping it with `now`.
   */
  function AfterMessage(m: Table, msg: Object, senderTab: Option<int>, now: int): (r: Table)
    ensures HasTabId(senderTab) && IsStateUpdate(msg) ==>
              && r.Keys == m.Keys + {senderTab.value}
              && r[senderTab.value] == Entry(StoredState(msg), now)
              && forall k :: k in m && k != senderTab.value ==> r[k] == m[k]
    ensures !(HasTabId(senderTab) && IsStateUpdate(msg)) ==> r == m
  {
    if HasTabId(senderTab) && IsStateUpdate(msg) then
      m[senderTab.value := Entry(StoredState(msg), now)]
    else
      m
  }

  /**
   `_tabData[tabId]?.[_stateKey] || false`, the `isVisible` of a reply: truthy exactly
   when the tab has an entry whose stored value is truthy, and `false` otherwise.
   */
  function Lookup(m: Table, tab: int): (v: Value)
    ensures Truthy(v) <==> tab in m && Truthy(m[tab].state)
    ensures !Truthy(v) ==> v == Bool(false)
    ensures tab !in m ==> v == Bool(false)
  {
    if tab in m then Or(m[tab].state, Bool(false)) else Bool(false)
  }

  /** The table after tab `tab` closed: exactly that key is gone; closing an absent tab changes nothing. */
  function Removed(m: Table, tab: int): (r: Table)
    ensures r.Keys == m.Keys - {tab}
    ensures forall k :: k in r ==> r[k] == m[k]
    ensures tab !in m ==> r == m
  {
    if tab in m then m - {tab} else m
  }

  /** The sweep's test: the timestamp is truthy and lies strictly more than an hour before `now`. */
  predicate Stale(e: Entry, now: int)
  {
    e.timestamp != 0 && now - e.timestamp > StaleAfter
  }

  /**
   The edges of the sweep's test: an entry stamped 0 is never stale, one exactly an
   hour old is not yet stale, and one a millisecond older is.
   */
  lemma StaleBoundary(state: Value, stamp: int, now: int)
    ensures !Stale(Entry(state, 0), now)
    ensures now - stamp == StaleAfter ==> !Stale(Entry(state, stamp), now)
    ensures stamp != 0 && now - stamp == StaleAfter + 1 ==> Stale(Entry(state, stamp), now)
  {
  }

  /**
   The table after a sweep at time `now`: exactly the stale entries are gone and
   every surviving entry is unchanged.
   */
  function Swept(m: Table, now: int): (r: Table)
    ensures forall k :: k in r <==> k in m && !Stale(m[k], now)
    ensures forall k :: k in r ==> r[k] == m[k]
  {
    map k | k in m && !Stale(m[k], now) :: m[k]
  }

  /** The three toggle-message shapes the icon handler picks from. */
  const ToggleFormats: seq<Object> := [
    map["action" := Str("togglePanel")],
    map["cmd" := Str("toggle")],
    map["t" := Num(1)]
  ]

  /** The three shapes are pairwise different messages, each with exactly one field. */
  lemma ToggleFormatsAreDistinct()
    ensures |ToggleFormats| == 3
    ensures forall i :: 0 <= i < |ToggleFormats| ==> |ToggleFormats[i]| == 1
    ensures forall i, j :: 0 <= i < j < |ToggleFormats| ==> ToggleFormats[i] != ToggleFormats[j]
  {
  }

  /** The format used for the retry: the next one round the list, never the one that failed. */
  function RetryIndex(first: nat): (retry: nat)
    requires first < |ToggleFormats|
    ensures retry < |ToggleFormats|
    ensures retry != first
    ensures first + 1 < |ToggleFormats| ==> retry == first + 1
    ensures retry == 0 <==> first == |ToggleFormats| - 1
  {
    (first + 1) % |ToggleFormats|
  }

  /**
   The messages the icon handler sends to the clicked tab, given the randomly drawn
   first format and whether delivering it failed: one message, or that message and a
   retry in a different format. A failure of the retry is swallowed.
   */
  function ToggleAttempts(first: nat, firstFailed: bool): (sent: seq<Object>)
    requires first < |ToggleFormats|
    ensures |sent| == if firstFailed then 2 else 1
    ensures sent[0] == ToggleFormats[first]
    ensures forall i :: 0 <= i < |sent| ==> sent[i] in ToggleFormats
    ensures firstFailed ==> sent[1] == ToggleFormats[RetryIndex(first)] && sent[1] != sent[0]
  {
    ToggleFormatsAreDistinct();
    [ToggleFormats[first]] + if firstFailed then [ToggleFormats[RetryIndex(first)]] else []
  }

  /** The background object `_tabData` and the handlers that update it in place. */
  class TabTable {
    var entries: Table

    constructor ()
      ensures entries == map[]
    {
      entries := map[];
    }

    /**
     The `onMessage` handler. Returns whether the channel is kept open for an
     asynchronous `getInitialState` reply; a sender without a truthy tab id gets
     no reply and changes nothing.
     */
    method OnMessage(msg: Object, senderTab: Option<int>, now: int) returns (keepOpen: bool)
      modifies this
      ensures entries == AfterMessage(old(entries), msg, senderTab, now)
      ensures keepOpen <==> HasTabId(senderTab) && IsInitialStateRequest(msg)
      ensures !HasTabId(senderTab) ==> entries == old(entries) && !keepOpen
      ensures !IsStateUpdate(msg) ==> entries == old(entries)
    {
      if !HasTabId(senderTab) {
        return false;
      }
      var tab := senderTab.value;
      if Get(msg, "action") == Str("updateState") || Get(msg, "state") != Undefined {
        entries := entries[tab := Entry(StoredState(msg), now)];
      }
      keepOpen := Get(msg, "action") == Str("getInitialState");
    }

    /**
     The delayed `getInitialState` reply for `tab`, built from the table as it is
     when the reply is sent: `{isVisible, t}`.
     */
    method ReplyInitialState(tab: int, now: int) returns (reply: Object)
      ensures Get(reply, "isVisible") == Lookup(entries, tab)
      ensures Truthy(Get(reply, "isVisible")) <==> tab in entries && Truthy(entries[tab].state)
      ensures !Truthy(Get(reply, "isVisible")) ==> Get(reply, "isVisible") == Bool(false)
      ensures Get(reply, "t") == Num(now)
    {
      reply := map["isVisible" := Lookup(entries, tab), "t" := Num(now)];
    }

    /** The `tabs.onRemoved` handler: deletes the closed tab's entry, if any. */
    method OnTabRemoved(tab: int)
      modifies this
      ensures entries == Removed(old(entries), tab)
      ensures tab !in entries
      ensures forall k :: k != tab ==> (k in entries <==> k in old(entries))
      ensures forall k :: k in entries ==> entries[k] == old(entries)[k]
    {
      if tab in entries {
        entries := entries - {tab};
      }
    }

    /**
     The periodic sweep: walks a snapshot of the keys and deletes each entry
     that is stale at `now`.
     */
    method Sweep(now: int)
      modifies this
      ensures entries == Swept(old(entries), now)
    {
      ghost var before := entries;
      var pending := entries.Keys;
      while pending != {}
        invariant pending <= before.Keys
        invariant entries == map k | k in before && (k in pending || !Stale(before[k], now)) :: before[k]
        decreases pending
      {
        if forall k :: k !in pending { assert false; }
        var tab :| tab in pending;
        if entries[tab].timestamp != 0 && now - entries[tab].timestamp > StaleAfter {
          entries := entries - {tab};
        }
        pending := pending - {tab};
      }
      assert entries.Keys == Swept(old(entries), now).Keys;
    }
  }

  /** One event the background script reacts to. */
  datatype Event =
    | Received(msg: Object, senderTab: Option<int>, now: int)
    | TabClosed(tab: int)
    | SweepTimer(now: int)

  /** The table after one event. */
  function Step(m: Table, e: Event): Table
  {
    match e
    case Received(msg, senderTab, now) => AfterMessage(m, msg, senderTab, now)
    case TabClosed(tab) => Removed(m, tab)
    case SweepTimer(now) => Swept(m, now)
  }

  /** The table after a sequence of events, in order. */
  function Run(m: Table, events: seq<Event>): Table
    decreases |events|
  {
    if events == [] then m else Run(Step(m, events[0]), events[1..])
  }

  /** The event writes the entry of `tab`: a state update sent from that tab. */
  predicate Records(e: Event, tab: int)
  {
    e.Received? && HasTabId(e.senderTab) && e.senderTab.value == tab && IsStateUpdate(e.msg)
  }

  /**
   An entry survives, unchanged, every sequence of events that neither writes it
   nor closes its tab, provided no sweep in it finds the entry stale.
   */
  lemma {:induction false} EntrySurvivesUnrelatedEvents(m: Table, events: seq<Event>, tab: int)
    requires tab in m
    requires forall i :: 0 <= i < |events| ==> !Records(events[i], tab)
    requires forall i :: 0 <= i < |events| ==> events[i] != TabClosed(tab)
    requires forall i :: 0 <= i < |events| && events[i].SweepTimer? ==> !Stale(m[tab], events[i].now)
    ensures tab in Run(m, events) && Run(m, events)[tab] == m[tab]
    decreases |events|
  {
    if events != [] {
      var next := Step(m, events[0]);
      assert !Records(events[0], tab) && events[0] != TabClosed(tab);
      assert tab in next && next[tab] == m[tab];
      EntrySurvivesUnrelatedEvents(next, events[1..], tab);
    }
  }

  /**
   A tab that no event in the sequence records, starting from a table without it,
   is still absent at the end, so a lookup answers `false`.
   */
  lemma {:induction false} UnrecordedTabAnswersFalse(m: Table, events: seq<Event>, tab: int)
    requires tab !in m
    requires forall i :: 0 <= i < |events| ==> !Records(events[i], tab)
    ensures tab !in Run(m, events)
    ensures Lookup(Run(m, events), tab) == Bool(false)
    decreases |events|
  {
    if events != [] {
      assert !Records(events[0], tab);
      UnrecordedTabAnswersFalse(Step(m, events[0]), events[1..], tab);
    }
  }
}
