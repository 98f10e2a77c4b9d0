# Stealth notes panel: a Dafny model of its state keeping

The extension has two scripts. The background script keeps a table from tab id
to the visibility of that tab's panel, together with the time of the last
write. It answers a page's `getInitialState` question from this table. It drops
a tab's entry when the tab closes, and a periodic sweep drops entries that have
not been written for more than an hour. When the toolbar icon is clicked, it
sends the tab a toggle message in one of three shapes and retries once with the
next shape if delivery fails.

The content script owns one floating panel per page. It creates the panel,
shows and hides it, toggles it on a toggle message, and minimizes and restores
it. It drags the panel, clamped to the viewport, and resizes it, never below
200 × 100 pixels. It copies the trimmed page selection into the panel while the
panel is visible. It reports each visibility change to the background.

Modules:

- `Js` (js.dfy): the JavaScript semantics both scripts rely on. This covers
  primitive values, truthiness, `||`, reading a field that may be absent, and
  `String.prototype.trim` with the ECMA-262 whitespace set.
- `StateKeeper` (state_keeper.dfy): background.js. Specification functions on
  the table (`AfterMessage`, `Lookup`, `Removed`, `Swept`). Class `TabTable`,
  whose handlers update `entries` in place and are proved against those
  functions. The toggle-format choice. Lemmas over sequences of events.
- `PanelController` (panel_controller.dfy): content.js. The clamp and
  resize-floor arithmetic as functions. Class `Panel` holds the script's
  module-level variables, and one method per event handler updates them. Its
  invariant `Valid()` says a visible panel exists and is rendered, a panel being
  dragged or resized exists, the resize floor holds, and shown content is never
  empty.
- `Protocol` (protocol.dfy): how the two scripts fit together.

Message objects are `map<string, Js.Value>`. A field that is not present reads
as `undefined`. The clock (`Date.now()`), the page layout (`innerWidth`,
`offsetWidth`, `getBoundingClientRect`) and the selection text are parameters.

The header, resize-handle and minimize-button handlers require that the panel
exists. `createPanel` registers them on the panel's own elements
(content.js:157, 170-212), so they can only fire after it has run.

Where the code behaves differently from what its comments or a reader might
expect, the model follows the code:

- The drag clamp keeps the panel's top-left corner at or above 0 only when the
  panel fits in the viewport on that axis. When it does not fit, the upper bound
  `viewport - size` wins and the coordinate is negative (content.js:266-274).
- `hidePanel` is not free of effects when the panel is already hidden. Whenever
  a panel exists it re-sends `updateState` with `false` (content.js:225-231).
- Pointer moves while minimized are not blocked by the code. Only the CSS hides
  the resize handle (content.js:126-129). `HandleDragAndResize` therefore has no
  minimized guard.
- The sweep removes an entry only if its timestamp is truthy and strictly more
  than 3600000 ms old. An entry exactly one hour old stays (background.js:76).
- The reply to `getInitialState` is `{isVisible, t}`. It is built from the table
  as it is when the delayed reply fires, not when the request arrives
  (background.js:54-58). That is why it is a separate method,
  `TabTable.ReplyInitialState`.

## Model

| member | source | states |
|---|---|---|
| `Js.Or` | background.js:46 | `a \|\| b` is truthy iff either operand is; it yields the left operand when that is truthy and the right one otherwise |
| `Js.Trim` | content.js:247-248 | the trimmed selection is the contiguous piece of the input that starts where the leading whitespace ends; every character outside it is whitespace, it neither starts nor ends with whitespace, and it is empty (falsy) exactly when the selection is whitespace only |
| `StateKeeper.StoredState` | background.js:46 | the stored value `state \|\| isVisible \|\| false` is truthy iff `state` or `isVisible` is truthy; it is `state` itself when that is truthy and `false` when nothing is truthy |
| `StateKeeper.AfterMessage` | background.js:39-49 | a state update (action `updateState` or any `state` field) from a tab with a truthy id sets exactly that tab's entry to the stored value stamped with `now`, and keeps every other entry; any other message, or a sender without a truthy tab id, leaves the table unchanged |
| `StateKeeper.Lookup` | background.js:56 | the answered visibility is truthy iff the tab has an entry with a truthy stored value; otherwise it is `false`, in particular for a tab never recorded |
| `StateKeeper.Removed` | background.js:65-69 | closing a tab removes exactly that key and keeps every other entry; closing an absent tab changes nothing, so removal is idempotent |
| `StateKeeper.Swept` | background.js:72-79 | after a sweep a key remains iff it was present and its entry is not stale (truthy timestamp more than one hour before `now`); survivors are unchanged |
| `StateKeeper.HasTabId` | background.js:40-41 | the handler goes on only when the sender is a tab whose id is truthy (present and not 0) |
| `StateKeeper.IsStateUpdate` | background.js:44 | a message asks for an upsert iff its action is `updateState` or its `state` field is not `undefined` |
| `StateKeeper.IsInitialStateRequest` | background.js:52 | a message asks for the stored visibility iff its action is `getInitialState` |
| `StateKeeper.Stale` | background.js:76 | an entry is stale iff its timestamp is truthy and `now` lies strictly more than 3600000 ms after it |
| `StateKeeper.StaleBoundary` | background.js:76 | an entry stamped 0 is never stale, one exactly an hour old is not stale, and one a millisecond older is |
| `StateKeeper.ToggleFormatsAreDistinct` | background.js:16-20 | the icon handler's three toggle shapes `{action: "togglePanel"}`, `{cmd: "toggle"}`, `{t: 1}` are pairwise different one-field messages |
| `StateKeeper.RetryIndex` | background.js:29 | the retry format index is the next one round the list of three (the one after the first, or 0 after the last), so it is in range and differs from the first |
| `StateKeeper.ToggleAttempts` | background.js:13-36 | the icon handler sends the drawn format, and only when the first delivery failed a second message, which is the format at `RetryIndex` and differs from the first; nothing more is sent |
| `StateKeeper.TabTable.constructor` | background.js:4 | the table starts empty |
| `StateKeeper.TabTable.OnMessage` | background.js:39-62 | the new table is `AfterMessage` of the old one; the channel is kept open for a reply iff the sender has a truthy tab id and asks for `getInitialState`; a message without a `state` field and without action `updateState` changes nothing |
| `StateKeeper.TabTable.ReplyInitialState` | background.js:52-59 | the reply's `isVisible` is `Lookup` of the table at reply time: truthy iff the tab's entry exists and holds a truthy value, and is `false` otherwise; its `t` is the time of the reply |
| `StateKeeper.TabTable.OnTabRemoved` | background.js:65-69 | the closed tab's key is gone, no other key appears or disappears, and surviving entries are unchanged |
| `StateKeeper.TabTable.Sweep` | background.js:72-79 | the loop over the key snapshot, deleting as it goes, leaves exactly `Swept(old table, now)` |
| `StateKeeper.EntrySurvivesUnrelatedEvents` | background.js:39-79 | across any sequence of messages, tab closings and sweeps, an entry stays as it was unless a state update from its tab, its tab's closing, or a sweep that finds it stale intervenes |
| `StateKeeper.UnrecordedTabAnswersFalse` | background.js:44-56 | a tab that no state update in a sequence of events comes from stays absent and is answered `false` |
| `PanelController.ClampOffset` | content.js:266-274 | the dragged coordinate never exceeds `viewport - panel size`, is at least 0 whenever the panel fits, equals pointer minus grab offset whenever that already lies in range, is 0 when the pointer is past the left (top) edge of a panel that fits, and is `viewport - panel size` when the pointer is past that limit or the panel does not fit |
| `PanelController.IsToggleMessage` | content.js:349-351 | a message is a toggle iff its `action` is `togglePanel`, its `cmd` is `toggle` or its `t` is the number 1 |
| `PanelController.ResizeExtent` | content.js:277-281 | the resized extent is at least the floor, equals the pointer's distance from the panel edge when that reaches the floor, and is the floor otherwise |
| `PanelController.StateReport` | content.js:221 | a report is an `updateState` message whose `state` is truthy iff the panel is visible, and is never mistaken for a toggle message |
| `PanelController.Panel.ButtonFace` | content.js:185-195 | the minimize button shows the restore face and tooltip exactly while the panel is minimized |
| `PanelController.Panel.constructor` | content.js:17-18 | the script starts with no panel, not visible, not dragging or resizing, offsets 0 |
| `PanelController.Panel.CreatePanel` | content.js:21-46 | once a panel exists a second call changes nothing; otherwise a hidden panel appears at (20, 20) with size 300 × 200, not minimized, showing the placeholder |
| `PanelController.Panel.ShowPanel` | content.js:216-222 | afterwards the panel exists, is visible and rendered, and one `true` report is sent; an existing panel keeps its geometry, minimized flag and text |
| `PanelController.Panel.HidePanel` | content.js:225-232 | with a panel, it becomes invisible and one `false` report is sent; without a panel nothing changes; geometry and text are kept |
| `PanelController.Panel.TogglePanel` | content.js:235-241 | visibility flips, the panel exists afterwards, and the new visibility is reported; a panel created by the toggle is fresh, an existing one keeps its corner, size, minimized flag and text; drag and resize state are kept |
| `PanelController.Panel.ToggleMinimize` | content.js:185-195 | the minimized flag flips and visibility, geometry, text and reports are unchanged |
| `PanelController.Panel.OnHeaderMouseDown` | content.js:198-206 | a press on the header outside the two buttons enters drag mode with offset = pointer − panel corner; a press on a button changes nothing |
| `PanelController.Panel.OnResizeMouseDown` | content.js:209-212 | a press on the resize handle enters resize mode and changes nothing else |
| `PanelController.Panel.HandleDragAndResize` | content.js:262-283 | a move over a hidden or absent panel changes nothing; while dragging the corner is the clamped position (and resizing is ignored); otherwise while resizing the size is floored at 200 × 100; nothing else changes |
| `PanelController.Panel.StopDragAndResize` | content.js:285-288 | both modes are off afterwards, whatever the state before, and nothing else changes |
| `PanelController.Panel.SendSelectedTextToPanel` | content.js:244-259 | a selection that is not blank after trimming replaces the shown text while the panel is visible; otherwise, including while hidden, nothing changes; visibility, geometry, flags, drag offsets and reports are always kept |
| `PanelController.Panel.OnInitialStateResponse` | content.js:161-165 | the panel is shown (and `true` reported) iff a response arrives with a truthy `isVisible`, with the same frame as `showPanel` (fresh if created, otherwise geometry, minimized flag and text kept); otherwise nothing changes; drag and resize state are always kept |
| `PanelController.Panel.OnMessage` | content.js:347-354 | a message with action `togglePanel`, cmd `toggle` or `t === 1` toggles the panel, with the same frame as `togglePanel`; any other message changes nothing |
| `PanelController.ToggleTwice` | content.js:235-241 | toggling twice restores the original visibility and reports both changes |
| `PanelController.MinimizeTwice` | content.js:185-195 | pressing minimize twice restores the flag and the button face, and visibility never changes |
| `Protocol.EveryToggleAttemptIsRecognized` | background.js:16-31 | every message the icon handler sends, first attempt or retry, is one the content script treats as a toggle |
| `Protocol.ReportsAndRequestsReachTheTable` | background.js:44-52 | the startup `getInitialState` request writes nothing; a page's report writes its tab's entry, stamped `now`, answering truthy iff the page reported visible |
| `Protocol.ReportedVisibilityIsRestored` | background.js:44-79 | after a page reports visibility v, any events that neither close its tab nor write its entry, with every sweep within an hour of the report, leave `getInitialState` answering v |
| `Protocol.RestoreOnLoad` | content.js:161-165 | on page load the panel is shown, and reported, exactly when the tab's stored value is truthy |

## Left out

- Shadow-DOM construction, CSS text and markup (content.js:25-154). The model
  keeps only the panel's existence, its display state and the CSS geometry it
  starts with.
- The messaging transport, all `setTimeout`/`setInterval` scheduling and every
  random delay or jitter (background.js:10, 14, 30, 54, 80; content.js:160-166,
  246, 258, 299-302, 358-367). Each handler is one atomic step, and the clock is
  the `now` parameter. Delivery success is the `firstFailed` parameter of
  `ToggleAttempts`. The random choice of the first format is its `first`
  parameter.
- The sending of the startup `getInitialState` request after a random delay
  (content.js:160-161). Only its reply callback is modelled.
- The random `_stateKey` and `randPrefix` names (background.js:7;
  content.js:4-14). The stored field has the fixed name `state` in `Entry`.
- The MutationObserver that fades the panel out when detector-like elements
  appear (content.js:319-344). It only changes opacity and has no functional
  contract.
- The overrides of `chrome.runtime.getURL`, `sendMessage`,
  `onClicked.addListener` and `console`, and the decoy `window.util_*` function
  (content.js:363-398; background.js:83-95).
- The coin-flip `selectionchange` path (content.js:307-312). Capture is modelled
  through the deterministic `mouseup` path only.
- Numbers are unbounded integers rather than IEEE doubles. There is no NaN and
  no fractional pixels.
- Tab ids are integers. JavaScript object keys are strings, but every key here
  comes from an integer tab id, so nothing is lost.
- The reply's `isVisible` keeps the stored JavaScript value, and the page tests
  only its truthiness. Values of other JavaScript types (objects, arrays) in a
  message's `state` or `isVisible` field are not representable in `Js.Value`.
