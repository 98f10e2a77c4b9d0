/**
 The content script's panel controller: the page-level state of the one floating
 panel (whether it exists, whether it is shown, the drag and resize modes, its
 geometry, the minimize flag, the captured text) and the event handlers that
 update it. Layout readings of the page (`getBoundingClientRect`, `offsetWidth`,
 `innerWidth`, the current selection) are passed in as parameters.
 */
module PanelController {
  import opened Js

  /** Resize floor, in pixels. */
  const MinWidth: int := 200
  const MinHeight: int := 100

  /** The panel's geometry when it is created. */
  const InitialLeft: int := 20
  const InitialTop: int := 20
  const InitialWidth: int := 300
  const InitialHeight: int := 200

  /** The minimize button's face and tooltip in each state. */
  const MinimizeText: string := "_"
  const RestoreText: string := "\U{25A1}"
  const MinimizeTitle: string := "Minimize"
  const RestoreTitle: string := "Restore"

  /**
   One axis of the drag clamp: the pointer minus the grab offset, raised to 0 and
   then lowered to the last position at which the panel still ends inside the
   viewport. The upper bound always holds; the lower bound holds whenever the
   panel fits in the viewport along this axis. A pointer past either edge puts the
   panel on that edge.
   */
  function ClampOffset(pointer: int, grab: int, viewport: int, extent: int): (pos: int)
    ensures pos <= viewport - extent
    ensures extent <= viewport ==> 0 <= pos
    ensures 0 <= pointer - grab <= viewport - extent ==> pos == pointer - grab
    ensures pointer - grab < 0 <= viewport - extent ==> pos == 0
    ensures pointer - grab >= viewport - extent || viewport - extent < 0 ==> pos == viewport - extent
    ensures pos == pointer - grab || pos == 0 || pos == viewport - extent
  {
    var wanted := if pointer - grab > 0 then pointer - grab else 0;
    var limit := viewport - extent;
    if wanted < limit then wanted else limit
  }

  /**
   One axis of the resize rule: the distance from the panel's edge to the pointer,
   but never below `floor`.
   */
  function ResizeExtent(pointer: int, origin: int, floor: int): (size: int)
    ensures size >= floor
    ensures pointer - origin >= floor ==> size == pointer - origin
    ensures pointer - origin < floor ==> size == floor
  {
    if pointer - origin > floor then pointer - origin else floor
  }

  /** The content script's toggle test: any of the three shapes the background sends. */
  predicate IsToggleMessage(msg: Object)
  {
    || Get(msg, "action") == Str("togglePanel")
    || Get(msg, "cmd") == Str("toggle")
    || Get(msg, "t") == Num(1)
  }

  /** The message that reports the panel's visibility to the background. */
  function StateReport(visible: bool): (msg: Object)
    ensures Get(msg, "action") == Str("updateState")
    ensures Truthy(Get(msg, "state")) <==> visible
    ensures !IsToggleMessage(msg)
  {
    map["action" := Str("updateState"), "state" := Bool(visible)]
  }

  /** What the header's mousedown landed on. */
  datatype Target = Header | CloseButton | MinimizeButton

  /** The page layout read during a pointer move. */
  datatype Layout = Layout(
    innerWidth: int, innerHeight: int,    // window.innerWidth / innerHeight
    offsetWidth: int, offsetHeight: int,  // the panel's rendered size
    rectLeft: int, rectTop: int)          // the panel's bounding-rectangle corner

  /** The module-level state of the content script and its panel element. */
  class Panel {
    var panelExists: bool       // panelFrame is set
    var displayed: bool         // panelFrame.style.display is 'flex' rather than 'none'
    var isPanelVisible: bool
    var isDragging: bool
    var isResizing: bool
    var dragOffsetX: int
    var dragOffsetY: int
    var left: int
    var top: int
    var width: int
    var height: int
    var minimized: bool         // the panel carries the 'minimized' class
    var contentText: string     // text of the content area
    var contentDisplayed: bool  // content area shown and placeholder hidden
    var reports: seq<Object>    // state reports sent to the background, oldest first

    /**
     The controller's invariant: a visible panel exists and is rendered, a panel
     being dragged or resized exists, the resize floor holds, and shown content is
     never empty.
     */
    ghost predicate Valid()
      reads this
    {
      && (isPanelVisible ==> panelExists)
      && displayed == isPanelVisible
      && (isDragging || isResizing ==> panelExists)
      && width >= MinWidth && height >= MinHeight
      && (contentDisplayed ==> contentText != "")
    }

    /** The minimize button's face and tooltip, which its click handler sets together with the flag. */
    function ButtonFace(): (face: (string, string))
      reads this
      ensures face.0 == RestoreText <==> minimized
      ensures face.1 == RestoreTitle <==> minimized
    {
      if minimized then (RestoreText, RestoreTitle) else (MinimizeText, MinimizeTitle)
    }

    /** The state of a newly built panel, apart from its visibility. */
    ghost predicate FreshPanel()
      reads this
    {
      && left == InitialLeft && top == InitialTop
      && width == InitialWidth && height == InitialHeight
      && !minimized && contentText == "" && !contentDisplayed
    }

    /** The script's start: no panel, nothing visible, no drag or resize in progress. */
    constructor ()
      ensures Valid()
      ensures !panelExists && !isPanelVisible && !isDragging && !isResizing
      ensures dragOffsetX == 0 && dragOffsetY == 0
      ensures FreshPanel() && reports == []
    {
      panelExists, displayed, isPanelVisible := false, false, false;
      isDragging, isResizing := false, false;
      dragOffsetX, dragOffsetY := 0, 0;
      left, top, width, height := InitialLeft, InitialTop, InitialWidth, InitialHeight;
      minimized := false;
      contentText, contentDisplayed := "", false;
      reports := [];
    }

    /** `createPanel`: builds the hidden panel once; a second call does nothing. */
    method CreatePanel()
      requires Valid()
      modifies this
      ensures Valid() && panelExists
      ensures old(panelExists) ==> unchanged(this)
      ensures !old(panelExists) ==> FreshPanel() && !isPanelVisible
      ensures isDragging == old(isDragging) && isResizing == old(isResizing)
      ensures dragOffsetX == old(dragOffsetX) && dragOffsetY == old(dragOffsetY)
      ensures reports == old(reports)
    {
      if !panelExists {
        panelExists := true;
        displayed := false;
        left, top, width, height := InitialLeft, InitialTop, InitialWidth, InitialHeight;
        minimized := false;
        contentText, contentDisplayed := "", false;
      }
    }

    /** `showPanel`: creates the panel if needed, shows it and reports `true`. */
    method ShowPanel()
      requires Valid()
      modifies this
      ensures Valid() && panelExists && isPanelVisible && displayed
      ensures reports == old(reports) + [StateReport(true)]
      ensures !old(panelExists) ==> FreshPanel()
      ensures old(panelExists) ==>
                && left == old(left) && top == old(top) && width == old(width) && height == old(height)
                && minimized == old(minimized)
                && contentText == old(contentText) && contentDisplayed == old(contentDisplayed)
      ensures isDragging == old(isDragging) && isResizing == old(isResizing)
      ensures dragOffsetX == old(dragOffsetX) && dragOffsetY == old(dragOffsetY)
    {
      if !panelExists {
        CreatePanel();
      }
      displayed := true;
      isPanelVisible := true;
      reports := reports + [StateReport(true)];
    }

    /** `hidePanel`: hides an existing panel and reports `false`; without a panel it does nothing. */
    method HidePanel()
      requires Valid()
      modifies this
      ensures Valid() && !isPanelVisible && !displayed
      ensures !old(panelExists) ==> unchanged(this)
      ensures old(panelExists) ==> reports == old(reports) + [StateReport(false)]
      ensures panelExists == old(panelExists)
      ensures left == old(left) && top == old(top) && width == old(width) && height == old(height)
      ensures minimized == old(minimized)
      ensures contentText == old(contentText) && contentDisplayed == old(contentDisplayed)
      ensures isDragging == old(isDragging) && isResizing == old(isResizing)
      ensures dragOffsetX == old(dragOffsetX) && dragOffsetY == old(dragOffsetY)
    {
      if panelExists {
        displayed := false;
        isPanelVisible := false;
        reports := reports + [StateReport(false)];
      }
    }

    /** `togglePanel`: flips the visibility and reports the new value. */
    method TogglePanel()
      requires Valid()
      modifies this
      ensures Valid() && panelExists
      ensures isPanelVisible == !old(isPanelVisible)
      ensures reports == old(reports) + [StateReport(isPanelVisible)]
      ensures !old(panelExists) ==> FreshPanel()
      ensures old(panelExists) ==>
                && left == old(left) && top == old(top) && width == old(width) && height == old(height)
                && minimized == old(minimized)
                && contentText == old(contentText) && contentDisplayed == old(contentDisplayed)
      ensures isDragging == old(isDragging) && isResizing == old(isResizing)
      ensures dragOffsetX == old(dragOffsetX) && dragOffsetY == old(dragOffsetY)
    {
      if isPanelVisible {
        HidePanel();
      } else {
        ShowPanel();
      }
    }

    /** The minimize button's click handler: flips the minimized flag and the button's face. */
    method ToggleMinimize()
      requires Valid() && panelExists
      modifies this
      ensures Valid()
      ensures minimized == !old(minimized)
      ensures isPanelVisible == old(isPanelVisible) && displayed == old(displayed)
      ensures panelExists && reports == old(reports)
      ensures left == old(left) && top == old(top) && width == old(width) && height == old(height)
      ensures contentText == old(contentText) && contentDisplayed == old(contentDisplayed)
      ensures isDragging == old(isDragging) && isResizing == old(isResizing)
      ensures dragOffsetX == old(dragOffsetX) && dragOffsetY == old(dragOffsetY)
    {
      if minimized {
        minimized := false;
      } else {
        minimized := true;
      }
    }

    /**
     The header's mousedown handler: unless the press is on one of the two buttons,
     records where inside the panel it was grabbed and enters drag mode.
     */
    method OnHeaderMouseDown(target: Target, clientX: int, clientY: int, rectLeft: int, rectTop: int)
      requires Valid() && panelExists
      modifies this
      ensures Valid()
      ensures target == Header ==>
                isDragging && dragOffsetX == clientX - rectLeft && dragOffsetY == clientY - rectTop
      ensures target != Header ==>
                isDragging == old(isDragging) && dragOffsetX == old(dragOffsetX) && dragOffsetY == old(dragOffsetY)
      ensures isResizing == old(isResizing) && isPanelVisible == old(isPanelVisible) && panelExists
      ensures left == old(left) && top == old(top) && width == old(width) && height == old(height)
      ensures minimized == old(minimized) && reports == old(reports)
      ensures contentText == old(contentText) && contentDisplayed == old(contentDisplayed)
    {
      if target != CloseButton && target != MinimizeButton {
        dragOffsetX := clientX - rectLeft;
        dragOffsetY := clientY - rectTop;
        isDragging := true;
      }
    }

    /** The resize handle's mousedown handler: enters resize mode. */
    method OnResizeMouseDown()
      requires Valid() && panelExists
      modifies this
      ensures Valid() && isResizing
      ensures isDragging == old(isDragging) && isPanelVisible == old(isPanelVisible) && panelExists
      ensures dragOffsetX == old(dragOffsetX) && dragOffsetY == old(dragOffsetY)
      ensures left == old(left) && top == old(top) && width == old(width) && height == old(height)
      ensures minimized == old(minimized) && reports == old(reports)
      ensures contentText == old(contentText) && contentDisplayed == old(contentDisplayed)
    {
      isResizing := true;
    }

    /**
     `handleDragAndResize`: on a pointer move over a shown panel, a drag moves its
     corner to the pointer minus the grab offset, clamped to the viewport; otherwise
     a resize stretches it to the pointer, with the size floor. Drag wins when both
     modes are on; a hidden or missing panel is left alone.
     */
    method HandleDragAndResize(clientX: int, clientY: int, view: Layout)
      requires Valid()
      modifies this
      ensures Valid()
      ensures !isPanelVisible ==> unchanged(this)
      ensures isPanelVisible && isDragging ==>
                && left == ClampOffset(clientX, dragOffsetX, view.innerWidth, view.offsetWidth)
                && top == ClampOffset(clientY, dragOffsetY, view.innerHeight, view.offsetHeight)
                && left <= view.innerWidth - view.offsetWidth
                && top <= view.innerHeight - view.offsetHeight
                && width == old(width) && height == old(height)
      ensures isPanelVisible && !isDragging && isResizing ==>
                && width == ResizeExtent(clientX, view.rectLeft, MinWidth)
                && height == ResizeExtent(clientY, view.rectTop, MinHeight)
                && left == old(left) && top == old(top)
      ensures !isDragging && !isResizing ==>
                left == old(left) && top == old(top) && width == old(width) && height == old(height)
      ensures isPanelVisible == old(isPanelVisible) && panelExists == old(panelExists)
      ensures isDragging == old(isDragging) && isResizing == old(isResizing)
      ensures dragOffsetX == old(dragOffsetX) && dragOffsetY == old(dragOffsetY)
      ensures minimized == old(minimized) && reports == old(reports)
      ensures contentText == old(contentText) && contentDisplayed == old(contentDisplayed)
    {
      if !isPanelVisible || !panelExists {
        return;
      }
      if isDragging {
        var newLeft := if clientX - dragOffsetX > 0 then clientX - dragOffsetX else 0;
        var newTop := if clientY - dragOffsetY > 0 then clientY - dragOffsetY else 0;
        var maxLeft := view.innerWidth - view.offsetWidth;
        var maxTop := view.innerHeight - view.offsetHeight;
        left := if newLeft < maxLeft then newLeft else maxLeft;
        top := if newTop < maxTop then newTop else maxTop;
      } else if isResizing {
        width := if clientX - view.rectLeft > MinWidth then clientX - view.rectLeft else MinWidth;
        height := if clientY - view.rectTop > MinHeight then clientY - view.rectTop else MinHeight;
      }
    }

    /** `stopDragAndResize`: a mouseup anywhere leaves both modes, whatever the state. */
    method StopDragAndResize()
      requires Valid()
      modifies this
      ensures Valid() && !isDragging && !isResizing
      ensures isPanelVisible == old(isPanelVisible) && panelExists == old(panelExists)
      ensures dragOffsetX == old(dragOffsetX) && dragOffsetY == old(dragOffsetY)
      ensures left == old(left) && top == old(top) && width == old(width) && height == old(height)
      ensures minimized == old(minimized) && reports == old(reports)
      ensures contentText == old(contentText) && contentDisplayed == old(contentDisplayed)
    {
      isDragging := false;
      isResizing := false;
    }

    /**
     The delayed body of `sendSelectedTextToPanel`, given the page's selection text:
     a selection that is not blank after trimming replaces the panel's text and shows
     it, but only while the panel is visible; otherwise nothing changes.
     */
    method SendSelectedTextToPanel(selection: string)
      requires Valid()
      modifies this
      ensures Valid()
      ensures Trim(selection) != "" && old(isPanelVisible) ==>
                contentText == Trim(selection) && contentDisplayed
      ensures Trim(selection) == "" || !old(isPanelVisible) ==> unchanged(this)
      ensures isPanelVisible == old(isPanelVisible) && panelExists == old(panelExists)
      ensures isDragging == old(isDragging) && isResizing == old(isResizing)
      ensures dragOffsetX == old(dragOffsetX) && dragOffsetY == old(dragOffsetY)
      ensures left == old(left) && top == old(top) && width == old(width) && height == old(height)
      ensures minimized == old(minimized) && reports == old(reports)
    {
      var selectedText := Trim(selection);
      if selectedText != "" && isPanelVisible && panelExists {
        contentText := selectedText;
        contentDisplayed := true;
      }
    }

    /**
     The callback of the startup `getInitialState` request: shows the panel when
     there is a response and its `isVisible` is truthy, and does nothing otherwise.
     */
    method OnInitialStateResponse(response: Option<Object>)
      requires Valid()
      modifies this
      ensures Valid()
      ensures response.Some? && Truthy(Get(response.value, "isVisible")) ==>
                isPanelVisible && panelExists && reports == old(reports) + [StateReport(true)]
      ensures response.Some? && Truthy(Get(response.value, "isVisible")) && !old(panelExists) ==> FreshPanel()
      ensures response.Some? && Truthy(Get(response.value, "isVisible")) && old(panelExists) ==>
                && left == old(left) && top == old(top) && width == old(width) && height == old(height)
                && minimized == old(minimized)
                && contentText == old(contentText) && contentDisplayed == old(contentDisplayed)
      ensures !(response.Some? && Truthy(Get(response.value, "isVisible"))) ==> unchanged(this)
      ensures isDragging == old(isDragging) && isResizing == old(isResizing)
      ensures dragOffsetX == old(dragOffsetX) && dragOffsetY == old(dragOffsetY)
    {
      if response.Some? && Truthy(Get(response.value, "isVisible")) {
        ShowPanel();
      }
    }

    /** The content script's `onMessage` handler: a toggle message toggles the panel, anything else is ignored. */
    method OnMessage(msg: Object)
      requires Valid()
      modifies this
      ensures Valid()
      ensures IsToggleMessage(msg) ==>
                && panelExists && isPanelVisible == !old(isPanelVisible)
                && reports == old(reports) + [StateReport(isPanelVisible)]
      ensures IsToggleMessage(msg) && !old(panelExists) ==> FreshPanel()
      ensures IsToggleMessage(msg) && old(panelExists) ==>
                && left == old(left) && top == old(top) && width == old(width) && height == old(height)
                && minimized == old(minimized)
                && contentText == old(contentText) && contentDisplayed == old(contentDisplayed)
      ensures !IsToggleMessage(msg) ==> unchanged(this)
      ensures isDragging == old(isDragging) && isResizing == old(isResizing)
      ensures dragOffsetX == old(dragOffsetX) && dragOffsetY == old(dragOffsetY)
    {
      if IsToggleMessage(msg) {
        TogglePanel();
      }
    }
  }

  /** Toggling twice gives back the original visibility and reports both changes. */
  method ToggleTwice(p: Panel)
    requires p.Valid()
    modifies p
    ensures p.Valid() && p.panelExists
    ensures p.isPanelVisible == old(p.isPanelVisible)
    ensures p.reports == old(p.reports) + [StateReport(!old(p.isPanelVisible)), StateReport(old(p.isPanelVisible))]
    ensures p.minimized == old(p.minimized) || !old(p.panelExists)
  {
    p.TogglePanel();
    p.TogglePanel();
  }

  /** Pressing minimize twice gives back the original flag and button face, and never touches visibility. */
  method MinimizeTwice(p: Panel)
    requires p.Valid() && p.panelExists
    modifies p
    ensures p.Valid()
    ensures p.minimized == old(p.minimized)
    ensures p.ButtonFace() == old(p.ButtonFace())
    ensures p.isPanelVisible == old(p.isPanelVisible)
  {
    p.ToggleMinimize();
    p.ToggleMinimize();
  }
}
