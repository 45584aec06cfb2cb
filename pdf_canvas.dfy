/** The viewer's keyboard navigation (app/_components/pdf-canvas.tsx): `scrollToPage`, the shortcuts the
    canvas registers with the dispatcher (two Ctrl+X chords, the arrow keys and the digits), and the
    timers that reset its typed-page buffer and its scrolling flag.

    The canvas's refs, the store and the focused element make up the consumer `Viewer` that the
    dispatcher threads through the handlers; `CanvasRun` is what each registered handler does. */
module PdfCanvas {
  import opened Wrappers
  import opened JsString
  import opened PdfStore
  import opened ShortcutRegistry
  import opened ShortcutDispatch
  import opened KeyboardShortcuts

  /** How long the typed-page buffer survives after the last digit, and how long a programmatic scroll
      keeps the intersection observer from overriding the page. The timers themselves are the events
      `PageInputTimerFires` and `ScrollTimerFires`. */
  const PageInputTimeoutMs: nat := 500
  const ScrollTimeoutMs: nat := 1000

  datatype Viewer = Viewer(
    store: StoreState,
    pages: int,                       // `pages`, the document's page count once loaded
    rootMounted: bool,                // `rootRef.current` is set
    activeElement: Option<Element>,   // `document.activeElement`
    pageInput: string,                // `currentInputRef`
    pageInputTimer: bool,             // `inputTimeoutRef` holds a pending timer
    scrolling: bool,                  // `isScrollingRef`
    scrollTimer: bool,                // `scrollTimeoutRef` holds a pending timer
    markdownRequested: bool)          // `openMarkdownDialog()` was called

  /** `isInputFocused()`. */
  predicate InputFocused(w: Viewer) {
    IsInputElement(w.activeElement)
  }

  /** `scrollToPage(n)`: nothing happens unless the root is mounted and `1 <= n <= pages`; otherwise the
      store's page becomes `n`, scrolling is flagged and its reset timer restarted. (The page element is
      taken to be present for every page in range.) */
  function ScrollToPage(w: Viewer, n: int): (r: Viewer)
    ensures !w.rootMounted || n < 1 || n > w.pages ==> r == w
    ensures w.rootMounted && 1 <= n <= w.pages ==>
      && r.store == w.store.(currentPage := n) && r.scrolling && r.scrollTimer
      && r.(store := w.store, scrolling := w.scrolling, scrollTimer := w.scrollTimer) == w
  {
    if !w.rootMounted || n < 1 || n > w.pages then w
    else w.(scrolling := true, scrollTimer := true, store := w.store.(currentPage := n))
  }

  /** The scroll timer's callback. */
  function ScrollTimerFires(w: Viewer): (r: Viewer)
    ensures w.scrollTimer ==> !r.scrolling && !r.scrollTimer
    ensures !w.scrollTimer ==> r == w
    ensures r.(scrolling := w.scrolling, scrollTimer := w.scrollTimer) == w
  {
    if w.scrollTimer then w.(scrolling := false, scrollTimer := false) else w
  }

  /** The typed-page timer's callback: the buffer starts over. */
  function PageInputTimerFires(w: Viewer): (r: Viewer)
    ensures w.pageInputTimer ==> r.pageInput == "" && !r.pageInputTimer
    ensures !w.pageInputTimer ==> r == w
    ensures r.(pageInput := w.pageInput, pageInputTimer := w.pageInputTimer) == w
  {
    if w.pageInputTimer then w.(pageInput := "", pageInputTimer := false) else w
  }

  /** The unmount effect cancels both timers. */
  function Unmounted(w: Viewer): (r: Viewer)
    ensures !r.pageInputTimer && !r.scrollTimer
    ensures r.(pageInputTimer := w.pageInputTimer, scrollTimer := w.scrollTimer) == w
  {
    w.(pageInputTimer := false, scrollTimer := false)
  }

  // ---------------------------------------------------------------- the handlers

  /** The `arrowup` (`delta == -1`) and `arrowdown` (`delta == 1`) handlers: with an input focused they
      return at once; otherwise they prevent the default and move only when both the current page and
      the target are inside the document. */
  function Arrow(w: Viewer, delta: int): HandlerOutcome<Viewer> {
    var current := w.store.currentPage;
    if InputFocused(w) then HandlerOutcome(w, ReturnedNothing, false)
    else if current < 1 || current > w.pages then HandlerOutcome(w, ReturnedNothing, true)
    else
      var target := current + delta;
      if target < 1 || target > w.pages then HandlerOutcome(w, ReturnedNothing, true)
      else HandlerOutcome(ScrollToPage(w, target), ReturnedNothing, true)
  }

  /** A digit handler: appends the key to the buffer, jumps when the buffer reads as a page of the
      document, and restarts the buffer's timer. */
  function Digit(e: KeyEvent, w: Viewer): HandlerOutcome<Viewer> {
    if InputFocused(w) then HandlerOutcome(w, ReturnedNothing, false)
    else
      var buffer := w.pageInput + e.key;
      var typed := w.(pageInput := buffer);
      var pageNumber := ParseInt(buffer);
      var moved := if pageNumber.Some? && 1 <= pageNumber.value <= w.pages then ScrollToPage(typed, pageNumber.value) else typed;
      HandlerOutcome(moved.(pageInputTimer := true), ReturnedNothing, true)
  }

  const MarkdownHandler: HandlerRef := 0
  const FitModeHandler: HandlerRef := 1
  const ArrowUpHandler: HandlerRef := 2
  const ArrowDownHandler: HandlerRef := 3
  /** Digit `d` is handler `DigitHandlers + d`. */
  const DigitHandlers: HandlerRef := 4

  /** What each registered handler does. The two chords prevent the default and request the markdown
      dialog or toggle the fit mode; refs the canvas never registers do nothing. */
  function CanvasRun(h: HandlerRef, e: KeyEvent, w: Viewer): HandlerOutcome<Viewer> {
    if h == MarkdownHandler then HandlerOutcome(w.(markdownRequested := true), ReturnedNothing, true)
    else if h == FitModeHandler then HandlerOutcome(w.(store := w.store.(fitMode := w.store.fitMode.Flip())), ReturnedNothing, true)
    else if h == ArrowUpHandler then Arrow(w, -1)
    else if h == ArrowDownHandler then Arrow(w, 1)
    else if DigitHandlers <= h < DigitHandlers + 10 then Digit(e, w)
    else HandlerOutcome(w, ReturnedNothing, false)
  }

  /** The table passed to `useKeyboardShortcuts`, in order: the chords at priority 10, the arrows at 8 and
      the digits `0`-`9` at 5; spec `i` runs handler `i`. */
  function CanvasShortcuts(): seq<ShortcutSpec> {
    [ ShortcutSpec("ctrl+x+m", MarkdownHandler, None, Some(10)),
      ShortcutSpec("ctrl+x+f", FitModeHandler, None, Some(10)),
      ShortcutSpec("arrowup", ArrowUpHandler, None, Some(8)),
      ShortcutSpec("arrowdown", ArrowDownHandler, None, Some(8)) ]
    + seq(10, d requires 0 <= d < 10 => ShortcutSpec(IntToString(d), DigitHandlers + d, None, Some(5)))
  }

  // ---------------------------------------------------------------- properties of the handlers

  /** Arrow up: no effect and no `preventDefault` while an input is focused; otherwise `preventDefault`
      always, and a move to the previous page exactly when the current page is in `[2, pages]`, so never
      from page 1 or below. Only the page and the scrolling state change. */
  lemma ArrowUpSpec(w: Viewer)
    ensures var o := CanvasRun(ArrowUpHandler, KeyEvent("ArrowUp", false, false, false), w);
      && o.result == ReturnedNothing
      && (InputFocused(w) ==> o.world == w && !o.calledPreventDefault)
      && (!InputFocused(w) ==> o.calledPreventDefault)
      && (!InputFocused(w) && w.rootMounted && 2 <= w.store.currentPage <= w.pages ==>
            o.world.store.currentPage == w.store.currentPage - 1 && o.world.scrolling)
      && (w.store.currentPage <= 1 || w.store.currentPage > w.pages || !w.rootMounted ==> o.world == w)
      && o.world.(store := w.store, scrolling := w.scrolling, scrollTimer := w.scrollTimer) == w
      && o.world.store.(currentPage := w.store.currentPage) == w.store
  {
  }

  /** Arrow down: the mirror image, moving to the next page exactly when the current page is in
      `[1, pages - 1]`, so never from the last page or beyond. */
  lemma ArrowDownSpec(w: Viewer)
    ensures var o := CanvasRun(ArrowDownHandler, KeyEvent("ArrowDown", false, false, false), w);
      && o.result == ReturnedNothing
      && (InputFocused(w) ==> o.world == w && !o.calledPreventDefault)
      && (!InputFocused(w) ==> o.calledPreventDefault)
      && (!InputFocused(w) && w.rootMounted && 1 <= w.store.currentPage < w.pages ==>
            o.world.store.currentPage == w.store.currentPage + 1 && o.world.scrolling)
      && (w.store.currentPage >= w.pages || w.store.currentPage < 1 || !w.rootMounted ==> o.world == w)
      && o.world.(store := w.store, scrolling := w.scrolling, scrollTimer := w.scrollTimer) == w
      && o.world.store.(currentPage := w.store.currentPage) == w.store
  {
  }

  /** A digit key: no effect and no `preventDefault` while an input is focused, so lower-priority handlers
      still run; otherwise it prevents the default, appends to the buffer, restarts its timer, and moves to
      the page the buffer reads as exactly when that page exists. Only the page, the scrolling state and
      the buffer with its timer change. */
  lemma DigitSpec(e: KeyEvent, w: Viewer, d: nat)
    requires d < 10
    ensures var o := CanvasRun(DigitHandlers + d, e, w); var buffer := w.pageInput + e.key;
      var jump := ParseInt(buffer).Some? && 1 <= ParseInt(buffer).value <= w.pages;
      && o.result == ReturnedNothing
      && (InputFocused(w) ==> o.world == w && !o.calledPreventDefault)
      && (!InputFocused(w) ==> o.calledPreventDefault && o.world.pageInput == buffer && o.world.pageInputTimer)
      && (!InputFocused(w) && w.rootMounted && jump ==>
            o.world.store.currentPage == ParseInt(buffer).value && o.world.scrolling)
      && (!jump || !w.rootMounted ==> o.world.store == w.store)
      && (!InputFocused(w) && (!jump || !w.rootMounted) ==> o.world == w.(pageInput := buffer, pageInputTimer := true))
      && o.world.(store := w.store, scrolling := w.scrolling, scrollTimer := w.scrollTimer,
                  pageInput := w.pageInput, pageInputTimer := w.pageInputTimer) == w
      && o.world.store.(currentPage := w.store.currentPage) == w.store
  {
  }

  /** One keystroke of a page number that lands on page `n`. */
  lemma DigitLandsOn(e: KeyEvent, w: Viewer, d: nat, n: int)
    requires d < 10 && !InputFocused(w) && w.rootMounted
    requires ParseInt(w.pageInput + e.key) == Some(n) && 1 <= n <= w.pages
    ensures var v := CanvasRun(DigitHandlers + d, e, w).world;
      && v.store.currentPage == n && v.pageInput == w.pageInput + e.key && v.pageInputTimer
      && !InputFocused(v) && v.rootMounted && v.pages == w.pages
  {
    DigitSpec(e, w, d);
  }

  /** The key event of digit `d`. */
  function DigitKey(d: nat): KeyEvent
    requires d < 10
  {
    KeyEvent([DigitChar(d)], false, false, false)
  }

  /** Proof step for `FirstDigit` and `SecondDigit`: the digit handler's outcome once the extended buffer
      is known to read as `n`. */
  lemma TypeDigit(w: Viewer, d: nat, n: int)
    requires d < 10 && !InputFocused(w)
    requires ParseInt(w.pageInput + [DigitChar(d)]) == Some(n)
    ensures var typed := w.(pageInput := w.pageInput + [DigitChar(d)]);
      CanvasRun(DigitHandlers + d, DigitKey(d), w).world
      == (if 1 <= n <= w.pages then ScrollToPage(typed, n) else typed).(pageInputTimer := true)
  {
  }

  /** A digit typed on an empty buffer: the buffer holds that digit, and the viewer goes to its page
      (`0` is no page, so it stays put). */
  lemma FirstDigit(w: Viewer, d: nat)
    requires d < 10 && !InputFocused(w) && w.rootMounted && w.pageInput == "" && w.pages >= d
    ensures var v := CanvasRun(DigitHandlers + d, DigitKey(d), w).world;
      && v.store.currentPage == (if d == 0 then w.store.currentPage else d)
      && v.pageInput == [DigitChar(d)] && !InputFocused(v) && v.rootMounted && v.pages == w.pages
  {
    var buffer := w.pageInput + [DigitChar(d)];
    assert buffer[0] == DigitChar(d);
    ParseOneDigit(buffer, d);
    TypeDigit(w, d, d);
  }

  /** A second digit after `d1` goes to the two-digit page they spell. */
  lemma SecondDigit(w: Viewer, d1: nat, d2: nat)
    requires d1 < 10 && d2 < 10 && !InputFocused(w) && w.rootMounted
    requires w.pageInput == [DigitChar(d1)] && 1 <= d1 * 10 + d2 <= w.pages
    ensures CanvasRun(DigitHandlers + d2, DigitKey(d2), w).world.store.currentPage == d1 * 10 + d2
  {
    var buffer := w.pageInput + [DigitChar(d2)];
    assert buffer[0] == DigitChar(d1) && buffer[1] == DigitChar(d2);
    ParseTwoDigits(buffer, d1, d2);
    TypeDigit(w, d2, d1 * 10 + d2);
  }

  /** Typing two digits goes to the page of the first and then to the two-digit page they spell (typing
      `1`, `2` goes to page 1 and then 12, given that many pages); if the buffer's timer fires in
      between, the second digit starts a new number: page `d2`, or no move for `0`. */
  lemma TypingTwoDigits(w: Viewer, d1: nat, d2: nat)
    requires 1 <= d1 < 10 && d2 < 10
    requires !InputFocused(w) && w.rootMounted && w.pageInput == "" && w.pages >= d1 * 10 + d2
    ensures var one := CanvasRun(DigitHandlers + d1, DigitKey(d1), w).world;
      && one.store.currentPage == d1
      && CanvasRun(DigitHandlers + d2, DigitKey(d2), one).world.store.currentPage == d1 * 10 + d2
      && CanvasRun(DigitHandlers + d2, DigitKey(d2), PageInputTimerFires(one)).world.store.currentPage
         == (if d2 == 0 then d1 else d2)
  {
    FirstDigit(w, d1);
    var one := CanvasRun(DigitHandlers + d1, DigitKey(d1), w).world;
    SecondDigit(one, d1, d2);
    FirstDigit(PageInputTimerFires(one), d2);
  }

  /** The chords outrank the arrows, which outrank the digits, and every shortcut is bound to its own key
      with no condition. */
  lemma CanvasPriorities()
    ensures |CanvasShortcuts()| == 14
    ensures forall i :: 0 <= i < 14 ==> CanvasShortcuts()[i].handler == i && CanvasShortcuts()[i].condition.None?
    ensures forall i, j :: 0 <= i < 2 <= j < 4 ==>
      CanvasShortcuts()[i].priority.value > CanvasShortcuts()[j].priority.value
    ensures forall i, j :: 2 <= i < 4 <= j < 14 ==>
      CanvasShortcuts()[i].priority.value > CanvasShortcuts()[j].priority.value
    ensures forall j :: 4 <= j < 14 ==> CanvasShortcuts()[j].priority == Some(5)
  {
  }

  /** Only the `arrowdown` spec names `arrowdown`, and only the `ctrl+x+f` spec names `ctrl+x+f`. */
  lemma CanvasKeysDistinct()
    ensures Lower(CanvasShortcuts()[3].key) == "arrowdown"
    ensures forall i :: 0 <= i < 14 && i != 3 ==> Lower(CanvasShortcuts()[i].key) != "arrowdown"
    ensures Lower(CanvasShortcuts()[1].key) == "ctrl+x+f"
    ensures forall i :: 0 <= i < 14 && i != 1 ==> Lower(CanvasShortcuts()[i].key) != "ctrl+x+f"
  {
    var t := CanvasShortcuts();
    LowerFixed("arrowdown");
    LowerFixed("ctrl+x+f");
    forall i | 4 <= i < 14 ensures |t[i].key| == 1 {
      assert t[i].key == IntToString(i - 4);
    }
    assert Lower(t[0].key)[7] == 'm';
  }

  // ---------------------------------------------------------------- the canvas on the dispatcher

  /** Pressing ArrowDown with the canvas's shortcuts bound (and no other consumer on `arrowdown`) runs the
      canvas's one handler, which moves to the next page and prevents the default. */
  lemma ArrowDownThroughDispatcher(s: ManagerState, m: Registry, id: ConsumerId, e: KeyEvent, w: Viewer,
                                   holds: (ConditionRef, Viewer) -> bool)
    requires "arrowdown" !in m && s.shortcuts == RegisterEach(m, CanvasShortcuts(), id)
    requires !s.ctrlXPressed && e.key == "ArrowDown"
    requires !InputFocused(w) && w.rootMounted && 1 <= w.store.currentPage < w.pages
    ensures var r := KeyDown(s, e, w, CanvasRun, holds);
      && r.invoked == [SpecRegistration(CanvasShortcuts()[ArrowDownHandler], id)]
      && r.world.store.currentPage == w.store.currentPage + 1
      && r.event.defaultPrevented && r.state == s
  {
    CanvasKeysDistinct();
    CanvasPriorities();
    BindSingleKey(m, CanvasShortcuts(), id, 3, "arrowdown");
    assert Lower(e.key) == "arrowdown";
    IdleKeyRunsSingle(s, e, w, SpecRegistration(CanvasShortcuts()[3], id), CanvasRun, holds);
    ArrowDownSpec(w);
  }

  /** With an input focused, the canvas's ArrowDown handler leaves the viewer and the event alone, so the
      lower-priority registration `other` on the same key runs after it; without focus the canvas
      handler prevents the default and `other` never runs. */
  lemma FocusedInputLetsLowerPriorityRun(arrow: Registration, other: Registration, e: KeyEvent, w: Viewer,
                                         holds: (ConditionRef, Viewer) -> bool)
    requires arrow.handler == ArrowDownHandler && arrow.priority == 8 && arrow.condition.None?
    requires other.priority < 8 && other.condition.None? && !e.defaultPrevented
    ensures InputFocused(w) ==> Run(StableSort([other, arrow]), e, w, CanvasRun, holds).invoked == [arrow, other]
    ensures !InputFocused(w) ==> Run(StableSort([other, arrow]), e, w, CanvasRun, holds).invoked == [arrow]
  {
    assert StableSort([arrow]) == [arrow];
    assert [other, arrow][1..] == [arrow];
    assert StableSort([other, arrow]) == [arrow, other];
    assert [arrow, other][1..] == [other];
    if InputFocused(w) {
      var o := CanvasRun(arrow.handler, e, w);
      assert o == HandlerOutcome(w, ReturnedNothing, false);
      assert e.(defaultPrevented := e.defaultPrevented || o.calledPreventDefault) == e;
      assert [other][1..] == [];
      assert Run([other], e, w, CanvasRun, holds).invoked == [other];
    }
  }

  /** The chord Ctrl+X then `f` (in either case) toggles the fit mode, prevents the default of both key
      presses, and disarms the chord. */
  lemma ChordTogglesFitMode(s: ManagerState, m: Registry, id: ConsumerId, prefix: KeyEvent, f: KeyEvent, w: Viewer,
                            holds: (ConditionRef, Viewer) -> bool)
    requires "ctrl+x+f" !in m && s.shortcuts == RegisterEach(m, CanvasShortcuts(), id)
    requires ManagerValid(s) && s.listening && !s.ctrlXPressed && IsChordPrefix(prefix)
    requires f.key == "f" || f.key == "F"
    ensures var r1 := KeyDown(s, prefix, w, CanvasRun, holds);
      var r2 := KeyDown(r1.state, f, r1.world, CanvasRun, holds);
      && r1.event.defaultPrevented && r1.invoked == []
      && r2.invoked == [SpecRegistration(CanvasShortcuts()[FitModeHandler], id)]
      && r2.world.store.fitMode == w.store.fitMode.Flip()
      && r2.event.defaultPrevented
      && !r2.state.ctrlXPressed && !r2.state.timerPending
  {
    ChordPrefixArms(s, prefix, w, CanvasRun, holds);
    var r1 := KeyDown(s, prefix, w, CanvasRun, holds);
    CanvasKeysDistinct();
    CanvasPriorities();
    BindSingleKey(m, CanvasShortcuts(), id, 1, "ctrl+x+f");
    assert Lower(f.key) == "f";
    assert ChordPrefix + "f" == "ctrl+x+f";
    ArmedChordRunsSingle(r1.state, f, r1.world, SpecRegistration(CanvasShortcuts()[1], id), CanvasRun, holds);
  }
}
