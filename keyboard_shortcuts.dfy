/** `KeyboardShortcutManager` (hooks/use-keyboard-shortcuts.ts:13-126), the process-wide singleton that
    owns the registry, the Ctrl+X chord flag and its reset timer; `getManager` and `useKeyboardShortcuts`
    (lines 128-167); and `isInputElement` (lines 169-173).

    The manager's state is given twice: as the fields of the class, which its methods update in place, and
    as a `ManagerState` value with pure transitions (`KeyDown`, `Expired`, `Destroyed`, ...) that the
    methods are proved against and that the lemmas below reason about. The 1000 ms timer is an explicit
    event: `Expire` is its callback firing, and cancelling it (`clearTimeout`) clears `timerPending`. */
module KeyboardShortcuts {
  import opened Wrappers
  import opened JsString
  import opened ShortcutRegistry
  import opened ShortcutDispatch

  /** The delay after which the chord timer's callback (`Expire`) runs. */
  const CtrlXTimeoutMs: nat := 1000

  const ChordPrefix: string := "ctrl+x+"

  datatype ManagerState = ManagerState(shortcuts: Registry, ctrlXPressed: bool, timerPending: bool, listening: bool)

  /** The registry invariants, and while the listener is attached, "the chord is armed exactly when its
      timer is pending". (`destroy` cancels the timer but leaves the flag as it was.) */
  predicate ManagerValid(s: ManagerState) {
    ValidRegistry(s.shortcuts) && (s.listening ==> (s.ctrlXPressed <==> s.timerPending))
  }

  /** The constructor: empty registry, chord idle, listener attached at the capture phase. */
  function InitialManager(): ManagerState {
    ManagerState(map[], false, false, true)
  }

  /** Ctrl+X, with either case of `x`. */
  predicate IsChordPrefix(e: KeyEvent) {
    e.ctrlKey && (e.key == "x" || e.key == "X")
  }

  /** The key looked up for an event that does not arm the chord. */
  function LookupKey(armed: bool, key: string): string {
    if armed then ChordPrefix + Lower(key) else Lower(key)
  }

  datatype KeyDownResult<W> = KeyDownResult(state: ManagerState, event: KeyEvent, world: W, invoked: seq<Registration>)

  /** `handleKeyDown(e)`. The first Ctrl+X is swallowed and arms the chord; any other event is dispatched
      under the looked-up key; afterwards the chord is disarmed (and its timer cancelled) when it was armed
      and the chord key had at least one registration, whether or not any handler ran. */
  function KeyDown<W>(s: ManagerState, e: KeyEvent, w: W,
                      run: (HandlerRef, KeyEvent, W) -> HandlerOutcome<W>, holds: (ConditionRef, W) -> bool): KeyDownResult<W>
  {
    if IsChordPrefix(e) && !s.ctrlXPressed then
      KeyDownResult(s.(ctrlXPressed := true, timerPending := true), e.(defaultPrevented := true), w, [])
    else
      var handlers := Lookup(s.shortcuts, LookupKey(s.ctrlXPressed, e.key));
      var d := Run(StableSort(handlers), e, w, run, holds);
      var consumed := s.ctrlXPressed && |handlers| > 0;
      KeyDownResult(if consumed then s.(ctrlXPressed := false, timerPending := false) else s, d.event, d.world, d.invoked)
  }

  /** The chord timer's callback: it clears the flag, and the timer is spent. */
  function Expired(s: ManagerState): ManagerState {
    if s.timerPending then s.(ctrlXPressed := false, timerPending := false) else s
  }

  /** `destroy()`: listener removed, timer cancelled, registry cleared. */
  function Destroyed(s: ManagerState): ManagerState {
    s.(shortcuts := map[], timerPending := false, listening := false)
  }

  // ---------------------------------------------------------------- the class

  class KeyboardShortcutManager {
    var shortcuts: Registry
    var ctrlXPressed: bool
    /** `ctrlXTimeout` holds a timer that has neither fired nor been cleared. */
    var timerPending: bool
    /** `listener` is attached to `window` (capture phase). */
    var listening: bool

    function State(): ManagerState
      reads this
    {
      ManagerState(shortcuts, ctrlXPressed, timerPending, listening)
    }

    ghost predicate Valid()
      reads this
    {
      ManagerValid(State())
    }

    constructor()
      ensures State() == InitialManager() && Valid()
    {
      shortcuts := map[];
      ctrlXPressed := false;
      timerPending := false;
      listening := true;
    }

    /** The capture-phase keydown listener; it runs only while attached, so never after `destroy()`. */
    method HandleKeyDown<W>(e: KeyEvent, w: W,
                            run: (HandlerRef, KeyEvent, W) -> HandlerOutcome<W>, holds: (ConditionRef, W) -> bool)
      returns (event: KeyEvent, world: W, invoked: seq<Registration>)
      requires listening
      modifies this
      ensures KeyDownResult(State(), event, world, invoked) == KeyDown(old(State()), e, w, run, holds)
    {
      if e.ctrlKey && (e.key == "x" || e.key == "X") && !ctrlXPressed {
        event := e.(defaultPrevented := true);
        ctrlXPressed := true;
        timerPending := true;
        return event, w, [];
      }

      var key := Lower(e.key);
      var keyId := if ctrlXPressed then ChordPrefix + key else key;
      var handlers := Lookup(shortcuts, keyId);
      var sorted := StableSort(handlers);

      event, world, invoked := RunHandlers(sorted, e, w, run, holds);

      if ctrlXPressed && |handlers| > 0 {
        ctrlXPressed := false;
        timerPending := false;
      }
    }

    /** The chord timer firing. */
    method Expire()
      modifies this
      ensures State() == Expired(old(State()))
    {
      if timerPending {
        ctrlXPressed := false;
        timerPending := false;
      }
    }

    method Register(key: string, id: ConsumerId, handler: HandlerRef, priority: Option<int>, condition: Option<ConditionRef>)
      modifies this
      ensures State() == old(State()).(shortcuts := Registered(old(shortcuts), key, NewRegistration(id, handler, priority, condition)))
    {
      var normalizedKey := Lower(key);
      var registration := Registration(id, priority.GetOr(0), handler, condition);
      var existing := Lookup(shortcuts, normalizedKey);
      var filtered := WithoutId(existing, id);
      shortcuts := shortcuts[normalizedKey := filtered + [registration]];
    }

    method Unregister(key: string, id: ConsumerId)
      modifies this
      ensures State() == old(State()).(shortcuts := Unregistered(old(shortcuts), key, id))
    {
      var normalizedKey := Lower(key);
      if normalizedKey !in shortcuts {
        return;
      }
      var filtered := WithoutId(shortcuts[normalizedKey], id);
      if |filtered| > 0 {
        shortcuts := shortcuts[normalizedKey := filtered];
      } else {
        shortcuts := shortcuts - {normalizedKey};
      }
    }

    /** Visits every key once, filtering its list and deleting the key when the list becomes empty. */
    method UnregisterAll(id: ConsumerId)
      modifies this
      ensures State() == old(State()).(shortcuts := UnregisteredAll(old(shortcuts), id))
    {
      shortcuts := WithoutConsumer(shortcuts, id);
    }

    method Destroy()
      modifies this
      ensures State() == Destroyed(old(State()))
    {
      listening := false;
      timerPending := false;
      shortcuts := map[];
    }

    method IsCtrlXPressed() returns (pressed: bool)
      ensures pressed == ctrlXPressed
      ensures Valid() && listening ==> (pressed <==> timerPending)
    {
      pressed := ctrlXPressed;
    }
  }

  /** The loop of `handleKeyDown` over the sorted snapshot of the key's registrations: a registration
      whose condition is false is skipped; a handler that returns `false` or leaves the event with its
      default prevented ends the loop. */
  method RunHandlers<W>(sorted: seq<Registration>, e: KeyEvent, w: W,
                        run: (HandlerRef, KeyEvent, W) -> HandlerOutcome<W>, holds: (ConditionRef, W) -> bool)
    returns (event: KeyEvent, world: W, invoked: seq<Registration>)
    ensures Dispatch(event, world, invoked) == Run(sorted, e, w, run, holds)
  {
    event, world, invoked := e, w, [];
    var i := 0;
    while i < |sorted|
      invariant 0 <= i <= |sorted|
      invariant Run(sorted, e, w, run, holds) == Prepended(invoked, Run(sorted[i..], event, world, run, holds))
    {
      var registration := sorted[i];
      assert sorted[i..][0] == registration && sorted[i..][1..] == sorted[i + 1..];
      if registration.condition.Some? && !holds(registration.condition.value, world) {
        i := i + 1;
        continue;
      }
      var outcome := run(registration.handler, event, world);
      event := event.(defaultPrevented := event.defaultPrevented || outcome.calledPreventDefault);
      world := outcome.world;
      invoked := invoked + [registration];
      if outcome.result == ReturnedFalse {
        break;
      }
      if event.defaultPrevented {
        break;
      }
      i := i + 1;
    }
  }

  /** The loop of `unregisterAll`: visits every key once, filtering its list and deleting the key when the
      list becomes empty. */
  method WithoutConsumer(m: Registry, id: ConsumerId) returns (result: Registry)
    ensures result == UnregisteredAll(m, id)
  {
    result := m;
    var pending := m.Keys;
    while pending != {}
      invariant pending <= m.Keys && result.Keys <= m.Keys
      invariant forall k :: k in pending ==> k in result && result[k] == m[k]
      invariant forall k :: k in m && k !in pending ==>
        (k in result <==> |WithoutId(m[k], id)| > 0) && (k in result ==> result[k] == WithoutId(m[k], id))
      decreases pending
    {
      var key :| key in pending;
      var filtered := WithoutId(result[key], id);
      if |filtered| > 0 {
        result := result[key := filtered];
      } else {
        result := result - {key};
      }
      pending := pending - {key};
    }
    FilteredEveryKey(m, id, result);
  }

  function Prepended<W>(pre: seq<Registration>, d: Dispatch<W>): Dispatch<W> {
    d.(invoked := pre + d.invoked)
  }

  /** The module-level `globalManager`, created on first use by `getManager`. */
  class GlobalManager {
    var current: KeyboardShortcutManager?

    constructor()
      ensures current == null
    {
      current := null;
    }

    method GetManager() returns (manager: KeyboardShortcutManager)
      modifies this
      ensures old(current) != null ==> manager == old(current)
      ensures old(current) == null ==> fresh(manager) && manager.State() == InitialManager() && manager.Valid()
      ensures current == manager
    {
      if current == null {
        current := new KeyboardShortcutManager();
      }
      manager := current;
    }
  }

  /** The effect of `useKeyboardShortcuts(shortcuts, deps)`: each shortcut registered, in order, under the
      consumer's one id. Its cleanup is `manager.UnregisterAll(id)`. */
  method UseKeyboardShortcuts(manager: KeyboardShortcutManager, specs: seq<ShortcutSpec>, id: ConsumerId)
    modifies manager
    ensures manager.State() == old(manager.State()).(shortcuts := RegisterEach(old(manager.shortcuts), specs, id))
  {
    for i := 0 to |specs|
      invariant manager.State() == old(manager.State()).(shortcuts := RegisterEach(old(manager.shortcuts), specs[..i], id))
    {
      var shortcut := specs[i];
      assert specs[..i + 1][..i] == specs[..i];
      manager.Register(shortcut.key, id, shortcut.handler, shortcut.priority, shortcut.condition);
    }
    assert specs[..|specs|] == specs;
  }

  // ---------------------------------------------------------------- isInputElement

  /** The tag names, as the DOM reports them in upper case, of the elements that take typed text. */
  const InputTags: set<string> := {"INPUT", "TEXTAREA", "SELECT"}

  /** The part of a DOM `Element` that `isInputElement` reads. */
  datatype Element = Element(tagName: string)

  /** `isInputElement(element)`: `null` is not an input; otherwise only INPUT, TEXTAREA and SELECT are. */
  function IsInputElement(element: Option<Element>): (r: bool)
    ensures r <==> element.Some? && element.value.tagName in InputTags
  {
    match element
    case None => false
    case Some(el) => el.tagName == "INPUT" || el.tagName == "TEXTAREA" || el.tagName == "SELECT"
  }

  // ---------------------------------------------------------------- properties of the state machine

  /** A key event, the chord timer and `destroy` keep the manager's invariants. */
  lemma EventsPreserveValid<W>(s: ManagerState, e: KeyEvent, w: W,
                               run: (HandlerRef, KeyEvent, W) -> HandlerOutcome<W>, holds: (ConditionRef, W) -> bool)
    requires ManagerValid(s)
    ensures ManagerValid(KeyDown(s, e, w, run, holds).state)
    ensures ManagerValid(Expired(s)) && ManagerValid(Destroyed(s))
  {
  }

  /** `register`, `unregister` and `unregisterAll` keep the manager's invariants. */
  lemma UpdatesPreserveValid(s: ManagerState, key: string, id: ConsumerId, reg: Registration)
    requires ManagerValid(s)
    ensures ManagerValid(s.(shortcuts := Registered(s.shortcuts, key, reg)))
    ensures ManagerValid(s.(shortcuts := Unregistered(s.shortcuts, key, id)))
    ensures ManagerValid(s.(shortcuts := UnregisteredAll(s.shortcuts, id)))
  {
    RegisterSpec(s.shortcuts, key, reg);
    UnregisterSpec(s.shortcuts, key, id);
    UnregisterAllSpec(s.shortcuts, id);
  }

  /** Ctrl+X (`x` or `X`) while the chord is idle prevents the default action, arms the chord, starts its
      timer and runs no handler; the registry and the consumers' world are untouched. */
  lemma ChordPrefixArms<W>(s: ManagerState, e: KeyEvent, w: W,
                           run: (HandlerRef, KeyEvent, W) -> HandlerOutcome<W>, holds: (ConditionRef, W) -> bool)
    requires !s.ctrlXPressed && e.ctrlKey && (e.key == "x" || e.key == "X")
    ensures var r := KeyDown(s, e, w, run, holds);
      && r.event.defaultPrevented && r.state.ctrlXPressed && r.state.timerPending
      && r.invoked == [] && r.world == w && r.state.shortcuts == s.shortcuts
  {
  }

  /** While the chord is armed, Ctrl+X does not re-arm it: it is dispatched as the chord `ctrl+x+x`. */
  lemma ArmedPrefixLooksUpChordX<W>(s: ManagerState, e: KeyEvent, w: W,
                                    run: (HandlerRef, KeyEvent, W) -> HandlerOutcome<W>, holds: (ConditionRef, W) -> bool)
    requires s.ctrlXPressed && IsChordPrefix(e)
    ensures var r := KeyDown(s, e, w, run, holds);
      && r.invoked == Run(StableSort(Lookup(s.shortcuts, "ctrl+x+x")), e, w, run, holds).invoked
      && (r.state.ctrlXPressed <==> "ctrl+x+x" !in s.shortcuts || |s.shortcuts["ctrl+x+x"]| == 0)
  {
    assert Lower(e.key) == "x";
    assert LookupKey(true, e.key) == "ctrl+x+x";
  }

  /** After a dispatch while armed, the chord is disarmed exactly when the chord key had a registration —
      whatever the conditions and handlers did — and otherwise stays armed with its timer still pending. */
  lemma ArmedDispatchDisarmsIffRegistered<W>(s: ManagerState, e: KeyEvent, w: W,
                                             run: (HandlerRef, KeyEvent, W) -> HandlerOutcome<W>, holds: (ConditionRef, W) -> bool)
    requires s.ctrlXPressed
    ensures var r := KeyDown(s, e, w, run, holds); var k := ChordPrefix + Lower(e.key);
      && (!r.state.ctrlXPressed <==> |Lookup(s.shortcuts, k)| > 0)
      && (r.state.timerPending <==> s.timerPending && |Lookup(s.shortcuts, k)| == 0)
      && r.state.shortcuts == s.shortcuts
  {
  }

  /** While idle, every key is dispatched under its lower-cased name and the chord stays idle, except
      Ctrl+X, which arms it. */
  lemma IdleDispatchUsesPlainKey<W>(s: ManagerState, e: KeyEvent, w: W,
                                    run: (HandlerRef, KeyEvent, W) -> HandlerOutcome<W>, holds: (ConditionRef, W) -> bool)
    requires !s.ctrlXPressed && !IsChordPrefix(e)
    ensures var r := KeyDown(s, e, w, run, holds);
      && r.invoked == Run(StableSort(Lookup(s.shortcuts, Lower(e.key))), e, w, run, holds).invoked
      && r.state == s
  {
  }

  /** The chord scenario: Ctrl+X then a key `k` dispatches only to the registrations of the chord
      `ctrl+x+k` (never to those of plain `k`); if there are any, the chord is disarmed, so pressing `k`
      again dispatches to the plain registrations. */
  lemma ChordScenario<W>(s: ManagerState, prefix: KeyEvent, k: KeyEvent, w: W,
                         run: (HandlerRef, KeyEvent, W) -> HandlerOutcome<W>, holds: (ConditionRef, W) -> bool)
    requires ManagerValid(s) && s.listening && !s.ctrlXPressed
    requires IsChordPrefix(prefix) && !IsChordPrefix(k)
    ensures var r1 := KeyDown(s, prefix, w, run, holds);
      var r2 := KeyDown(r1.state, k, r1.world, run, holds);
      var chord := Lookup(s.shortcuts, ChordPrefix + Lower(k.key));
      && r1.invoked == []
      && r2.invoked == Run(StableSort(chord), k, w, run, holds).invoked
      && (|chord| > 0 ==>
            && !r2.state.ctrlXPressed && !r2.state.timerPending
            && KeyDown(r2.state, k, r2.world, run, holds).invoked
               == Run(StableSort(Lookup(s.shortcuts, Lower(k.key))), k, r2.world, run, holds).invoked)
      && (|chord| == 0 ==> r2.state.ctrlXPressed && r2.state.timerPending)
  {
  }

  /** The timeout scenario: after Ctrl+X, if the timer fires before the next key, that key is dispatched
      to its plain registrations, not the chord ones. */
  lemma TimeoutScenario<W>(s: ManagerState, prefix: KeyEvent, k: KeyEvent, w: W,
                           run: (HandlerRef, KeyEvent, W) -> HandlerOutcome<W>, holds: (ConditionRef, W) -> bool)
    requires !s.ctrlXPressed && IsChordPrefix(prefix) && !IsChordPrefix(k)
    ensures var r1 := KeyDown(s, prefix, w, run, holds);
      var r2 := KeyDown(Expired(r1.state), k, r1.world, run, holds);
      && !Expired(r1.state).ctrlXPressed
      && r2.invoked == Run(StableSort(Lookup(s.shortcuts, Lower(k.key))), k, w, run, holds).invoked
  {
  }

  /** A miss keeps the chord armed: after Ctrl+X and a key with no chord registration, a further key within
      the same timer window still completes its chord. */
  lemma MissKeepsChordArmed<W>(s: ManagerState, prefix: KeyEvent, miss: KeyEvent, k: KeyEvent, w: W,
                               run: (HandlerRef, KeyEvent, W) -> HandlerOutcome<W>, holds: (ConditionRef, W) -> bool)
    requires !s.ctrlXPressed && IsChordPrefix(prefix)
    requires |Lookup(s.shortcuts, ChordPrefix + Lower(miss.key))| == 0
    ensures var r1 := KeyDown(s, prefix, w, run, holds);
      var r2 := KeyDown(r1.state, miss, r1.world, run, holds);
      var r3 := KeyDown(r2.state, k, r2.world, run, holds);
      && r2.invoked == [] && r2.state == r1.state
      && r3.invoked == Run(StableSort(Lookup(s.shortcuts, ChordPrefix + Lower(k.key))), k, r2.world, run, holds).invoked
  {
  }

  /** Dispatching under a key that holds one unconditional registration runs its handler once. */
  lemma SingleRun<W>(reg: Registration, e: KeyEvent, w: W,
                     run: (HandlerRef, KeyEvent, W) -> HandlerOutcome<W>, holds: (ConditionRef, W) -> bool)
    requires reg.condition.None?
    ensures var d := Run(StableSort([reg]), e, w, run, holds); var o := run(reg.handler, e, w);
      && d.invoked == [reg] && d.world == o.world
      && d.event == e.(defaultPrevented := e.defaultPrevented || o.calledPreventDefault)
  {
    assert StableSort([reg]) == [reg];
    assert [reg][1..] == [];
    var o := run(reg.handler, e, w);
    var e' := e.(defaultPrevented := e.defaultPrevented || o.calledPreventDefault);
    assert Run([reg][1..], e', o.world, run, holds) == Dispatch(e', o.world, []);
  }

  /** An armed chord whose key holds one unconditional registration runs exactly that handler, once, on
      the event as it came, and disarms the chord. */
  lemma ArmedChordRunsSingle<W>(s: ManagerState, e: KeyEvent, w: W, reg: Registration,
                                run: (HandlerRef, KeyEvent, W) -> HandlerOutcome<W>, holds: (ConditionRef, W) -> bool)
    requires s.ctrlXPressed && reg.condition.None?
    requires Lookup(s.shortcuts, ChordPrefix + Lower(e.key)) == [reg]
    ensures var r := KeyDown(s, e, w, run, holds); var o := run(reg.handler, e, w);
      && r.invoked == [reg] && r.world == o.world
      && r.event.defaultPrevented == (e.defaultPrevented || o.calledPreventDefault)
      && !r.state.ctrlXPressed && !r.state.timerPending && r.state.shortcuts == s.shortcuts
  {
    SingleRun(reg, e, w, run, holds);
  }

  /** With the chord idle, a key holding one unconditional registration runs exactly that handler, once,
      and the manager's state is unchanged. */
  lemma IdleKeyRunsSingle<W>(s: ManagerState, e: KeyEvent, w: W, reg: Registration,
                             run: (HandlerRef, KeyEvent, W) -> HandlerOutcome<W>, holds: (ConditionRef, W) -> bool)
    requires !s.ctrlXPressed && !IsChordPrefix(e) && reg.condition.None?
    requires Lookup(s.shortcuts, Lower(e.key)) == [reg]
    ensures var r := KeyDown(s, e, w, run, holds); var o := run(reg.handler, e, w);
      && r.invoked == [reg] && r.world == o.world
      && r.event.defaultPrevented == (e.defaultPrevented || o.calledPreventDefault)
      && r.state == s
  {
    SingleRun(reg, e, w, run, holds);
  }

  /** `destroy` clears the registry, so no later event runs any handler. */
  lemma DestroyedRunsNothing<W>(s: ManagerState, e: KeyEvent, w: W,
                                run: (HandlerRef, KeyEvent, W) -> HandlerOutcome<W>, holds: (ConditionRef, W) -> bool)
    ensures Destroyed(s).shortcuts == map[] && !Destroyed(s).timerPending && !Destroyed(s).listening
    ensures KeyDown(Destroyed(s), e, w, run, holds).invoked == []
  {
  }
}
