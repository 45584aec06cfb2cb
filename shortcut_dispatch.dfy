/** The dispatch step of `handleKeyDown` (hooks/use-keyboard-shortcuts.ts:45-63): sort a snapshot of the
    registrations under the looked-up key by descending priority, then run the enabled handlers in that
    order until one returns `false` or the event's default has been prevented.

    Handlers and conditions are consumer closures. A dispatch is therefore parameterised by the consumers'
    world `W` and two functions: `run(h, e, w)` is what handler `h` does when invoked on event `e` in
    world `w` (new world, return value, whether it called `preventDefault`), and `holds(c, w)` is the value
    of condition `c` in world `w`. The world is threaded through the handlers in the order they run. */
module ShortcutDispatch {
  import opened Wrappers
  import opened ShortcutRegistry

  /** The fields of a `KeyboardEvent` the core reads; `defaultPrevented` changes during dispatch. */
  datatype KeyEvent = KeyEvent(key: string, ctrlKey: bool, metaKey: bool, defaultPrevented: bool)

  /** A `ShortcutHandler` returns `void | boolean`. */
  datatype HandlerResult = ReturnedNothing | ReturnedTrue | ReturnedFalse

  datatype HandlerOutcome<W> = HandlerOutcome(world: W, result: HandlerResult, calledPreventDefault: bool)

  /** What one dispatch leaves behind: the event, the consumers' world, and the registrations whose
      handlers ran, in the order they ran. */
  datatype Dispatch<W> = Dispatch(event: KeyEvent, world: W, invoked: seq<Registration>)

  // ---------------------------------------------------------------- the stable sort

  predicate SortedByPriority(s: seq<Registration>) {
    forall i, j :: 0 <= i < j < |s| ==> s[i].priority >= s[j].priority
  }

  /** The entries of priority `p`, in their order in `s`. */
  function WithPriority(s: seq<Registration>, p: int): (r: seq<Registration>)
    ensures forall x :: x in r <==> x in s && x.priority == p
    decreases |s|
  {
    if |s| == 0 then []
    else if s[0].priority == p then [s[0]] + WithPriority(s[1..], p)
    else WithPriority(s[1..], p)
  }

  function InsertByPriority(x: Registration, t: seq<Registration>): (r: seq<Registration>)
    ensures multiset(r) == multiset(t) + multiset{x}
    decreases |t|
  {
    if |t| == 0 || x.priority >= t[0].priority then [x] + t
    else
      assert t == [t[0]] + t[1..];
      [t[0]] + InsertByPriority(x, t[1..])
  }

  /** `[...handlers].sort((a, b) => b.priority - a.priority)`: `Array.prototype.sort` is stable (ECMA-262
      since ES2019), so this is a stable sort by descending priority, written as an insertion sort. */
  function StableSort(s: seq<Registration>): (r: seq<Registration>)
    ensures multiset(r) == multiset(s)
    decreases |s|
  {
    if |s| == 0 then []
    else
      assert s == [s[0]] + s[1..];
      InsertByPriority(s[0], StableSort(s[1..]))
  }

  lemma {:induction false} InsertKeepsSorted(x: Registration, t: seq<Registration>)
    requires SortedByPriority(t)
    ensures SortedByPriority(InsertByPriority(x, t))
    decreases |t|
  {
    if |t| > 0 && x.priority < t[0].priority {
      var rest := InsertByPriority(x, t[1..]);
      InsertKeepsSorted(x, t[1..]);
      var r := [t[0]] + rest;
      forall i, j | 0 <= i < j < |r| ensures r[i].priority >= r[j].priority {
        if i == 0 {
          assert r[j] in multiset(rest);
          assert r[j] == x || r[j] in t[1..];
        } else {
          assert r[i] == rest[i - 1] && r[j] == rest[j - 1];
        }
      }
    }
  }

  lemma WithPriorityCons(x: Registration, t: seq<Registration>, p: int)
    ensures WithPriority([x] + t, p) == (if x.priority == p then [x] else []) + WithPriority(t, p)
  {
    assert ([x] + t)[0] == x && ([x] + t)[1..] == t;
  }

  lemma {:induction false} InsertKeepsPriorityOrder(x: Registration, t: seq<Registration>, p: int)
    requires SortedByPriority(t)
    ensures WithPriority(InsertByPriority(x, t), p) == WithPriority([x] + t, p)
    decreases |t|
  {
    if |t| > 0 && x.priority < t[0].priority {
      InsertKeepsPriorityOrder(x, t[1..], p);
      WithPriorityCons(t[0], InsertByPriority(x, t[1..]), p);
      WithPriorityCons(x, t[1..], p);
      WithPriorityCons(x, t, p);
      WithPriorityCons(t[0], t[1..], p);
      assert [t[0]] + t[1..] == t;
    }
  }

  /** The sort is a stable sort by descending priority: the result is ordered by non-increasing priority,
      and for every priority the entries of that priority appear in their input (registration) order. */
  lemma {:induction false} StableSortCorrect(s: seq<Registration>)
    ensures SortedByPriority(StableSort(s))
    ensures forall p :: WithPriority(StableSort(s), p) == WithPriority(s, p)
    decreases |s|
  {
    if |s| > 0 {
      var rest := StableSort(s[1..]);
      StableSortCorrect(s[1..]);
      InsertKeepsSorted(s[0], rest);
      forall p ensures WithPriority(StableSort(s), p) == WithPriority(s, p) {
        InsertKeepsPriorityOrder(s[0], rest, p);
        WithPriorityCons(s[0], rest, p);
        WithPriorityCons(s[0], s[1..], p);
        assert [s[0]] + s[1..] == s;
      }
    }
  }

  // ---------------------------------------------------------------- subsequences

  /** `a` is `b` with some elements left out. */
  predicate Subseq(a: seq<Registration>, b: seq<Registration>)
    decreases |b|
  {
    if |a| == 0 then true
    else if |b| == 0 then false
    else (a[0] == b[0] && Subseq(a[1..], b[1..])) || Subseq(a, b[1..])
  }

  lemma {:induction false} SubseqMembers(a: seq<Registration>, b: seq<Registration>)
    requires Subseq(a, b)
    ensures forall x :: x in a ==> x in b
    decreases |b|
  {
    if |a| > 0 {
      if a[0] == b[0] && Subseq(a[1..], b[1..]) {
        SubseqMembers(a[1..], b[1..]);
        assert forall x :: x in a ==> x == a[0] || x in a[1..];
      } else {
        SubseqMembers(a, b[1..]);
      }
    }
  }

  lemma SubseqCons(a: seq<Registration>, c: Registration, b: seq<Registration>)
    requires Subseq(a, b)
    ensures Subseq(a, [c] + b)
  {
    assert ([c] + b)[1..] == b;
  }

  lemma {:induction false} SubseqOfSorted(a: seq<Registration>, b: seq<Registration>)
    requires Subseq(a, b) && SortedByPriority(b)
    ensures SortedByPriority(a)
    decreases |b|
  {
    if |a| > 0 {
      if a[0] == b[0] && Subseq(a[1..], b[1..]) {
        SubseqOfSorted(a[1..], b[1..]);
        SubseqMembers(a[1..], b[1..]);
        forall i, j | 0 <= i < j < |a| ensures a[i].priority >= a[j].priority {
          if i == 0 {
            assert a[j] in a[1..];
          } else {
            assert a[i] == a[1..][i - 1] && a[j] == a[1..][j - 1];
          }
        }
      } else {
        SubseqOfSorted(a, b[1..]);
      }
    }
  }

  lemma {:induction false} SubseqWithPriority(a: seq<Registration>, b: seq<Registration>, p: int)
    requires Subseq(a, b)
    ensures Subseq(WithPriority(a, p), WithPriority(b, p))
    decreases |b|
  {
    if |a| > 0 {
      var wb := WithPriority(b[1..], p);
      if a[0] == b[0] && Subseq(a[1..], b[1..]) {
        SubseqWithPriority(a[1..], b[1..], p);
        if b[0].priority == p {
          var wa := WithPriority(a[1..], p);
          assert WithPriority(a, p) == [a[0]] + wa;
          assert WithPriority(b, p) == [b[0]] + wb;
          assert ([a[0]] + wa)[1..] == wa && ([b[0]] + wb)[1..] == wb;
        } else {
          assert WithPriority(a, p) == WithPriority(a[1..], p);
        }
      } else {
        SubseqWithPriority(a, b[1..], p);
        if b[0].priority == p {
          SubseqCons(WithPriority(a, p), b[0], wb);
        }
      }
    }
  }

  // ---------------------------------------------------------------- running the handlers

  /** The registration's condition is absent or holds in world `w`. */
  predicate Enabled<W>(r: Registration, w: W, holds: (ConditionRef, W) -> bool) {
    r.condition.None? || holds(r.condition.value, w)
  }

  /** The loop over the sorted snapshot: a disabled entry is skipped; an enabled one runs; the loop stops
      after a handler that returned `false` or after which `e.defaultPrevented` is true. */
  function Run<W>(regs: seq<Registration>, e: KeyEvent, w: W,
                  run: (HandlerRef, KeyEvent, W) -> HandlerOutcome<W>, holds: (ConditionRef, W) -> bool): Dispatch<W>
    decreases |regs|
  {
    if |regs| == 0 then Dispatch(e, w, [])
    else
      var r := regs[0];
      if !Enabled(r, w, holds) then Run(regs[1..], e, w, run, holds)
      else
        var o := run(r.handler, e, w);
        var e' := e.(defaultPrevented := e.defaultPrevented || o.calledPreventDefault);
        if o.result == ReturnedFalse || e'.defaultPrevented then Dispatch(e', o.world, [r])
        else
          var d := Run(regs[1..], e', o.world, run, holds);
          d.(invoked := [r] + d.invoked)
  }

  /** The handlers that run are some of the dispatched entries, in the dispatched order. */
  lemma {:induction false} RunInvokesSubseq<W>(regs: seq<Registration>, e: KeyEvent, w: W,
                                               run: (HandlerRef, KeyEvent, W) -> HandlerOutcome<W>, holds: (ConditionRef, W) -> bool)
    ensures Subseq(Run(regs, e, w, run, holds).invoked, regs)
    decreases |regs|
  {
    if |regs| > 0 {
      var r := regs[0];
      if !Enabled(r, w, holds) {
        RunInvokesSubseq(regs[1..], e, w, run, holds);
        var inv := Run(regs[1..], e, w, run, holds).invoked;
        if |inv| > 0 {
          assert Subseq(inv, regs[1..]);
        }
      } else {
        var o := run(r.handler, e, w);
        var e' := e.(defaultPrevented := e.defaultPrevented || o.calledPreventDefault);
        if !(o.result == ReturnedFalse || e'.defaultPrevented) {
          RunInvokesSubseq(regs[1..], e', o.world, run, holds);
          var inv := Run(regs[1..], e', o.world, run, holds).invoked;
          assert ([r] + inv)[0] == regs[0] && ([r] + inv)[1..] == inv;
        } else {
          assert [r][1..] == [];
        }
      }
    }
  }

  /** Handlers fire in non-increasing priority order, and handlers of equal priority fire in the order they
      were registered (for every priority p, the fired entries of priority p are a subsequence of the
      registered entries of priority p). */
  lemma FiringOrder<W>(handlers: seq<Registration>, e: KeyEvent, w: W,
                       run: (HandlerRef, KeyEvent, W) -> HandlerOutcome<W>, holds: (ConditionRef, W) -> bool)
    ensures var fired := Run(StableSort(handlers), e, w, run, holds).invoked;
      && SortedByPriority(fired)
      && forall p :: Subseq(WithPriority(fired, p), WithPriority(handlers, p))
  {
    var sorted := StableSort(handlers);
    var fired := Run(sorted, e, w, run, holds).invoked;
    StableSortCorrect(handlers);
    RunInvokesSubseq(sorted, e, w, run, holds);
    SubseqOfSorted(fired, sorted);
    forall p ensures Subseq(WithPriority(fired, p), WithPriority(handlers, p)) {
      SubseqWithPriority(fired, sorted, p);
    }
  }

  /** Whether the loop over `regs` ends at a `break`: some enabled handler returned `false` or left the
      event's default prevented. */
  predicate Halts<W>(regs: seq<Registration>, e: KeyEvent, w: W,
                     run: (HandlerRef, KeyEvent, W) -> HandlerOutcome<W>, holds: (ConditionRef, W) -> bool)
    decreases |regs|
  {
    if |regs| == 0 then false
    else
      var r := regs[0];
      if !Enabled(r, w, holds) then Halts(regs[1..], e, w, run, holds)
      else
        var o := run(r.handler, e, w);
        var e' := e.(defaultPrevented := e.defaultPrevented || o.calledPreventDefault);
        o.result == ReturnedFalse || e'.defaultPrevented || Halts(regs[1..], e', o.world, run, holds)
  }

  /** The dispatch of `a + b` is the dispatch of `a`, followed, unless the loop broke inside `a`, by the
      dispatch of `b` from the event and the world that `a` left behind. */
  lemma {:induction false} RunAppend<W>(a: seq<Registration>, b: seq<Registration>, e: KeyEvent, w: W,
                                        run: (HandlerRef, KeyEvent, W) -> HandlerOutcome<W>, holds: (ConditionRef, W) -> bool)
    ensures Run(a + b, e, w, run, holds) ==
      if Halts(a, e, w, run, holds) then Run(a, e, w, run, holds)
      else
        var d := Run(a, e, w, run, holds);
        var d2 := Run(b, d.event, d.world, run, holds);
        d2.(invoked := d.invoked + d2.invoked)
    decreases |a|
  {
    if |a| == 0 {
      assert a + b == b;
      assert [] + Run(b, e, w, run, holds).invoked == Run(b, e, w, run, holds).invoked;
    } else {
      var r := a[0];
      assert (a + b)[0] == r && (a + b)[1..] == a[1..] + b;
      if !Enabled(r, w, holds) {
        RunAppend(a[1..], b, e, w, run, holds);
      } else {
        var o := run(r.handler, e, w);
        var e' := e.(defaultPrevented := e.defaultPrevented || o.calledPreventDefault);
        if !(o.result == ReturnedFalse || e'.defaultPrevented) {
          RunAppend(a[1..], b, e', o.world, run, holds);
          if !Halts(a[1..], e', o.world, run, holds) {
            var d := Run(a[1..], e', o.world, run, holds);
            var d2 := Run(b, d.event, d.world, run, holds);
            assert [r] + (d.invoked + d2.invoked) == ([r] + d.invoked) + d2.invoked;
          }
        }
      }
    }
  }

  /** An entry whose condition is false when the loop reaches it (or that the loop never reaches) is
      skipped without affecting the others: the dispatch is exactly the dispatch without it. */
  lemma RunSkipsDisabled<W>(pre: seq<Registration>, x: Registration, post: seq<Registration>, e: KeyEvent, w: W,
                            run: (HandlerRef, KeyEvent, W) -> HandlerOutcome<W>, holds: (ConditionRef, W) -> bool)
    requires Halts(pre, e, w, run, holds) || !Enabled(x, Run(pre, e, w, run, holds).world, holds)
    ensures Run(pre + [x] + post, e, w, run, holds) == Run(pre + post, e, w, run, holds)
  {
    assert pre + [x] + post == pre + ([x] + post);
    RunAppend(pre, [x] + post, e, w, run, holds);
    RunAppend(pre, post, e, w, run, holds);
    if !Halts(pre, e, w, run, holds) {
      assert ([x] + post)[0] == x && ([x] + post)[1..] == post;
    }
  }

  /** The loop, having run over `pre` without breaking, reaches `x`, whose condition holds in the world
      the earlier handlers left and whose handler, on the event as they left it, returns `false` or leaves
      the default prevented; or the loop broke inside `pre` already. */
  predicate StopsAfter<W>(pre: seq<Registration>, x: Registration, e: KeyEvent, w: W,
                          run: (HandlerRef, KeyEvent, W) -> HandlerOutcome<W>, holds: (ConditionRef, W) -> bool)
  {
    var d := Run(pre, e, w, run, holds);
    var o := run(x.handler, d.event, d.world);
    Halts(pre, e, w, run, holds)
    || (Enabled(x, d.world, holds) && (o.result == ReturnedFalse || d.event.defaultPrevented || o.calledPreventDefault))
  }

  /** Dispatch stops right after a handler that stops on this event: nothing after it matters, and when
      the loop reached it, it is the last handler to run. */
  lemma RunIgnoresAfterStopper<W>(pre: seq<Registration>, x: Registration, post: seq<Registration>, e: KeyEvent, w: W,
                                  run: (HandlerRef, KeyEvent, W) -> HandlerOutcome<W>, holds: (ConditionRef, W) -> bool)
    requires StopsAfter(pre, x, e, w, run, holds)
    ensures Run(pre + [x] + post, e, w, run, holds) == Run(pre + [x], e, w, run, holds)
    ensures !Halts(pre, e, w, run, holds) ==>
      Run(pre + [x], e, w, run, holds).invoked == Run(pre, e, w, run, holds).invoked + [x]
  {
    assert pre + [x] + post == pre + ([x] + post);
    RunAppend(pre, [x] + post, e, w, run, holds);
    RunAppend(pre, [x], e, w, run, holds);
    if !Halts(pre, e, w, run, holds) {
      assert ([x] + post)[0] == x && [x][0] == x;
    }
  }

  /** A handler that stops when the sorted loop reaches it keeps every strictly lower-priority
      registration on the same key from running for that event. */
  lemma StopperBlocksLowerPriority<W>(handlers: seq<Registration>, pre: seq<Registration>, x: Registration,
                                      post: seq<Registration>, y: Registration, e: KeyEvent, w: W,
                                      run: (HandlerRef, KeyEvent, W) -> HandlerOutcome<W>, holds: (ConditionRef, W) -> bool)
    requires StableSort(handlers) == pre + [x] + post
    requires StopsAfter(pre, x, e, w, run, holds) && y.priority < x.priority
    ensures x in handlers
    ensures y !in Run(StableSort(handlers), e, w, run, holds).invoked
  {
    var s := StableSort(handlers);
    StableSortCorrect(handlers);
    assert s[|pre|] == x && s[..|pre|] == pre;
    assert x in multiset(s);
    FiredNotBelowStopper(s, |pre|, e, w, run, holds);
  }

  /** In a sorted dispatch, every handler that runs has at least the priority of an entry that stops when
      the loop reaches it. */
  lemma FiredNotBelowStopper<W>(s: seq<Registration>, i: nat, e: KeyEvent, w: W,
                                run: (HandlerRef, KeyEvent, W) -> HandlerOutcome<W>, holds: (ConditionRef, W) -> bool)
    requires SortedByPriority(s) && i < |s|
    requires StopsAfter(s[..i], s[i], e, w, run, holds)
    ensures forall z :: z in Run(s, e, w, run, holds).invoked ==> z.priority >= s[i].priority
  {
    var head := s[..i + 1];
    assert s == s[..i] + [s[i]] + s[i + 1..];
    assert head == s[..i] + [s[i]];
    RunIgnoresAfterStopper(s[..i], s[i], s[i + 1..], e, w, run, holds);
    var fired := Run(head, e, w, run, holds).invoked;
    RunInvokesSubseq(head, e, w, run, holds);
    SubseqMembers(fired, head);
    forall z | z in fired ensures z.priority >= s[i].priority {
      var j :| 0 <= j < |head| && head[j] == z;
      assert s[j] == z && j <= i;
    }
  }

  /** When the event's default was already prevented before dispatch, at most one handler runs: the first
      enabled one still runs, and the loop stops after it. */
  lemma {:induction false} AlreadyPreventedRunsAtMostOne<W>(regs: seq<Registration>, e: KeyEvent, w: W,
                                                            run: (HandlerRef, KeyEvent, W) -> HandlerOutcome<W>, holds: (ConditionRef, W) -> bool)
    requires e.defaultPrevented
    ensures |Run(regs, e, w, run, holds).invoked| <= 1
    decreases |regs|
  {
    if |regs| > 0 && !Enabled(regs[0], w, holds) {
      AlreadyPreventedRunsAtMostOne(regs[1..], e, w, run, holds);
    }
  }
}
