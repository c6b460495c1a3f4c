/**
 * The sync scheduler: a nudge channel of capacity one, a background loop with a
 * ticker and a coalescing timer, manual syncs, and one mutex around every cycle.
 */
module Scheduler {
  import opened Prelude

  /** Nanoseconds the loop waits after taking a nudge. */
  const COALESCE_WINDOW: Time := 1_500_000_000

  datatype LoopState =
    | Selecting                  // blocked on done, ticker or trigger
    | Coalescing(deadline: Time) // took a nudge, timer running
    | Locking                    // called Sync, waiting for the mutex
    | Syncing
    | Stopped

  /** A goroutine that called Sync by hand. */
  datatype ManualState = ManualLocking | ManualSyncing

  datatype Holder = Loop | Manual(thread: nat)

  datatype Controller = Controller(
    token: bool,                       // the channel buffer
    loop: LoopState,
    manual: map<nat, ManualState>,
    mutex: Option<Holder>,
    cancelled: bool,
    now: Time)

  datatype Event =
    | Nudge
    | Tick
    | TakeNudge
    | AbsorbNudge
    | TimerFires
    | CoalesceCancelled
    | LoopStarts
    | LoopEnds
    | LoopStops
    | ManualCalls(thread: nat)
    | ManualStarts(thread: nat)
    | ManualEnds(thread: nat)
    | Cancel
    | TimePasses(elapsed: nat)

  /** Run calls Sync once before its first select. */
  ghost predicate Init(c: Controller) {
    !c.token && c.loop == Locking && c.manual == map[] && c.mutex == None && !c.cancelled
  }

  ghost predicate Step(c: Controller, e: Event, c': Controller) {
    match e
    case Nudge => c' == c.(token := true)
    case Tick => c.loop == Selecting && c' == c.(loop := Locking)
    case TakeNudge =>
      c.loop == Selecting && c.token && c' == c.(token := false, loop := Coalescing(c.now + COALESCE_WINDOW))
    case AbsorbNudge => c.loop.Coalescing? && c.token && c' == c.(token := false)
    case TimerFires => c.loop.Coalescing? && c.loop.deadline <= c.now && c' == c.(loop := Locking)
    case CoalesceCancelled => c.loop.Coalescing? && c.cancelled && c' == c.(loop := Locking)
    case LoopStarts => c.loop == Locking && c.mutex == None && c' == c.(loop := Syncing, mutex := Some(Loop))
    case LoopEnds => c.loop == Syncing && c' == c.(loop := Selecting, mutex := None)
    case LoopStops => c.loop == Selecting && c.cancelled && c' == c.(loop := Stopped)
    case ManualCalls(t) => t !in c.manual && c' == c.(manual := c.manual[t := ManualLocking])
    case ManualStarts(t) =>
      t in c.manual && c.manual[t] == ManualLocking && c.mutex == None
      && c' == c.(manual := c.manual[t := ManualSyncing], mutex := Some(Manual(t)))
    case ManualEnds(t) =>
      t in c.manual && c.manual[t] == ManualSyncing && c' == c.(manual := c.manual - {t}, mutex := None)
    case Cancel => c' == c.(cancelled := true)
    case TimePasses(elapsed) => c' == c.(now := c.now + elapsed)
  }

  /** A sync cycle begins reading the outbox. */
  predicate StartsSync(e: Event) {
    e.LoopStarts? || e.ManualStarts?
  }

  ghost predicate Steps(cs: seq<Controller>, es: seq<Event>) {
    |cs| == |es| + 1 && forall i | 0 <= i < |es| :: Step(cs[i], es[i], cs[i + 1])
  }

  ghost predicate Trace(cs: seq<Controller>, es: seq<Event>) {
    Steps(cs, es) && Init(cs[0])
  }

  // ---- Mutual exclusion ----

  ghost predicate MutexOk(c: Controller) {
    && (c.loop == Syncing <==> c.mutex == Some(Loop))
    && forall t :: (t in c.manual && c.manual[t] == ManualSyncing) <==> c.mutex == Some(Manual(t))
  }

  lemma {:induction false} TraceKeepsMutex(cs: seq<Controller>, es: seq<Event>, i: nat)
    requires Trace(cs, es) && i < |cs|
    ensures MutexOk(cs[i])
  {
    if i > 0 {
      TraceKeepsMutex(cs, es, i - 1);
      assert Step(cs[i - 1], es[i - 1], cs[i]);
    }
  }

  /** The goroutines inside a sync cycle. */
  ghost predicate InCycle(c: Controller, h: Holder) {
    match h
    case Loop => c.loop == Syncing
    case Manual(t) => t in c.manual && c.manual[t] == ManualSyncing
  }

  /** No two sync cycles ever overlap. */
  lemma CyclesNeverOverlap(cs: seq<Controller>, es: seq<Event>, i: nat, g: Holder, h: Holder)
    requires Trace(cs, es) && i < |cs| && InCycle(cs[i], g) && InCycle(cs[i], h)
    ensures g == h
  {
    TraceKeepsMutex(cs, es, i);
  }

  // ---- No lost wakeup ----

  /** A nudge is buffered, or the loop has taken one and cannot get back to waiting without a sync. */
  predicate Obliged(c: Controller) {
    c.token || c.loop.Coalescing? || c.loop == Locking
  }

  /** Until some sync starts, an obligation stands whatever else happens. */
  lemma ObligationStands(c: Controller, e: Event, c': Controller)
    requires Step(c, e, c') && Obliged(c) && !StartsSync(e)
    ensures Obliged(c')
  {
  }

  /** What asks for a sync: a write's nudge, and every tick of the timer. */
  predicate Asks(e: Event) {
    e.Nudge? || e.Tick?
  }

  /**
   * A nudge or a tick that no sync start has followed is still owed: at every
   * later point it sits in the buffer or in a loop state whose only way on is
   * through Sync.
   */
  lemma {:induction false} NoLostWakeup(cs: seq<Controller>, es: seq<Event>, i: nat, j: nat)
    requires Trace(cs, es) && i < j < |cs| && Asks(es[i])
    requires forall k | i < k < j :: !StartsSync(es[k])
    ensures Obliged(cs[j])
    decreases j
  {
    assert Step(cs[j - 1], es[j - 1], cs[j]);
    if i < j - 1 {
      NoLostWakeup(cs, es, i, j - 1);
      ObligationStands(cs[j - 1], es[j - 1], cs[j]);
    }
  }

  /** So whenever the loop is idle with an empty buffer, a sync has started since every earlier nudge and tick. */
  lemma IdleMeansSynced(cs: seq<Controller>, es: seq<Event>, i: nat, j: nat)
    requires Trace(cs, es) && i < j < |cs| && Asks(es[i])
    requires cs[j].loop == Selecting && !cs[j].token
    ensures exists k | i < k < j :: StartsSync(es[k])
  {
    if forall k | i < k < j :: !StartsSync(es[k]) {
      NoLostWakeup(cs, es, i, j);
    }
  }

  /** The sync at startup is owed from the first moment. */
  lemma {:induction false} StartupIsOwed(cs: seq<Controller>, es: seq<Event>, j: nat)
    requires Trace(cs, es) && j < |cs|
    requires forall k | 0 <= k < j :: !StartsSync(es[k])
    ensures Obliged(cs[j])
  {
    if j > 0 {
      StartupIsOwed(cs, es, j - 1);
      assert Step(cs[j - 1], es[j - 1], cs[j]);
      ObligationStands(cs[j - 1], es[j - 1], cs[j]);
    }
  }

  /** So the loop is not idle before a first sync has started. */
  lemma IdleMeansStarted(cs: seq<Controller>, es: seq<Event>, j: nat)
    requires Trace(cs, es) && j < |cs| && cs[j].loop == Selecting && !cs[j].token
    ensures exists k | 0 <= k < j :: StartsSync(es[k])
  {
    if forall k | 0 <= k < j :: !StartsSync(es[k]) {
      StartupIsOwed(cs, es, j);
    }
  }

  // ---- The loop's own cycles ----

  /** A loop that is to lock the mutex does nothing else until it has, whatever the others do. */
  lemma {:induction false} LockingUntilStart(cs: seq<Controller>, es: seq<Event>, i: nat, j: nat)
    requires Steps(cs, es) && i <= j < |cs| && cs[i].loop == Locking
    requires forall k | i <= k < j :: es[k] != LoopStarts
    ensures cs[j].loop == Locking
    decreases j
  {
    if i < j {
      LockingUntilStart(cs, es, i, j - 1);
      assert Step(cs[j - 1], es[j - 1], cs[j]);
    }
  }

  /** After a tick the loop's very next move is into its own cycle, somebody else's sync notwithstanding. */
  lemma TickLeadsToSync(cs: seq<Controller>, es: seq<Event>, i: nat, j: nat)
    requires Trace(cs, es) && i < |es| && es[i] == Tick && i < j < |cs|
    ensures cs[j].loop == Locking || exists k | i < k < j :: es[k] == LoopStarts
  {
    assert Step(cs[i], es[i], cs[i + 1]);
    if forall k | i < k < j :: es[k] != LoopStarts {
      LockingUntilStart(cs, es, i + 1, j);
    }
  }

  /** So it is at startup. */
  lemma StartupLeadsToSync(cs: seq<Controller>, es: seq<Event>, j: nat)
    requires Trace(cs, es) && j < |cs|
    ensures cs[j].loop == Locking || exists k | 0 <= k < j :: es[k] == LoopStarts
  {
    if forall k | 0 <= k < j :: es[k] != LoopStarts {
      LockingUntilStart(cs, es, 0, j);
    }
  }

  /** Whenever the loop is idle the timer can tick, and the tick leads into Sync as soon as the mutex is free. */
  lemma TickReachesSync(c: Controller) returns (cs: seq<Controller>, es: seq<Event>)
    requires MutexOk(c) && c.loop == Selecting
    ensures Steps(cs, es) && cs[0] == c && 2 <= |es| <= 3 && es[0] == Tick && es[|es| - 1] == LoopStarts
  {
    var ticked := c.(loop := Locking);
    cs, es := [c, ticked], [Tick];
    if c.mutex.Some? {
      var t := c.mutex.value.thread;
      ticked := ticked.(manual := c.manual - {t}, mutex := None);
      Extend(cs, es, ManualEnds(t), ticked);
      cs, es := cs + [ticked], es + [ManualEnds(t)];
    }
    Extend(cs, es, LoopStarts, ticked.(loop := Syncing, mutex := Some(Loop)));
    cs, es := cs + [ticked.(loop := Syncing, mutex := Some(Loop))], es + [LoopStarts];
  }

  /** Coalescing ends only when its second and a half are over or the controller is cancelled, and then in a sync. */
  lemma CoalescingEndsInSync(c: Controller, e: Event, c': Controller)
    requires Step(c, e, c') && c.loop.Coalescing? && c'.loop != c.loop
    ensures c'.loop == Locking && (c.loop.deadline <= c.now || c.cancelled)
    ensures COALESCE_WINDOW == 1500 * 1_000_000
  {
  }

  /** A cycle of the loop's ends with the mutex free and the loop waiting again. */
  lemma CycleEndsIdle(c: Controller, e: Event, c': Controller)
    requires Step(c, e, c') && c.loop == Syncing && c'.loop != Syncing
    ensures c'.loop == Selecting && c'.mutex == None
  {
  }

  /** The loop stops only when cancelled, and never during a cycle. */
  lemma StopsOnlyWhenCancelled(c: Controller, e: Event, c': Controller)
    requires Step(c, e, c') && c.loop != Stopped && c'.loop == Stopped
    ensures c.cancelled && c.loop == Selecting
  {
  }

  // ---- The obligation is met within one window ----

  /** Absorbing further nudges never moves the deadline: the wait ends one window after the first nudge. */
  lemma {:induction false} WindowNeverExtends(cs: seq<Controller>, es: seq<Event>, i: nat, j: nat)
    requires Trace(cs, es) && i <= j < |cs|
    requires forall k | i <= k <= j :: cs[k].loop.Coalescing?
    requires i > 0 && !cs[i - 1].loop.Coalescing?
    ensures cs[j].loop.deadline == cs[i - 1].now + COALESCE_WINDOW
    decreases j
  {
    assert Step(cs[i - 1], es[i - 1], cs[i]);
    if i < j {
      WindowNeverExtends(cs, es, i, j - 1);
      assert Step(cs[j - 1], es[j - 1], cs[j]);
    }
  }

  lemma Extend(cs: seq<Controller>, es: seq<Event>, e: Event, c: Controller)
    requires Steps(cs, es) && Step(cs[|cs| - 1], e, c)
    ensures Steps(cs + [c], es + [e])
  {
  }

  /** Whoever holds the mutex can finish and release it. */
  lemma MutexCanBeFreed(c: Controller) returns (cs: seq<Controller>, es: seq<Event>)
    requires MutexOk(c) && Obliged(c) && c.loop != Stopped
    ensures Steps(cs, es) && cs[0] == c && |es| <= 1
    ensures var z := cs[|cs| - 1];
            z.mutex == None && MutexOk(z) && Obliged(z) && z.loop != Stopped && z.loop != Syncing
  {
    match c.mutex
    case None =>
      cs, es := [c], [];
    case Some(Loop) =>
      cs, es := [c, c.(loop := Selecting, mutex := None)], [LoopEnds];
    case Some(Manual(t)) =>
      cs, es := [c, c.(manual := c.manual - {t}, mutex := None)], [ManualEnds(t)];
  }

  /** An obligation can always be discharged: a handful of steps take the loop into Sync. */
  lemma ObligedLoopCanSync(c: Controller) returns (cs: seq<Controller>, es: seq<Event>)
    requires MutexOk(c) && Obliged(c) && c.loop != Stopped
    ensures Steps(cs, es) && cs[0] == c && 1 <= |es| <= 5 && es[|es| - 1] == LoopStarts
  {
    cs, es := MutexCanBeFreed(c);
    var z := cs[|cs| - 1];
    if z.loop == Selecting {
      var taken := z.(token := false, loop := Coalescing(z.now + COALESCE_WINDOW));
      Extend(cs, es, TakeNudge, taken);
      cs, es, z := cs + [taken], es + [TakeNudge], taken;
    }
    if z.loop.Coalescing? {
      var wait: nat := if z.loop.deadline <= z.now then 0 else z.loop.deadline - z.now;
      var later := z.(now := z.now + wait);
      Extend(cs, es, TimePasses(wait), later);
      cs, es, z := cs + [later], es + [TimePasses(wait)], later;
      Extend(cs, es, TimerFires, z.(loop := Locking));
      cs, es, z := cs + [z.(loop := Locking)], es + [TimerFires], z.(loop := Locking);
    }
    Extend(cs, es, LoopStarts, z.(loop := Syncing, mutex := Some(Loop)));
    cs, es := cs + [z.(loop := Syncing, mutex := Some(Loop))], es + [LoopStarts];
  }
}
