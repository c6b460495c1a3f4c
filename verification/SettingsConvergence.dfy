/** Once writes stop, one round on every till and then one more bring the tills to the same shop settings. */
module SettingsConvergence {
  import opened Prelude
  import opened Records
  import opened StoreModel
  import opened CloudModel
  import opened Merge
  import opened Protocol
  import opened Convergence
  import opened SettingsSync

  /** Every pull reply carries the cloud's settings, once there are any. */
  ghost predicate RepliesCarrySettings(ss: seq<Shop>, es: seq<Event>)
    requires Steps(ss, es)
  {
    forall i | 0 <= i < |es| && es[i].Pull? :: es[i].reply.batch.settings == CloudSettings(ss[i].cloud)
  }

  /** The change spells out every shop setting. */
  ghost predicate Whole(change: Option<SettingsChange>) {
    change.Some? ==> change.value.values.Keys == SYNC_SETTING_KEYS
  }

  /** A till that has no change waiting, in a shop whose cloud has no settings, still has the defaults. */
  ghost predicate WholeSettings(dev: Device, c: Cloud) {
    && Whole(CloudSettings(c))
    && Whole(CarriedSettings(dev.phase))
    && (dev.phase.Accepted? && dev.phase.payload.settings.Some? ==> c.settings.Some?)
    && (dev.phase.Reading? ==> dev.phase.payload.settings.None?)
    && (forall b <- dev.adrift :: Whole(b.settings))
    && (dev.phase.HasReply? ==> Whole(dev.phase.reply.batch.settings) && (dev.phase.reply.batch.settings.Some? ==> c.settings.Some?))
    && (c.settings.None? && dev.store.settingsDue.None? ==> SyncedSettings(dev.store) == SyncedSettings(EMPTY))
  }

  /** The cloud's settings after a push: whole ones, and some if there were or are any. */
  lemma PushedSettings(c: Cloud, b: Batch)
    requires Whole(CloudSettings(c)) && Whole(b.settings)
    ensures var c' := ApplyPush(c, b);
            Whole(CloudSettings(c')) && (c'.settings.None? <==> c.settings.None? && b.settings.None?)
  {
    PutProductsEffect(c, b.products);
    var c1 := PutProducts(c, b.products);
    PutSalesEffect(c1, b.sales);
    PutStockEventsEffect(PutSales(c1, b.sales), b.stockEvents);
  }

  lemma PulledSettingsAre(st: StoreState, b: Batch)
    ensures ApplyPulled(st, b).settings == WithSettings(st, b.settings).settings
  {
    hide PulledProducts, PulledSales, PulledStockEvents;
    var s1 := PulledProducts(st, b.products);
    PulledProductsFrame(st, b.products);
    PulledSalesFrame(s1, b.sales);
    PulledStockEventsFrame(PulledSales(s1, b.sales), b.stockEvents);
  }

  /** A whole change, pulled with nothing waiting, sets every shop setting. */
  lemma WholeChangeSetsAll(st: StoreState, b: Batch)
    requires st.settingsDue.None? && Whole(b.settings)
    ensures SyncedSettings(ApplyPulled(st, b)) == if b.settings.Some? then b.settings.value.values else SyncedSettings(st)
  {
    hide SYNC_SETTING_KEYS, DEFAULTS, ApplyPulled;
    PulledSettingsAre(st, b);
    var r := ApplyPulled(st, b);
    forall k | k in SYNC_SETTING_KEYS && b.settings.Some? ensures SyncedSettings(r)[k] == b.settings.value.values[k] {
    }
  }

  lemma OwnStepKeepsWhole(dev: Device, c: Cloud, e: Event, dev': Device, c': Cloud)
    requires WholeSettings(dev, c)
    requires if e.Local? then dev' == AfterLocal(dev, e.op) && c' == c else SyncStep(dev, c, e, dev', c')
    requires e.Pull? ==> e.reply.batch.settings == CloudSettings(c)
    ensures WholeSettings(dev', c') && (c'.settings.None? ==> c.settings.None?)
  {
    hide Run, ApplyPush, ApplyPulled, SYNC_SETTING_KEYS, DEFAULTS, SyncedSettings;
    if e.Local? { LocalMovesMarker(dev, e.op); }
    if e.Push? { PushedSettings(c, dev.phase.payload); }
    if e.Late? { PushedSettings(c, e.payload); }
    if e.ReadSettings? { SnapshotIsWhole(dev.store); }
    if e.Clear? { ClearKeepsSettings(dev.store, dev.phase.payload); }
    if e.Apply? {
      PullNeverEchoes(dev.store, dev.phase.reply.batch);
      if dev.store.settingsDue.None? { WholeChangeSetsAll(dev.store, dev.phase.reply.batch); }
    }
    if e.Finish? { CursorKeepsSettings(dev.store, dev.phase.cursor); }
    if e.Record? { StatusKeepsSettings(dev.store, e.at, e.message); }
  }

  lemma SnapshotIsWhole(st: StoreState)
    ensures Whole(PendingSettings(st))
  {
  }

  lemma CursorKeepsSettings(st: StoreState, cursor: nat)
    ensures SyncedSettings(st.(cursor := cursor)) == SyncedSettings(st)
  {
  }

  ghost predicate AllWhole(s: Shop) {
    Whole(CloudSettings(s.cloud)) && forall dev <- s.devices :: WholeSettings(dev, s.cloud)
  }

  lemma {:induction false} TraceKeepsWhole(ss: seq<Shop>, es: seq<Event>, k: nat)
    requires Trace(ss, es) && RepliesCarrySettings(ss, es) && k < |ss|
    ensures AllWhole(ss[k])
  {
    hide SyncStep, AfterLocal, WholeSettings, SyncedSettings;
    if k == 0 {
      StartsWhole(ss[0]);
    } else {
      TraceKeepsWhole(ss, es, k - 1);
      var s, e, s' := ss[k - 1], es[k - 1], ss[k];
      assert Step(s, e, s');
      var dev, dev' := s.devices[e.d], s'.devices[e.d];
      assert dev in s.devices && WholeSettings(dev, s.cloud);
      OwnStepKeepsWhole(dev, s.cloud, e, dev', s'.cloud);
      OthersStayWhole(s, s', e.d);
    }
  }

  lemma StartsWhole(s: Shop)
    requires Init(s)
    ensures AllWhole(s)
  {
  }

  lemma OthersStayWhole(s: Shop, s': Shop, d: nat)
    requires AllWhole(s) && d < |s.devices| == |s'.devices| && s'.devices == s.devices[d := s'.devices[d]]
    requires WholeSettings(s'.devices[d], s'.cloud) && (s'.cloud.settings.None? ==> s.cloud.settings.None?)
    ensures AllWhole(s')
  {
    forall dv | dv in s'.devices ensures WholeSettings(dv, s'.cloud) {
      if dv != s'.devices[d] { assert dv in s.devices; }
    }
  }

  // ---- The second round ----

  /** From event b on, no push that arrives late changes the cloud's settings. */
  ghost predicate SettingsRest(ss: seq<Shop>, es: seq<Event>, b: nat)
    requires Steps(ss, es)
  {
    forall i | b <= i < |es| && es[i].Late? :: CloudSettings(ss[i + 1].cloud) == CloudSettings(ss[i].cloud)
  }

  lemma {:induction false} SettingsFreeze(ss: seq<Shop>, es: seq<Event>, a: nat, b: nat, k: nat)
    requires Trace(ss, es) && QuietFrom(es, a) && a <= b <= k < |ss| && SettingsRest(ss, es, b)
    requires AllComplete(ss[0], es, a, b)
    ensures CloudSettings(ss[k].cloud) == CloudSettings(ss[b].cloud)
  {
    hide Step, Init, Settled;
    if b < k {
      SettingsFreeze(ss, es, a, b, k - 1);
      RoundSettlesAll(ss, es, a, b, k - 1);
      CloudFreezesNext(ss, es, a, k - 1);
    }
  }

  ghost predicate HasSettings(st: StoreState, change: Option<SettingsChange>) {
    change.Some? ==> SyncedSettings(st) == change.value.values
  }

  /** A cycle begun when the cloud's settings had come to rest brings them. */
  ghost predicate BringsSettings(dev: Device, change: Option<SettingsChange>) {
    match dev.phase
    case HasReply(_, r) => r.batch.settings == change
    case Merged(_) => HasSettings(dev.store, change)
    case _ => true
  }

  lemma StepBringsSettings(dev: Device, c: Cloud, e: Event, dev': Device, c': Cloud, change: Option<SettingsChange>)
    requires !e.Local? && SyncStep(dev, c, e, dev', c') && Settled(dev) && Whole(change)
    requires e.Pull? ==> e.reply.batch.settings == change
    requires BringsSettings(dev, change)
    ensures BringsSettings(dev', change)
    ensures e.Finish? || HasSettings(dev.store, change) ==> HasSettings(dev'.store, change)
  {
    hide ApplyPush, ApplyPulled, SYNC_SETTING_KEYS, DEFAULTS, SyncedSettings;
    if e.Clear? { ClearKeepsSettings(dev.store, dev.phase.payload); }
    if e.Apply? { WholeChangeSetsAll(dev.store, dev.phase.reply.batch); }
    if e.Finish? { CursorKeepsSettings(dev.store, dev.phase.cursor); }
    if e.Record? { StatusKeepsSettings(dev.store, e.at, e.message); }
  }

  /** Writes stopped at a, every till completed a round before b, and the cloud's settings rest from b on. */
  ghost predicate AtRest(ss: seq<Shop>, es: seq<Event>, a: nat, b: nat) {
    && Trace(ss, es) && RepliesCarrySettings(ss, es) && QuietFrom(es, a) && a <= b <= |es|
    && AllComplete(ss[0], es, a, b) && SettingsRest(ss, es, b)
  }

  /** What the stretch at rest gives each of its steps. */
  lemma RestStep(ss: seq<Shop>, es: seq<Event>, a: nat, b: nat, k: nat, d: nat)
    requires AtRest(ss, es, a, b) && b <= k < |es| && d < |ss[0].devices|
    ensures d < |ss[k].devices| && d < |ss[k + 1].devices|
    ensures Settled(ss[k].devices[d]) && Whole(CloudSettings(ss[b].cloud))
    ensures es[k].d == d ==> !es[k].Local? && SyncStep(ss[k].devices[d], ss[k].cloud, es[k], ss[k + 1].devices[d], ss[k + 1].cloud)
    ensures es[k].d != d ==> ss[k + 1].devices[d] == ss[k].devices[d]
    ensures es[k].Pull? ==> es[k].reply.batch.settings == CloudSettings(ss[b].cloud)
  {
    hide SyncStep, Settled;
    SameTills(ss, es, k);
    SettingsFreeze(ss, es, a, b, k);
    RoundSettlesAll(ss, es, a, b, k);
    TraceKeepsWhole(ss, es, b);
    QuietStep(ss, es, a, k, d);
  }

  lemma {:induction false} RoundBringsSettings(ss: seq<Shop>, es: seq<Event>, a: nat, b: nat, d: nat, i: nat, k: nat)
    requires AtRest(ss, es, a, b) && b <= i < k < |ss| && d < |ss[0].devices| && es[i] == Begin(d)
    ensures d < |ss[k].devices| && BringsSettings(ss[k].devices[d], CloudSettings(ss[b].cloud))
    ensures forall j | i < j < k && es[j] == Finish(d) :: HasSettings(ss[k].devices[d].store, CloudSettings(ss[b].cloud))
  {
    hide Step, Init, RepliesCarrySettings, QuietFrom, AllComplete, SettingsRest, HasSettings, Settled;
    RestStep(ss, es, a, b, k - 1, d);
    var change := CloudSettings(ss[b].cloud);
    if k - 1 > i {
      RoundBringsSettings(ss, es, a, b, d, i, k - 1);
      if es[k - 1].d == d {
        StepBringsSettings(ss[k - 1].devices[d], ss[k - 1].cloud, es[k - 1], ss[k].devices[d], ss[k].cloud, change);
      }
    } else {
      BeginBrings(ss[i].devices[d], ss[i].cloud, d, ss[k].devices[d], ss[k].cloud, change);
    }
  }

  lemma BeginBrings(dev: Device, c: Cloud, d: nat, dev': Device, c': Cloud, change: Option<SettingsChange>)
    requires SyncStep(dev, c, Begin(d), dev', c')
    ensures BringsSettings(dev', change)
  {
  }

  /**
   * A till that completes a round after every till's quiet one ends with the
   * cloud's shop settings, or the defaults if none were ever set. So all such
   * tills agree.
   */
  lemma SettingsConverge(ss: seq<Shop>, es: seq<Event>, a: nat, b: nat, d: nat)
    requires TwoRounds(ss, es, a, b, d) && RepliesCarrySettings(ss, es) && SettingsRest(ss, es, b)
    ensures var t := ss[|es|];
            && d < |t.devices|
            && SyncedSettings(t.devices[d].store)
               == if t.cloud.settings.Some? then t.cloud.settings.value.value.values else SyncedSettings(EMPTY)
  {
    hide SyncedSettings, Step;
    var t := ss[|es|];
    var i, j :| b <= i < j < |es| && es[i] == Begin(d) && es[j] == Finish(d);
    RoundBringsSettings(ss, es, a, b, d, i, |es|);
    SettingsFreeze(ss, es, a, b, |es|);
    RoundSettlesAll(ss, es, a, b, |es|);
    TraceKeepsWhole(ss, es, |es|);
    assert t.devices[d] in t.devices && WholeSettings(t.devices[d], t.cloud) && Settled(t.devices[d]);
  }

  /** When every change is stamped later than the last, no push that arrives late has settings newer than the cloud's. */
  lemma TickingSettingsRest(ss: seq<Shop>, es: seq<Event>, a: nat, b: nat)
    requires TickingTrace(ss, es) && QuietFrom(es, a) && a <= b <= |es| && AllComplete(ss[0], es, a, b)
    ensures SettingsRest(ss, es, b)
  {
    hide Settled, SettingsOk, CloudSettings;
    forall i | b <= i < |es| && es[i].Late? ensures CloudSettings(ss[i + 1].cloud) == CloudSettings(ss[i].cloud) {
      assert Step(ss[i], es[i], ss[i + 1]);
      var dev := ss[i].devices[es[i].d];
      RoundSettlesAll(ss, es, a, b, i);
      TraceKeepsSettingsOk(ss, es, i);
      assert dev in ss[i].devices && SettingsOk(dev, ss[i].cloud) && Settled(dev);
      OldSettingsChangeNothing(dev, ss[i].cloud, es[i].payload);
    }
  }

  lemma OldSettingsChangeNothing(dev: Device, c: Cloud, b: Batch)
    requires SettingsOk(dev, c) && Settled(dev) && b in dev.adrift
    ensures CloudSettings(ApplyPush(c, b)) == CloudSettings(c)
  {
    PutProductsEffect(c, b.products);
    var c1 := PutProducts(c, b.products);
    PutSalesEffect(c1, b.sales);
    PutStockEventsEffect(PutSales(c1, b.sales), b.stockEvents);
  }

  // ---- A later reply covers an earlier one ----

  lemma {:induction false} CloudStaysPast(ss: seq<Shop>, es: seq<Event>, i: nat, j: nat, at: Time)
    requires Trace(ss, es) && i <= j < |ss| && CloudSettingsReach(ss[i].cloud, at)
    ensures CloudSettingsReach(ss[j].cloud, at)
    decreases j
  {
    hide SyncStep, CloudSettingsReach, AfterLocal, FreshInShop, Init;
    if i < j {
      CloudStaysPast(ss, es, i, j - 1, at);
      var s, e, s' := ss[j - 1], es[j - 1], ss[j];
      assert Step(s, e, s');
      if !e.Local? { CloudSettingsOnlyAdvance(s.devices[e.d], s.cloud, e, s'.devices[e.d], s'.cloud); }
    }
  }

  /** So pulling two replies in turn amounts to one batch with the later reply's settings. */
  lemma LaterRepliesCover(ss: seq<Shop>, es: seq<Event>, i: nat, j: nat, st: StoreState)
    requires Trace(ss, es) && RepliesCarrySettings(ss, es) && i < j < |es| && es[i].Pull? && es[j].Pull?
    ensures var a, b := es[i].reply.batch, es[j].reply.batch;
            ApplyPulled(ApplyPulled(st, a), b) == ApplyPulled(st, JoinedBatch(st.settingsDue, a, b).(settings := b.settings))
  {
    hide Step, Init, SYNC_SETTING_KEYS, WholeSettings, JoinedBatch, ApplyPulled;
    var a, b := es[i].reply.batch, es[j].reply.batch;
    TraceKeepsWhole(ss, es, i);
    TraceKeepsWhole(ss, es, j);
    if a.settings.Some? { CloudStaysPast(ss, es, i, j, a.settings.value.at); }
    LaterSettingsAreTheJoin(st, a, b);
  }
}
