/** The settings-dirty marker over whole runs in which a till's clock moves forward between setting changes. */
module SettingsSync {
  import opened Prelude
  import opened Records
  import opened StoreModel
  import opened CloudModel
  import opened Protocol
  import opened Merge

  /** A change to a shop setting is stamped later than the change still waiting to be pushed. */
  ghost predicate Ticks(s: Shop, e: Event) {
    e.Local? && e.op.SetSetting? && e.op.key in SYNC_SETTING_KEYS && e.d < |s.devices| ==>
      var due := s.devices[e.d].store.settingsDue;
      due.Some? ==> due.value < e.op.now
  }

  function CarriedSettings(phase: Phase): Option<SettingsChange> {
    match phase
    case ReadyToPush(b) => b.settings
    case Accepted(b) => b.settings
    case _ => None
  }

  /** The till's settings have changed since the snapshot, and say so; or they are the snapshot. */
  ghost predicate SnapshotOk(st: StoreState, snapshot: SettingsChange) {
    && st.settingsDue.Some?
    && (snapshot.at < st.settingsDue.value
        || (snapshot.at == st.settingsDue.value && SyncedSettings(st) == snapshot.values))
  }

  /** The cloud's settings were changed at `at` or later. */
  ghost predicate CloudSettingsReach(c: Cloud, at: Time) {
    c.settings.Some? && at <= c.settings.value.value.at
  }

  ghost predicate SettingsOk(dev: Device, c: Cloud) {
    && (CarriedSettings(dev.phase).Some? ==> SnapshotOk(dev.store, CarriedSettings(dev.phase).value))
    && (dev.phase.Reading? ==> dev.phase.payload.settings.None?)
    && (dev.phase.Accepted? && dev.phase.payload.settings.Some? ==>
          CloudSettingsReach(c, dev.phase.payload.settings.value.at))
    && AdriftSettingsOld(dev, c)
  }

  /** Settings adrift are no later than the till's marker, or than what the cloud has. */
  ghost predicate AdriftSettingsOld(dev: Device, c: Cloud) {
    forall b <- dev.adrift :: b.settings.Some? ==>
      CloudSettingsReach(c, b.settings.value.at)
      || (dev.store.settingsDue.Some? && b.settings.value.at <= dev.store.settingsDue.value)
  }

  lemma RunKeepsSettings(st: StoreState, op: LocalOp)
    ensures op.SetSetting? ||
            (Run(st, op).settings == st.settings && Run(st, op).settingsDue == st.settingsDue)
  {
    match op
    case AddProduct(d, pending, id, eventId, now) =>
      assert AfterAdd(st, d, pending, id, eventId, now).settings == st.settings;
    case UpdateProduct(id, d, eventId, now) =>
      if id in st.products { assert AfterUpdate(st, id, d, eventId, now).settings == st.settings; }
    case _ =>
  }

  /** A later change leaves the snapshot behind but keeps the marker; any other write leaves both alone. */
  lemma LocalKeepsSnapshot(st: StoreState, op: LocalOp, snapshot: SettingsChange)
    requires SnapshotOk(st, snapshot)
    requires op.SetSetting? && op.key in SYNC_SETTING_KEYS ==> st.settingsDue.value < op.now
    ensures SnapshotOk(Run(st, op), snapshot)
  {
    RunKeepsSettings(st, op);
    if !op.SetSetting? || op.key !in SYNC_SETTING_KEYS {
      assert SyncedSettings(Run(st, op)) == SyncedSettings(st);
    }
  }

  lemma PushReachesCloud(c: Cloud, b: Batch)
    ensures b.settings.Some? ==> CloudSettingsReach(ApplyPush(c, b), b.settings.value.at)
    ensures forall at :: CloudSettingsReach(c, at) ==> CloudSettingsReach(ApplyPush(c, b), at)
  {
    PutProductsEffect(c, b.products);
    var c1 := PutProducts(c, b.products);
    PutSalesEffect(c1, b.sales);
    PutStockEventsEffect(PutSales(c1, b.sales), b.stockEvents);
  }

  lemma SyncKeepsSettingsOk(dev: Device, c: Cloud, e: Event, dev': Device, c': Cloud)
    requires !e.Local? && SyncStep(dev, c, e, dev', c') && SettingsOk(dev, c)
    ensures SettingsOk(dev', c')
  {
    hide AdriftSettingsOld, ApplyPush, ApplyPulled;
    SyncKeepsAdriftOld(dev, c, e, dev', c');
    if e.Push? { PushReachesCloud(c, dev.phase.payload); }
    if e.Late? { PushReachesCloud(c, e.payload); }
  }

  lemma SyncKeepsAdriftOld(dev: Device, c: Cloud, e: Event, dev': Device, c': Cloud)
    requires !e.Local? && SyncStep(dev, c, e, dev', c') && SettingsOk(dev, c)
    ensures AdriftSettingsOld(dev', c')
  {
    hide ApplyPush, ApplyPulled, SyncedSettings, Lists, IsPull;
    CloudSettingsOnlyAdvance(dev, c, e, dev', c');
    if e.Apply? { PullNeverEchoes(dev.store, dev.phase.reply.batch); }
  }

  ghost predicate AllSettingsOk(s: Shop) {
    forall dev <- s.devices :: SettingsOk(dev, s.cloud)
  }

  lemma StaysSettingsOk(s: Shop, s': Shop, d: nat, dev': Device)
    requires AllSettingsOk(s) && d < |s.devices| && s'.devices == s.devices[d := dev']
    requires SettingsOk(dev', s'.cloud)
    requires forall at :: CloudSettingsReach(s.cloud, at) ==> CloudSettingsReach(s'.cloud, at)
    ensures AllSettingsOk(s')
  {
    forall dv | dv in s'.devices ensures SettingsOk(dv, s'.cloud) {
      if dv != dev' { assert dv in s.devices; }
    }
  }

  lemma LocalKeepsSettingsOk(dev: Device, op: LocalOp, c: Cloud)
    requires SettingsOk(dev, c)
    requires op.SetSetting? && op.key in SYNC_SETTING_KEYS && dev.store.settingsDue.Some? ==> dev.store.settingsDue.value < op.now
    ensures SettingsOk(AfterLocal(dev, op), c)
  {
    hide Run, SnapshotOk;
    LocalMovesMarker(dev, op);
    if CarriedSettings(dev.phase).Some? {
      var snapshot := CarriedSettings(dev.phase).value;
      SnapshotIsDirty(dev.store, snapshot);
      LocalKeepsSnapshot(dev.store, op, snapshot);
    }
  }

  lemma SnapshotIsDirty(st: StoreState, snapshot: SettingsChange)
    requires SnapshotOk(st, snapshot)
    ensures st.settingsDue.Some?
  {
  }

  lemma CloudSettingsOnlyAdvance(dev: Device, c: Cloud, e: Event, dev': Device, c': Cloud)
    requires !e.Local? && SyncStep(dev, c, e, dev', c')
    ensures forall at :: CloudSettingsReach(c, at) ==> CloudSettingsReach(c', at)
  {
    if e.Push? { PushReachesCloud(c, dev.phase.payload); }
    if e.Late? { PushReachesCloud(c, e.payload); }
  }

  lemma StepKeepsSettingsOk(s: Shop, e: Event, s': Shop)
    requires AllSettingsOk(s) && Step(s, e, s') && Ticks(s, e)
    ensures AllSettingsOk(s')
  {
    hide SyncStep, SettingsOk, Run, CloudSettingsReach;
    var dev, dev' := s.devices[e.d], s'.devices[e.d];
    assert dev in s.devices && SettingsOk(dev, s.cloud);
    if e.Local? {
      LocalKeepsSettingsOk(dev, e.op, s.cloud);
    } else {
      SyncKeepsSettingsOk(dev, s.cloud, e, dev', s'.cloud);
      CloudSettingsOnlyAdvance(dev, s.cloud, e, dev', s'.cloud);
    }
    StaysSettingsOk(s, s', e.d, dev');
  }

  ghost predicate TickingTrace(ss: seq<Shop>, es: seq<Event>) {
    Trace(ss, es) && forall i | 0 <= i < |es| :: Ticks(ss[i], es[i])
  }

  lemma {:induction false} TraceKeepsSettingsOk(ss: seq<Shop>, es: seq<Event>, i: nat)
    requires TickingTrace(ss, es) && i < |ss|
    ensures AllSettingsOk(ss[i])
  {
    if i > 0 {
      TraceKeepsSettingsOk(ss, es, i - 1);
      assert Step(ss[i - 1], es[i - 1], ss[i]) && Ticks(ss[i - 1], es[i - 1]);
      StepKeepsSettingsOk(ss[i - 1], es[i - 1], ss[i]);
    }
  }

  /**
   * Whatever happens between the snapshot and the clear, the marker goes only
   * when the till's settings are the pushed ones and the cloud has them or
   * newer; a change made in between keeps its own stamp on the marker.
   */
  lemma ClearedSettingsWerePushed(ss: seq<Shop>, es: seq<Event>, i: nat)
    requires TickingTrace(ss, es) && i < |es| && es[i].Clear?
    ensures es[i].d < |ss[i].devices| && es[i].d < |ss[i + 1].devices| && ss[i].devices[es[i].d].phase.Accepted?
    ensures var before, after := ss[i].devices[es[i].d], ss[i + 1].devices[es[i].d];
            var pushed := before.phase.payload.settings;
            && after.store.settings == before.store.settings
            && (after.store.settingsDue != before.store.settingsDue ==>
                  && after.store.settingsDue.None?
                  && pushed.Some?
                  && SyncedSettings(after.store) == pushed.value.values
                  && CloudSettingsReach(ss[i + 1].cloud, pushed.value.at))
            && (pushed.Some? && SyncedSettings(before.store) != pushed.value.values ==>
                  after.store.settingsDue == before.store.settingsDue && after.store.settingsDue.Some?)
  {
    TraceKeepsSettingsOk(ss, es, i);
    assert Step(ss[i], es[i], ss[i + 1]);
    assert ss[i].devices[es[i].d] in ss[i].devices;
  }

  /**
   * A pull changes shop settings only when its change is not older than a
   * waiting local one, never touches the device's own settings, and never
   * clears the marker.
   */
  lemma PulledSettingsRespectMarker(st: StoreState, b: Batch, key: string)
    ensures var r := ApplyPulled(st, b);
            && r.settingsDue == st.settingsDue
            && (key !in SYNC_SETTING_KEYS ==> (key in r.settings <==> key in st.settings)
                                              && (key in st.settings ==> r.settings[key] == st.settings[key]))
            && (r.settings != st.settings ==>
                  b.settings.Some? && (st.settingsDue.Some? ==> st.settingsDue.value <= b.settings.value.at))
  {
    PulledProductsFrame(st, b.products);
    PulledSalesFrame(PulledProducts(st, b.products), b.sales);
    PulledStockEventsFrame(PulledSales(PulledProducts(st, b.products), b.sales), b.stockEvents);
  }

  // ---- Exactly when a change made during a cycle is lost ----

  /**
   * A shop setting changed after the snapshot stamped `at` and before the clear
   * stays marked exactly when its own stamp is later: an equal stamp or a clock
   * that stepped back loses it, and then it is lost exactly when it is a change.
   */
  lemma MarkerSurvivesIffLater(st: StoreState, key: string, value: string, now: Time,
                               productIds: set<Id>, saleIds: set<Id>, eventIds: set<Id>)
    requires st.settingsDue.Some? && key in SYNC_SETTING_KEYS
    ensures var pushed := PendingSettings(st).value;
            var r := ClearPushed(AfterSetting(st, key, value, now), productIds, saleIds, eventIds, Some(pushed.at));
            && (r.settingsDue == Some(now) <==> pushed.at < now)
            && (r.settingsDue.None? <==> now <= pushed.at)
            && SyncedSettings(r)[key] == value
            && (SyncedSettings(r) != pushed.values <==> value != pushed.values[key])
  {
    hide SYNC_SETTING_KEYS, DEFAULTS;
    var r := AfterSetting(st, key, value, now);
    assert SyncedSettings(r)[key] == value;
    assert SyncedSettings(r) == SyncedSettings(st)[key := value];
  }

  /** The event changes a shop setting on till d. */
  predicate ChangesSettings(e: Event, d: nat) {
    e.Local? && e.d == d && e.op.SetSetting? && e.op.key in SYNC_SETTING_KEYS
  }

  /** The stamp of the last shop-setting change on till d among events [from, to). */
  function LastChange(es: seq<Event>, d: nat, from: nat, to: nat): Option<Time>
    requires to <= |es|
  {
    if to <= from then None
    else if ChangesSettings(es[to - 1], d) then Some(es[to - 1].op.now)
    else LastChange(es, d, from, to - 1)
  }

  /** Between its outbox read r and event k, a till takes no step of its own but local writes, pushes and status updates. */
  ghost predicate InOneCycle(es: seq<Event>, d: nat, r: nat, k: nat) {
    && r < k <= |es| && es[r] == ReadSettings(d)
    && forall j | r < j < k && es[j].d == d :: es[j].Local? || es[j].Push? || es[j].Late? || es[j].Record?
  }

  predicate HasPayload(phase: Phase) {
    phase.ReadyToPush? || phase.Accepted?
  }

  /** A payload in flight was completed by a settings read of the same cycle, and carries that instant's settings. */
  lemma {:induction false} PayloadWasRead(ss: seq<Shop>, es: seq<Event>, d: nat, k: nat) returns (r: nat)
    requires Trace(ss, es) && k < |ss| && d < |ss[k].devices| && HasPayload(ss[k].devices[d].phase)
    ensures InOneCycle(es, d, r, k) && d < |ss[r].devices|
    ensures CarriedSettings(ss[k].devices[d].phase) == PendingSettings(ss[r].devices[d].store)
  {
    hide SyncStep, AfterLocal, PendingSettings;
    r := 0;
    if k == 0 {
      StartsIdle(ss[0], d);
    } else {
      var e := es[k - 1];
      assert Step(ss[k - 1], e, ss[k]);
      if e.d == d { OwnStepKeepsPayload(ss[k - 1].devices[d], ss[k - 1].cloud, e, ss[k].devices[d], ss[k].cloud); }
      if e.d == d && e.ReadSettings? {
        r := k - 1;
      } else {
        r := PayloadWasRead(ss, es, d, k - 1);
      }
    }
  }

  lemma OwnStepKeepsPayload(dev: Device, c: Cloud, e: Event, dev': Device, c': Cloud)
    requires if e.Local? then dev' == AfterLocal(dev, e.op) else SyncStep(dev, c, e, dev', c')
    requires HasPayload(dev'.phase)
    ensures if e.ReadSettings? then CarriedSettings(dev'.phase) == PendingSettings(dev.store)
            else (e.Local? || e.Push? || e.Late? || e.Record?) && HasPayload(dev.phase) && CarriedSettings(dev'.phase) == CarriedSettings(dev.phase)
  {
    hide Run, ApplyPush, PendingSettings;
  }

  lemma StartsIdle(s: Shop, d: nat)
    requires Init(s) && d < |s.devices|
    ensures s.devices[d].phase == Idle
  {
    assert s.devices[d] in s.devices;
  }

  lemma LocalMovesMarker(dev: Device, op: LocalOp)
    ensures var st := AfterLocal(dev, op).store;
            if op.SetSetting? && op.key in SYNC_SETTING_KEYS then st.settingsDue == Some(op.now)
            else st.settingsDue == dev.store.settingsDue && SyncedSettings(st) == SyncedSettings(dev.store)
  {
    RunKeepsSettings(dev.store, op);
  }

  /** Within a cycle the marker is the last change's stamp, or as it was read, and then so are the settings. */
  lemma {:induction false} MarkerFollowsLastChange(ss: seq<Shop>, es: seq<Event>, d: nat, r: nat, k: nat)
    requires Trace(ss, es) && k < |ss| && InOneCycle(es, d, r, k) && d < |ss[r].devices|
    ensures d < |ss[k].devices|
    ensures var was, now, last := ss[r].devices[d].store, ss[k].devices[d].store, LastChange(es, d, r + 1, k);
            if last.Some? then now.settingsDue == last
            else now.settingsDue == was.settingsDue && SyncedSettings(now) == SyncedSettings(was)
    decreases k
  {
    hide SyncStep, AfterLocal, SyncedSettings;
    var e := es[k - 1];
    assert Step(ss[k - 1], e, ss[k]);
    if k - 1 > r {
      MarkerFollowsLastChange(ss, es, d, r, k - 1);
    }
    if e.d == d {
      OwnStepMovesMarker(ss[k - 1].devices[d], ss[k - 1].cloud, e, ss[k].devices[d], ss[k].cloud);
    }
  }

  lemma OwnStepMovesMarker(dev: Device, c: Cloud, e: Event, dev': Device, c': Cloud)
    requires e.Local? || e.Push? || e.Late? || e.Record? || e.ReadSettings?
    requires if e.Local? then dev' == AfterLocal(dev, e.op) else SyncStep(dev, c, e, dev', c')
    ensures if ChangesSettings(e, e.d) then dev'.store.settingsDue == Some(e.op.now)
            else dev'.store.settingsDue == dev.store.settingsDue && SyncedSettings(dev'.store) == SyncedSettings(dev.store)
  {
    hide Run, ApplyPush, SyncedSettings;
    if e.Local? { LocalMovesMarker(dev, e.op); }
    if e.Record? { StatusKeepsSettings(dev.store, e.at, e.message); }
  }

  lemma StatusKeepsSettings(st: StoreState, at: Time, message: string)
    ensures SyncedSettings(st.(lastSync := Some(at), lastError := message)) == SyncedSettings(st)
  {
  }

  /**
   * In any run, whatever the clocks do: the clear that ends a cycle drops the
   * settings marker exactly when no shop setting changed since that cycle's
   * snapshot or the last change is stamped no later than it. A change is lost
   * there exactly when, besides, the settings differ from the pushed ones.
   */
  lemma ClearDropsMarkerIff(ss: seq<Shop>, es: seq<Event>, i: nat) returns (r: nat)
    requires Trace(ss, es) && i < |es| && es[i].Clear?
    requires es[i].d < |ss[i].devices| && ss[i].devices[es[i].d].phase.Accepted?
    requires ss[i].devices[es[i].d].phase.payload.settings.Some?
    ensures InOneCycle(es, es[i].d, r, i) && es[i].d < |ss[i + 1].devices|
    ensures var before, after := ss[i].devices[es[i].d].store, ss[i + 1].devices[es[i].d].store;
            var pushed, last := ss[i].devices[es[i].d].phase.payload.settings.value, LastChange(es, es[i].d, r + 1, i);
            && before.settingsDue == (if last.Some? then last else Some(pushed.at))
            && (last.None? ==> SyncedSettings(before) == pushed.values)
            && after.settings == before.settings
            && after.settingsDue == (if last.None? || last.value <= pushed.at then None else last)
            && (after.settingsDue.None? && SyncedSettings(after) != pushed.values
                <==> last.Some? && last.value <= pushed.at && SyncedSettings(before) != pushed.values)
  {
    hide Lists, SyncedSettings, Run;
    var d := es[i].d;
    assert Step(ss[i], es[i], ss[i + 1]);
    r := PayloadWasRead(ss, es, d, i);
    MarkerFollowsLastChange(ss, es, d, r, i);
    var dev := ss[i].devices[d];
    ClearKeepsSettings(dev.store, dev.phase.payload);
  }

  lemma ClearKeepsSettings(st: StoreState, b: Batch)
    ensures AfterClear(st, b).settings == st.settings && SyncedSettings(AfterClear(st, b)) == SyncedSettings(st)
  {
  }
}
