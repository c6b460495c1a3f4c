/** The sync engine: one push-then-pull cycle over a real store and cloud, shown to be a run of the protocol. */
module Engine {
  import opened Prelude
  import opened Records
  import opened StoreModel
  import opened StoreInvariants
  import opened CloudModel
  import opened Protocol
  import opened LogSafety
  import opened Catalogue
  import opened Convergence
  import opened BoltStore

  /** What the network does to one request. */
  datatype Fate = Delivered | ReplyLost | RequestLost

  /** The cloud behind the client's two calls. */
  class CloudServer {
    var state: Cloud

    constructor ()
      ensures state == EMPTY_CLOUD
    {
      state := EMPTY_CLOUD;
    }

    method Push(payload: Batch, fate: Fate) returns (ok: bool)
      modifies this
      ensures ok <==> fate == Delivered
      ensures state == if fate == RequestLost then old(state) else ApplyPush(old(state), payload)
    {
      if fate != RequestLost {
        state := ApplyPush(state, payload);
      }
      ok := fate == Delivered;
    }

    method Pull(since: nat, fate: Fate) returns (r: Option<Reply>)
      ensures r.Some? <==> fate == Delivered
      ensures r.Some? ==> IsPull(state, since, r.value) && r.value.batch.settings == CloudSettings(state)
    {
      if fate != Delivered {
        return None;
      }
      var ps := RowsAfter(state.products, since);
      var sales := RowsAfter(state.sales, since);
      var evs := RowsAfter(state.stockEvents, since);
      r := Some(Reply(Batch(ps, sales, evs, CloudSettings(state)), state.last));
    }
  }

  method RowsAfter<T>(rows: map<Id, Row<T>>, since: nat) returns (xs: seq<T>)
    ensures RowsPast(rows, since, xs)
  {
    xs := [];
    var todo := rows.Keys;
    while todo != {}
      invariant todo <= rows.Keys
      invariant forall id <- rows :: id !in todo && rows[id].seqNo > since ==> rows[id].value in xs
      invariant forall x <- xs :: exists id :: id in rows && rows[id].seqNo > since && rows[id].value == x
      decreases todo
    {
      var id :| id in todo;
      todo := todo - {id};
      if rows[id].seqNo > since {
        ghost var before := xs;
        xs := xs + [rows[id].value];
        assert forall x <- before :: x in xs;
      }
    }
  }

  method IdsOf<T>(xs: seq<T>, idOf: T -> Id) returns (ids: seq<Id>)
    ensures |ids| == |xs| && forall i | 0 <= i < |xs| :: ids[i] == idOf(xs[i])
  {
    ids := [];
    for i := 0 to |xs|
      invariant |ids| == i && forall j | 0 <= j < i :: ids[j] == idOf(xs[j])
    {
      ids := ids + [idOf(xs[i])];
    }
  }

  lemma MembersAreIds(b: Batch, ps: seq<Id>, sales: seq<Id>, evs: seq<Id>)
    requires |ps| == |b.products| && forall i | 0 <= i < |ps| :: ps[i] == b.products[i].id
    requires |sales| == |b.sales| && forall i | 0 <= i < |sales| :: sales[i] == b.sales[i].id
    requires |evs| == |b.stockEvents| && forall i | 0 <= i < |evs| :: evs[i] == b.stockEvents[i].id
    ensures Members(ps) == ProductIds(b.products) && Members(sales) == SaleIds(b.sales)
    ensures Members(evs) == EventIds(b.stockEvents)
  {
    forall id | id in ProductIds(b.products) ensures id in Members(ps) {
      var i :| 0 <= i < |b.products| && b.products[i].id == id;
      assert ps[i] == id;
    }
    forall id | id in SaleIds(b.sales) ensures id in Members(sales) {
      var i :| 0 <= i < |b.sales| && b.sales[i].id == id;
      assert sales[i] == id;
    }
    forall id | id in EventIds(b.stockEvents) ensures id in Members(evs) {
      var i :| 0 <= i < |b.stockEvents| && b.stockEvents[i].id == id;
      assert evs[i] == id;
    }
  }

  /** An engine for till `d` of a shop, keeping as ghosts the protocol run it has followed. */
  class Engine {
    const store: Store
    const cloud: CloudServer
    ghost const d: nat
    ghost var ss: seq<Shop>
    ghost var es: seq<Event>

    /** The till as the protocol sees it now. */
    ghost function Till(): Device
      requires ss != [] && d < |ss[|ss| - 1].devices|
      reads this
    {
      ss[|ss| - 1].devices[d]
    }

    /** The store and the cloud are where the protocol run so far has brought them. */
    ghost predicate Follows()
      reads this, store, cloud
    {
      && Steps(ss, es)
      && d < |ss[|ss| - 1].devices|
      && Safe(ss[|ss| - 1])
      && Till().store == store.State()
      && ss[|ss| - 1].cloud == cloud.state
      && store.Valid()
      && Fresh(Till())
      && (KeepsCatalogue(ss[0]) ==> KeepsCatalogue(ss[|ss| - 1]))
    }

    constructor (store: Store, cloud: CloudServer, ghost s: Shop, ghost d: nat)
      requires Safe(s) && d < |s.devices| && s.devices[d].phase == Idle
      requires s.devices[d].store == store.State() && s.cloud == cloud.state
      ensures Follows() && ss == [s] && es == [] && this.d == d && this.store == store && this.cloud == cloud
    {
      this.store, this.cloud, this.d := store, cloud, d;
      ss, es := [s], [];
      new;
      assert s.devices[d] in s.devices;
    }

    /** The till after the code's last transaction, which is the protocol step e. */
    ghost function Now(e: Event, phase: Phase, lost: set<Id>): Device
      requires ss != [] && d < |ss[|ss| - 1].devices|
      reads this, store
    {
      var adrift := Till().adrift + if e.Abort? then Requested(Till().phase) else {};
      Till().(store := store.State(), phase := phase, lost := lost, adrift := adrift)
    }

    /** Records one protocol step that the code has just taken. */
    ghost method Took(e: Event, phase: Phase, lost: set<Id>)
      requires Steps(ss, es) && d < |ss[|ss| - 1].devices| && Safe(ss[|ss| - 1])
      requires !e.Local? && e.d == d && (Fresh(Till()) || e.Begin?)
      requires KeepsCatalogue(ss[0]) ==> KeepsCatalogue(ss[|ss| - 1])
      requires SyncStep(Till(), ss[|ss| - 1].cloud, e, Now(e, phase, lost), cloud.state)
      modifies this`ss, this`es
      ensures Follows() && Till().phase == phase
      ensures es == old(es) + [e] && |ss| == |es| + 1 && ss[..|ss| - 1] == old(ss)
    {
      hide HistoryOk, Held, KeepsCatalogue, LogOk, PhaseOk;
      var s := ss[|ss| - 1];
      var dev := Now(e, phase, lost);
      var s' := s.(devices := s.devices[d := dev], cloud := cloud.state);
      assert s.devices[d] in s.devices && DeviceOk(s.devices[d], s.cloud, s.madeSales, s.madeEvents);
      assert Step(s, e, s');
      SyncKeepsSafe(s, e, s');
      SyncKeepsCatalogue(s, e, s');
      assert dev in s'.devices && DeviceOk(dev, s'.cloud, s'.madeSales, s'.madeEvents);
      if !e.Begin? { QuietStepKeepsFresh(s.devices[d], s.cloud, e, dev, s'.cloud); }
      ss, es := ss + [s'], es + [e];
      StepsExtend(old(ss), old(es), e, s');
    }

    method ReadProducts() returns (products: seq<Product>)
      requires Follows() && Till().phase == Reading(0, NOTHING)
      modifies this`ss, this`es
      ensures Follows() && es == old(es) + [Event.ReadProducts(d, products)] && old(ss) <= ss
      ensures Till().phase == Reading(1, NOTHING.(products := products))
      ensures products == [] <==> store.pendingProds == {}
    {
      products := store.PendingProducts();
      EmptyOutboxListsNothing(products, store.products, store.pendingProds);
      Took(Event.ReadProducts(d, products), Reading(1, NOTHING.(products := products)), Till().lost);
    }

    method ReadSales(ghost b: Batch) returns (sales: seq<Sale>)
      requires Follows() && Till().phase == Reading(1, b)
      modifies this`ss, this`es
      ensures Follows() && es == old(es) + [Event.ReadSales(d, sales)] && old(ss) <= ss
      ensures Till().phase == Reading(2, b.(sales := sales))
      ensures sales == [] <==> store.pendingSales == {}
    {
      sales := store.PendingSales();
      EmptyOutboxListsNothing(sales, store.sales, store.pendingSales);
      Took(Event.ReadSales(d, sales), Reading(2, b.(sales := sales)), Till().lost);
    }

    method ReadStockEvents(ghost b: Batch) returns (stockEvents: seq<StockEvent>)
      requires Follows() && Till().phase == Reading(2, b)
      modifies this`ss, this`es
      ensures Follows() && es == old(es) + [Event.ReadStockEvents(d, stockEvents)] && old(ss) <= ss
      ensures Till().phase == Reading(3, b.(stockEvents := stockEvents))
      ensures stockEvents == [] <==> store.pendingStock == {}
    {
      stockEvents := store.PendingStockEvents();
      EmptyOutboxListsNothing(stockEvents, store.stockEvents, store.pendingStock);
      Took(Event.ReadStockEvents(d, stockEvents), Reading(3, b.(stockEvents := stockEvents)), Till().lost);
    }

    method ReadSettings(ghost b: Batch) returns (settings: Option<SettingsChange>)
      requires Follows() && Till().phase == Reading(3, b)
      modifies this`ss, this`es
      ensures Follows() && es == old(es) + [Event.ReadSettings(d)] && old(ss) <= ss
      ensures settings.None? <==> store.settingsDue.None?
      ensures var payload := b.(settings := settings);
              Till().phase == if payload == NOTHING then PushDone else ReadyToPush(payload)
    {
      settings := PendingSettings(store.State());
      ghost var payload := b.(settings := settings);
      Took(Event.ReadSettings(d), if payload == NOTHING then PushDone else ReadyToPush(payload), Till().lost);
    }

    /** Sends the payload; a lost request never reaches the cloud, a lost reply does. */
    method Send(b: Batch, fate: Fate) returns (ok: bool)
      requires Follows() && Till().phase == ReadyToPush(b)
      modifies this`ss, this`es, cloud
      ensures Follows() && es == old(es) + [if fate == RequestLost then Abort(d) else Event.Push(d, ok)] && old(ss) <= ss
      ensures ok <==> fate == Delivered
      ensures Till().phase == if ok then Accepted(b) else Idle
    {
      ok := cloud.Push(b, fate);
      if fate == RequestLost {
        Took(Abort(d), Idle, Till().lost);
      } else {
        Took(Event.Push(d, ok), if ok then Accepted(b) else Idle, Till().lost);
      }
    }

    method ClearAccepted(b: Batch)
      requires Follows() && Till().phase == Accepted(b)
      modifies this`ss, this`es, store
      ensures Follows() && es == old(es) + [Clear(d)] && old(ss) <= ss
      ensures Till().phase == PushDone && store.cursor == old(store.cursor)
    {
      hide Safe, KeepsCatalogue, EditedSince, Lists, IsPull, ApplyPush, ApplyPulled;
      var productIds := IdsOf(b.products, ProductId);
      var saleIds := IdsOf(b.sales, SaleId);
      var eventIds := IdsOf(b.stockEvents, EventId);
      MembersAreIds(b, productIds, saleIds, eventIds);
      ghost var before := store.State();
      store.ClearPushed(productIds, saleIds, eventIds, SettingsStamp(b));
      Took(Clear(d), PushDone, Till().lost + EditedSince(before, b.products));
    }

    /** Reads the outbox bucket by bucket, each in its own transaction. */
    method ReadOutbox() returns (b: Batch)
      requires Follows() && Till().phase == Reading(0, NOTHING)
      modifies this`ss, this`es
      ensures Follows() && old(es) < es && old(ss) <= ss
      ensures OutboxReads(es[|old(es)|..])
      ensures b == NOTHING <==> Drained(store.State())
      ensures Till().phase == if b == NOTHING then PushDone else ReadyToPush(b)
    {
      hide Follows, Steps, Safe;
      var products := ReadProducts();
      b := NOTHING.(products := products);
      var sales := ReadSales(b);
      b := b.(sales := sales);
      var stockEvents := ReadStockEvents(b);
      b := b.(stockEvents := stockEvents);
      var settings := ReadSettings(b);
      b := b.(settings := settings);
    }

    ghost predicate OutboxReads(added: seq<Event>)
    {
      |added| == 4 && added[0].ReadProducts? && added[1].ReadSales? && added[2].ReadStockEvents? && added[3] == Event.ReadSettings(d)
    }

    /** The events of a push: the four outbox reads in order, then, unless there was nothing, the request and the clear. */
    ghost predicate PushEvents(added: seq<Event>, empty: bool, fate: Fate)
    {
      && |added| == (if empty then 4 else if fate == Delivered then 6 else 5)
      && OutboxReads(added[..4])
      && (!empty ==> added[4] == if fate == RequestLost then Abort(d) else Event.Push(d, fate == Delivered))
      && (!empty && fate == Delivered ==> added[5] == Clear(d))
    }

    /** Uploads the outbox and clears the marks the cloud accepted; with nothing to say it asks nothing. */
    method Push(fate: Fate) returns (ok: bool)
      requires Follows() && Till().phase == Reading(0, NOTHING)
      modifies this`ss, this`es, store, cloud
      ensures Follows() && old(es) < es && old(ss) <= ss
      ensures Till().phase == if ok then PushDone else Idle
      ensures PushEvents(es[|old(es)|..], Drained(old(store.State())), fate)
      ensures ok <==> Drained(old(store.State())) || fate == Delivered
      ensures Drained(old(store.State())) ==> cloud.state == old(cloud.state)
      ensures Drained(old(store.State())) || !ok ==> store.State() == old(store.State())
      ensures store.cursor == old(store.cursor)
    {
      hide Follows, Steps, Safe, OutboxReads, Drained;
      ghost var before := store.State();
      var b := ReadOutbox();
      assert store.State() == before;
      ghost var listed := es[|old(es)|..];
      assert |listed| == 4 by { FourReads(listed); }
      if b == NOTHING {
        assert listed[..4] == listed;
        return true;
      }
      ok := Send(b, fate);
      if ok {
        ClearAccepted(b);
      }
      ghost var request := if fate == RequestLost then Abort(d) else Event.Push(d, ok);
      assert es[|old(es)|..] == listed + ([request] + if ok then [Clear(d)] else []);
      assert (listed + ([request] + if ok then [Clear(d)] else []))[..4] == listed;
    }

    lemma FourReads(added: seq<Event>)
      requires OutboxReads(added)
      ensures |added| == 4
    {
    }

    method StartPull() returns (since: nat)
      requires Follows() && Till().phase == PushDone
      modifies this`ss, this`es
      ensures Follows() && es == old(es) + [ReadCursor(d)] && old(ss) <= ss
      ensures since == store.cursor && Till().phase == ReadyToPull(since)
    {
      since := store.cursor;
      Took(ReadCursor(d), ReadyToPull(since), Till().lost);
    }

    method Request(since: nat, fate: Fate) returns (r: Option<Reply>)
      requires Follows() && Till().phase == ReadyToPull(since)
      modifies this`ss, this`es
      ensures Follows() && old(ss) <= ss
      ensures r.Some? <==> fate == Delivered
      ensures es == old(es) + [if r.Some? then Event.Pull(d, r.value) else Abort(d)]
      ensures match r
              case None => Till().phase == Idle
              case Some(reply) => Till().phase == HasReply(since, reply) && reply.cursor == cloud.state.last
    {
      hide Safe, IsPull;
      r := cloud.Pull(since, fate);
      if r.None? {
        Took(Abort(d), Idle, Till().lost);
      } else {
        Took(Event.Pull(d, r.value), HasReply(since, r.value), Till().lost);
      }
    }

    /** Asks for what changed past the cursor. */
    method Fetch(fate: Fate) returns (r: Option<Reply>)
      requires Follows() && Till().phase == PushDone
      modifies this`ss, this`es
      ensures Follows() && old(ss) <= ss
      ensures r.Some? <==> fate == Delivered
      ensures es == old(es) + [ReadCursor(d), if r.Some? then Event.Pull(d, r.value) else Abort(d)]
      ensures match r
              case None => Till().phase == Idle
              case Some(reply) => Till().phase == HasReply(store.cursor, reply) && reply.cursor == cloud.state.last
    {
      hide Follows;
      var since := StartPull();
      r := Request(since, fate);
    }

    method Merge(reply: Reply)
      requires Follows() && Till().phase.HasReply? && Till().phase.reply == reply
      modifies this`ss, this`es, store
      ensures Follows() && es == old(es) + [Apply(d)] && old(ss) <= ss
      ensures Till().phase == Merged(reply.cursor)
    {
      ReplyIdsAreClean();
      ghost var before := store.State();
      store.ApplyPulled(reply.batch);
      Took(Apply(d), Merged(reply.cursor), Till().lost - Replaced(before, store.State()));
    }

    method Advance(to: nat)
      requires Follows() && Till().phase == Merged(to)
      modifies this`ss, this`es, store
      ensures Follows() && es == old(es) + [Finish(d)] && old(ss) <= ss
      ensures Till().phase == Idle && store.cursor == to && Drained(store.State())
    {
      store.SetCursor(to);
      Took(Finish(d), Idle, Till().lost);
    }

    /** The events of a pull: the cursor read and the request, then the merge, and only then the cursor's advance. */
    ghost predicate PullEvents(added: seq<Event>, ok: bool)
    {
      && |added| == (if ok then 4 else 2)
      && added[0] == ReadCursor(d)
      && (ok ==> added[1].Pull? && added[1].d == d && added[2] == Apply(d) && added[3] == Finish(d))
      && (!ok ==> added[1] == Abort(d))
    }

    /** Fetches what changed past the cursor, merges it, and advances the cursor. */
    method Pull(fate: Fate) returns (ok: bool)
      requires Follows() && Till().phase == PushDone
      modifies this`ss, this`es, store
      ensures Follows() && old(es) < es && old(ss) <= ss
      ensures Till().phase == Idle && (ok <==> fate == Delivered)
      ensures PullEvents(es[|old(es)|..], ok) && (ok ==> es[|es| - 1] == Finish(d))
      ensures ok ==> Drained(store.State()) && store.cursor == cloud.state.last
      ensures !ok ==> store.State() == old(store.State())
    {
      hide Follows;
      var r := Fetch(fate);
      ok := r.Some?;
      if ok {
        Merge(r.value);
        Advance(r.value.cursor);
      }
    }

    /** Stamps the outcome for the screen. */
    method RecordResult(now: Time, message: string)
      requires Follows() && Till().phase == Idle
      modifies this`ss, this`es, store
      ensures Follows() && es == old(es) + [Record(d, now, message)] && old(ss) <= ss
      ensures Till().phase == Idle
      ensures store.State() == old(store.State()).(lastSync := Some(now), lastError := message)
    {
      store.SetSyncResult(now, message);
      Took(Record(d, now, message), Idle, Till().lost);
    }

    method Start()
      requires Follows() && Till().phase == Idle && store.link.Some?
      modifies this`ss, this`es
      ensures Follows() && es == old(es) + [Begin(d)] && old(ss) <= ss
      ensures Till().phase == Reading(0, NOTHING)
    {
      Took(Begin(d), Reading(0, NOTHING), Till().lost);
    }

    lemma LevelWithCloud()
      requires Follows() && store.cursor == cloud.state.last
      ensures UpTo(store.State(), cloud.state, cloud.state.last)
      ensures KeepsCatalogue(ss[0]) ==> ProductsReflected(store.products, cloud.state.products, cloud.state.last)
    {
      var s := ss[|ss| - 1];
      assert Till() in s.devices && DeviceOk(Till(), s.cloud, s.madeSales, s.madeEvents);
      assert KeepsCatalogue(s) ==> CatalogueOk(Till(), s.cloud);
    }

    /** Every sale in a reply carries an id some till minted. */
    lemma ReplyIdsAreClean()
      requires Follows() && Till().phase.HasReply?
      ensures forall sale <- Till().phase.reply.batch.sales :: NulFree(sale.id)
    {
      hide Held, Inv, LogOk, HistoryOk, ReplyOk, CloudGenuine;
      var s := ss[|ss| - 1];
      var phase := Till().phase;
      assert Till() in s.devices && DeviceOk(Till(), s.cloud, s.madeSales, s.madeEvents);
      RepliedSalesAreGenuine(s, phase.reply.batch.sales, phase.since, phase.reply.cursor);
    }

    /**
     * One push-then-pull cycle. Whatever the network does, the engine only ever
     * takes protocol steps; a cycle that reports success has emptied the outbox
     * and brought the till level with the cloud.
     */
    method SyncOnce(pushFate: Fate, pullFate: Fate, now: Time) returns (ok: bool)
      requires Follows() && Till().phase == Idle
      modifies this`ss, this`es, store, cloud
      ensures Follows() && Till().phase == Idle && old(es) <= es && old(ss) <= ss
      ensures old(store.link).None? ==> ok && es == old(es) && store.State() == old(store.State()) && cloud.state == old(cloud.state)
      ensures old(store.link).Some? ==> es[|old(es)|..] != [] && es[|old(es)|] == Begin(d) && (store.lastError == "" <==> ok)
      ensures old(store.link).Some? && ok ==>
                && |es| >= |old(es)| + 3 && es[|es| - 2] == Finish(d)
                && Drained(store.State())
                && store.cursor == cloud.state.last
                && UpTo(store.State(), cloud.state, cloud.state.last)
                && (KeepsCatalogue(ss[0]) ==> ProductsReflected(store.products, cloud.state.products, cloud.state.last))
      ensures pushFate == Delivered && pullFate == Delivered ==> ok
    {
      hide Follows, UpTo, Steps, Safe, PushEvents, PullEvents, KeepsCatalogue, ProductsReflected;
      if store.link.None? {
        return true;
      }
      Start();
      ok := this.Push(pushFate);
      if ok {
        ok := this.Pull(pullFate);
      }
      RecordResult(now, if ok then "" else "sync failed");
      if ok { LevelWithCloud(); }
    }
  }

  /** The catalogue invariant of a shop whose clocks have moved forward so far. */
  ghost predicate KeepsCatalogue(s: Shop) {
    Known(s) && Tidy(s)
  }

  lemma SyncKeepsCatalogue(s: Shop, e: Event, s': Shop)
    requires Safe(s) && !e.Local? && Step(s, e, s')
    ensures KeepsCatalogue(s) ==> KeepsCatalogue(s')
  {
    hide Safe, Known, Tidy, Step;
    if KeepsCatalogue(s) {
      StepKeepsKnown(s, e, s');
      SyncKeepsTidy(s, e, s');
    }
  }

  lemma EmptyOutboxListsNothing<T>(out: seq<T>, rows: map<Id, T>, marks: set<Id>)
    requires Lists(out, rows, marks) && marks <= rows.Keys
    ensures out == [] <==> marks == {}
  {
    assert rows.Keys * marks == marks;
  }

  lemma StepsExtend(ss: seq<Shop>, es: seq<Event>, e: Event, s': Shop)
    requires Steps(ss, es) && Step(ss[|ss| - 1], e, s')
    ensures Steps(ss + [s'], es + [e])
  {
    hide Step;
  }
}
