/**
 * The one hole in the outbox: ClearPushed drops a product's mark by id, so an
 * edit between the outbox read and the clear loses its mark.
 */
module Races {
  import opened Prelude
  import opened Records
  import opened StoreModel
  import opened StoreInvariants
  import opened CloudModel
  import opened Protocol
  import opened Merge
  import opened LogSafety

  /** The write does not edit a product the till has read for a push it has yet to clear. */
  ghost predicate Unraced(s: Shop, e: Event) {
    e.Local? && e.d < |s.devices| ==>
      var inFlight := ProductIds(Carried(s.devices[e.d].phase));
      match e.op
      case UpdateProduct(id, _, _, _) => id !in inFlight
      case DeleteProduct(id, _) => id !in inFlight
      case _ => true
  }

  /** Every product in flight is still the stored version. */
  ghost predicate PayloadCurrent(dev: Device) {
    forall p <- Carried(dev.phase) :: p.id in dev.store.products && dev.store.products[p.id] == p
  }

  ghost predicate NothingLost(s: Shop) {
    forall dev <- s.devices :: dev.lost == {} && PayloadCurrent(dev)
  }

  lemma RunChangesOnlyItsTarget(st: StoreState, op: LocalOp, p: Product)
    requires p.id in st.products && st.products[p.id] == p
    requires match op
             case AddProduct(_, _, newId, _, _) => newId != p.id
             case UpdateProduct(id, _, _, _) => id != p.id
             case DeleteProduct(id, _) => id != p.id
             case _ => true
    ensures p.id in Run(st, op).products && Run(st, op).products[p.id] == p
  {
    RunProducts(st, op);
  }

  lemma LocalKeepsPayloadCurrent(s: Shop, e: Event)
    requires Safe(s) && Known(s) && e.Local? && e.d < |s.devices| && Unraced(s, e) && FreshInShop(s, e.op)
    requires PayloadCurrent(s.devices[e.d])
    ensures PayloadCurrent(AfterLocal(s.devices[e.d], e.op))
  {
    var dev := s.devices[e.d];
    assert dev in s.devices && KnownOn(dev, s.versions) && DeviceOk(dev, s.cloud, s.madeSales, s.madeEvents);
    FreshOnDevice(s, dev, e.op);
    forall p | p in Carried(dev.phase)
      ensures p.id in Run(dev.store, e.op).products && Run(dev.store, e.op).products[p.id] == p
    {
      RunChangesOnlyItsTarget(dev.store, e.op, p);
    }
  }

  lemma ListedRows(st: StoreState, ps: seq<Product>)
    requires Keyed(st) && Lists(ps, st.products, st.pendingProds)
    ensures forall p <- ps :: p.id in st.pendingProds && p.id in st.products && st.products[p.id] == p
  {
    forall p | p in ps ensures p.id in st.pendingProds && p.id in st.products && st.products[p.id] == p {
      var id :| id in st.pendingProds && id in st.products && st.products[id] == p;
    }
  }

  lemma SyncLosesNothing(dev: Device, c: Cloud, e: Event, dev': Device, c': Cloud)
    requires !e.Local? && SyncStep(dev, c, e, dev', c') && Keyed(dev.store)
    requires dev.lost == {} && PayloadCurrent(dev)
    ensures dev'.lost == {} && PayloadCurrent(dev')
  {
    hide Lists, ApplyPulled, ApplyPush, IsPull, Keyed;
    if e.Clear? {
      ClearKeepsProducts(dev.store, dev.phase.payload);
      assert EditedSince(dev.store, dev.phase.payload.products) == {};
    }
    if e.ReadProducts? { ListedRows(dev.store, e.products); }
  }

  lemma ClearKeepsProducts(st: StoreState, b: Batch)
    ensures AfterClear(st, b).products == st.products && AfterClear(st, b).pendingProds == st.pendingProds - ProductIds(b.products)
  {
  }

  ghost predicate UnracedTrace(ss: seq<Shop>, es: seq<Event>) {
    Trace(ss, es) && forall i | 0 <= i < |es| :: Unraced(ss[i], es[i])
  }

  lemma OthersLoseNothing(s: Shop, s': Shop, d: nat, dev': Device)
    requires NothingLost(s) && d < |s.devices| && s'.devices == s.devices[d := dev']
    requires dev'.lost == {} && PayloadCurrent(dev')
    ensures NothingLost(s')
  {
    assert forall dv <- s'.devices :: dv == dev' || dv in s.devices;
  }

  lemma StepLosesNothing(s: Shop, e: Event, s': Shop)
    requires Safe(s) && Known(s) && NothingLost(s) && Step(s, e, s') && Unraced(s, e)
    ensures NothingLost(s')
  {
    hide Safe, Known, SyncStep, PayloadCurrent, Run, Keyed;
    var dev, dev' := s.devices[e.d], s'.devices[e.d];
    TillFacts(s, e.d);
    assert dev in s.devices;
    if e.Local? { LocalKeepsPayloadCurrent(s, e); } else { SyncLosesNothing(dev, s.cloud, e, dev', s'.cloud); }
    OthersLoseNothing(s, s', e.d, dev');
  }

  /** If no edit ever races a push of the same product, no mark is ever lost. */
  lemma {:induction false} NoRaceNoLoss(ss: seq<Shop>, es: seq<Event>, i: nat)
    requires UnracedTrace(ss, es) && i < |ss|
    ensures NothingLost(ss[i])
  {
    if i > 0 {
      NoRaceNoLoss(ss, es, i - 1);
      TraceIsSafe(ss, es, i - 1);
      assert Step(ss[i - 1], es[i - 1], ss[i]) && Unraced(ss[i - 1], es[i - 1]);
      StepLosesNothing(ss[i - 1], es[i - 1], ss[i]);
    }
  }

  /** Every edit made after the read and before the clear is stored but no longer listed for any push. */
  lemma RacedEditLosesItsMark(st: StoreState, id: Id, d: ProductDraft, eventId: Id, now: Time, payload: Batch, out: seq<Product>)
    requires Keyed(st) && UpdateError(st, id, d).None? && st.products[id].updatedAt < now
    requires st.products[id] in payload.products
    requires var r := AfterClear(AfterUpdate(st, id, d, eventId, now), payload);
             Lists(out, r.products, r.pendingProds)
    ensures var r := AfterClear(AfterUpdate(st, id, d, eventId, now), payload);
            r.products[id] == Edited(st.products[id], d, now) && r.products[id] != st.products[id] && r.products[id] !in out
  {
    var edited := AfterUpdate(st, id, d, eventId, now);
    assert edited.products == st.products[id := Edited(st.products[id], d, now)];
    assert id in ProductIds(payload.products);
  }

  /** The write makes a new version of the product. */
  predicate Writes(op: LocalOp, id: Id) {
    match op
    case AddProduct(_, _, newId, _, _) => newId == id
    case UpdateProduct(target, _, _, _) => target == id
    case DeleteProduct(target, _) => target == id
    case _ => false
  }

  lemma OnlyWritesMark(st: StoreState, op: LocalOp, id: Id)
    requires !Writes(op, id)
    ensures id in Run(st, op).pendingProds ==> id in st.pendingProds
  {
    hide Run;
    RunPending(st, op);
  }

  /** Till d writes no new version of the product among events [i, j). */
  ghost predicate Unwritten(es: seq<Event>, d: nat, id: Id, i: nat, j: nat) {
    forall k | i <= k < j && k < |es| && es[k].Local? && es[k].d == d :: !Writes(es[k].op, id)
  }

  /** An unmarked product stays unmarked until its till writes it. */
  lemma {:induction false} UnmarkedStays(ss: seq<Shop>, es: seq<Event>, d: nat, id: Id, i: nat, j: nat)
    requires Trace(ss, es) && i <= j < |ss| && d < |ss[i].devices| && id !in ss[i].devices[d].store.pendingProds
    requires Unwritten(es, d, id, i, j)
    ensures d < |ss[j].devices| && id !in ss[j].devices[d].store.pendingProds
    decreases j
  {
    hide SyncStep, Run;
    if i < j {
      UnmarkedStays(ss, es, d, id, i, j - 1);
      var e := es[j - 1];
      assert Step(ss[j - 1], e, ss[j]);
      if e.d == d {
        if e.Local? {
          OnlyWritesMark(ss[j - 1].devices[d].store, e.op, id);
        } else {
          SyncMarksNothing(ss[j - 1].devices[d], ss[j - 1].cloud, e, ss[j].devices[d], ss[j].cloud);
        }
      }
    }
  }

  lemma SyncMarksNothing(dev: Device, c: Cloud, e: Event, dev': Device, c': Cloud)
    requires !e.Local? && SyncStep(dev, c, e, dev', c')
    ensures dev'.store.pendingProds <= dev.store.pendingProds
  {
    hide ApplyPulled;
    if e.Apply? { PullNeverEchoes(dev.store, dev.phase.reply.batch); }
  }

  /**
   * An edit that a clear overtook, cleared at event i, is in no later outbox read
   * of its till until that till writes the product again.
   */
  lemma RacedEditIsNeverListed(ss: seq<Shop>, es: seq<Event>, d: nat, i: nat, j: nat, p: Product)
    requires Trace(ss, es) && i < j < |es| && es[i] == Clear(d) && es[j].ReadProducts? && es[j].d == d
    requires d < |ss[i].devices| && ss[i].devices[d].phase.Accepted? && p in ss[i].devices[d].phase.payload.products
    requires Unwritten(es, d, p.id, i, j)
    ensures forall q <- es[j].products :: q.id != p.id
  {
    assert Step(ss[i], es[i], ss[i + 1]) && Step(ss[j], es[j], ss[j + 1]);
    assert p.id in ProductIds(ss[i].devices[d].phase.payload.products);
    UnmarkedStays(ss, es, d, p.id, i + 1, j);
    TraceIsSafe(ss, es, j);
    TillFacts(ss[j], d);
    var st := ss[j].devices[d].store;
    forall q | q in es[j].products ensures q.id != p.id {
      var id :| id in st.pendingProds && id in st.products && st.products[id] == q;
    }
  }
}
