/** What holds in every state of every run, stated till by till. */
module Guarantees {
  import opened StoreInvariants
  import opened Protocol
  import opened Merge
  import opened LogSafety
  import opened Catalogue
  import Races

  /** No cloud sale or stock event numbered at or below a till's cursor is missing from that till. */
  lemma CursorSafety(ss: seq<Shop>, es: seq<Event>, i: nat, d: nat)
    requires Trace(ss, es) && i < |ss| && d < |ss[i].devices|
    ensures var st, c := ss[i].devices[d].store, ss[i].cloud;
            && st.cursor <= c.last
            && (forall id <- c.sales :: c.sales[id].seqNo <= st.cursor ==> id in st.sales && st.sales[id] == c.sales[id].value)
            && (forall id <- c.stockEvents :: c.stockEvents[id].seqNo <= st.cursor ==>
                  id in st.stockEvents && st.stockEvents[id] == c.stockEvents[id].value)
  {
    TraceIsSafe(ss, es, i);
    var s := ss[i];
    assert s.devices[d] in s.devices && DeviceOk(s.devices[d], s.cloud, s.madeSales, s.madeEvents);
  }

  /** Nor is a cloud product, at least as new, when stamps move forward. */
  lemma ProductCursorSafety(ss: seq<Shop>, es: seq<Event>, i: nat, d: nat)
    requires DisciplinedTrace(ss, es) && i < |ss| && d < |ss[i].devices|
    ensures var st, c := ss[i].devices[d].store, ss[i].cloud;
            forall id <- c.products :: c.products[id].seqNo <= st.cursor ==>
              && id in st.products
              && c.products[id].value.updatedAt <= st.products[id].updatedAt
              && (c.products[id].value.updatedAt == st.products[id].updatedAt ==> st.products[id] == c.products[id].value)
  {
    TraceIsSafe(ss, es, i);
    TraceIsTidy(ss, es, i);
    var s := ss[i];
    var dev := s.devices[d];
    assert dev in s.devices && CatalogueOk(dev, s.cloud) && KnownOn(dev, s.versions);
    assert DeviceOk(dev, s.cloud, s.madeSales, s.madeEvents);
    assert forall id <- dev.store.products :: dev.store.products[id] in s.versions;
  }

  /** Every sale and stock event on a till is waiting to be pushed there or is in the cloud, unaltered. */
  lemma OutboxCoverage(ss: seq<Shop>, es: seq<Event>, i: nat, d: nat)
    requires Trace(ss, es) && i < |ss| && d < |ss[i].devices|
    ensures var st, c := ss[i].devices[d].store, ss[i].cloud;
            && (forall id <- st.sales :: id in st.pendingSales || (id in c.sales && c.sales[id].value == st.sales[id]))
            && (forall id <- st.stockEvents ::
                  id in st.pendingStock || (id in c.stockEvents && c.stockEvents[id].value == st.stockEvents[id]))
  {
    TraceIsSafe(ss, es, i);
    var s := ss[i];
    assert s.devices[d] in s.devices && DeviceOk(s.devices[d], s.cloud, s.madeSales, s.madeEvents);
  }

  /**
   * So is every product's current version, seed items aside, in runs where no
   * edit slips between the outbox read and the clear of the same product.
   */
  lemma ProductCoverage(ss: seq<Shop>, es: seq<Event>, i: nat, d: nat)
    requires DisciplinedTrace(ss, es) && Races.UnracedTrace(ss, es) && i < |ss| && d < |ss[i].devices|
    ensures var dev, c := ss[i].devices[d], ss[i].cloud;
            forall id <- dev.store.products ::
              id in dev.store.pendingProds || id in dev.seeds || InCloud(dev.store.products[id], c.products)
  {
    TraceIsTidy(ss, es, i);
    Races.NoRaceNoLoss(ss, es, i);
    assert ss[i].devices[d] in ss[i].devices && CatalogueOk(ss[i].devices[d], ss[i].cloud);
  }

  /**
   * A step drops a sale or stock-event mark exactly when it is the clear of a
   * cycle that pushed that very row, and the cloud then has the row.
   */
  lemma MarksFallOnlyByClearing(ss: seq<Shop>, es: seq<Event>, i: nat, d: nat)
    requires Trace(ss, es) && i < |es| && d < |ss[i].devices|
    ensures d < |ss[i + 1].devices|
    ensures var dev, after, c := ss[i].devices[d], ss[i + 1].devices[d].store, ss[i].cloud;
            && (forall id <- dev.store.pendingSales :: id !in after.pendingSales ==> id in c.sales)
            && (forall id <- dev.store.pendingStock :: id !in after.pendingStock ==> id in c.stockEvents)
            && (forall id <- dev.store.pendingSales ::
                  id !in after.pendingSales <==> es[i] == Clear(d) && id in SaleIds(dev.phase.payload.sales))
            && (forall id <- dev.store.pendingStock ::
                  id !in after.pendingStock <==> es[i] == Clear(d) && id in EventIds(dev.phase.payload.stockEvents))
  {
    hide Inv, Held, HistoryOk;
    TraceIsSafe(ss, es, i);
    var s, e, s' := ss[i], es[i], ss[i + 1];
    assert Step(s, e, s');
    assert s.devices[d] in s.devices && DeviceOk(s.devices[d], s.cloud, s.madeSales, s.madeEvents);
    if e.d == d {
      if e.Local? { RunAppends(s, s.devices[d].store, e.op); }
      if e.Apply? { PullNeverEchoes(s.devices[d].store, s.devices[d].phase.reply.batch); }
    }
  }

  /** The indexes of every till are sound in every reachable state, pulls and tombstone edits included. */
  lemma IndexesStaySound(ss: seq<Shop>, es: seq<Event>, i: nat, d: nat)
    requires Trace(ss, es) && i < |ss| && d < |ss[i].devices|
    ensures var st := ss[i].devices[d].store;
            && RefIndexExact(st)
            && forall code <- st.barcodeIdx ::
                 st.barcodeIdx[code] in st.products && st.products[st.barcodeIdx[code]].barcode == code
  {
    TraceIsSafe(ss, es, i);
    var s := ss[i];
    assert s.devices[d] in s.devices && DeviceOk(s.devices[d], s.cloud, s.madeSales, s.madeEvents);
  }
}
