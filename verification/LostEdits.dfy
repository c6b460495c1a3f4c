/**
 * An edit that lost its mark stays where it was made: the cloud never holds that
 * version, nor does any other till, until the product is written again.
 */
module LostEdits {
  import opened Prelude
  import opened Records
  import opened StoreModel
  import opened StoreInvariants
  import opened CloudModel
  import opened Merge
  import opened Protocol
  import opened LogSafety
  import opened Catalogue
  import opened Races

  /** The products a till's cycle has in flight, either way. */
  function InFlight(phase: Phase): seq<Product> {
    if phase.HasReply? then phase.reply.batch.products else Carried(phase)
  }

  ghost predicate CloudHolds(c: Cloud, v: Product) {
    v.id in c.products && c.products[v.id].value == v
  }

  /** The version is in a batch of the till's, in flight or adrift. */
  ghost predicate Sending(dev: Device, v: Product) {
    v in InFlight(dev.phase) || exists b <- dev.adrift :: v in b.products
  }

  ghost predicate HasCopy(dev: Device, v: Product) {
    (v.id in dev.store.products && dev.store.products[v.id] == v) || Sending(dev, v)
  }

  /** The products whose stored version no push has carried. */
  ghost function Unsent(dev: Device): set<Id> {
    dev.lost + EditedSince(dev.store, Carried(dev.phase))
  }

  /** Nobody but till d holds the version, and d only in its store. */
  ghost predicate Private(s: Shop, d: nat, v: Product)
    requires d < |s.devices|
  {
    && !CloudHolds(s.cloud, v)
    && !Sending(s.devices[d], v)
    && forall j | 0 <= j < |s.devices| && j != d :: !HasCopy(s.devices[j], v)
  }

  ghost predicate UnsentIsPrivate(s: Shop, d: nat)
    requires d < |s.devices|
  {
    var dev := s.devices[d];
    && dev.lost !! dev.store.pendingProds
    && forall id <- Unsent(dev) :: id in dev.store.products && Private(s, d, dev.store.products[id])
  }

  ghost predicate AllPrivate(s: Shop) {
    forall d | 0 <= d < |s.devices| :: UnsentIsPrivate(s, d)
  }

  // ---- Sync steps make no new copies of a private version ----

  lemma MergedRows(st: StoreState, b: Batch)
    requires Keyed(st)
    ensures var r := ApplyPulled(st, b);
            && r.pendingProds == st.pendingProds
            && (forall id <- st.products :: id in r.products)
            && (forall id <- r.products :: r.products[id].id == id)
            && forall id <- r.products :: (id in st.products && r.products[id] == st.products[id]) || r.products[id] in b.products
  {
    hide ApplyPulled;
    ApplyPulledRows(st, b);
    PullNeverEchoes(st, b);
  }

  lemma PushedCopies(c: Cloud, b: Batch, v: Product)
    requires !CloudHolds(c, v) && v !in b.products
    ensures !CloudHolds(ApplyPush(c, b), v)
  {
    hide ApplyPush;
    ApplyPushEffect(c, b);
  }

  /** A till without a copy gets none from a cloud without one, and gives it none. */
  lemma SyncMakesNoCopy(dev: Device, c: Cloud, e: Event, dev': Device, c': Cloud, v: Product)
    requires !e.Local? && SyncStep(dev, c, e, dev', c') && Keyed(dev.store)
    requires forall id <- c.products :: c.products[id].value.id == id
    requires !HasCopy(dev, v) && !CloudHolds(c, v)
    ensures !HasCopy(dev', v) && !CloudHolds(c', v)
  {
    hide ApplyPush, ApplyPulled, AfterClear, Keyed, Lists;
    if e.ReadProducts? { ListedRows(dev.store, e.products); }
    if e.Push? { PushedCopies(c, dev.phase.payload, v); }
    if e.Late? { PushedCopies(c, e.payload, v); }
    if e.Apply? { MergedRows(dev.store, dev.phase.reply.batch); }
    if e.Clear? { ClearKeepsProducts(dev.store, dev.phase.payload); }
  }

  /** The till's unsent versions are in its store, in no batch of its own, and not in the cloud. */
  ghost predicate KeptBack(dev: Device, c: Cloud) {
    && dev.lost !! dev.store.pendingProds
    && forall id <- Unsent(dev) ::
         id in dev.store.products && !Sending(dev, dev.store.products[id]) && !CloudHolds(c, dev.store.products[id])
  }

  /** What is unsent after a till's own step was unsent before, in the same version. */
  ghost predicate NothingNewUnsent(dev: Device, dev': Device) {
    forall id <- Unsent(dev') ::
      && id in Unsent(dev) && id in dev.store.products && id in dev'.store.products
      && dev'.store.products[id] == dev.store.products[id]
  }

  lemma ReadKeepsBack(dev: Device, c: Cloud, e: Event, dev': Device)
    requires e.ReadProducts? && SyncStep(dev, c, e, dev', c) && Keyed(dev.store) && KeptBack(dev, c)
    ensures KeptBack(dev', c) && NothingNewUnsent(dev, dev')
  {
    hide Lists, CloudHolds;
    ListedRows(dev.store, e.products);
  }

  lemma PushKeepsBack(dev: Device, c: Cloud, e: Event, dev': Device, c': Cloud)
    requires e.Push? && SyncStep(dev, c, e, dev', c') && KeptBack(dev, c)
    ensures KeptBack(dev', c') && NothingNewUnsent(dev, dev')
  {
    hide ApplyPush, CloudHolds;
    forall v | !CloudHolds(c, v) && v !in dev.phase.payload.products ensures !CloudHolds(c', v) {
      PushedCopies(c, dev.phase.payload, v);
    }
  }

  lemma LateKeepsBack(dev: Device, c: Cloud, e: Event, dev': Device, c': Cloud)
    requires e.Late? && SyncStep(dev, c, e, dev', c') && KeptBack(dev, c)
    ensures KeptBack(dev', c') && NothingNewUnsent(dev, dev')
  {
    hide ApplyPush, CloudHolds;
    forall v | !CloudHolds(c, v) && v !in e.payload.products ensures !CloudHolds(c', v) {
      PushedCopies(c, e.payload, v);
    }
  }

  lemma PullKeepsBack(dev: Device, c: Cloud, e: Event, dev': Device)
    requires e.Pull? && SyncStep(dev, c, e, dev', c) && KeptBack(dev, c)
    requires forall id <- c.products :: c.products[id].value.id == id
    ensures KeptBack(dev', c) && NothingNewUnsent(dev, dev')
  {
    forall v | v in e.reply.batch.products ensures CloudHolds(c, v) {
      var id :| id in c.products && c.products[id].seqNo > dev.phase.since && c.products[id].value == v;
    }
  }

  lemma ApplyKeepsBack(dev: Device, c: Cloud, e: Event, dev': Device)
    requires e.Apply? && SyncStep(dev, c, e, dev', c) && Keyed(dev.store) && KeptBack(dev, c)
    ensures KeptBack(dev', c) && NothingNewUnsent(dev, dev')
  {
    hide ApplyPulled, CloudHolds;
    MergedRows(dev.store, dev.phase.reply.batch);
  }

  lemma OtherStepKeepsBack(dev: Device, c: Cloud, e: Event, dev': Device)
    requires !e.Local? && !e.ReadProducts? && !e.Push? && !e.Late? && !e.Pull? && !e.Apply? && SyncStep(dev, c, e, dev', c)
    requires KeptBack(dev, c)
    ensures KeptBack(dev', c) && NothingNewUnsent(dev, dev')
  {
    hide Lists, CloudHolds, AfterClear;
    if e.Clear? { ClearKeepsProducts(dev.store, dev.phase.payload); }
  }

  lemma OwnSyncKeepsBack(dev: Device, c: Cloud, e: Event, dev': Device, c': Cloud)
    requires !e.Local? && SyncStep(dev, c, e, dev', c') && Keyed(dev.store) && KeptBack(dev, c)
    requires forall id <- c.products :: c.products[id].value.id == id
    ensures KeptBack(dev', c') && NothingNewUnsent(dev, dev')
  {
    hide SyncStep, KeptBack, NothingNewUnsent, Keyed;
    OnlyPushTouchesCloud(dev, c, e, dev', c');
    if e.ReadProducts? {
      ReadKeepsBack(dev, c, e, dev');
    } else if e.Push? {
      PushKeepsBack(dev, c, e, dev', c');
    } else if e.Late? {
      LateKeepsBack(dev, c, e, dev', c');
    } else if e.Pull? {
      PullKeepsBack(dev, c, e, dev');
    } else if e.Apply? {
      ApplyKeepsBack(dev, c, e, dev');
    } else {
      OtherStepKeepsBack(dev, c, e, dev');
    }
  }

  // ---- Local writes make only new versions ----

  lemma LocalCopies(s: Shop, e: Event)
    requires Safe(s) && Known(s) && e.Local? && e.d < |s.devices| && FreshInShop(s, e.op) && Disciplined(s, e)
    ensures var st, r := s.devices[e.d].store, AfterLocal(s.devices[e.d], e.op).store;
            forall id <- r.products :: (id in st.products && r.products[id] == st.products[id]) || r.products[id] !in s.versions
    ensures forall id <- s.devices[e.d].store.products :: id in AfterLocal(s.devices[e.d], e.op).store.products
  {
    var dev := s.devices[e.d];
    TillFacts(s, e.d);
    assert dev in s.devices && KnownOn(dev, s.versions);
    FreshOnDevice(s, dev, e.op);
    RunProducts(dev.store, e.op);
  }

  lemma EverythingIsKnown(s: Shop, v: Product, j: nat)
    requires Known(s) && v !in s.versions && j < |s.devices|
    ensures !CloudHolds(s.cloud, v) && !HasCopy(s.devices[j], v)
  {
    assert s.devices[j] in s.devices && KnownOn(s.devices[j], s.versions);
    var dev := s.devices[j];
    assert forall id <- dev.store.products :: dev.store.products[id] in s.versions;
  }

  lemma OwnLocalKeepsPrivate(s: Shop, e: Event, s': Shop)
    requires Safe(s) && Known(s) && e.Local? && Step(s, e, s') && Disciplined(s, e) && UnsentIsPrivate(s, e.d)
    ensures UnsentIsPrivate(s', e.d)
  {
    hide Safe, Known, Run, FreshInShop, Disciplined, CloudHolds, HasCopy;
    var dev, dev' := s.devices[e.d], s'.devices[e.d];
    LocalCopies(s, e);
    forall id | id in Unsent(dev')
      ensures id in dev'.store.products && Private(s', e.d, dev'.store.products[id])
    {
      OwnLocalKeepsOne(s, e, s', id);
    }
  }

  lemma OwnLocalKeepsOne(s: Shop, e: Event, s': Shop, id: Id)
    requires Safe(s) && Known(s) && e.Local? && Step(s, e, s') && Disciplined(s, e) && UnsentIsPrivate(s, e.d)
    requires id in Unsent(s'.devices[e.d])
    ensures id in s'.devices[e.d].store.products && Private(s', e.d, s'.devices[e.d].store.products[id])
  {
    hide Safe, Known, Run, FreshInShop, Disciplined, CloudHolds, HasCopy;
    var dev, dev' := s.devices[e.d], s'.devices[e.d];
    LocalCopies(s, e);
    assert dev.phase == dev'.phase && dev'.lost <= dev.lost;
    var v := dev'.store.products[id];
    if id in dev.store.products && v == dev.store.products[id] {
      assert id in Unsent(dev);
    } else {
      forall j | 0 <= j < |s.devices| ensures !CloudHolds(s.cloud, v) && !HasCopy(s.devices[j], v) {
        EverythingIsKnown(s, v, j);
      }
      NoCopySent(dev, v);
    }
  }

  lemma NoCopySent(dev: Device, v: Product)
    requires !HasCopy(dev, v)
    ensures !Sending(dev, v)
  {
  }

  // ---- Other tills' steps ----

  lemma OthersStepKeepsPrivate(s: Shop, e: Event, s': Shop, d: nat)
    requires Safe(s) && Known(s) && Tidy(s) && Step(s, e, s') && Disciplined(s, e) && d < |s.devices| && d != e.d
    requires UnsentIsPrivate(s, d)
    ensures d < |s'.devices| && UnsentIsPrivate(s', d)
  {
    hide Safe, Known, Tidy, SyncStep, AfterLocal, Disciplined, CloudHolds, HasCopy, Unsent;
    var dev := s.devices[d];
    forall id | id in Unsent(dev) ensures Private(s', d, dev.store.products[id]) {
      MoverMakesNoCopy(s, e, s', d, dev.store.products[id]);
    }
  }

  lemma MoverMakesNoCopy(s: Shop, e: Event, s': Shop, d: nat, v: Product)
    requires Safe(s) && Known(s) && Tidy(s) && Step(s, e, s') && Disciplined(s, e) && d < |s.devices| && d != e.d
    requires !CloudHolds(s.cloud, v) && !HasCopy(s.devices[e.d], v)
    requires v in s.devices[d].store.products.Values
    ensures !CloudHolds(s'.cloud, v) && !HasCopy(s'.devices[e.d], v)
  {
    hide Safe, SyncStep, Disciplined, FreshInShop;
    TillFacts(s, e.d);
    assert s.devices[d] in s.devices && KnownOn(s.devices[d], s.versions);
    if e.Local? {
      LocalCopies(s, e);
    } else {
      SyncMakesNoCopy(s.devices[e.d], s.cloud, e, s'.devices[e.d], s'.cloud, v);
    }
  }

  lemma OwnStepKeepsPrivate(s: Shop, e: Event, s': Shop)
    requires Safe(s) && Known(s) && Tidy(s) && Step(s, e, s') && Disciplined(s, e) && UnsentIsPrivate(s, e.d)
    ensures UnsentIsPrivate(s', e.d)
  {
    hide Safe, Known, SyncStep, AfterLocal, Disciplined, CloudHolds, HasCopy, Unsent;
    if e.Local? {
      OwnLocalKeepsPrivate(s, e, s');
    } else {
      TillFacts(s, e.d);
      OwnSyncKeepsBack(s.devices[e.d], s.cloud, e, s'.devices[e.d], s'.cloud);
    }
  }

  /** In every disciplined run, what no push has carried is on its own till alone. */
  lemma {:induction false} TraceKeepsPrivate(ss: seq<Shop>, es: seq<Event>, i: nat)
    requires DisciplinedTrace(ss, es) && i < |ss|
    ensures AllPrivate(ss[i])
  {
    hide Safe, Known, Tidy, Step, Disciplined, UnsentIsPrivate;
    if i == 0 {
      StartsPrivate(ss[0]);
    } else {
      TraceKeepsPrivate(ss, es, i - 1);
      TraceIsSafe(ss, es, i - 1);
      TraceIsTidy(ss, es, i - 1);
      DisciplinedStep(ss, es, i - 1);
      StepKeepsPrivate(ss[i - 1], es[i - 1], ss[i]);
    }
  }

  lemma StepKeepsPrivate(s: Shop, e: Event, s': Shop)
    requires Safe(s) && Known(s) && Tidy(s) && Step(s, e, s') && Disciplined(s, e) && AllPrivate(s)
    ensures AllPrivate(s')
  {
    hide Safe, Known, Tidy, Disciplined, UnsentIsPrivate, SyncStep, AfterLocal;
    forall d | 0 <= d < |s'.devices| ensures UnsentIsPrivate(s', d) {
      if d == e.d {
        OwnStepKeepsPrivate(s, e, s');
      } else {
        OthersStepKeepsPrivate(s, e, s', d);
      }
    }
  }

  lemma StartsPrivate(s: Shop)
    requires Init(s)
    ensures AllPrivate(s)
  {
    forall d | 0 <= d < |s.devices| ensures UnsentIsPrivate(s, d) {
      assert s.devices[d] in s.devices;
    }
  }

  lemma LostIsPrivate(s: Shop, d: nat, id: Id)
    requires AllPrivate(s) && Safe(s) && d < |s.devices| && id in s.devices[d].lost
    ensures id in s.devices[d].store.products && !CloudHolds(s.cloud, s.devices[d].store.products[id])
    ensures id in s.cloud.products ==> s.cloud.products[id].value != s.devices[d].store.products[id]
  {
    hide Safe;
    TillFacts(s, d);
    assert UnsentIsPrivate(s, d) && id in Unsent(s.devices[d]);
  }

  /**
   * What clearing a pushed product means: the till's version is in the cloud, or
   * a later one is, if and only if the till did not edit the product since it was
   * read or another till has overtaken the edit. The edited version itself never
   * is there, and is recorded as lost.
   */
  lemma ClearIsSafeIffUneditedOrOvertaken(ss: seq<Shop>, es: seq<Event>, i: nat, p: Product)
    requires DisciplinedTrace(ss, es) && i < |es| && es[i].Clear?
    requires es[i].d < |ss[i].devices| && ss[i].devices[es[i].d].phase.Accepted?
    requires p in ss[i].devices[es[i].d].phase.payload.products
    ensures es[i].d < |ss[i + 1].devices|
    ensures var before, after, c := ss[i].devices[es[i].d], ss[i + 1].devices[es[i].d], ss[i + 1].cloud;
            && p.id in before.store.products && p.id in after.store.products && p.id !in after.store.pendingProds
            && p.id in c.products
            && (InCloud(after.store.products[p.id], c.products)
                <==> before.store.products[p.id] == p
                     || before.store.products[p.id].updatedAt < c.products[p.id].value.updatedAt)
            && (before.store.products[p.id] != p ==>
                  !CloudHolds(c, after.store.products[p.id]) && p.id in after.lost)
  {
    hide Safe, Disciplined, Unsent, CloudHolds, OneVersionPerInstant;
    var d := es[i].d;
    var s, dev := ss[i], ss[i].devices[d];
    TraceIsSafe(ss, es, i);
    TraceIsTidy(ss, es, i);
    TraceKeepsPrivate(ss, es, i);
    assert Step(s, es[i], ss[i + 1]);
    TillFacts(s, d);
    assert dev in s.devices && CatalogueOk(dev, s.cloud) && KnownOn(dev, s.versions);
    ClearKeepsProducts(dev.store, dev.phase.payload);
    assert p.id in ProductIds(dev.phase.payload.products);
    if dev.store.products[p.id] != p {
      EditedIsPrivate(s, d, p);
      StampsTell(s, dev.store.products[p.id]);
    }
  }

  lemma EditedIsPrivate(s: Shop, d: nat, p: Product)
    requires AllPrivate(s) && d < |s.devices| && p in Carried(s.devices[d].phase)
    requires p.id in s.devices[d].store.products && s.devices[d].store.products[p.id] != p
    ensures p.id in EditedSince(s.devices[d].store, Carried(s.devices[d].phase))
    ensures !CloudHolds(s.cloud, s.devices[d].store.products[p.id])
  {
    assert UnsentIsPrivate(s, d);
  }

  /** The cloud has no other version with a known version's stamp. */
  lemma StampsTell(s: Shop, v: Product)
    requires Known(s) && Tidy(s) && v in s.versions && !CloudHolds(s.cloud, v)
    ensures v.id in s.cloud.products ==> s.cloud.products[v.id].value.updatedAt != v.updatedAt
  {
    if v.id in s.cloud.products {
      assert s.cloud.products[v.id].value in s.versions;
    }
  }
}
