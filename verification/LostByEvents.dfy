/** When an edit is lost, told from the events of the run alone. */
module LostByEvents {
  import opened Prelude
  import opened Records
  import opened StoreModel
  import opened StoreInvariants
  import opened CloudModel
  import opened Merge
  import opened Protocol
  import opened LogSafety
  import opened Catalogue
  import opened Races
  import opened LostEdits
  import opened Convergence

  /** Own steps that may come between a cycle's product read and its clear. */
  predicate WithinPush(e: Event) {
    e.Local? || e.ReadSales? || e.ReadStockEvents? || e.ReadSettings? || e.Push? || e.Late? || e.Record?
  }

  /** From its product read r up to event k, till d is in one push. */
  ghost predicate OnePush(es: seq<Event>, d: nat, r: nat, k: nat) {
    && r < k <= |es| && es[r].ReadProducts? && es[r].d == d
    && forall j | r < j < k && es[j].d == d :: WithinPush(es[j])
  }

  ghost predicate Stored(ss: seq<Shop>, d: nat, id: Id, k: nat) {
    k < |ss| && d < |ss[k].devices| && id in ss[k].devices[d].store.products
  }

  /** Till d's version of the product in state k. */
  ghost function Version(ss: seq<Shop>, d: nat, id: Id, k: nat): Product
    requires Stored(ss, d, id, k)
  {
    ss[k].devices[d].store.products[id]
  }

  /** Event w is a write of till d that makes another version of the product. */
  ghost predicate Rewrites(ss: seq<Shop>, es: seq<Event>, d: nat, id: Id, w: nat) {
    && w < |es| && es[w].Local? && es[w].d == d
    && Stored(ss, d, id, w) && Stored(ss, d, id, w + 1) && Version(ss, d, id, w) != Version(ss, d, id, w + 1)
  }

  /** The push that read the product at r and cleared its mark at i was overtaken by a write in between. */
  ghost predicate Overtaken(ss: seq<Shop>, es: seq<Event>, d: nat, id: Id, r: nat, i: nat) {
    && i < |es| && OnePush(es, d, r, i) && es[i] == Clear(d)
    && (exists p <- es[r].products :: p.id == id)
    && exists w | r < w < i :: Rewrites(ss, es, d, id, w)
  }

  /** Till d keeps one version of the product from state i to state k. */
  ghost predicate Unmoved(ss: seq<Shop>, d: nat, id: Id, i: nat, k: nat) {
    && Stored(ss, d, id, i)
    && forall j | i <= j <= k :: Stored(ss, d, id, j) && Version(ss, d, id, j) == Version(ss, d, id, i)
  }

  // ---- Which read a push carries ----

  lemma OwnStepWithinPush(dev: Device, c: Cloud, e: Event, dev': Device, c': Cloud)
    requires if e.Local? then dev' == AfterLocal(dev, e.op) else SyncStep(dev, c, e, dev', c')
    requires Carried(dev'.phase) != []
    ensures if e.ReadProducts? then Carried(dev'.phase) == e.products
            else WithinPush(e) && Carried(dev.phase) == Carried(dev'.phase)
  {
    hide Run, ApplyPush, ApplyPulled, AfterClear, Lists;
  }

  lemma {:induction false} CarriedWasRead(ss: seq<Shop>, es: seq<Event>, d: nat, k: nat) returns (r: nat)
    requires Trace(ss, es) && k < |ss| && d < |ss[k].devices| && Carried(ss[k].devices[d].phase) != []
    ensures OnePush(es, d, r, k) && es[r].products == Carried(ss[k].devices[d].phase)
  {
    hide SyncStep, AfterLocal, Carried;
    r := 0;
    if k == 0 {
      NothingCarriedAtFirst(ss[0], d);
    } else {
      var e := es[k - 1];
      assert Step(ss[k - 1], e, ss[k]);
      if e.d == d { OwnStepWithinPush(ss[k - 1].devices[d], ss[k - 1].cloud, e, ss[k].devices[d], ss[k].cloud); }
      if e.d == d && e.ReadProducts? {
        r := k - 1;
      } else {
        r := CarriedWasRead(ss, es, d, k - 1);
      }
    }
  }

  lemma NothingCarriedAtFirst(s: Shop, d: nat)
    requires Init(s) && d < |s.devices|
    ensures Carried(s.devices[d].phase) == []
  {
    assert s.devices[d] in s.devices;
  }

  lemma ReadWasStored(ss: seq<Shop>, es: seq<Event>, d: nat, r: nat, p: Product)
    requires Trace(ss, es) && r < |es| && es[r].ReadProducts? && es[r].d == d && p in es[r].products
    ensures Stored(ss, d, p.id, r) && Version(ss, d, p.id, r) == p
    ensures Stored(ss, d, p.id, r + 1) && Version(ss, d, p.id, r + 1) == p
  {
    TraceIsSafe(ss, es, r);
    assert Step(ss[r], es[r], ss[r + 1]);
    TillFacts(ss[r], d);
    ListedRows(ss[r].devices[d].store, es[r].products);
  }

  // ---- Versions only move forward ----

  lemma OwnStepKeepsOrRenews(s: Shop, e: Event, s': Shop, id: Id)
    requires Safe(s) && Known(s) && Step(s, e, s') && Disciplined(s, e)
    requires e.d < |s.devices| && id in s.devices[e.d].store.products
    ensures e.d < |s'.devices| && id in s'.devices[e.d].store.products
    ensures s.devices[e.d].store.products[id].updatedAt <= s'.devices[e.d].store.products[id].updatedAt
    ensures s'.devices[e.d].store.products[id] != s.devices[e.d].store.products[id] ==> e.Local? || e.Apply?
  {
    hide Safe, Known, FreshInShop, Run, ApplyPulled, ApplyPush, AfterClear, Lists;
    TillFacts(s, e.d);
    var dev := s.devices[e.d];
    if e.Local? {
      FreshTillIds(s, e);
      RunWritesProducts(s, e);
    } else if e.Apply? {
      ApplyPulledRows(dev.store, dev.phase.reply.batch);
    } else if e.Clear? {
      ClearKeepsProducts(dev.store, dev.phase.payload);
    }
  }

  lemma FreshTillIds(s: Shop, e: Event)
    requires Safe(s) && Known(s) && e.Local? && e.d < |s.devices| && FreshInShop(s, e.op)
    ensures e.op.AddProduct? ==> e.op.newId !in s.devices[e.d].store.products
  {
    TillFacts(s, e.d);
    assert s.devices[e.d] in s.devices && KnownOn(s.devices[e.d], s.versions);
    FreshOnDevice(s, s.devices[e.d], e.op);
  }

  /** Another version is a later one. */
  lemma StepMovesForward(ss: seq<Shop>, es: seq<Event>, d: nat, id: Id, k: nat)
    requires DisciplinedTrace(ss, es) && k < |es| && Stored(ss, d, id, k)
    ensures Stored(ss, d, id, k + 1)
    ensures Version(ss, d, id, k).updatedAt <= Version(ss, d, id, k + 1).updatedAt
    ensures Version(ss, d, id, k) != Version(ss, d, id, k + 1) ==>
              && Version(ss, d, id, k).updatedAt < Version(ss, d, id, k + 1).updatedAt
              && es[k].d == d && (es[k].Local? || es[k].Apply?)
  {
    hide Safe, Known, Disciplined, SyncStep, AfterLocal, OneVersionPerInstant;
    TraceIsSafe(ss, es, k);
    TraceIsSafe(ss, es, k + 1);
    TraceIsTidy(ss, es, k + 1);
    DisciplinedStep(ss, es, k);
    if es[k].d == d {
      OwnStepKeepsOrRenews(ss[k], es[k], ss[k + 1], id);
      StampsTellApart(ss[k], es[k], ss[k + 1], d, id);
    }
  }

  lemma StampsTellApart(s: Shop, e: Event, s': Shop, d: nat, id: Id)
    requires Known(s) && Known(s') && Tidy(s') && Step(s, e, s') && Safe(s) && Safe(s')
    requires d < |s.devices| && d < |s'.devices| && id in s.devices[d].store.products && id in s'.devices[d].store.products
    ensures s.devices[d].store.products[id].updatedAt == s'.devices[d].store.products[id].updatedAt
            ==> s.devices[d].store.products[id] == s'.devices[d].store.products[id]
  {
    hide Safe, SyncStep, AfterLocal;
    TillFacts(s, d);
    TillFacts(s', d);
    assert s.devices[d] in s.devices && KnownOn(s.devices[d], s.versions);
    assert s'.devices[d] in s'.devices && KnownOn(s'.devices[d], s'.versions);
    assert s.devices[d].store.products[id] in s.devices[d].store.products.Values;
    assert s'.devices[d].store.products[id] in s'.devices[d].store.products.Values;
    assert s.versions <= s'.versions;
  }

  /** From a to b the version moves forward, and does move if any step between moved it. */
  lemma {:induction false} MovesForward(ss: seq<Shop>, es: seq<Event>, d: nat, id: Id, a: nat, b: nat)
    requires DisciplinedTrace(ss, es) && a <= b < |ss| && Stored(ss, d, id, a)
    ensures Stored(ss, d, id, b) && Version(ss, d, id, a).updatedAt <= Version(ss, d, id, b).updatedAt
    ensures forall w | a <= w < b && Rewrites(ss, es, d, id, w) ::
              Version(ss, d, id, a).updatedAt < Version(ss, d, id, b).updatedAt
  {
    hide DisciplinedTrace, Stored, Version;
    assert |ss| == |es| + 1 by { TraceLength(ss, es); }
    if a < b {
      MovesForward(ss, es, d, id, a, b - 1);
      StepMovesForward(ss, es, d, id, b - 1);
    }
  }

  lemma TraceLength(ss: seq<Shop>, es: seq<Event>)
    requires DisciplinedTrace(ss, es)
    ensures |ss| == |es| + 1
  {
  }

  /** Within a push only a write of the till's own changes its version. */
  lemma {:induction false} FindRewrite(ss: seq<Shop>, es: seq<Event>, d: nat, id: Id, r: nat, k: nat) returns (w: nat)
    requires DisciplinedTrace(ss, es) && OnePush(es, d, r, k) && Stored(ss, d, id, r + 1) && Stored(ss, d, id, k)
    requires Version(ss, d, id, r + 1) != Version(ss, d, id, k)
    ensures r < w < k && Rewrites(ss, es, d, id, w)
  {
    hide DisciplinedTrace, Stored, Version;
    TraceLength(ss, es);
    MovesForward(ss, es, d, id, r + 1, k - 1);
    StepMovesForward(ss, es, d, id, k - 1);
    if Version(ss, d, id, k - 1) != Version(ss, d, id, k) {
      w := k - 1;
    } else {
      w := FindRewrite(ss, es, d, id, r, k - 1);
    }
  }

  // ---- How an id enters and leaves the lost ones ----

  lemma OwnStepLoses(s: Shop, e: Event, s': Shop, id: Id)
    requires Safe(s) && Known(s) && Step(s, e, s') && Disciplined(s, e) && UnsentIsPrivate(s, e.d)
    requires e.d < |s'.devices|
    ensures var dev, dev' := s.devices[e.d], s'.devices[e.d];
            id in dev'.lost
            <==> || (e.Clear? && id in EditedSince(dev.store, Carried(dev.phase)))
                 || (id in dev.lost && id in dev.store.products && id in dev'.store.products
                     && dev'.store.products[id] == dev.store.products[id])
  {
    hide Safe, Known, SyncStep, AfterLocal, Private, Disciplined, EditedSince;
    var dev, dev' := s.devices[e.d], s'.devices[e.d];
    TillFacts(s, e.d);
    assert id in dev.lost ==> id in Unsent(dev);
    if e.Local? {
      LocalLoses(s, e, id);
    } else {
      SyncLoses(dev, s.cloud, e, dev', s'.cloud, id);
    }
  }

  lemma LocalLoses(s: Shop, e: Event, id: Id)
    requires Safe(s) && Known(s) && e.Local? && e.d < |s.devices| && FreshInShop(s, e.op) && Disciplined(s, e)
    requires id in s.devices[e.d].lost ==> id in s.devices[e.d].store.products && id !in s.devices[e.d].store.pendingProds
    ensures var dev, dev' := s.devices[e.d], AfterLocal(s.devices[e.d], e.op);
            id in dev'.lost <==> id in dev.lost && id in dev'.store.products && dev'.store.products[id] == dev.store.products[id]
  {
    hide Run, Safe, Known;
    var st := s.devices[e.d].store;
    FreshTillIds(s, e);
    RunProducts(st, e.op);
    RunPending(st, e.op);
  }

  lemma SyncLoses(dev: Device, c: Cloud, e: Event, dev': Device, c': Cloud, id: Id)
    requires !e.Local? && SyncStep(dev, c, e, dev', c')
    requires id in dev.lost ==> id in dev.store.products
    requires e.Apply? ==> Keyed(dev.store)
    ensures id in dev'.lost
            <==> || (e.Clear? && id in EditedSince(dev.store, Carried(dev.phase)))
                 || (id in dev.lost && id in dev.store.products && id in dev'.store.products
                     && dev'.store.products[id] == dev.store.products[id])
  {
    hide ApplyPush, ApplyPulled, AfterClear, Lists, IsPull;
    if e.Apply? { ApplyPulledRows(dev.store, dev.phase.reply.batch); }
    if e.Clear? { ClearKeepsProducts(dev.store, dev.phase.payload); }
  }

  /** One step of the run: how an id is lost, or stays so. */
  lemma StepLoses(ss: seq<Shop>, es: seq<Event>, d: nat, id: Id, k: nat)
    requires DisciplinedTrace(ss, es) && k < |es| && d < |ss[k].devices|
    ensures d < |ss[k + 1].devices|
    ensures id in ss[k + 1].devices[d].lost
            <==> || (es[k] == Clear(d) && id in EditedSince(ss[k].devices[d].store, Carried(ss[k].devices[d].phase)))
                 || (id in ss[k].devices[d].lost && Stored(ss, d, id, k) && Stored(ss, d, id, k + 1)
                     && Version(ss, d, id, k + 1) == Version(ss, d, id, k))
  {
    hide Safe, Known, Disciplined, SyncStep, AfterLocal, EditedSince, Carried, Tidy, Unsent;
    TraceIsSafe(ss, es, k);
    TraceKeepsPrivate(ss, es, k);
    DisciplinedStep(ss, es, k);
    assert UnsentIsPrivate(ss[k], d);
    if es[k].d == d {
      OwnStepLoses(ss[k], es[k], ss[k + 1], id);
    } else if id in ss[k].devices[d].lost {
      LostIsPrivate(ss[k], d, id);
    }
  }

  lemma EditedMeansOvertaken(ss: seq<Shop>, es: seq<Event>, d: nat, id: Id, i: nat) returns (r: nat)
    requires DisciplinedTrace(ss, es) && i < |es| && es[i] == Clear(d) && d < |ss[i].devices|
    requires id in EditedSince(ss[i].devices[d].store, Carried(ss[i].devices[d].phase))
    ensures r < i && Overtaken(ss, es, d, id, r, i)
  {
    hide DisciplinedTrace, Rewrites;
    assert Trace(ss, es) && |ss| == |es| + 1 by { TraceLength(ss, es); TraceOf(ss, es); }
    r := CarriedWasRead(ss, es, d, i);
    var p :| p in Carried(ss[i].devices[d].phase) && p.id == id && id in ss[i].devices[d].store.products
             && ss[i].devices[d].store.products[id] != p;
    ReadWasStored(ss, es, d, r, p);
    var w := FindRewrite(ss, es, d, id, r, i);
  }

  lemma TraceOf(ss: seq<Shop>, es: seq<Event>)
    requires DisciplinedTrace(ss, es)
    ensures Trace(ss, es)
  {
  }

  lemma OvertakenMeansEdited(ss: seq<Shop>, es: seq<Event>, d: nat, id: Id, r: nat, i: nat)
    requires DisciplinedTrace(ss, es) && Overtaken(ss, es, d, id, r, i)
    ensures d < |ss[i].devices|
    ensures id in EditedSince(ss[i].devices[d].store, Carried(ss[i].devices[d].phase))
  {
    hide DisciplinedTrace, Rewrites;
    assert Trace(ss, es) && |ss| == |es| + 1 by { TraceLength(ss, es); TraceOf(ss, es); }
    var p :| p in es[r].products && p.id == id;
    ReadWasStored(ss, es, d, r, p);
    var w :| r < w < i && Rewrites(ss, es, d, id, w);
    MovesForward(ss, es, d, id, r, i);
    ClearCarriesItsRead(ss, es, d, r, i);
  }

  /** The push that ends at i carries what was read at r. */
  lemma ClearCarriesItsRead(ss: seq<Shop>, es: seq<Event>, d: nat, r: nat, i: nat)
    requires Trace(ss, es) && i < |es| && OnePush(es, d, r, i) && es[i] == Clear(d) && es[r].products != []
    ensures d < |ss[i].devices| && Carried(ss[i].devices[d].phase) == es[r].products
  {
    hide AfterLocal, Lists;
    CarriesOn(ss, es, d, r, i);
    assert Step(ss[i], es[i], ss[i + 1]);
  }

  /** Within a push a till carries what it read, or has given up for lack of a reply. */
  lemma {:induction false} CarriesOn(ss: seq<Shop>, es: seq<Event>, d: nat, r: nat, k: nat)
    requires Trace(ss, es) && k <= |es| && OnePush(es, d, r, k)
    ensures d < |ss[k].devices|
    ensures ss[k].devices[d].phase == Idle || Carried(ss[k].devices[d].phase) == es[r].products
    decreases k
  {
    hide SyncStep, AfterLocal;
    var e := es[k - 1];
    assert Step(ss[k - 1], e, ss[k]);
    if k - 1 > r { CarriesOn(ss, es, d, r, k - 1); }
    if e.d == d { OwnStepCarriesOn(ss[k - 1].devices[d], ss[k - 1].cloud, e, ss[k].devices[d], ss[k].cloud); }
  }

  lemma OwnStepCarriesOn(dev: Device, c: Cloud, e: Event, dev': Device, c': Cloud)
    requires if e.Local? then dev' == AfterLocal(dev, e.op) else SyncStep(dev, c, e, dev', c')
    requires WithinPush(e) || e.ReadProducts?
    ensures e.ReadProducts? ==> Carried(dev'.phase) == e.products
    ensures WithinPush(e) ==> dev'.phase == Idle || Carried(dev'.phase) == Carried(dev.phase)
    ensures WithinPush(e) && dev.phase == Idle ==> dev'.phase == Idle
  {
    hide Run, ApplyPush, ApplyPulled, AfterClear, Lists;
  }

  lemma {:induction false} LostWasOvertaken(ss: seq<Shop>, es: seq<Event>, d: nat, id: Id, k: nat) returns (r: nat, i: nat)
    requires DisciplinedTrace(ss, es) && k < |ss| && d < |ss[k].devices| && id in ss[k].devices[d].lost
    ensures r < i < k && Overtaken(ss, es, d, id, r, i) && Unmoved(ss, d, id, i, k)
  {
    hide DisciplinedTrace, Overtaken, EditedSince;
    r, i := 0, 0;
    assert |ss| == |es| + 1 by { TraceLength(ss, es); }
    if k == 0 {
      NothingLostAtFirst(ss, es, d);
    } else {
      SameTill(ss, es, d, k - 1);
      StepLoses(ss, es, d, id, k - 1);
      if es[k - 1] == Clear(d) && id in EditedSince(ss[k - 1].devices[d].store, Carried(ss[k - 1].devices[d].phase)) {
        i := k - 1;
        r := EditedMeansOvertaken(ss, es, d, id, i);
        assert Stored(ss, d, id, i) by { EditedIsStored(ss[i].devices[d].store, Carried(ss[i].devices[d].phase), id); }
        StepMovesForward(ss, es, d, id, i);
      } else {
        r, i := LostWasOvertaken(ss, es, d, id, k - 1);
      }
    }
  }

  lemma EditedIsStored(st: StoreState, ps: seq<Product>, id: Id)
    requires id in EditedSince(st, ps)
    ensures id in st.products
  {
  }

  lemma NothingLostAtFirst(ss: seq<Shop>, es: seq<Event>, d: nat)
    requires DisciplinedTrace(ss, es) && d < |ss[0].devices|
    ensures ss[0].devices[d].lost == {}
  {
    assert ss[0].devices[d] in ss[0].devices;
  }

  lemma SameTill(ss: seq<Shop>, es: seq<Event>, d: nat, k: nat)
    requires DisciplinedTrace(ss, es) && k < |es| && d < |ss[k + 1].devices|
    ensures d < |ss[k].devices|
  {
    assert Step(ss[k], es[k], ss[k + 1]);
  }

  lemma {:induction false} OvertakenStaysLost(ss: seq<Shop>, es: seq<Event>, d: nat, id: Id, r: nat, i: nat, k: nat)
    requires DisciplinedTrace(ss, es) && r < i < k < |ss| && Overtaken(ss, es, d, id, r, i) && Unmoved(ss, d, id, i, k)
    ensures d < |ss[k].devices| && id in ss[k].devices[d].lost
    decreases k
  {
    hide DisciplinedTrace, Overtaken, EditedSince, Version;
    assert |ss| == |es| + 1 by { TraceLength(ss, es); }
    assert Stored(ss, d, id, k - 1) && Stored(ss, d, id, k);
    StepLoses(ss, es, d, id, k - 1);
    if k - 1 > i {
      OvertakenStaysLost(ss, es, d, id, r, i, k - 1);
    } else {
      OvertakenMeansEdited(ss, es, d, id, r, i);
      assert es[i] == Clear(d) by { OvertakenEndsInClear(ss, es, d, id, r, i); }
    }
  }

  lemma OvertakenEndsInClear(ss: seq<Shop>, es: seq<Event>, d: nat, id: Id, r: nat, i: nat)
    requires Overtaken(ss, es, d, id, r, i)
    ensures es[i] == Clear(d)
  {
  }

  /** A push of the product was overtaken by a write of its till, which has not been written or merged over since. */
  ghost predicate StandsOvertaken(ss: seq<Shop>, es: seq<Event>, d: nat, id: Id, k: nat) {
    exists r, i | 0 <= r < i < k :: Overtaken(ss, es, d, id, r, i) && Unmoved(ss, d, id, i, k)
  }

  /**
   * A product is lost on a till exactly when the till wrote it between a push's
   * read of it and that push's clear, and has neither written it again since nor
   * merged another version over it.
   */
  lemma LostIffOvertaken(ss: seq<Shop>, es: seq<Event>, d: nat, id: Id, k: nat)
    requires DisciplinedTrace(ss, es) && k < |ss| && d < |ss[k].devices|
    ensures id in ss[k].devices[d].lost <==> StandsOvertaken(ss, es, d, id, k)
  {
    hide DisciplinedTrace, Overtaken, Unmoved;
    if id in ss[k].devices[d].lost {
      var r, i := LostWasOvertaken(ss, es, d, id, k);
    }
    if StandsOvertaken(ss, es, d, id, k) {
      var r, i :| 0 <= r < i < k && Overtaken(ss, es, d, id, r, i) && Unmoved(ss, d, id, i, k);
      OvertakenStaysLost(ss, es, d, id, r, i, k);
    }
  }

  /** So after the last round a till has the cloud's version of a product exactly when no overtaken push of it still stands. */
  lemma ProductsConvergeIffNotOvertaken(ss: seq<Shop>, es: seq<Event>, a: nat, b: nat, d: nat, id: Id)
    requires TwoRounds(ss, es, a, b, d) && DisciplinedTrace(ss, es)
    requires id in ss[|es|].cloud.products
    ensures var t := ss[|es|];
            && d < |t.devices| && id in t.devices[d].store.products
            && (t.devices[d].store.products[id] == t.cloud.products[id].value <==> !StandsOvertaken(ss, es, d, id, |es|))
  {
    hide Step, StandsOvertaken, Disciplined;
    ProductsConverge(ss, es, a, b, d, id);
    LostIffOvertaken(ss, es, d, id, |es|);
  }
}
