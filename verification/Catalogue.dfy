/**
 * Products over whole runs in which an edit is stamped later than the row it
 * replaces and no two versions of a product share a stamp.
 */
module Catalogue {
  import opened Prelude
  import opened Records
  import opened StoreModel
  import opened StoreInvariants
  import opened CloudModel
  import opened Protocol
  import opened Merge
  import opened LogSafety

  /** A new version of a stored product carries a later, unused stamp. */
  ghost predicate Disciplined(s: Shop, e: Event) {
    e.Local? && e.d < |s.devices| ==>
      var products := s.devices[e.d].store.products;
      match e.op
      case UpdateProduct(id, _, _, now) => id in products ==> FreshStamp(s, products[id], now)
      case DeleteProduct(id, now) => id in products ==> FreshStamp(s, products[id], now)
      case _ => true
  }

  ghost predicate FreshStamp(s: Shop, p: Product, now: Time) {
    p.updatedAt < now && forall v <- s.versions :: v.id == p.id ==> v.updatedAt != now
  }

  /** Every cloud product numbered up to `upTo` is held locally, at least as new. */
  ghost predicate ProductsReflected(local: map<Id, Product>, cloud: map<Id, Row<Product>>, upTo: nat) {
    forall id <- cloud :: cloud[id].seqNo <= upTo ==> id in local && cloud[id].value.updatedAt <= local[id].updatedAt
  }

  /** The cloud holds this version or a later one. */
  ghost predicate InCloud(p: Product, cloud: map<Id, Row<Product>>) {
    p.id in cloud && p.updatedAt <= cloud[p.id].value.updatedAt
  }

  /** Every product is marked, in the cloud, a seed item, or had its mark cleared over an unpushed edit. */
  ghost predicate ProductsCovered(dev: Device, cloud: map<Id, Row<Product>>) {
    forall id <- dev.store.products ::
      id in dev.store.pendingProds || id in dev.seeds || id in dev.lost || InCloud(dev.store.products[id], cloud)
  }

  /** The products of a payload are versions the till has stored, none of them a seed item. */
  ghost predicate ProductsCarried(ps: seq<Product>, dev: Device) {
    forall p <- ps ::
      p.id in dev.store.products && p.updatedAt <= dev.store.products[p.id].updatedAt && p.id !in dev.seeds
  }

  ghost predicate ProductReplyOk(ps: seq<Product>, cloud: map<Id, Row<Product>>, since: nat, cursor: nat) {
    && (forall p <- ps :: InCloud(p, cloud))
    && (forall id <- cloud :: since < cloud[id].seqNo <= cursor ==> cloud[id].value in ps)
  }

  ghost predicate ProductPhaseOk(dev: Device, c: Cloud) {
    var local := dev.store.products;
    match dev.phase
    case Idle => true
    case Reading(_, b) => ProductsCarried(b.products, dev)
    case ReadyToPush(b) => ProductsCarried(b.products, dev)
    case Accepted(b) => ProductsCarried(b.products, dev) && forall p <- b.products :: InCloud(p, c.products)
    case PushDone => true
    case ReadyToPull(since) => since <= c.last && ProductsReflected(local, c.products, since)
    case HasReply(since, r) =>
      && since <= r.cursor <= c.last
      && ProductsReflected(local, c.products, since)
      && ProductReplyOk(r.batch.products, c.products, since, r.cursor)
    case Merged(n) => n <= c.last && ProductsReflected(local, c.products, n)
  }

  ghost predicate CatalogueOk(dev: Device, c: Cloud) {
    && dev.store.cursor <= c.last
    && ProductsReflected(dev.store.products, c.products, dev.store.cursor)
    && ProductsCovered(dev, c.products)
    && dev.seeds !! c.products.Keys
    && dev.seeds !! dev.store.pendingProds
    && dev.seeds <= dev.store.products.Keys
    && ProductPhaseOk(dev, c)
    && (forall p <- Carried(dev.phase) :: p.id in dev.store.pendingProds)
    && AdriftOk(dev, c)
  }

  /**
   * What is adrift is old: the till has stored it, no cycle carries an older
   * version, and the product is still marked or the cloud has as new a version.
   */
  ghost predicate AdriftOk(dev: Device, c: Cloud) {
    forall b <- dev.adrift ::
      && ProductsCarried(b.products, dev)
      && (forall p <- b.products, q <- Carried(dev.phase) :: p.id == q.id ==> p.updatedAt <= q.updatedAt)
      && (forall p <- b.products :: p.id in dev.store.pendingProds || InCloud(p, c.products))
  }

  /** A seed item exists only on the till that made it. */
  ghost predicate SeedsPrivate(s: Shop) {
    forall i, j | 0 <= i < |s.devices| && 0 <= j < |s.devices| && i != j ::
      s.devices[i].seeds !! s.devices[j].store.products.Keys
  }

  ghost predicate Tidy(s: Shop) {
    && OneVersionPerInstant(s.versions)
    && (forall id <- s.cloud.products :: s.cloud.products[id].value.id == id && s.cloud.products[id].seqNo <= s.cloud.last)
    && SeedsPrivate(s)
    && forall dev <- s.devices :: CatalogueOk(dev, s.cloud)
  }

  // ---- Frames ----

  lemma CatalogueOkGrows(dev: Device, c: Cloud, c': Cloud)
    requires CatalogueOk(dev, c) && Grows(c, c') && dev.seeds !! c'.products.Keys
    ensures CatalogueOk(dev, c')
  {
    hide AdriftOk;
    AdriftMoves(dev, c, dev, c');
  }

  /** The cloud's products are only replaced by later versions. */
  ghost predicate Later(a: map<Id, Row<Product>>, b: map<Id, Row<Product>>) {
    forall id <- a :: id in b && a[id].value.updatedAt <= b[id].value.updatedAt
  }

  /** What is adrift stays old while the till and the cloud move forward and no mark falls. */
  lemma AdriftMoves(dev: Device, c: Cloud, dev': Device, c': Cloud)
    requires AdriftOk(dev, c) && dev'.adrift == dev.adrift && Later(c.products, c'.products)
    requires Carried(dev'.phase) == Carried(dev.phase) || Carried(dev'.phase) == []
    requires dev.store.pendingProds <= dev'.store.pendingProds
    requires forall id <- dev.store.products ::
               id in dev'.store.products && dev.store.products[id].updatedAt <= dev'.store.products[id].updatedAt
    requires forall id <- dev.store.products :: id in dev'.seeds ==> id in dev.seeds
    ensures AdriftOk(dev', c')
  {
    hide Carried;
  }

  lemma StaysTidy(s: Shop, s': Shop, d: nat, dev': Device)
    requires Tidy(s) && d < |s.devices| && s'.devices == s.devices[d := dev']
    requires Grows(s.cloud, s'.cloud)
    requires forall i | 0 <= i < |s.devices| && i != d :: s.devices[i].seeds !! s'.cloud.products.Keys
    requires OneVersionPerInstant(s'.versions) && SeedsPrivate(s') && CatalogueOk(dev', s'.cloud)
    requires forall id <- s'.cloud.products :: s'.cloud.products[id].value.id == id && s'.cloud.products[id].seqNo <= s'.cloud.last
    ensures Tidy(s')
  {
    forall i | 0 <= i < |s'.devices| ensures CatalogueOk(s'.devices[i], s'.cloud) {
      if i != d {
        assert s.devices[i] in s.devices;
        CatalogueOkGrows(s.devices[i], s.cloud, s'.cloud);
      }
    }
  }

  // ---- Local writes ----

  /** What a local write does to the products: rows only get newer, and a changed row is marked or a new seed. */
  ghost predicate ProductsWritten(st: StoreState, r: StoreState) {
    && (forall id <- st.products :: id in r.products && st.products[id].updatedAt <= r.products[id].updatedAt)
    && (forall id <- r.products :: id in r.pendingProds || id !in st.products || r.products[id] == st.products[id])
    && st.pendingProds <= r.pendingProds
    && r.cursor <= st.cursor
  }

  lemma RunWritesProducts(s: Shop, e: Event)
    requires e.Local? && e.d < |s.devices| && Disciplined(s, e)
    requires e.op.AddProduct? ==> e.op.newId !in s.devices[e.d].store.products
    ensures ProductsWritten(s.devices[e.d].store, Run(s.devices[e.d].store, e.op))
  {
    var st := s.devices[e.d].store;
    RunProducts(st, e.op);
    RunMarks(st, e.op);
  }

  /** A local write marks every product it touches but a seed, and unmarks none. */
  lemma RunMarks(st: StoreState, op: LocalOp)
    requires op.AddProduct? ==> op.newId !in st.products
    ensures st.pendingProds <= Run(st, op).pendingProds && Run(st, op).cursor <= st.cursor
    ensures forall id <- Run(st, op).products ::
              id in Run(st, op).pendingProds || id !in st.products || Run(st, op).products[id] == st.products[id]
  {
    hide Run;
    RunProducts(st, op);
    RunPending(st, op);
  }

  lemma LocalKeepsCatalogue(dev: Device, op: LocalOp, c: Cloud)
    requires CatalogueOk(dev, c) && ProductsWritten(dev.store, Run(dev.store, op)) && MarksAreStored(dev.store)
    requires forall id <- Run(dev.store, op).products :: id !in dev.store.products ==> id !in c.products
    ensures CatalogueOk(AfterLocal(dev, op), c)
  {
    hide AdriftOk, Run;
    var dev' := AfterLocal(dev, op);
    assert ProductsCovered(dev', c.products);
    AdriftMoves(dev, c, dev', c);
  }

  /** The only product id a write can introduce is the one it minted. */
  lemma RunAddsOnlyFreshIds(st: StoreState, op: LocalOp)
    ensures forall id <- Run(st, op).products :: id in st.products || (op.AddProduct? && id == op.newId)
  {
    RunProducts(st, op);
  }

  /** A changed row is the one version the write stamped. */
  lemma RunWritesOneVersion(s: Shop, e: Event, v: Product)
    requires e.Local? && e.d < |s.devices| && Disciplined(s, e) && FreshInShop(s, e.op) && Keyed(s.devices[e.d].store)
    requires s.devices[e.d].store.products.Values <= s.versions
    requires v in Run(s.devices[e.d].store, e.op).products.Values && v !in s.versions
    ensures forall w <- s.versions :: w.id == v.id ==> w.updatedAt != v.updatedAt
    ensures forall w <- Run(s.devices[e.d].store, e.op).products.Values :: w !in s.versions ==> w == v
  {
    RunProducts(s.devices[e.d].store, e.op);
  }

  lemma LocalKeepsVersionsUnique(s: Shop, e: Event, s': Shop)
    requires Safe(s) && Known(s) && OneVersionPerInstant(s.versions) && e.Local? && Step(s, e, s') && Disciplined(s, e)
    ensures OneVersionPerInstant(s'.versions)
  {
    assert s.devices[e.d] in s.devices && KnownOn(s.devices[e.d], s.versions);
    forall v, w | v in s'.versions && w in s'.versions && v.id == w.id && v.updatedAt == w.updatedAt ensures v == w {
      if v !in s.versions {
        RunWritesOneVersion(s, e, v);
      } else if w !in s.versions {
        RunWritesOneVersion(s, e, w);
      }
    }
  }

  /** Every copy is on record, so an id no version carries is on no till and not in the cloud. */
  lemma UnwrittenIdIsNowhere(s: Shop, id: Id)
    requires Safe(s) && Known(s) && forall v <- s.versions :: v.id != id
    requires forall j <- s.cloud.products :: s.cloud.products[j].value.id == j
    ensures id !in s.cloud.products
    ensures forall i | 0 <= i < |s.devices| :: id !in s.devices[i].store.products
  {
    assert forall j <- s.cloud.products :: s.cloud.products[j].value in s.versions;
    forall i | 0 <= i < |s.devices| ensures id !in s.devices[i].store.products {
      var dev := s.devices[i];
      assert dev in s.devices && KnownOn(dev, s.versions) && DeviceOk(dev, s.cloud, s.madeSales, s.madeEvents);
      assert forall j <- dev.store.products :: dev.store.products[j] in s.versions && dev.store.products[j].id == j;
    }
  }

  lemma LocalKeepsTidy(s: Shop, e: Event, s': Shop)
    requires Safe(s) && Known(s) && Tidy(s) && e.Local? && Step(s, e, s') && Disciplined(s, e)
    ensures Tidy(s')
  {
    hide Safe, DeviceOk, Inv, Keyed, CatalogueOk, SeedsPrivate, OneVersionPerInstant, Run, Grows, KnownOn;
    var dev, dev' := s.devices[e.d], s'.devices[e.d];
    TillFacts(s, e.d);
    assert dev in s.devices && CatalogueOk(dev, s.cloud) && KnownOn(dev, s.versions);
    FreshOnDevice(s, dev, e.op);
    FreshAdd(dev.store, e.op);
    RunWritesProducts(s, e);
    LocalAddsNewIds(s, e, s');
    LocalKeepsCatalogue(dev, e.op, s.cloud);
    LocalKeepsVersionsUnique(s, e, s');
    LocalKeepsSeedsPrivate(s, e, s');
    GrowsReflexively(s.cloud);
    StaysTidy(s, s', e.d, dev');
  }

  lemma FreshAdd(st: StoreState, op: LocalOp)
    requires FreshIds(st, op)
    ensures op.AddProduct? ==> op.newId !in st.products
  {
  }

  /** A product id that a write adds was nowhere before. */
  lemma LocalAddsNewIds(s: Shop, e: Event, s': Shop)
    requires Safe(s) && Known(s) && Tidy(s) && e.Local? && Step(s, e, s')
    ensures forall id <- s'.devices[e.d].store.products :: id !in s.devices[e.d].store.products ==>
              id !in s.cloud.products && forall i | 0 <= i < |s.devices| :: id !in s.devices[i].store.products
  {
    hide Safe, Known, CatalogueOk, SeedsPrivate, OneVersionPerInstant, Run;
    var st, st' := s.devices[e.d].store, s'.devices[e.d].store;
    RunAddsOnlyFreshIds(st, e.op);
    forall id | id in st'.products && id !in st.products
      ensures id !in s.cloud.products && forall i | 0 <= i < |s.devices| :: id !in s.devices[i].store.products
    {
      UnwrittenIdIsNowhere(s, id);
    }
  }

  lemma LocalKeepsSeedsPrivate(s: Shop, e: Event, s': Shop)
    requires Safe(s) && Known(s) && Tidy(s) && e.Local? && Step(s, e, s')
    ensures SeedsPrivate(s')
    ensures forall i | 0 <= i < |s.devices| && i != e.d :: s.devices[i].seeds !! s'.cloud.products.Keys
  {
    hide Safe, Known, OneVersionPerInstant, Run;
    LocalAddsNewIds(s, e, s');
    forall i, j | 0 <= i < |s'.devices| && 0 <= j < |s'.devices| && i != j
      ensures s'.devices[i].seeds !! s'.devices[j].store.products.Keys
    {
      assert s.devices[i] in s.devices && CatalogueOk(s.devices[i], s.cloud);
      assert s.devices[i].seeds !! s.devices[j].store.products.Keys;
    }
    forall i | 0 <= i < |s.devices| && i != e.d ensures s.devices[i].seeds !! s'.cloud.products.Keys {
      assert s.devices[i] in s.devices && CatalogueOk(s.devices[i], s.cloud);
    }
  }

  // ---- Sync steps ----

  lemma PushKeepsCatalogue(dev: Device, c: Cloud, e: Event, dev': Device, c': Cloud)
    requires CatalogueOk(dev, c) && e.Push? && SyncStep(dev, c, e, dev', c')
    ensures CatalogueOk(dev', c')
  {
    hide SyncStep, AdriftOk, ProductsReflected, ProductsCovered, ApplyPush;
    PushStepFacts(dev, c, e, dev', c');
    PushedStaysCatalogued(dev, c, dev.phase.payload);
    AdriftMoves(dev, c', dev', c');
    assert ProductsCovered(dev', c'.products) by { StillCovered(dev, dev', c'.products); }
  }

  /** A till's own batch brings the cloud only products it still has, none of them a seed item, and all of them at least as new. */
  lemma PushedStaysCatalogued(dev: Device, c: Cloud, b: Batch)
    requires CatalogueOk(dev, c) && ProductsCarried(b.products, dev)
    ensures CatalogueOk(dev, ApplyPush(c, b)) && forall p <- b.products :: InCloud(p, ApplyPush(c, b).products)
  {
    hide ApplyPush, AdriftOk, ProductsReflected, ProductsCovered, ProductPhaseOk;
    var c' := ApplyPush(c, b);
    ApplyPushEffect(c, b);
    forall id | id in c'.products ensures id !in dev.seeds {
      if id !in c.products {
        assert c'.products[id].value in b.products && ProductId(c'.products[id].value) == id;
      }
    }
    CatalogueOkGrows(dev, c, c');
  }

  /** A push that arrives late brings the cloud only products the till still has, none of them a seed item. */
  lemma LateKeepsCatalogue(dev: Device, c: Cloud, e: Event, dev': Device, c': Cloud)
    requires CatalogueOk(dev, c) && e.Late? && SyncStep(dev, c, e, dev', c')
    ensures CatalogueOk(dev', c')
  {
    hide CatalogueOk, ApplyPush;
    assert ProductsCarried(e.payload.products, dev) by { AdriftIsCarried(dev, c, e.payload); }
    PushedStaysCatalogued(dev, c, e.payload);
  }

  lemma AdriftIsCarried(dev: Device, c: Cloud, b: Batch)
    requires CatalogueOk(dev, c) && b in dev.adrift
    ensures ProductsCarried(b.products, dev)
  {
  }

  /** A cleared mark either belonged to the pushed version or is recorded as lost. */
  lemma ClearKeepsCatalogue(dev: Device, c: Cloud, e: Event, dev': Device)
    requires CatalogueOk(dev, c) && e.Clear? && SyncStep(dev, c, e, dev', c) && Keyed(dev.store)
    ensures CatalogueOk(dev', c)
  {
    hide ProductsReflected, ProductsCovered, AdriftOk, InCloud;
    ClearKeepsCovered(dev, c, e, dev');
    ClearKeepsAdrift(dev, c, e, dev');
  }

  lemma ClearKeepsCovered(dev: Device, c: Cloud, e: Event, dev': Device)
    requires CatalogueOk(dev, c) && e.Clear? && SyncStep(dev, c, e, dev', c) && Keyed(dev.store)
    ensures ProductsCovered(dev', c.products)
  {
    hide AdriftOk, ProductsReflected;
    var b := dev.phase.payload;
    forall id | id in dev'.store.products
      ensures id in dev'.store.pendingProds || id in dev'.seeds || id in dev'.lost || InCloud(dev'.store.products[id], c.products)
    {
      if id in ProductIds(b.products) {
        var p :| p in b.products && p.id == id;
        if dev.store.products[id] != p { assert id in EditedSince(dev.store, b.products); }
      }
    }
  }

  /** A mark that the clear takes off a product adrift was of a version as new, which the cloud accepted. */
  lemma ClearKeepsAdrift(dev: Device, c: Cloud, e: Event, dev': Device)
    requires CatalogueOk(dev, c) && e.Clear? && SyncStep(dev, c, e, dev', c)
    ensures AdriftOk(dev', c)
  {
    hide ProductsReflected, ProductsCovered;
    var b := dev.phase.payload;
    forall a, p | a in dev.adrift && p in a.products ensures p.id in dev'.store.pendingProds || InCloud(p, c.products) {
      if p.id in ProductIds(b.products) {
        var q :| q in b.products && q.id == p.id;
        assert q in Carried(dev.phase) && InCloud(q, c.products);
      }
    }
  }

  lemma PullKeepsCatalogue(dev: Device, c: Cloud, e: Event, dev': Device)
    requires CatalogueOk(dev, c) && e.Pull? && SyncStep(dev, c, e, dev', c)
    requires forall id <- c.products :: c.products[id].value.id == id
    ensures CatalogueOk(dev', c)
  {
  }

  /** Merging newest-wins keeps a till covered and brings it up to the reply's cursor. */
  lemma MergeKeepsProducts(dev: Device, c: Cloud, since: nat, upTo: nat, ps: seq<Product>, local': map<Id, Product>)
    requires ProductsReflected(dev.store.products, c.products, since)
    requires ProductReplyOk(ps, c.products, since, upTo)
    requires forall id <- c.products :: c.products[id].value.id == id
    requires IsNewest(dev.store.products, ps, local')
    ensures ProductsReflected(local', c.products, upTo)
    ensures forall n: nat :: ProductsReflected(dev.store.products, c.products, n) ==> ProductsReflected(local', c.products, n)
    ensures forall id <- local' ::
              (id in dev.store.products && local'[id] == dev.store.products[id]) || InCloud(local'[id], c.products)
    ensures forall id <- local' :: id in dev.store.products || id in c.products
    ensures forall id <- dev.store.products :: id in local' && dev.store.products[id].updatedAt <= local'[id].updatedAt
  {
  }

  /** A product that a merge leaves alone stays covered as it was, and one that it replaces is in the cloud. */
  lemma MergeKeepsCovered(dev: Device, dev': Device, cloud: map<Id, Row<Product>>)
    requires ProductsCovered(dev, cloud) && dev'.store.pendingProds == dev.store.pendingProds && dev'.seeds == dev.seeds
    requires dev'.lost == dev.lost - Replaced(dev.store, dev'.store)
    requires forall id <- dev'.store.products ::
               || (id in dev.store.products && dev'.store.products[id] == dev.store.products[id])
               || InCloud(dev'.store.products[id], cloud)
    ensures ProductsCovered(dev', cloud)
  {
  }

  lemma ApplyKeepsCatalogue(dev: Device, c: Cloud, e: Event, dev': Device)
    requires CatalogueOk(dev, c) && e.Apply? && SyncStep(dev, c, e, dev', c) && Keyed(dev.store)
    requires forall id <- c.products :: c.products[id].value.id == id
    ensures CatalogueOk(dev', c)
    ensures forall id <- dev'.store.products :: id in dev.store.products || id in c.products
  {
    hide ApplyPulled, Keyed, SyncStep, AdriftOk, IsNewest, ProductsReflected, ProductsCovered, ProductReplyOk, InCloud;
    ApplyStepFacts(dev, c, e, dev');
    var b := dev.phase.reply.batch;
    ApplyPulledRows(dev.store, b);
    PullNeverEchoes(dev.store, b);
    MergeKeepsProducts(dev, c, dev.phase.since, dev.phase.reply.cursor, b.products, dev'.store.products);
    AdriftMoves(dev, c, dev', c);
    MergeKeepsCovered(dev, dev', c.products);
  }

  lemma OtherStepKeepsCatalogue(dev: Device, c: Cloud, e: Event, dev': Device)
    requires CatalogueOk(dev, c) && Keyed(dev.store) && KeepsRows(dev, c, e, dev')
    ensures CatalogueOk(dev', c)
  {
    hide KeepsRows, Keyed, ProductPhaseOk, ProductsReflected, ProductsCovered, InCloud, AdriftOk;
    OtherStepKeepsProducts(dev, c, e, dev');
    OtherStepKeepsAdrift(dev, c, e, dev');
    OtherStepKeepsPhase(dev, c, e, dev');
    assert ProductsCovered(dev', c.products) by { StillCovered(dev, dev', c.products); }
  }

  lemma StillCovered(dev: Device, dev': Device, cloud: map<Id, Row<Product>>)
    requires ProductsCovered(dev, cloud) && dev'.store.products == dev.store.products
    requires dev'.store.pendingProds == dev.store.pendingProds && dev'.seeds == dev.seeds && dev'.lost == dev.lost
    ensures ProductsCovered(dev', cloud)
  {
  }

  lemma OtherStepKeepsProducts(dev: Device, c: Cloud, e: Event, dev': Device)
    requires KeepsRows(dev, c, e, dev')
    ensures dev'.store.products == dev.store.products && dev'.store.pendingProds == dev.store.pendingProds
    ensures dev'.seeds == dev.seeds && dev'.lost == dev.lost
  {
    hide Lists;
  }

  lemma OtherStepKeepsAdrift(dev: Device, c: Cloud, e: Event, dev': Device)
    requires CatalogueOk(dev, c) && Keyed(dev.store) && KeepsRows(dev, c, e, dev')
    ensures forall p <- Carried(dev'.phase) :: p.id in dev'.store.pendingProds
    ensures AdriftOk(dev', c)
  {
    hide Lists, Keyed, InCloud, ProductsReflected, ProductsCovered;
    if e.ReadProducts? { ListedAreCarried(dev, e.products); }
  }

  lemma OtherStepKeepsPhase(dev: Device, c: Cloud, e: Event, dev': Device)
    requires CatalogueOk(dev, c) && Keyed(dev.store) && KeepsRows(dev, c, e, dev')
    ensures dev'.store.cursor <= c.last && ProductsReflected(dev'.store.products, c.products, dev'.store.cursor)
    ensures ProductPhaseOk(dev', c)
  {
    hide Lists, Keyed, InCloud, ProductsReflected, ProductsCovered;
    if e.ReadProducts? { ListedAreCarried(dev, e.products); }
  }

  lemma ListedAreCarried(dev: Device, ps: seq<Product>)
    requires Lists(ps, dev.store.products, dev.store.pendingProds) && Keyed(dev.store) && dev.seeds !! dev.store.pendingProds
    ensures ProductsCarried(ps, dev)
    ensures forall p <- ps :: p.id in dev.store.pendingProds && p.id in dev.store.products && dev.store.products[p.id] == p
  {
    forall p | p in ps ensures p.id in dev.store.pendingProds && p.id in dev.store.products && dev.store.products[p.id] == p {
      var id :| id in dev.store.pendingProds && id in dev.store.products && dev.store.products[id] == p;
    }
  }

  lemma SyncKeepsTidy(s: Shop, e: Event, s': Shop)
    requires Safe(s) && Known(s) && Tidy(s) && !e.Local? && Step(s, e, s')
    ensures Tidy(s')
  {
    hide SyncStep, Safe, Known, CatalogueOk, DeviceOk, Inv, Keyed, SeedsPrivate, OneVersionPerInstant, Grows;
    var dev, dev', c := s.devices[e.d], s'.devices[e.d], s.cloud;
    TillFacts(s, e.d);
    OnlyPushTouchesCloud(dev, c, e, dev', s'.cloud);
    assert dev in s.devices && CatalogueOk(dev, c);
    SyncKeepsSafe(s, e, s');
    if e.Push? {
      PushKeepsCatalogue(dev, c, e, dev', s'.cloud);
    } else if e.Late? {
      LateKeepsCatalogue(dev, c, e, dev', s'.cloud);
    } else if e.Clear? {
      ClearKeepsCatalogue(dev, c, e, dev');
    } else if e.Pull? {
      PullKeepsCatalogue(dev, c, e, dev');
    } else if e.Apply? {
      ApplyKeepsCatalogue(dev, c, e, dev');
    } else {
      OtherStepKeepsCatalogue(dev, c, e, dev');
    }
    SyncKeepsSeedsPrivate(s, e, s');
    StaysTidy(s, s', e.d, dev');
  }

  /** A sync step brings product ids only from the till to the cloud and back. */
  lemma SyncMovesIds(dev: Device, c: Cloud, e: Event, dev': Device, c': Cloud)
    requires !e.Local? && SyncStep(dev, c, e, dev', c') && Keyed(dev.store) && CatalogueOk(dev, c)
    requires forall id <- c.products :: c.products[id].value.id == id && c.products[id].seqNo <= c.last
    ensures dev'.seeds == dev.seeds
    ensures dev'.store.products.Keys <= dev.store.products.Keys + c.products.Keys
    ensures c'.products.Keys <= dev.store.products.Keys + c.products.Keys
    ensures forall id <- c'.products :: c'.products[id].value.id == id && c'.products[id].seqNo <= c'.last
  {
    if e.Apply? { ApplyKeepsCatalogue(dev, c, e, dev'); }
    if e.Push? || e.Late? {
      var b := if e.Push? then dev.phase.payload else e.payload;
      PushMovesIds(dev, c, b);
    }
  }

  lemma PushMovesIds(dev: Device, c: Cloud, b: Batch)
    requires ProductsCarried(b.products, dev)
    requires forall id <- c.products :: c.products[id].value.id == id && c.products[id].seqNo <= c.last
    ensures var c' := ApplyPush(c, b);
            && c'.products.Keys <= dev.store.products.Keys + c.products.Keys
            && forall id <- c'.products :: c'.products[id].value.id == id && c'.products[id].seqNo <= c'.last
  {
    var c' := ApplyPush(c, b);
    hide ApplyPush;
    ApplyPushEffect(c, b);
    forall id | id in c'.products
      ensures id in dev.store.products.Keys + c.products.Keys && c'.products[id].value.id == id
    {
      if !(id in c.products && c'.products[id] == c.products[id]) {
        assert c'.products[id].value in b.products && ProductId(c'.products[id].value) == id;
      }
    }
  }

  /** Seeds stay private when the moving till gains only cloud ids. */
  lemma SeedsStayPrivate(s: Shop, s': Shop, d: nat, dev': Device, shared: set<Id>)
    requires SeedsPrivate(s) && d < |s.devices| && s'.devices == s.devices[d := dev']
    requires forall i | 0 <= i < |s.devices| :: s.devices[i].seeds !! shared
    requires dev'.seeds == s.devices[d].seeds
    requires dev'.store.products.Keys <= s.devices[d].store.products.Keys + shared
    ensures SeedsPrivate(s')
  {
    forall i, j | 0 <= i < |s'.devices| && 0 <= j < |s'.devices| && i != j
      ensures s'.devices[i].seeds !! s'.devices[j].store.products.Keys
    {
      assert s.devices[i].seeds !! s.devices[j].store.products.Keys;
      assert s.devices[i].seeds !! shared;
    }
  }

  lemma SyncKeepsSeedsPrivate(s: Shop, e: Event, s': Shop)
    requires Safe(s) && Tidy(s) && !e.Local? && Step(s, e, s')
    ensures SeedsPrivate(s')
    ensures forall i | 0 <= i < |s.devices| && i != e.d :: s.devices[i].seeds !! s'.cloud.products.Keys
    ensures forall id <- s'.cloud.products :: s'.cloud.products[id].value.id == id && s'.cloud.products[id].seqNo <= s'.cloud.last
  {
    hide SyncStep, Safe, DeviceOk, Inv, Keyed;
    var dev, dev', c := s.devices[e.d], s'.devices[e.d], s.cloud;
    TillFacts(s, e.d);
    assert dev in s.devices && CatalogueOk(dev, c);
    SyncMovesIds(dev, c, e, dev', s'.cloud);
    forall i | 0 <= i < |s.devices| ensures s.devices[i].seeds !! c.products.Keys {
      assert s.devices[i] in s.devices && CatalogueOk(s.devices[i], c);
    }
    SeedsStayPrivate(s, s', e.d, dev', c.products.Keys);
    forall i | 0 <= i < |s.devices| && i != e.d ensures s.devices[i].seeds !! s'.cloud.products.Keys {
      assert s.devices[i].seeds !! dev.store.products.Keys;
      assert s.devices[i].seeds !! c.products.Keys;
    }
  }

  lemma StepKeepsTidy(s: Shop, e: Event, s': Shop)
    requires Safe(s) && Known(s) && Tidy(s) && Step(s, e, s') && Disciplined(s, e)
    ensures Tidy(s')
  {
    if e.Local? { LocalKeepsTidy(s, e, s'); } else { SyncKeepsTidy(s, e, s'); }
  }

  lemma InitIsTidy(s: Shop)
    requires Init(s)
    ensures Tidy(s)
  {
    forall i, j | 0 <= i < |s.devices| && 0 <= j < |s.devices| && i != j
      ensures s.devices[i].seeds !! s.devices[j].store.products.Keys
    {
      assert s.devices[i] in s.devices && s.devices[j] in s.devices;
    }
  }

  ghost predicate DisciplinedTrace(ss: seq<Shop>, es: seq<Event>) {
    Trace(ss, es) && forall i | 0 <= i < |es| :: Disciplined(ss[i], es[i])
  }

  lemma DisciplinedStep(ss: seq<Shop>, es: seq<Event>, i: nat)
    requires DisciplinedTrace(ss, es) && i < |es|
    ensures Step(ss[i], es[i], ss[i + 1]) && Disciplined(ss[i], es[i])
  {
  }

  lemma {:induction false} TraceIsTidy(ss: seq<Shop>, es: seq<Event>, i: nat)
    requires DisciplinedTrace(ss, es) && i < |ss|
    ensures Tidy(ss[i])
  {
    hide Safe, Known, Tidy, Step, Disciplined, Init;
    if i == 0 {
      InitIsTidy(ss[0]);
    } else {
      TraceIsTidy(ss, es, i - 1);
      TraceIsSafe(ss, es, i - 1);
      DisciplinedStep(ss, es, i - 1);
      StepKeepsTidy(ss[i - 1], es[i - 1], ss[i]);
    }
  }
}
