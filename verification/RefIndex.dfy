/** The prefix scan over "<reference>\0<sale id>" keys finds exactly the sales with that reference. */
module RefIndex {
  import opened Prelude
  import opened Records
  import opened StoreModel
  import opened StoreInvariants
  import opened ByteOrder
  import opened SaleLists

  lemma NoNulAfterSeparator(a: Bytes, i: Id, n: int)
    requires NulFree(i) && |a| < n < |RefKey(a, i)|
    ensures RefKey(a, i)[n] != 0
  {
    assert RefKey(a, i)[n] == i[n - |a| - 1];
  }

  /** NUL-free ids make a key readable one way only, even when references contain NUL. */
  lemma KeyReadsOneWay(a: Bytes, i: Id, b: Bytes, j: Id)
    requires RefKey(a, i) == RefKey(b, j) && NulFree(i) && NulFree(j)
    ensures a == b && i == j
  {
    var k := RefKey(a, i);
    assert k[|a|] == 0 && k[|b|] == 0;
    if |a| < |b| {
      NoNulAfterSeparator(a, i, |b|);
    } else if |b| < |a| {
      NoNulAfterSeparator(b, j, |a|);
    }
    assert a == k[..|a|] && b == k[..|b|] && i == k[|a| + 1..] && j == k[|b| + 1..];
  }

  /** The cursor has moved past key `j`. */
  predicate Passed(k: Option<Bytes>, j: Bytes) {
    k.Some? ==> Below(j, k.value)
  }

  ghost function Ahead(keys: set<Bytes>, k: Option<Bytes>): set<Bytes> {
    set j | j in keys && !Passed(k, j)
  }

  /** Nothing between the prefix and the cursor is unpassed: keys are met in order. */
  ghost predicate InOrder(keys: set<Bytes>, prefix: Bytes, k: Option<Bytes>) {
    && (k.Some? ==> k.value in keys && AtMost(prefix, k.value))
    && forall j <- keys :: AtMost(prefix, j) && !Passed(k, j) ==> AtMost(k.value, j)
  }

  /** `out` holds the sales of this reference whose keys the cursor has passed. */
  ghost predicate Scanning(st: StoreState, reference: Bytes, k: Option<Bytes>, out: seq<Sale>) {
    && InOrder(st.refIdx, reference + [0], k)
    && Distinct(out)
    && (forall sale <- out :: sale.id in st.sales && st.sales[sale.id] == sale && sale.reference == reference
                              && Passed(k, RefKey(reference, sale.id)))
    && (forall id <- st.sales :: st.sales[id].reference == reference && Passed(k, RefKey(reference, id))
                                 ==> st.sales[id] in out)
  }

  lemma KeyIsIndexed(st: StoreState, id: Id)
    requires Inv(st) && id in st.sales && st.sales[id].reference != []
    ensures RefKey(st.sales[id].reference, id) in st.refIdx
    ensures (st.sales[id].reference + [0]) <= RefKey(st.sales[id].reference, id)
    ensures AtMost(st.sales[id].reference + [0], RefKey(st.sales[id].reference, id))
  {
    PrefixIsAtMost(st.sales[id].reference + [0], RefKey(st.sales[id].reference, id));
  }

  lemma ScanStarts(st: StoreState, reference: Bytes, k: Option<Bytes>)
    requires Inv(st) && reference != []
    requires StandsOnFirst(k, AtOrAfter(st.refIdx, reference + [0]))
    ensures Scanning(st, reference, k, [])
  {
    forall id | id in st.sales && st.sales[id].reference == reference ensures !Passed(k, RefKey(reference, id)) {
      KeyIsIndexed(st, id);
      var key := RefKey(reference, id);
      assert key in AtOrAfter(st.refIdx, reference + [0]);
      if k.Some? && Below(key, k.value) { BelowIsAsymmetric(key, k.value); }
    }
  }

  /** One step of the scan: the key under the cursor, and only it, is passed. */
  lemma StepPassesOneKey(keys: set<Bytes>, prefix: Bytes, key: Bytes, k: Option<Bytes>, j: Bytes)
    requires InOrder(keys, prefix, Some(key)) && j in keys && AtMost(prefix, j)
    requires StandsOnFirst(k, After(keys, key))
    ensures Passed(k, j) <==> Passed(Some(key), j) || j == key
    ensures !Passed(k, j) ==> AtMost(k.value, j)
  {
    BelowIsTotal(j, key);
    if Below(key, j) {
      assert j in After(keys, key);
      BelowIsAsymmetric(key, j);
      if k.Some? && Below(j, k.value) { BelowIsAsymmetric(j, k.value); }
    } else if k.Some? && Below(j, key) {
      BelowIsTransitive(j, key, k.value);
    }
  }

  lemma ScanAdvances(st: StoreState, reference: Bytes, key: Bytes, out: seq<Sale>, k: Option<Bytes>, out': seq<Sale>)
    requires Inv(st) && reference != [] && Scanning(st, reference, Some(key), out) && (reference + [0]) <= key
    requires StandsOnFirst(k, After(st.refIdx, key))
    requires var id := key[|reference| + 1..];
             out' == if id in st.sales then out + [st.sales[id]] else out
    ensures Scanning(st, reference, k, out') && Ahead(st.refIdx, k) < Ahead(st.refIdx, Some(key))
  {
    var prefix, keys := reference + [0], st.refIdx;
    var id := key[|prefix|..];
    assert key == RefKey(reference, id);
    BelowIsIrreflexive(key);
    assert key in Ahead(keys, Some(key));
    forall j | j in keys ensures Passed(Some(key), j) || j == key ==> Passed(k, j) {
      if Below(j, key) && k.Some? { BelowIsTransitive(j, key, k.value); }
    }
    if k.Some? { BelowAfterAtMost(prefix, key, k.value); }
    forall j | j in keys && AtMost(prefix, j) ensures !Passed(k, j) ==> AtMost(k.value, j) {
      StepPassesOneKey(keys, prefix, key, k, j);
    }
    if id in st.sales {
      var owner :| owner in st.sales && st.sales[owner].reference != [] && key == RefKey(st.sales[owner].reference, owner);
      KeyReadsOneWay(reference, id, st.sales[owner].reference, owner);
    }
    forall i | i in st.sales && st.sales[i].reference == reference
      ensures Passed(k, RefKey(reference, i)) <==> Passed(Some(key), RefKey(reference, i)) || i == id
    {
      KeyIsIndexed(st, i);
      StepPassesOneKey(keys, prefix, key, k, RefKey(reference, i));
      if RefKey(reference, i) == key { assert i == key[|prefix|..]; }
    }
  }

  lemma BelowAfterAtMost(a: Bytes, b: Bytes, c: Bytes)
    requires AtMost(a, b) && Below(b, c)
    ensures AtMost(a, c)
  {
    if a != b { BelowIsTransitive(a, b, c); }
  }

  /** When the cursor leaves the prefix, every sale of the reference has been met. */
  lemma ScanEnds(st: StoreState, reference: Bytes, k: Option<Bytes>, out: seq<Sale>)
    requires Inv(st) && reference != [] && Scanning(st, reference, k, out)
    requires k.Some? ==> !((reference + [0]) <= k.value)
    ensures Selects(out, st, HasReference(reference))
  {
    var prefix := reference + [0];
    forall id | id in st.sales && st.sales[id].reference == reference ensures st.sales[id] in out {
      KeyIsIndexed(st, id);
      var key := RefKey(reference, id);
      if !Passed(k, key) && key != k.value {
        PrefixedKeysAreContiguous(prefix, k.value, key);
      }
    }
  }
}
