/** Lists of sales: what a query selects, newest first, and what a search criterion means. */
module SaleLists {
  import opened Prelude
  import opened Records
  import opened StoreModel
  import opened Sorting

  predicate NotOlder(a: Sale, b: Sale) {
    b.createdAt <= a.createdAt
  }

  ghost predicate NewestFirst(out: seq<Sale>) {
    SortedBy(out, NotOlder)
  }

  ghost predicate Distinct(out: seq<Sale>) {
    DistinctBy(out, SaleId)
  }

  /** The stored sales a predicate picks, each once. */
  ghost predicate Selects(out: seq<Sale>, st: StoreState, picks: Sale -> bool) {
    && Distinct(out)
    && (forall sale <- out :: sale.id in st.sales && st.sales[sale.id] == sale && picks(sale))
    && (forall id <- st.sales :: picks(st.sales[id]) ==> st.sales[id] in out)
  }

  function HasReference(reference: Bytes): Sale -> bool {
    (sale: Sale) => sale.reference == reference
  }

  /** Reordering keeps a selection a selection. */
  lemma SortedSelection(out: seq<Sale>, sorted: seq<Sale>, st: StoreState, picks: Sale -> bool)
    requires Selects(out, st, picks) && multiset(sorted) == multiset(out)
    ensures Selects(sorted, st, picks)
  {
    SameElements(out, sorted);
    DistinctSurvives(out, sorted, SaleId);
  }

  /** Whatever a cut drops is no newer than anything it keeps. */
  lemma CutKeepsNewest(out: seq<Sale>, n: nat)
    requires NewestFirst(out) && n < |out|
    ensures NewestFirst(out[..n])
    ensures forall dropped <- out :: dropped in out[..n] || forall kept <- out[..n] :: dropped.createdAt <= kept.createdAt
  {
    forall dropped, kept | dropped in out && dropped !in out[..n] && kept in out[..n]
      ensures dropped.createdAt <= kept.createdAt
    {
      var i :| 0 <= i < n && out[i] == kept;
      assert out == out[..n] + out[n..];
      var j :| 0 <= j < |out[n..]| && out[n..][j] == dropped;
      assert NotOlder(out[i], out[n + j]);
    }
  }

  // ---- Search criteria ----

  const DEFAULT_SEARCH_CAP := 500

  /** Every field is optional: an empty text, a missing instant or a non-positive bound does not constrain. */
  datatype SearchCriteria = SearchCriteria(
    reference: Bytes,
    itemName: Bytes,
    paymentMethod: string,
    start: Option<Time>,
    end: Option<Time>,
    minCents: int,
    maxCents: int,
    limit: int)

  predicate Occurs(text: Bytes, i: nat, part: Bytes) {
    i + |part| <= |text| && text[i..i + |part|] == part
  }

  predicate Contains(text: Bytes, part: Bytes) {
    exists i | 0 <= i <= |text| :: Occurs(text, i, part)
  }

  /** Every criterion but the reference; `lower` is the program's case folding. */
  predicate MatchesCriteria(sale: Sale, c: SearchCriteria, lower: Bytes -> Bytes) {
    && (c.itemName != [] ==> exists item <- sale.items :: Contains(lower(item.name), lower(c.itemName)))
    && (c.paymentMethod != "" ==> sale.paymentMethod == c.paymentMethod)
    && (c.start.Some? ==> c.start.value <= sale.createdAt)
    && (c.end.Some? ==> sale.createdAt < c.end.value)
    && (c.minCents > 0 ==> c.minCents <= sale.totalCents)
    && (c.maxCents > 0 ==> sale.totalCents <= c.maxCents)
  }

  predicate Satisfies(sale: Sale, c: SearchCriteria, lower: Bytes -> Bytes) {
    (c.reference != [] ==> sale.reference == c.reference) && MatchesCriteria(sale, c, lower)
  }

  function Satisfying(c: SearchCriteria, lower: Bytes -> Bytes): Sale -> bool {
    (sale: Sale) => Satisfies(sale, c, lower)
  }

  /** The criteria spelled out: the text of an item holds the one looked for, and each bound that is set is kept. */
  lemma SatisfiesIff(sale: Sale, c: SearchCriteria, lower: Bytes -> Bytes)
    ensures Satisfies(sale, c, lower) <==>
      && (sale.reference == c.reference || c.reference == [])
      && (c.itemName == [] || exists i, before, after ::
            0 <= i < |sale.items| && lower(sale.items[i].name) == before + lower(c.itemName) + after)
      && (sale.paymentMethod == c.paymentMethod || c.paymentMethod == "")
      && (c.start.None? || sale.createdAt >= c.start.value)
      && (c.end.None? || sale.createdAt < c.end.value)
      && (sale.totalCents >= c.minCents || c.minCents <= 0)
      && (sale.totalCents <= c.maxCents || c.maxCents <= 0)
  {
    var part := lower(c.itemName);
    forall i | 0 <= i < |sale.items|
      ensures Contains(lower(sale.items[i].name), part)
              <==> exists before, after :: lower(sale.items[i].name) == before + part + after
    {
      ContainsIff(lower(sale.items[i].name), part);
    }
    hide Contains;
    assert (exists item <- sale.items :: Contains(lower(item.name), part))
      <==> exists i | 0 <= i < |sale.items| :: Contains(lower(sale.items[i].name), part);
  }

  lemma ContainsIff(text: Bytes, part: Bytes)
    ensures Contains(text, part) <==> exists before, after :: text == before + part + after
  {
    if Contains(text, part) {
      var i :| 0 <= i <= |text| && Occurs(text, i, part);
      assert text == text[..i] + part + text[i + |part|..];
    } else if before, after :| text == before + part + after {
      assert Occurs(text, |before|, part);
    }
  }

  /** Tests a sale against every criterion but the reference, which its caller has already looked up. */
  method Matches(sale: Sale, c: SearchCriteria, lower: Bytes -> Bytes) returns (ok: bool)
    ensures ok <==> MatchesCriteria(sale, c, lower)
  {
    hide Contains;
    if c.itemName != [] {
      var q := lower(c.itemName);
      var found := false;
      for i := 0 to |sale.items|
        invariant !found
        invariant forall item <- sale.items[..i] :: !Contains(lower(item.name), q)
      {
        if Contains(lower(sale.items[i].name), q) {
          found := true;
          break;
        }
      }
      if !found {
        return false;
      }
    }
    if c.paymentMethod != "" && sale.paymentMethod != c.paymentMethod {
      return false;
    }
    if c.start.Some? && sale.createdAt < c.start.value {
      return false;
    }
    if c.end.Some? && sale.createdAt >= c.end.value {
      return false;
    }
    if c.minCents > 0 && sale.totalCents < c.minCents {
      return false;
    }
    if c.maxCents > 0 && sale.totalCents > c.maxCents {
      return false;
    }
    return true;
  }

  /** How many sales a search may return. */
  function LimitOf(c: SearchCriteria): nat {
    if c.limit <= 0 then 500 else c.limit
  }
}
