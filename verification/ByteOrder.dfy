/** The order bbolt keeps keys in, and the cursor over it. */
module ByteOrder {
  import opened Prelude

  /** Lexicographic order on byte strings. */
  predicate Below(a: Bytes, b: Bytes) {
    if b == [] then false
    else if a == [] then true
    else a[0] < b[0] || (a[0] == b[0] && Below(a[1..], b[1..]))
  }

  /** At the first byte where two keys part, the lower byte, or the end of the key, comes first. */
  ghost predicate PartsAt(a: Bytes, b: Bytes, n: nat) {
    && n <= |a| && n < |b| && a[..n] == b[..n]
    && (n < |a| ==> a[n] < b[n])
  }

  lemma {:induction false} BelowIff(a: Bytes, b: Bytes)
    ensures Below(a, b) <==> exists n: nat :: PartsAt(a, b, n)
  {
    if a == [] || b == [] || a[0] != b[0] {
      if Below(a, b) { assert PartsAt(a, b, 0); }
    } else {
      BelowIff(a[1..], b[1..]);
      if Below(a, b) {
        var n: nat :| PartsAt(a[1..], b[1..], n);
        assert a[..n + 1] == [a[0]] + a[1..][..n] && b[..n + 1] == [b[0]] + b[1..][..n];
        assert PartsAt(a, b, n + 1);
      } else if n: nat :| PartsAt(a, b, n) {
        assert n > 0;
        assert a[1..][..n - 1] == a[..n][1..] && b[1..][..n - 1] == b[..n][1..];
        assert PartsAt(a[1..], b[1..], n - 1);
      }
    }
  }

  predicate AtMost(a: Bytes, b: Bytes) {
    a == b || Below(a, b)
  }

  lemma {:induction false} BelowIsIrreflexive(a: Bytes)
    ensures !Below(a, a)
  {
    if a != [] { BelowIsIrreflexive(a[1..]); }
  }

  lemma {:induction false} BelowIsTransitive(a: Bytes, b: Bytes, c: Bytes)
    requires Below(a, b) && Below(b, c)
    ensures Below(a, c)
  {
    if a != [] && a[0] == b[0] == c[0] {
      BelowIsTransitive(a[1..], b[1..], c[1..]);
    }
  }

  lemma {:induction false} BelowIsTotal(a: Bytes, b: Bytes)
    ensures Below(a, b) || a == b || Below(b, a)
  {
    if a != [] && b != [] && a[0] == b[0] {
      BelowIsTotal(a[1..], b[1..]);
      assert a == [a[0]] + a[1..] && b == [b[0]] + b[1..];
    }
  }

  lemma BelowIsAsymmetric(a: Bytes, b: Bytes)
    requires Below(a, b)
    ensures !Below(b, a) && a != b
  {
    BelowIsIrreflexive(a);
    if Below(b, a) { BelowIsTransitive(a, b, a); }
  }

  /** A key that extends a prefix does not come before the prefix. */
  lemma {:induction false} PrefixIsAtMost(prefix: Bytes, k: Bytes)
    requires prefix <= k
    ensures AtMost(prefix, k)
  {
    if prefix != [] {
      PrefixIsAtMost(prefix[1..], k[1..]);
      assert prefix == [prefix[0]] + prefix[1..] && k == [k[0]] + k[1..];
    }
  }

  /** Keys sharing a prefix are contiguous: nothing between the prefix and such a key lacks it. */
  lemma {:induction false} PrefixedKeysAreContiguous(prefix: Bytes, mid: Bytes, k: Bytes)
    requires prefix <= k && AtMost(prefix, mid) && Below(mid, k)
    ensures prefix <= mid
  {
    if prefix != [] && prefix != mid {
      assert mid != [];
      assert prefix[0] == mid[0] == k[0];
      if prefix[1..] != mid[1..] {
        PrefixedKeysAreContiguous(prefix[1..], mid[1..], k[1..]);
      }
      assert prefix == [prefix[0]] + prefix[1..] && mid == [mid[0]] + mid[1..];
    }
  }

  /** `k` is the least of the keys that satisfy the bound. */
  ghost predicate IsLeast(k: Bytes, keys: set<Bytes>) {
    k in keys && forall j <- keys :: AtMost(k, j)
  }

  /** The least key of a non-empty set. */
  method Least(keys: set<Bytes>) returns (k: Bytes)
    requires keys != {}
    ensures IsLeast(k, keys)
  {
    k :| k in keys;
    var todo := keys - {k};
    while todo != {}
      invariant todo <= keys && k in keys && k !in todo
      invariant forall j <- keys :: j !in todo ==> AtMost(k, j)
      decreases todo
    {
      var j :| j in todo;
      todo := todo - {j};
      BelowIsTotal(j, k);
      if Below(j, k) {
        forall i | i in keys && i !in todo ensures AtMost(j, i) {
          if i != j && i != k { BelowIsTransitive(j, k, i); }
        }
        k := j;
      }
    }
  }

  ghost function AtOrAfter(keys: set<Bytes>, target: Bytes): set<Bytes> {
    set j | j in keys && AtMost(target, j)
  }

  ghost function After(keys: set<Bytes>, at: Bytes): set<Bytes> {
    set j | j in keys && Below(at, j)
  }

  /** The cursor stands on the first of the keys it may stand on, or nowhere when there are none. */
  ghost predicate StandsOnFirst(k: Option<Bytes>, candidates: set<Bytes>) {
    match k
    case None => candidates == {}
    case Some(key) => IsLeast(key, candidates)
  }

  /** Positions a cursor at the first key at or after `target`. */
  method Seek(keys: set<Bytes>, target: Bytes) returns (k: Option<Bytes>)
    ensures StandsOnFirst(k, AtOrAfter(keys, target))
  {
    var later := set j | j in keys && AtMost(target, j);
    assert later == AtOrAfter(keys, target);
    if later == {} {
      k := None;
    } else {
      var least := Least(later);
      k := Some(least);
    }
  }

  /** Moves a cursor standing on `at` to the key after it. */
  method Next(keys: set<Bytes>, at: Bytes) returns (k: Option<Bytes>)
    ensures StandsOnFirst(k, After(keys, at))
  {
    var later := set j | j in keys && Below(at, j);
    assert later == After(keys, at);
    if later == {} {
      k := None;
    } else {
      var least := Least(later);
      k := Some(least);
    }
  }
}
