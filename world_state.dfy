/*
 * The world state every contract works on: a flat table from string keys to
 * records, the order in which the ledger's range scan visits its keys, the
 * scan itself, and the error kinds the contracts report.
 */
module WorldState {

  datatype Option<+T> = None | Some(value: T)

  /** Errors the contracts return; each carries the offending key. */
  datatype Error =
    | AlreadyExists(key: string)   // "the Party %s already exists"
    | NotFound(key: string)        // "... %s does not exist"
    | DecodeError(key: string)     // the stored bytes do not decode

  /** A contract call that returns only an error (Go's `error`, nil on success). */
  datatype Outcome = Pass | Fail(error: Error)

  /** A contract call that returns a value or an error. */
  datatype Result<+T> = Ok(value: T) | Err(error: Error)

  /** One element of a range scan: the key and the value stored under it. */
  datatype KV<+V> = KV(key: string, value: V)

  /**
   * Strict lexicographic order on keys, character by character, a proper
   * prefix coming first. Characters are Unicode scalar values, whose order
   * is the byte order of their UTF-8 encodings, the order the ledger keeps.
   */
  predicate Below(a: string, b: string)
    decreases |a|
  {
    if |a| == 0 then |b| > 0
    else if |b| == 0 then false
    else if a[0] == b[0] then Below(a[1..], b[1..])
    else a[0] < b[0]
  }

  lemma {:induction false} BelowIrreflexive(a: string)
    ensures !Below(a, a)
    decreases |a|
  {
    if |a| > 0 {
      BelowIrreflexive(a[1..]);
    }
  }

  lemma {:induction false} BelowTransitive(a: string, b: string, c: string)
    requires Below(a, b) && Below(b, c)
    ensures Below(a, c)
    decreases |a|
  {
    if |a| > 0 && a[0] == b[0] && b[0] == c[0] {
      BelowTransitive(a[1..], b[1..], c[1..]);
    }
  }

  /** Any two distinct keys are ordered one way or the other. */
  lemma {:induction false} BelowTotal(a: string, b: string)
    requires a != b
    ensures Below(a, b) || Below(b, a)
    decreases |a|
  {
    if |a| > 0 && |b| > 0 && a[0] == b[0] {
      assert a == [a[0]] + a[1..] && b == [b[0]] + b[1..];
      BelowTotal(a[1..], b[1..]);
    }
  }

  lemma BelowAsymmetric(a: string, b: string)
    requires Below(a, b)
    ensures !Below(b, a)
  {
    if Below(b, a) {
      BelowTransitive(a, b, a);
      BelowIrreflexive(a);
    }
  }

  /**
   * `ks` lists the key set `keys` in strictly ascending order: each key once,
   * and no other.
   */
  ghost predicate SortedListing(keys: set<string>, ks: seq<string>) {
    && (forall i, j :: 0 <= i < j < |ks| ==> Below(ks[i], ks[j]))
    && (forall i :: 0 <= i < |ks| ==> ks[i] in keys)
    && (forall k :: k in keys ==> k in ks)
  }

  function KeysOf<V>(scan: seq<KV<V>>): (ks: seq<string>)
    ensures |ks| == |scan|
    ensures forall i :: 0 <= i < |scan| ==> ks[i] == scan[i].key
  {
    seq(|scan|, i requires 0 <= i < |scan| => scan[i].key)
  }

  /** One entry of a "query all" listing: a key and the record decoded from it. */
  datatype QueryResult<+T> = QueryResult(key: string, record: T)

  function ResultKeys<T>(rs: seq<QueryResult<T>>): (ks: seq<string>)
    ensures |ks| == |rs| && forall i :: 0 <= i < |rs| ==> ks[i] == rs[i].key
  {
    seq(|rs|, i requires 0 <= i < |rs| => rs[i].key)
  }

  /** `scan` is what a full range scan of `ws` yields. */
  ghost predicate IsScanOf<V>(ws: map<string, V>, scan: seq<KV<V>>) {
    && SortedListing(ws.Keys, KeysOf(scan))
    && (forall i :: 0 <= i < |scan| ==> scan[i].key in ws && scan[i].value == ws[scan[i].key])
  }

  /** A sorted listing has exactly one entry per key. */
  lemma {:induction false} SortedListingSize(keys: set<string>, ks: seq<string>)
    requires SortedListing(keys, ks)
    ensures |ks| == |keys|
    decreases |ks|
  {
    if ks != [] {
      SortedListingDrop(keys, ks);
      SortedListingSize(keys - {ks[0]}, ks[1..]);
    }
  }

  /** The ascending listing of a key set is unique: the scan's order is fully determined. */
  lemma {:induction false} SortedListingUnique(keys: set<string>, a: seq<string>, b: seq<string>)
    requires SortedListing(keys, a) && SortedListing(keys, b)
    ensures a == b
    decreases |a|
  {
    SortedListingSize(keys, a);
    SortedListingSize(keys, b);
    if a != [] {
      if a[0] != b[0] {
        var i :| 0 <= i < |a| && a[i] == b[0];
        var j :| 0 <= j < |b| && b[j] == a[0];
        assert i != 0 && j != 0;
        assert Below(a[0], b[0]);
        assert Below(b[0], a[0]);
        BelowAsymmetric(a[0], b[0]);
        assert false;
      }
      var k := a[0];
      SortedListingDrop(keys, a);
      SortedListingDrop(keys, b);
      SortedListingUnique(keys - {k}, a[1..], b[1..]);
      assert a == [k] + a[1..] && b == [k] + b[1..];
    }
  }

  /** Dropping the least key of a sorted listing leaves a sorted listing of the rest. */
  lemma SortedListingDrop(keys: set<string>, ks: seq<string>)
    requires SortedListing(keys, ks) && ks != []
    ensures SortedListing(keys - {ks[0]}, ks[1..])
  {
    var k, rest := ks[0], ks[1..];
    forall i | 0 <= i < |rest| ensures rest[i] in keys - {k} {
      assert Below(ks[0], ks[i + 1]);
      BelowIrreflexive(k);
    }
    forall j | j in keys - {k} ensures j in rest {
      var i :| 0 <= i < |ks| && ks[i] == j;
      assert rest[i - 1] == j;
    }
    forall i, j | 0 <= i < j < |rest| ensures Below(rest[i], rest[j]) {
      assert rest[i] == ks[i + 1] && rest[j] == ks[j + 1];
    }
  }

  /** The least key of a non-empty key set. */
  method LeastKey(keys: set<string>) returns (m: string)
    requires keys != {}
    ensures m in keys
    ensures forall k :: k in keys && k != m ==> Below(m, k)
  {
    m :| m in keys;
    var rest := keys - {m};
    while rest != {}
      invariant m in keys && rest <= keys && m !in rest
      invariant forall k :: k in keys - rest && k != m ==> Below(m, k)
      decreases |rest|
    {
      var k :| k in rest;
      BelowTotal(k, m);
      if Below(k, m) {
        forall j | j in keys - rest && j != k ensures Below(k, j) {
          if j != m {
            BelowTransitive(k, m, j);
          }
        }
        m := k;
      }
      rest := rest - {k};
    }
  }

  /**
   * The ledger's open range scan `GetStateByRange("", "")`: every entry of
   * the namespace, once, in ascending key order. The ledger starts an open
   * scan just above U+0000, so a key beginning with U+0000 would be missed;
   * the model treats every key as one the scan reaches.
   */
  method GetStateByRange<V>(ws: map<string, V>) returns (scan: seq<KV<V>>)
    ensures IsScanOf(ws, scan)
  {
    scan := [];
    var pending := ws.Keys;
    while pending != {}
      invariant pending <= ws.Keys
      invariant forall i :: 0 <= i < |scan| ==> scan[i].key in ws && scan[i].key !in pending && scan[i].value == ws[scan[i].key]
      invariant forall k :: k in ws && k !in pending ==> k in KeysOf(scan)
      invariant forall i, j :: 0 <= i < j < |scan| ==> Below(scan[i].key, scan[j].key)
      invariant forall i, k :: 0 <= i < |scan| && k in pending ==> Below(scan[i].key, k)
      decreases |pending|
    {
      var k := LeastKey(pending);
      ghost var before := scan;
      scan := scan + [KV(k, ws[k])];
      assert KeysOf(scan) == KeysOf(before) + [k];
      pending := pending - {k};
    }
  }
}
