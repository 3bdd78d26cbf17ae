/*
 * The real-estate registry contract: RealEstate records under caller-chosen
 * numbers, seeded as "RE0" .. "RE8", with owner and price changes.
 */
module RealEstateRegistry {
  import opened WorldState

  /** All fields are opaque strings, as the contract stores them. */
  datatype RealEstate = RealEstate(
    location: string,
    rooms: string,
    baths: string,
    price: string,
    livingSpace: string,
    owner: string)

  type Store = map<string, RealEstate>

  /** Decimal notation of a non-negative integer, as `strconv.Itoa` writes it. */
  function Itoa(n: nat): (s: string)
    ensures |s| > 0
    ensures forall i :: 0 <= i < |s| ==> '0' <= s[i] <= '9'
    decreases n
  {
    if n < 10 then [Digit(n)] else Itoa(n / 10) + [Digit(n % 10)]
  }

  function Digit(d: nat): (c: char)
    requires d < 10
    ensures '0' <= c <= '9'
  {
    ('0' as int + d) as char
  }

  /** The number a non-empty string of decimal digits denotes, most significant digit first. */
  function DecimalValue(s: string): nat
    requires forall i :: 0 <= i < |s| ==> '0' <= s[i] <= '9'
    decreases |s|
  {
    if s == [] then 0
    else DecimalValue(s[..|s| - 1]) * 10 + (s[|s| - 1] as int - '0' as int)
  }

  /** `Itoa` writes the decimal notation of its argument: reading the digits back gives `n`. */
  lemma {:induction false} ItoaValue(n: nat)
    ensures DecimalValue(Itoa(n)) == n
    decreases n
  {
    var s := Itoa(n);
    if n < 10 {
      assert s[..|s| - 1] == [];
    } else {
      ItoaValue(n / 10);
      assert s[..|s| - 1] == Itoa(n / 10);
    }
  }

  /** The key the seed routine uses for the `i`-th seed record. */
  function SeedKey(i: nat): string {
    "RE" + Itoa(i)
  }

  /** A seed key is "RE" followed by the digits of its index in decimal. */
  lemma SeedKeySpelling(i: nat)
    ensures |SeedKey(i)| > 2 && SeedKey(i)[..2] == "RE"
    ensures forall j :: 2 <= j < |SeedKey(i)| ==> '0' <= SeedKey(i)[j] <= '9'
    ensures DecimalValue(SeedKey(i)[2..]) == i
  {
    ItoaValue(i);
    assert SeedKey(i)[2..] == Itoa(i);
  }

  /** Below ten, seed keys are the single-digit names "RE0" .. "RE9", one per index. */
  lemma SeedKeyInjective(i: nat, j: nat)
    requires i < 10 && j < 10 && i != j
    ensures SeedKey(i) != SeedKey(j)
  {
    assert SeedKey(i)[2] != SeedKey(j)[2];
  }

  /** The nine seed records; the seed routine writes the `i`-th under `SeedKey(i)`. */
  function InitialEstates(): (es: seq<RealEstate>)
    ensures |es| == 9
    ensures forall i :: 0 <= i < |es| ==> es[i].owner == "Agency"
  {
    [ RealEstate("Istanbul", "5", "2", "$140,000", "120m2", "Agency"),
      RealEstate("Izmir", "3", "1", "$75,000", "90m2", "Agency"),
      RealEstate("Ankara", "4", "2", "$135,000", "140m2", "Agency"),
      RealEstate("Istanbul", "1", "1", "$300,000", "40m2", "Agency"),
      RealEstate("Bursa", "5", "2", "$100,000", "200m2", "Agency"),
      RealEstate("Istanbul", "2", "1", "$55,000", "80m2", "Agency"),
      RealEstate("Ankara", "3", "1", "$90,000", "120m2", "Agency"),
      RealEstate("Istanbul", "7", "3", "$1,135,500", "370m2", "Agency"),
      RealEstate("Izmir", "2", "1", "$55,000", "80m2", "Agency") ]
  }

  /** The keys of the first `n` seed records, in the order they are written. */
  function SeedKeys(n: nat): (ks: seq<string>)
    ensures |ks| == n && forall i :: 0 <= i < n ==> ks[i] == SeedKey(i)
    decreases n
  {
    if n == 0 then [] else SeedKeys(n - 1) + [SeedKey(n - 1)]
  }

  /** `s` after writing the first `n` of `es`, the `i`-th under `ks[i]`. */
  function Seeded(s: Store, ks: seq<string>, es: seq<RealEstate>, n: nat): (r: Store)
    requires n <= |ks| && n <= |es|
    decreases n
  {
    if n == 0 then s else Seeded(s, ks, es, n - 1)[ks[n - 1] := es[n - 1]]
  }

  /** No key occurs twice among the first `n` of `ks`. */
  predicate DistinctPrefix(ks: seq<string>, n: nat)
    requires n <= |ks|
  {
    forall i, j :: 0 <= i < j < n ==> ks[i] != ks[j]
  }

  /** Below ten, the seed keys are pairwise distinct. */
  lemma SeedKeysDistinct(n: nat)
    requires n <= 10
    ensures DistinctPrefix(SeedKeys(n), n)
  {
    var ks := SeedKeys(n);
    forall i, j | 0 <= i < j < n ensures ks[i] != ks[j] {
      SeedKeyInjective(i, j);
    }
  }

  /**
   * Writing the first `n` records under `n` distinct keys adds exactly those
   * keys, the `i`-th holding the `i`-th record, and leaves every other key as
   * it was.
   */
  lemma {:induction false} SeededContents(s: Store, ks: seq<string>, es: seq<RealEstate>, n: nat)
    requires n <= |ks| && n <= |es| && DistinctPrefix(ks, n)
    ensures forall k :: k in Seeded(s, ks, es, n) <==> k in s || k in ks[..n]
    ensures forall i :: 0 <= i < n ==> ks[i] in Seeded(s, ks, es, n) && Seeded(s, ks, es, n)[ks[i]] == es[i]
    ensures forall k :: k in s && k !in ks[..n] ==> Seeded(s, ks, es, n)[k] == s[k]
    decreases n
  {
    if n > 0 {
      SeededContents(s, ks, es, n - 1);
      assert ks[..n] == ks[..n - 1] + [ks[n - 1]];
    }
  }

  /** The nine seed keys are "RE0" .. "RE8". */
  lemma NineSeedKeys()
    ensures SeedKeys(9) == ["RE0", "RE1", "RE2", "RE3", "RE4", "RE5", "RE6", "RE7", "RE8"]
  {
    var names := ["RE0", "RE1", "RE2", "RE3", "RE4", "RE5", "RE6", "RE7", "RE8"];
    forall i | 0 <= i < 9 ensures SeedKeys(9)[i] == names[i] {
      assert Itoa(i) == [Digit(i)];
    }
  }

  /** A new record, always owned by "Agency", replacing whatever `key` held. */
  function Added(s: Store, key: string, location: string, rooms: string, baths: string, price: string, livingSpace: string): (r: Store)
    ensures r.Keys == s.Keys + {key}
    ensures r[key] == RealEstate(location, rooms, baths, price, livingSpace, "Agency")
    ensures forall k :: k in s && k != key ==> r[k] == s[k]
  {
    s[key := RealEstate(location, rooms, baths, price, livingSpace, "Agency")]
  }

  /** The record under `key` with only its owner replaced. */
  function WithOwner(s: Store, key: string, owner: string): (r: Store)
    requires key in s
    ensures r.Keys == s.Keys && r[key].owner == owner
    ensures r[key].(owner := s[key].owner) == s[key]
    ensures forall k :: k in s && k != key ==> r[k] == s[k]
  {
    s[key := s[key].(owner := owner)]
  }

  /** The record under `key` with only its price replaced. */
  function WithPrice(s: Store, key: string, price: string): (r: Store)
    requires key in s
    ensures r.Keys == s.Keys && r[key].price == price
    ensures r[key].(price := s[key].price) == s[key]
    ensures forall k :: k in s && k != key ==> r[k] == s[k]
  {
    s[key := s[key].(price := price)]
  }

  /** Changing an owner twice to the same value is the same as changing it once. */
  lemma OwnerChangeIdempotent(s: Store, key: string, owner: string)
    requires key in s
    ensures WithOwner(WithOwner(s, key, owner), key, owner) == WithOwner(s, key, owner)
  {
  }

  /** Owner and price live in different fields: the two changes commute. */
  lemma OwnerAndPriceCommute(s: Store, key: string, owner: string, price: string)
    requires key in s
    ensures WithPrice(WithOwner(s, key, owner), key, price) == WithOwner(WithPrice(s, key, price), key, owner)
  {
  }

  /** The contract over its namespace. */
  class RealEstateContract {
    var ws: Store

    constructor ()
      ensures ws == map[]
    {
      ws := map[];
    }

    /**
     * Writes the nine seed records under `SeedKeys(9)`, that is "RE0" .. "RE8"
     * (`NineSeedKeys`), replacing whatever those keys held.
     */
    method InitLedger()
      modifies this
      ensures forall k :: k in ws <==> k in old(ws) || k in SeedKeys(9)
      ensures forall i :: 0 <= i < 9 ==> SeedKey(i) in ws && ws[SeedKey(i)] == InitialEstates()[i]
      ensures forall i :: 0 <= i < 9 ==> ws[SeedKey(i)].owner == "Agency"
      ensures forall k :: k in old(ws) && k !in SeedKeys(9) ==> ws[k] == old(ws)[k]
    {
      var estates := InitialEstates();
      ghost var keys := SeedKeys(|estates|);
      for i := 0 to |estates|
        invariant ws == Seeded(old(ws), keys, estates, i)
      {
        ws := ws[SeedKey(i) := estates[i]];
      }
      SeedKeysDistinct(|estates|);
      SeededContents(old(ws), keys, estates, |estates|);
      assert keys[..|estates|] == keys == SeedKeys(9);
    }

    /** Stores a record under `key` with no existence check: a prior record is overwritten. */
    method AddRe(key: string, location: string, rooms: string, baths: string, price: string, livingSpace: string)
      modifies this
      ensures ws == Added(old(ws), key, location, rooms, baths, price, livingSpace)
    {
      var re := RealEstate(location, rooms, baths, price, livingSpace, "Agency");
      ws := ws[key := re];
    }

    method QueryRe(key: string) returns (r: Result<RealEstate>)
      ensures key !in ws ==> r == Err(NotFound(key))
      ensures key in ws ==> r == Ok(ws[key])
    {
      if key !in ws {
        return Err(NotFound(key));
      }
      r := Ok(ws[key]);
    }

    /** Every stored record with its key, in key order. */
    method QueryAllRes() returns (results: seq<QueryResult<RealEstate>>)
      ensures SortedListing(ws.Keys, ResultKeys(results))
      ensures forall i :: 0 <= i < |results| ==> ws[results[i].key] == results[i].record
    {
      var scan := GetStateByRange(ws);
      results := [];
      for i := 0 to |scan|
        invariant |results| == i
        invariant forall j :: 0 <= j < i ==> results[j] == QueryResult(scan[j].key, scan[j].value)
      {
        results := results + [QueryResult(scan[i].key, scan[i].value)];
      }
      assert ResultKeys(results) == KeysOf(scan);
    }

    method ChangeReOwner(key: string, owner: string) returns (out: Outcome)
      modifies this
      ensures key !in old(ws) ==> out == Fail(NotFound(key)) && ws == old(ws)
      ensures key in old(ws) ==> out == Pass && ws == WithOwner(old(ws), key, owner)
    {
      var r := QueryRe(key);
      if r.Err? {
        return Fail(r.error);
      }
      var re := r.value.(owner := owner);
      ws := ws[key := re];
      out := Pass;
    }

    method ChangeRePrice(key: string, price: string) returns (out: Outcome)
      modifies this
      ensures key !in old(ws) ==> out == Fail(NotFound(key)) && ws == old(ws)
      ensures key in old(ws) ==> out == Pass && ws == WithPrice(old(ws), key, price)
    {
      var r := QueryRe(key);
      if r.Err? {
        return Fail(r.error);
      }
      var re := r.value.(price := price);
      ws := ws[key := re];
      out := Pass;
    }
  }
}
