/*
 * The vote-tally contract: one Party record per party name, created,
 * read, overwritten, deleted and incremented one vote at a time.
 */
module VoteTally {
  import opened WorldState

  /** A party and its vote count (Go `int`, unbounded here). */
  datatype Party = Party(name: string, voteCount: int)

  /**
   * What the namespace holds under a key: the encoding of a Party, or bytes
   * the codec rejects. Existence is key presence, whatever the payload.
   */
  datatype Stored = Encoded(party: Party) | Undecodable

  type Store = map<string, Stored>

  /** Every decodable record is stored under its own party name. */
  ghost predicate NamesMatchKeys(s: Store) {
    forall k :: k in s && s[k].Encoded? ==> s[k].party.name == k
  }

  /** The parties the ledger is seeded with, in the order they are written. */
  function InitialParties(): (ps: seq<Party>)
    ensures forall i :: 0 <= i < |ps| ==> ps[i].voteCount == 0
  {
    [Party("Republicans", 0), Party("Democrats", 0)]
  }

  /** `s` after writing the first `n` of `ps`, each under its own name. */
  function PutParties(s: Store, ps: seq<Party>, n: nat): (r: Store)
    requires n <= |ps|
    ensures NamesMatchKeys(s) ==> NamesMatchKeys(r)
    ensures forall k :: k in s ==> k in r
    decreases n
  {
    if n == 0 then s else PutParties(s, ps, n - 1)[ps[n - 1].name := Encoded(ps[n - 1])]
  }

  /** A fresh party with no votes under `name`. */
  function Created(s: Store, name: string): (r: Store)
    ensures r.Keys == s.Keys + {name} && r[name] == Encoded(Party(name, 0))
    ensures forall k :: k in s && k != name ==> r[k] == s[k]
  {
    s[name := Encoded(Party(name, 0))]
  }

  /** `name` overwritten with a party of that name holding `count` votes. */
  function Updated(s: Store, name: string, count: int): (r: Store)
    ensures r.Keys == s.Keys + {name} && r[name] == Encoded(Party(name, count))
    ensures forall k :: k in s && k != name ==> r[k] == s[k]
  {
    s[name := Encoded(Party(name, count))]
  }

  /** The stored party under `name` with its count replaced, its name kept. */
  function Transferred(s: Store, name: string, count: int): (r: Store)
    requires name in s && s[name].Encoded?
    ensures r.Keys == s.Keys && r[name].Encoded?
    ensures r[name].party == s[name].party.(voteCount := count)
    ensures forall k :: k in s && k != name ==> r[k] == s[k]
  {
    s[name := Encoded(s[name].party.(voteCount := count))]
  }

  /** One more vote for the stored party under `name`. */
  function Voted(s: Store, name: string): (r: Store)
    requires name in s && s[name].Encoded?
    ensures r.Keys == s.Keys && r[name].Encoded?
    ensures r[name].party.name == s[name].party.name
    ensures r[name].party.voteCount == s[name].party.voteCount + 1
    ensures forall k :: k in s && k != name ==> r[k] == s[k]
  {
    s[name := Encoded(s[name].party.(voteCount := s[name].party.voteCount + 1))]
  }

  /** `n` successive votes for `name`. */
  function VotedTimes(s: Store, name: string, n: nat): (r: Store)
    requires name in s && s[name].Encoded?
    ensures r.Keys == s.Keys && r[name].Encoded?
    ensures r[name].party == s[name].party.(voteCount := s[name].party.voteCount + n)
    ensures forall k :: k in s && k != name ==> r[k] == s[k]
    decreases n
  {
    if n == 0 then s else Voted(VotedTimes(s, name, n - 1), name)
  }

  /** A party created fresh and then voted for `n` times holds exactly `n` votes. */
  lemma FreshPartyCountsVotes(s: Store, name: string, n: nat)
    ensures VotedTimes(Created(s, name), name, n)[name] == Encoded(Party(name, n))
  {
  }

  /** Updates overwrite: only the last count written survives. */
  lemma UpdateOverwrites(s: Store, name: string, c1: int, c2: int)
    ensures Updated(Updated(s, name, c1), name, c2) == Updated(s, name, c2)
  {
  }

  /**
   * On a store whose records sit under their own names, transferring a
   * decodable party is the same write as updating it; they differ only on
   * a record that does not decode, which the update overwrites and the
   * transfer refuses.
   */
  lemma TransferIsUpdate(s: Store, name: string, count: int)
    requires NamesMatchKeys(s) && name in s && s[name].Encoded?
    ensures Transferred(s, name, count) == Updated(s, name, count)
  {
  }

  /** A vote is a transfer to the current count plus one. */
  lemma VoteIsTransfer(s: Store, name: string)
    requires name in s && s[name].Encoded?
    ensures Voted(s, name) == Transferred(s, name, s[name].party.voteCount + 1)
  {
  }

  /** The contract over its namespace. */
  class PartyContract {
    var ws: Store

    ghost predicate Valid()
      reads this
    {
      NamesMatchKeys(ws)
    }

    constructor ()
      ensures Valid() && ws == map[]
    {
      ws := map[];
    }

    /** Writes the two seed parties, replacing whatever those keys held. */
    method InitLedger()
      requires Valid()
      modifies this
      ensures Valid()
      ensures ws == old(ws)["Republicans" := Encoded(Party("Republicans", 0))]["Democrats" := Encoded(Party("Democrats", 0))]
    {
      var parties := InitialParties();
      for i := 0 to |parties|
        invariant ws == PutParties(old(ws), parties, i)
      {
        ws := ws[parties[i].name := Encoded(parties[i])];
      }
    }

    /** Whether anything, decodable or not, is stored under `name`. */
    method PartyExists(name: string) returns (present: bool)
      ensures present <==> name in ws
    {
      present := name in ws;
    }

    method CreateParty(name: string) returns (out: Outcome)
      requires Valid()
      modifies this
      ensures Valid()
      ensures name in old(ws) ==> out == Fail(AlreadyExists(name)) && ws == old(ws)
      ensures name !in old(ws) ==> out == Pass && ws == Created(old(ws), name)
    {
      var present := PartyExists(name);
      if present {
        return Fail(AlreadyExists(name));
      }
      ws := ws[name := Encoded(Party(name, 0))];
      out := Pass;
    }

    method ReadParty(name: string) returns (r: Result<Party>)
      requires Valid()
      ensures name !in ws ==> r == Err(NotFound(name))
      ensures name in ws && ws[name].Undecodable? ==> r == Err(DecodeError(name))
      ensures name in ws && ws[name].Encoded? ==> r == Ok(ws[name].party)
      ensures r.Ok? ==> r.value.name == name
    {
      if name !in ws {
        return Err(NotFound(name));
      }
      match ws[name]
      case Undecodable => r := Err(DecodeError(name));
      case Encoded(p) => r := Ok(p);
    }

    /** Overwrites an existing key with `{name, count}`; the old payload is never read. */
    method UpdateParty(name: string, count: int) returns (out: Outcome)
      requires Valid()
      modifies this
      ensures Valid()
      ensures name !in old(ws) ==> out == Fail(NotFound(name)) && ws == old(ws)
      ensures name in old(ws) ==> out == Pass && ws == Updated(old(ws), name, count)
    {
      var present := PartyExists(name);
      if !present {
        return Fail(NotFound(name));
      }
      ws := ws[name := Encoded(Party(name, count))];
      out := Pass;
    }

    method DeleteParty(name: string) returns (out: Outcome)
      requires Valid()
      modifies this
      ensures Valid()
      ensures name !in old(ws) ==> out == Fail(NotFound(name)) && ws == old(ws)
      ensures name in old(ws) ==> out == Pass && ws == old(ws) - {name}
    {
      var present := PartyExists(name);
      if !present {
        return Fail(NotFound(name));
      }
      ws := ws - {name};
      out := Pass;
    }

    /** Read-modify-write of the vote count of a stored party. */
    method TransferParty(name: string, count: int) returns (out: Outcome)
      requires Valid()
      modifies this
      ensures Valid()
      ensures name !in old(ws) ==> out == Fail(NotFound(name)) && ws == old(ws)
      ensures name in old(ws) && old(ws)[name].Undecodable? ==> out == Fail(DecodeError(name)) && ws == old(ws)
      ensures name in old(ws) && old(ws)[name].Encoded? ==> out == Pass && ws == Transferred(old(ws), name, count)
    {
      var r := ReadParty(name);
      if r.Err? {
        return Fail(r.error);
      }
      var party := r.value.(voteCount := count);
      ws := ws[name := Encoded(party)];
      out := Pass;
    }

    /** Adds exactly one vote to a stored party. */
    method CastVote(name: string) returns (out: Outcome)
      requires Valid()
      modifies this
      ensures Valid()
      ensures name !in old(ws) ==> out == Fail(NotFound(name)) && ws == old(ws)
      ensures name in old(ws) && old(ws)[name].Undecodable? ==> out == Fail(DecodeError(name)) && ws == old(ws)
      ensures name in old(ws) && old(ws)[name].Encoded? ==> out == Pass && ws == Voted(old(ws), name)
    {
      var r := ReadParty(name);
      if r.Err? {
        return Fail(r.error);
      }
      var party := r.value.(voteCount := r.value.voteCount + 1);
      ws := ws[name := Encoded(party)];
      out := Pass;
    }

    /**
     * Every stored party, in key order; fails on the first record, in key
     * order, that does not decode, returning no partial list.
     */
    method GetAllPartys() returns (r: Result<seq<Party>>)
      requires Valid()
      ensures r.Ok? <==> forall k :: k in ws ==> ws[k].Encoded?
      ensures r.Ok? ==> SortedListing(ws.Keys, PartyNames(r.value))
      ensures r.Ok? ==> forall i :: 0 <= i < |r.value| ==> ws[r.value[i].name] == Encoded(r.value[i])
      ensures r.Err? ==> r.error.DecodeError? && r.error.key in ws && ws[r.error.key].Undecodable?
      ensures r.Err? ==> forall k :: k in ws && Below(k, r.error.key) ==> ws[k].Encoded?
    {
      var scan := GetStateByRange(ws);
      var parties: seq<Party> := [];
      for i := 0 to |scan|
        invariant |parties| == i
        invariant forall j :: 0 <= j < i ==> scan[j].value == Encoded(parties[j])
      {
        match scan[i].value
        case Undecodable =>
          forall k | k in ws && Below(k, scan[i].key) ensures ws[k].Encoded? {
            var j :| 0 <= j < |scan| && KeysOf(scan)[j] == k;
            if j >= i {
              if j > i {
                assert Below(scan[i].key, scan[j].key);
              }
              BelowAsymmetric(k, scan[i].key);
              BelowIrreflexive(k);
            }
          }
          return Err(DecodeError(scan[i].key));
        case Encoded(p) =>
          parties := parties + [p];
      }
      assert PartyNames(parties) == KeysOf(scan);
      r := Ok(parties);
    }
  }

  function PartyNames(ps: seq<Party>): (names: seq<string>)
    ensures |names| == |ps| && forall i :: 0 <= i < |ps| ==> names[i] == ps[i].name
  {
    seq(|ps|, i requires 0 <= i < |ps| => ps[i].name)
  }
}
