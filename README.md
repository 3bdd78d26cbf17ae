# Ledger-backed record stores: vote tally, real-estate registry, RBAC

This project models three Hyperledger Fabric chaincode contracts written in Go. Each one works on its own
namespace of the ledger's world state, a flat table from string keys to JSON-encoded records:

- `e-vote/party.go` is a vote tally. It creates, reads, updates, deletes and lists `Party` records
  keyed by party name, and adds one vote at a time.
- `fabre/fabre.go` is a real-estate registry. It seeds nine `RealEstate` records under "RE0" .. "RE8",
  adds records under caller-chosen numbers, and changes an owner or a price.
- `rbac/rbac.go` is an RBAC store. Users, projects, tasks, permissions, roles, RBAC models and RBAC
  matrices all share one namespace. Each record is stored under its own id.

Each contract is a Dafny class whose one field `ws` is its namespace. The field is a map from key to
record: `Stored` in the vote tally, `RealEstate` in the registry, and the tagged union `Record` in RBAC.
Every operation is a method.

- A mutating method states its error cases and what it writes. Its new `ws` is given in terms of a
  specification function of the old one (`Created`, `Voted`, `WithOwner`, `WithUserActive`, ...). Lemmas
  and preserved invariants then prove what those functions promise.
- The ledger's open range scan `GetStateByRange("", "")` is modelled once, in `world_state.dfy`. The
  method picks the least remaining key in each round. It is proved to return every entry exactly once,
  in strictly ascending key order (for keys beginning with U+0000, see "Left out"). The lemma
  `SortedListingUnique` shows that this listing is the only one possible.
- Every "query all" operation is a loop over that scan. Each is proved to list the whole namespace in
  key order.

What the code does, and therefore what the model does:

- The RBAC creates and `AddRe` do not check whether the key exists; they overwrite.
- Project creation does not cascade into role records.
- There is no `assignPermissions` operation, and no ids are generated.
- A vote count is any Go `int`, including a negative one passed to `UpdateParty` or `TransferParty`.
- The RBAC and registry "query all" scans never fail on a record that does not decode: the decode
  error is discarded.

## Model

| member | source | states |
|---|---|---|
| WorldState.BelowTransitive | e-vote/party.go:166 | The key order the range scan follows is transitive. |
| WorldState.BelowTotal | e-vote/party.go:166 | Any two distinct keys are ordered one way or the other, so the scan order is total. |
| WorldState.BelowIrreflexive | e-vote/party.go:166 | No key comes before itself. |
| WorldState.BelowAsymmetric | e-vote/party.go:166 | The scan order never puts two keys each before the other. |
| WorldState.SortedListingSize | e-vote/party.go:166 | An ascending listing of a key set has exactly one entry per key. |
| WorldState.SortedListingUnique | e-vote/party.go:164-166 | Two ascending listings of the same key set are equal, so an open range scan fixes the result order. |
| WorldState.SortedListingDrop | e-vote/party.go:173-185 | Removing the first key of an ascending listing leaves an ascending listing of the remaining keys. |
| WorldState.LeastKey | fabre/fabre.go:110-111 | Returns a member of a non-empty key set that comes before every other member. |
| WorldState.GetStateByRange | fabre/fabre.go:101-122 | The open range scan yields every key of the namespace once, in strictly ascending order, each with its stored value. |
| VoteTally.InitialParties | e-vote/party.go:23-26 | The seed parties all start with 0 votes. |
| VoteTally.PutParties | e-vote/party.go:28-38 | Writing parties under their own names keeps every record under its own name and keeps every existing key. |
| VoteTally.Created | e-vote/party.go:53-62 | Adds exactly the key `name`, holding `{name, 0}`; every other key keeps its record. |
| VoteTally.Updated | e-vote/party.go:94-104 | Afterwards `name` holds `{name, count}`, whatever it held before; every other key keeps its record. |
| VoteTally.Transferred | e-vote/party.go:137-143 | The stored party keeps its name and takes the new count; the key set and every other key stay as they were. |
| VoteTally.Voted | e-vote/party.go:153-159 | The stored count c becomes c + 1 and the name is kept; the key set and every other key stay as they were. |
| VoteTally.VotedTimes | e-vote/party.go:147-160 | n successive votes add exactly n to one party and touch no other key. |
| VoteTally.FreshPartyCountsVotes | e-vote/party.go:53-62 | A party created fresh and then voted for n times holds exactly n votes under its own name. |
| VoteTally.UpdateOverwrites | e-vote/party.go:94-104 | Two updates in a row leave only the second count; no history is kept. |
| VoteTally.TransferIsUpdate | e-vote/party.go:131-144 | When every record sits under its own name, a transfer of a decodable party writes the same store as an update. |
| VoteTally.VoteIsTransfer | e-vote/party.go:147-160 | A vote is a transfer to the current count plus one. |
| VoteTally.PartyContract.InitLedger | e-vote/party.go:22-41 | "Republicans" and "Democrats" hold 0 votes each; every other key keeps its record; the invariant that every party sits under its own name is kept. |
| VoteTally.PartyContract.PartyExists | e-vote/party.go:121-128 | True exactly when something, decodable or not, is stored under the name. |
| VoteTally.PartyContract.CreateParty | e-vote/party.go:44-63 | On an existing name it fails with "already exists" and writes nothing; otherwise it stores `{name, 0}` and nothing else. |
| VoteTally.PartyContract.ReadParty | e-vote/party.go:66-82 | Absent gives "does not exist", undecodable bytes give a decode error, otherwise the stored party, whose name is the key. |
| VoteTally.PartyContract.UpdateParty | e-vote/party.go:85-105 | On an absent name it fails and writes nothing; otherwise it overwrites with `{name, count}` without reading the old payload. |
| VoteTally.PartyContract.DeleteParty | e-vote/party.go:108-118 | On an absent name it fails and writes nothing; otherwise it removes exactly that key. |
| VoteTally.PartyContract.TransferParty | e-vote/party.go:131-144 | Fails like `ReadParty` with no write; otherwise replaces the count and keeps the name. |
| VoteTally.PartyContract.CastVote | e-vote/party.go:147-160 | Fails like `ReadParty` with no write; otherwise adds one vote to that party only. |
| VoteTally.PartyContract.GetAllPartys | e-vote/party.go:163-188 | Succeeds exactly when every record decodes. It then returns one party per key, in key order. Otherwise it fails on the first undecodable key in key order, with no partial list. |
| RealEstateRegistry.Itoa | fabre/fabre.go:52 | Decimal notation is non-empty and all digits. |
| RealEstateRegistry.ItoaValue | fabre/fabre.go:52 | Reading the digits `Itoa(n)` writes back as a decimal number gives `n`. |
| RealEstateRegistry.SeedKeySpelling | fabre/fabre.go:52 | The `i`-th seed key is "RE" followed by digits whose decimal value is `i`. |
| RealEstateRegistry.SeedKeyInjective | fabre/fabre.go:52 | Distinct seed indices below ten give distinct keys "RE"+i. |
| RealEstateRegistry.InitialEstates | fabre/fabre.go:38-48 | Nine seed records, every one owned by "Agency". |
| RealEstateRegistry.SeedKeys | fabre/fabre.go:50-52 | The i-th seed key is "RE" followed by the decimal i. |
| RealEstateRegistry.SeedKeysDistinct | fabre/fabre.go:50-52 | The first ten seed keys are pairwise distinct, so no seed write overwrites another. |
| RealEstateRegistry.SeededContents | fabre/fabre.go:50-57 | Writing n records under n distinct keys adds exactly those keys, the i-th holding the i-th record, and leaves every other key as it was. |
| RealEstateRegistry.NineSeedKeys | fabre/fabre.go:50-52 | The nine seed keys are "RE0" .. "RE8". |
| RealEstateRegistry.Added | fabre/fabre.go:63-76 | The key holds the new record with owner "Agency" whatever it held before; every other key keeps its record. |
| RealEstateRegistry.WithOwner | fabre/fabre.go:135-139 | Only the owner of that one record changes; the other five fields and every other key stay as they were. |
| RealEstateRegistry.WithPrice | fabre/fabre.go:150-154 | Only the price of that one record changes; the other five fields and every other key stay as they were. |
| RealEstateRegistry.OwnerChangeIdempotent | fabre/fabre.go:128-140 | Changing an owner twice to the same value writes the same store as changing it once. |
| RealEstateRegistry.OwnerAndPriceCommute | fabre/fabre.go:128-155 | An owner change and a price change on the same record commute. |
| RealEstateRegistry.RealEstateContract.InitLedger | fabre/fabre.go:37-60 | Writes exactly the nine seed keys, each holding its seed record owned by "Agency"; every other key keeps its record. |
| RealEstateRegistry.RealEstateContract.AddRe | fabre/fabre.go:63-76 | An unconditional put that overwrites any prior record and always sets the owner to "Agency". |
| RealEstateRegistry.RealEstateContract.QueryRe | fabre/fabre.go:79-94 | Fails with "does not exist" on an absent key; otherwise returns the stored record. |
| RealEstateRegistry.RealEstateContract.QueryAllRes | fabre/fabre.go:97-125 | One (key, record) pair per stored key, in ascending key order, each record the one stored under its key. |
| RealEstateRegistry.RealEstateContract.ChangeReOwner | fabre/fabre.go:128-140 | Fails with no write on an absent key; otherwise changes only that record's owner. |
| RealEstateRegistry.RealEstateContract.ChangeRePrice | fabre/fabre.go:143-155 | Fails with no write on an absent key; otherwise changes only that record's price. |
| Rbac.PutAll | rbac/rbac.go:118-215 | A run of creates adds exactly the keys it writes. |
| Rbac.SinglePut | rbac/rbac.go:118-215 | A run of one create is the single map update each `Create*` method states. |
| Rbac.PutAllSnoc | rbac/rbac.go:118-215 | One more create after a run overwrites just its own key of the run's store. |
| Rbac.UnwrittenKeyKeepsRecord | rbac/rbac.go:179-203 | A key that no later create writes keeps its record exactly. So a stored Role's permission list and a stored RbacModel's role are snapshots that later creates do not reach. |
| Rbac.LastPutWins | rbac/rbac.go:118-215 | After a run of creates, a key holds what the last create to it wrote, whatever kind was there before. |
| Rbac.WithUserActive | rbac/rbac.go:568-572 | Only the user's active status changes; the key set and every other key stay as they were; records stay under their own ids. |
| Rbac.WithProjectActive | rbac/rbac.go:583-587 | Only the project's active status changes; the key set and every other key stay as they were; records stay under their own ids. |
| Rbac.DecodeUser | rbac/rbac.go:229-230 | Decoding a User record as a User gives back exactly that user. |
| Rbac.DecodeProject | rbac/rbac.go:247-248 | Decoding a Project record as a Project gives back exactly that project. |
| Rbac.DecodeTask | rbac/rbac.go:265-266 | Decoding a Task record as a Task gives back exactly that task. |
| Rbac.DecodePerm | rbac/rbac.go:283-284 | Decoding a Permission record as a Permission gives back exactly that permission. |
| Rbac.DecodeRole | rbac/rbac.go:301-302 | Decoding a Role record as a Role gives back exactly that role. |
| Rbac.DecodeRbacModel | rbac/rbac.go:319-320 | Decoding an RbacModel record as an RbacModel gives back exactly that model. |
| Rbac.DecodeRbacMatrix | rbac/rbac.go:337-338 | Decoding an RbacMatrix record as an RbacMatrix gives back exactly that matrix. |
| Rbac.RbacContract.CreateUser | rbac/rbac.go:118-129 | An unconditional put of the user under its uid, replacing a record of any kind; records stay under their own ids. |
| Rbac.RbacContract.CreateProject | rbac/rbac.go:132-144 | An unconditional put of the project under its pid, with no cascading role records. |
| Rbac.RbacContract.CreateTask | rbac/rbac.go:147-164 | An unconditional put of the task under its tid. |
| Rbac.RbacContract.CreatePerm | rbac/rbac.go:167-176 | An unconditional put of the permission under its permId. |
| Rbac.RbacContract.CreateRole | rbac/rbac.go:179-189 | An unconditional put of the role, with its permission list embedded by value, under its rid. |
| Rbac.RbacContract.CreateRbacModel | rbac/rbac.go:192-203 | An unconditional put of the RBAC model, with its role embedded by value, under its rmid. |
| Rbac.RbacContract.CreateRbacMatrix | rbac/rbac.go:206-215 | An unconditional put of the RBAC matrix under its mid. |
| Rbac.RbacContract.QueryUser | rbac/rbac.go:218-233 | Fails with "does not exist" on an absent key; otherwise succeeds; on a User record it returns exactly that user. |
| Rbac.RbacContract.QueryProject | rbac/rbac.go:236-251 | Fails with "does not exist" on an absent key; otherwise succeeds; on a Project record it returns exactly that project. |
| Rbac.RbacContract.QueryTask | rbac/rbac.go:254-269 | Fails with "does not exist" on an absent key; otherwise succeeds; on a Task record it returns exactly that task. |
| Rbac.RbacContract.QueryPerm | rbac/rbac.go:272-287 | Fails with "does not exist" on an absent key; otherwise succeeds; on a Permission record it returns exactly that permission. |
| Rbac.RbacContract.QueryRole | rbac/rbac.go:290-305 | Fails with "does not exist" on an absent key; otherwise succeeds; on a Role record it returns exactly that role. |
| Rbac.RbacContract.QueryRbacModel | rbac/rbac.go:308-323 | Fails with "does not exist" on an absent key; otherwise succeeds; on an RbacModel record it returns exactly that model. |
| Rbac.RbacContract.QueryRbacMatrix | rbac/rbac.go:326-341 | Fails with "does not exist" on an absent key; otherwise succeeds; on an RbacMatrix record it returns exactly that matrix. |
| Rbac.RbacContract.QueryAllUsers | rbac/rbac.go:344-372 | One entry per key of the whole namespace, whatever kind is stored there, in key order; User records come back exactly. |
| Rbac.RbacContract.QueryAllProjects | rbac/rbac.go:375-403 | One entry per key of the whole namespace, in key order; Project records come back exactly. |
| Rbac.RbacContract.QueryAllTasks | rbac/rbac.go:406-434 | One entry per key of the whole namespace, in key order; Task records come back exactly. |
| Rbac.RbacContract.QueryAllPerms | rbac/rbac.go:437-465 | One entry per key of the whole namespace, in key order; Permission records come back exactly. |
| Rbac.RbacContract.QueryAllRoles | rbac/rbac.go:468-496 | One entry per key of the whole namespace, in key order; Role records come back exactly. |
| Rbac.RbacContract.QueryAllRbacModels | rbac/rbac.go:499-527 | One entry per key of the whole namespace, in key order; RbacModel records come back exactly. |
| Rbac.RbacContract.QueryAllRbacMatrices | rbac/rbac.go:530-558 | One entry per key of the whole namespace, in key order; RbacMatrix records come back exactly. |
| Rbac.RbacContract.ChangeUserActiveStatus | rbac/rbac.go:561-573 | Fails with no write on an absent key. Otherwise the key holds a User with the new active status and no other key changes. On a User record only `active` changes. |
| Rbac.RbacContract.ChangeProjectActiveStatus | rbac/rbac.go:576-588 | Fails with no write on an absent key. Otherwise the key holds a Project with the new active status and no other key changes. On a Project record only `active` changes. |
| Rbac.CreateThenQueryUser | rbac/rbac.go:118-129 | A created user reads back with exactly the fields written. |
| Rbac.RoleKeepsPermissionCopy | rbac/rbac.go:167-189 | Re-creating a permission with a new meaning does not change a role that embedded the old copy. |
| Rbac.CreateOverwritesOtherKind | rbac/rbac.go:118-176 | A create under a key that holds a record of another kind replaces it, and the new record reads back exactly. |

## Left out

- Store failures are not modelled. These are errors from `GetState`, `PutState`, `DelState`, `GetStateByRange` and the iterator's `Next`. Also left out is the ledger's rejection of an empty key in `PutState`. Every ledger call here succeeds.
- The JSON codec is not modelled; records are stored as typed values, and encoding then decoding is taken to give back the same record. The vote tally keeps one extra case, bytes that do not decode (`Undecodable`), so that its decode-error branches are modelled.
- Rbac.RbacContract.QueryUser: like every RBAC `Query*`, `QueryAll*` and `Change*ActiveStatus`, it can read a record of another kind. Go's `json.Unmarshal` ignores unknown fields, and the seven record types share no field name with a conflicting type (rbac/rbac.go:25-97). So such a read raises no error and quietly returns the fields the two kinds share, such as `pid`, `uid` and `active`. The model leaves that value unspecified and states exactly what holds for a record of the requested kind. The discarded decode error only matters for malformed bytes, which the typed store cannot hold.
- Keys beginning with U+0000 are not modelled. The ledger starts an open range scan just above U+0000, so such a key would be missing from every `QueryAll*` and from `GetAllPartys`. The model's scan lists every key.
- RealEstateRegistry.RealEstateContract.QueryRe: the decode error is discarded at fabre/fabre.go:91 and 118, so a record that does not decode would come back empty. The registry's store is typed, so the model has no such record.
- VoteTally.PartyContract.CastVote: Go's `int` wraps around at 64 bits. The model uses unbounded integers, so it does not model overflow after 2^63 - 1 votes.
- Transaction atomicity, MVCC read-set conflict detection and concurrent callers belong to the Fabric runtime, not to this code. The check-then-write in `CreateParty` is modelled as one step.
- `main`, `contractapi.NewChaincode`, `Start`, the contract type and the iterator's `Close` are process plumbing.
- The code has no generated ids, no cascading role creation on project create, no `assignPermissions`, no existence check on RBAC creates and no per-kind key prefixes. The model has none of them either.
