# Service-discovery bookkeeping of the game backend, in Dafny

This project models the service-discovery core of a Go game backend, plus the lookups over the game server configuration:

- **Registration key.** A server instance (`Server`: name, address, optional version, weight, lease TTL) is published under the key `"/name/addr"`, or `"/name/version/addr"` when it has a version (`DiscoveryServer`).
- **Resolver address list.** On the client side the resolver keeps a list of `(address, weight)` entries for one service (`DiscoveryResolver`):
  - it builds the list from a prefix scan of the store;
  - it folds each batch of watch events into the list: a Put appends an address that is not yet present, and a Delete removes an entry by address;
  - it hands the list to the RPC client (a "push") after every real change.
- **Game server configuration.** Two first-match connector lookups, and the grouping of the backend servers by server type (`GameConfig`).

The record decoders `ParseValue` (stored value to `Server`) and `ParseKey` (key to `Server`) are not part of this model. The resolver's operations take them as function parameters returning an `Option`. `DiscoveryServer.DecodeKey` is a reference key decoder, used only for the key round trip:
- split on `/` and drop the empty pieces;
- two segments give name and address;
- three segments give name, version and address;
- any other count is an invalid key.

The sink (the RPC client's `UpdateState`) is modelled as the sequence of lists pushed to it, in order.

Two facts of the code shape the model:
- **Duplicates from the scan.** `sync` does not merge equal addresses (resolver.go:61-71): `ScannedWhenAllDecode` gives one entry per decodable value.
- **Decode failures during a batch.** `update` does not skip an event whose decode failed (resolver.go:111-114, 131-134): it logs the error and goes on using the result, so `Update` requires every event of the batch to decode.

The project has four modules, one file each: `Optional` (optional.dfy), `DiscoveryServer` (discovery_server.dfy), `DiscoveryResolver` (discovery_resolver.dfy) and `GameConfig` (game_config.dfy).

## Model

| member | source | states |
|---|---|---|
| `DiscoveryServer.BuildRegisterKey` | common/discovery/server.go:13-18 | The key always starts with `/`. Its length is the name and address lengths plus two separators, plus the version and one more separator when there is a version. |
| `DiscoveryServer.KeySegments` | common/discovery/server.go:13-18 | For a non-empty, slash-free name and address and a slash-free version, the key splits into exactly `[name, addr]` (no version) or `[name, version, addr]`: 2 or 3 segments. |
| `DiscoveryServer.DecodeKey` | common/discovery/resolver.go:131 | The reference decoder accepts a key exactly when it has 2 or 3 non-empty segments. What it yields is well-formed and carries weight and TTL 0. |
| `DiscoveryServer.KeyRoundTrip` | common/discovery/server.go:13-18 | Decoding the key of a well-formed record recovers its name, version and address (weight and TTL are not in the key). |
| `DiscoveryServer.KeyIdentity` | common/discovery/server.go:13-18 | For well-formed records, two keys are equal if and only if the records agree on name, version and address. Weight and TTL never affect the key, and distinct triples never share a key. |
| `DiscoveryResolver.Exist` | common/discovery/resolver.go:161-168 | True if and only if some entry has the probe's address; the weight is ignored. |
| `DiscoveryResolver.Remove` | common/discovery/resolver.go:170-178 | `ok` if and only if some entry has the address. On a match the result is one shorter; the first matching position holds the former last entry and every other position is unchanged. The multiset of entries loses exactly that one entry, so later entries with the same address remain. Without a match the result is the nil (empty) list and false. |
| `DiscoveryResolver.RemovedAtMultiset` | common/discovery/resolver.go:173-174 | Overwriting position `i` with the last entry and truncating removes exactly `list[i]` from the multiset of entries. |
| `DiscoveryResolver.HandleEvent` | common/discovery/resolver.go:109-147 | One event of the loop body gives the list and change flag of the step function `ApplyEvent`. A Put of an absent address appends it with its weight. A Delete removes the first entry with the key's address. |
| `DiscoveryResolver.Update` | common/discovery/resolver.go:107-149 | The final list and the pushes equal the in-order fold `Fold` of the batch over the given starting list. |
| `DiscoveryResolver.PutEvent` | common/discovery/resolver.go:110-127 | A Put of an absent address appends exactly `(Addr, Weight)` at the end and pushes that list once. A Put of a present address leaves the list, including the old weight, unchanged and pushes nothing. |
| `DiscoveryResolver.DeleteEvent` | common/discovery/resolver.go:129-146 | A Delete of a present address removes exactly the first matching entry: the list is one shorter and the multiset loses that entry. It pushes the new list once, and the address is gone when the list had no duplicates. A Delete of an absent address changes nothing and pushes nothing. |
| `DiscoveryResolver.ApplyEventChangedIff` | common/discovery/resolver.go:119-143 | A step reports a change (and so pushes) if and only if the list it leaves differs from the list it was given. |
| `DiscoveryResolver.FoldPushesAreChanges` | common/discovery/resolver.go:107-149 | The pushes of a batch are exactly the lists after each event that differ from the list before it, in order: one push per real change, each carrying the list right after that change. The final list is the list after the last event. |
| `DiscoveryResolver.FoldKeepsNoDup` | common/discovery/resolver.go:119-140 | If the starting list has no duplicate address, neither has the final list nor any pushed list. |
| `DiscoveryResolver.FoldKeepsUndeleted` | common/discovery/resolver.go:137-140 | An entry whose address no Delete of the batch names is still in the final list and in every pushed list. |
| `DiscoveryResolver.Sync` | common/discovery/resolver.go:60-71 | The list built by sync equals `Scanned`: it starts empty and appends one entry per scanned value that decodes, in scan order. |
| `DiscoveryResolver.ScannedConcat` | common/discovery/resolver.go:61-71 | Scanning two runs of values one after the other gives the two lists one after the other, so the scan order is kept. |
| `DiscoveryResolver.ScannedOne` | common/discovery/resolver.go:62-70 | A single value gives its `(Addr, Weight)` entry when it decodes, and nothing when it does not (skipped). |
| `DiscoveryResolver.ScannedWhenAllDecode` | common/discovery/resolver.go:60-71 | When every value decodes, there is one entry per value in scan order, and equal addresses are not merged. |
| `DiscoveryResolver.ScannedFromDecodedValues` | common/discovery/resolver.go:62-71 | Every entry of the built list comes from some scanned value that decodes. |
| `DiscoveryResolver.ScanThenDeleteScenario` | common/discovery/resolver.go:25-146 | Two records with different addresses (such as `/user/10.0.0.1:9000` with weight 1 and `/user/v2/10.0.0.2:9000` with weight 2) are scanned in that order, then a batch deletes the first key, decoded by `DecodeKey`. The scan lists both. With the list kept between calls (`Run`), the Delete leaves only the second address and pushes it exactly once. As written, the only push is the scan of both addresses: the Delete meets the empty list and pushes nothing. |
| `DiscoveryResolver.RunOneBatch` | common/discovery/resolver.go:83-105 | A single watch batch: with the list kept between calls it is folded over the current list; as written it is folded over the empty list. |
| `DiscoveryResolver.ValueReceiversLoseScannedAddressOnPut` | common/discovery/resolver.go:25-45 | As written, after a scan of address A, a Put of another address B pushes `[B]`. With the list kept between calls it pushes `[A, B]`. |
| `DiscoveryResolver.ValueReceiversMissDeleteOfScannedAddress` | common/discovery/resolver.go:107-146 | As written, a Delete of a scanned address pushes nothing. With the list kept between calls it pushes the emptied list. |
| `DiscoveryResolver.Resolver.Build` | common/discovery/resolver.go:25-45 | With the list kept between calls: the initial scan becomes the list and is pushed once. |
| `DiscoveryResolver.Resolver.Resync` | common/discovery/resolver.go:98-101 | With the list kept between calls: a tick replaces the list by its scan and pushes it. |
| `DiscoveryResolver.Resolver.Apply` | common/discovery/resolver.go:93-96 | With the list kept between calls: a watch batch is folded over the kept list and its pushes are appended to the client's. |
| `DiscoveryResolver.Resolver.Watch` | common/discovery/resolver.go:83-105 | With the list kept between calls: a finite run of loop inputs leaves the list and pushes given by `Run`, which threads the list from input to input. |
| `DiscoveryResolver.ScanPrefixAsWrittenMatchesOtherService` | common/discovery/resolver.go:39 | As written, the scan prefix for service `user` is `/user`, and it also matches the key of service `username`. |
| `DiscoveryResolver.ScanPrefixSelectsService` | common/discovery/resolver.go:55 | With the prefix `/service/`, a well-formed record's key is in the scan if and only if the record belongs to that service. |
| `GameConfig.Config.GetConnector` | framework/game/config.go:70-77 | Returns the first connector with the given id, or None (nil) if and only if no connector has it. The configuration is not modified. |
| `GameConfig.Config.GetConnectorByServerType` | framework/game/config.go:78-85 | Returns the first connector with the given server type, or None (nil) if and only if no connector has it. The configuration is not modified. |
| `GameConfig.Config.TypeServerConfig` | framework/game/config.go:113-125 | With no servers nothing changes, and a nil map stays nil. Otherwise the map (created if nil) becomes `Grouped(old map, servers)`, and every other field is unchanged. |
| `GameConfig.GroupedLists` | framework/game/config.go:118-123 | After grouping, each type's list is its old list (empty if absent) followed by the servers of that type, in `Servers` order. |
| `GameConfig.GroupedKeys` | framework/game/config.go:118-123 | No type is removed. The keys afterwards are the old keys plus the types that occur, and a type that does not occur keeps its old list. |
| `GameConfig.GroupedTotal` | framework/game/config.go:118-123 | Grouping adds exactly one entry per server to the total over all lists. |
| `GameConfig.GroupedNotIdempotent` | framework/game/config.go:113-125 | For non-empty servers, grouping twice differs from grouping once. |

## Findings

| source | as written | input that shows it | evidently intended | confidence | as-written member | corrected member |
|---|---|---|---|---|---|---|
| common/discovery/resolver.go:25-149 | `Build`, `sync`, `watch` and `update` have value receivers. `sync` fills only its own copy of the resolver. The copy `watch` runs on keeps the nil list that `NewResolver` made, so every batch is folded over the empty list. | Scan `[A]`, then batch `[Put B]`: the client receives `[B]` and loses A. Scan `[A]`, then batch `[Delete A]`: nothing is pushed. | The list is kept across sync and batches (pointer receivers): push `[A, B]`, then `[]`. | not executed; high | `DiscoveryResolver.PushesAsWritten`, `DiscoveryResolver.ValueReceiversLoseScannedAddressOnPut`, `DiscoveryResolver.ValueReceiversMissDeleteOfScannedAddress` | `DiscoveryResolver.Resolver.Watch`, `DiscoveryResolver.Run`, `DiscoveryResolver.FoldKeepsUndeleted` |
| common/discovery/resolver.go:39-55 | The scan and watch prefix is the target path `/user`, with no trailing `/`. | The key `/username/10.0.0.3:9000` of service `username` is returned by the scan for `user`. | The prefix `/user/` selects exactly the keys of service `user`. | not executed; medium | `DiscoveryResolver.ScanPrefixAsWritten`, `DiscoveryResolver.ScanPrefixAsWrittenMatchesOtherService` | `DiscoveryResolver.ScanPrefix`, `DiscoveryResolver.ScanPrefixSelectsService` |

## Left out

- The registrar (common/discovery/register.go) is not modelled: lease grant, keep-alive stream, Put/Delete/Revoke and its ticker loop are calls into the store client. Its only local logic is the key, which `BuildRegisterKey` models.
- The resolver's store connection, `Get`/`Watch` calls, channels, ticker and goroutine (`Build`, `watch`, `Close`) are not modelled. Scans and watch batches are given as sequences. `Resolver.Watch` runs over a finite run of inputs. The close case, which calls `Close` and then keeps looping, is not modelled.
- `ParseValue` and `ParseKey` are not part of this model. They are parameters, and `Update` requires every event of a batch to decode, because the code does not skip an event whose decode failed. What happens after a failed decode depends on their error results.
- Failures of the store scan and of `UpdateState` (logged or returned by `sync`) are not modelled. The sink accepts every push.
- Pushed lists are values. In the code, `Remove` writes into the slice's backing array, which a list already handed to the client may share. That aliasing is not captured.
- `Remove` returns the empty list where the code returns a nil slice. Only the weight attribute of an address is modelled.
- The connector lookups return the entry's value, not the pointer into the configuration. A nil entry in the connector list is not modelled.
- `InitConfig`, `readServesConfig` and `readGameConfig` (directory reads, unmarshalling, file-change callbacks) are not modelled, nor is the `map[string]any` game configuration.
- `Scheme` returns a constant and has nothing to verify.
- The RPC client setup, application startup, HTTP gateway, account service, data access, logging, metrics and error-code tables are outside this core.
