# tokens: a verified model of the token metadata pipeline

The repository builds a JSON file with metadata for the tokens listed by a
cryptocurrency catalog service. It runs in four steps:

1. **Chunking.** It fetches the catalog of all cryptocurrencies. It drops the
   native coins, i.e. the rows without a `platform`. It cuts the remaining
   token ids, in catalog order, into chunks of at most 100
   (`getTokenIdsChunks`).
2. **Fetching.** For each chunk it asks the metadata endpoint about those ids,
   passed as a comma-joined `id` query parameter. A request for more than 100
   ids is refused before it is sent.
3. **Normalising.** Each answer becomes a map from token symbol to that
   token's record (`getTokensMetadataMap`). The newer version keeps the name,
   description, logo and URL lists plus a `platform -> contract address` map.
   The legacy version keeps only the address map.
4. **Aggregating.** The per-chunk maps are combined into one. The newer
   version uses a recursive `mergeDeep`. The legacy `main` copies each chunk's
   map into the accumulator with a shallow `Object.assign`.

The model is a set of Dafny modules, one per source unit:

- `Outcomes`: the three errors the pipeline throws, with their messages, plus
  `Result`/`Option` and the `ok` status range 200-299.
- `IdsQuery`: `ids.join(",")` over the decimal numerals of the ids. A parser
  beside it proves that the query string determines the batch exactly.
- `LastWriteWins`: the map left by a sequence of assignments `m[k] = v`, and
  its laws. Both normalisers build their maps this way.
- `TokenIdsChunks`: `src/getTokenIdsChunks.ts`. The `for...of` loop is a
  method proved against an independent reference partition `Chunked`.
- `TokensMetadata`: `src/getTokensMetadataMap.ts`. The nested loops form a
  method proved equal to the specification `MetadataMap`.
- `MergeDeep`: `src/mergeDeep.ts` over a JSON value datatype. The `for...in`
  loop over the source's keys is a method proved against the recursive
  specification `Merge`.
- `LegacyPipeline`: `getTokenIdsChunks`, `getTokensMetadataMap` and `main`
  of the legacy `index.ts`.

The HTTP fetchers are parameters:

- The catalog query is constant, so the catalog fetch is modelled by its
  response (`CatalogResponse`, status and rows).
- The metadata fetcher is a total function from the request's query to a
  response. The contracts can therefore name the exact request made for each
  chunk.

Where the prose design and the code differ, the model follows the code:

- The design describes batch failures as isolated. The legacy `main`
  (`index.ts:105-114`) awaits each chunk in turn, so the first failing chunk
  aborts the whole run. `LegacyPipeline.Aggregate` and
  `LegacyPipeline.CollectFirstFailure` state exactly that.
- The design says nested address maps are unioned across chunks. That holds
  for `mergeDeep` (`MergeDeep.MergeUnionsNested`). The legacy `Object.assign`
  is shallow: a symbol's whole entry comes from the last chunk that has it
  (`LegacyPipeline.ShallowUnionLast`).
- The newer `getTokenIdsChunks` accepts exactly status 200. The legacy one
  accepts any status in 200-299 (`res.ok`). Both are modelled as written.

## Model

| member | source | states |
|---|---|---|
| IdsQuery.NatToDecimal | src/getTokensMetadataMap.ts:38 | the numeral of an id is non-empty, all digits, has no leading zero, and reads back as the id |
| IdsQuery.IntToDecimal | src/getTokensMetadataMap.ts:38 | the numeral of any integer id (sign included) never holds the separator and reads back as the id |
| IdsQuery.SplitJoin | src/getTokensMetadataMap.ts:38 | splitting a comma join of separator-free parts gives back the parts, in order |
| IdsQuery.ParseJoinIds | src/getTokensMetadataMap.ts:38 | the `id` query parameter loses nothing: parsing `ids.join(",")` gives exactly the ids, in order, the empty batch included |
| IdsQuery.JoinIdsExample | index.ts:76 | ids 1, 27, 1027 are sent as "1,27,1027" |
| LastWriteWins.AssignStep | src/getTokensMetadataMap.ts:54-60 | one more assignment `m[k] = v` updates the map at `k` only |
| LastWriteWins.AssignKeys | src/getTokensMetadataMap.ts:51-68 | after a sequence of assignments the keys present are exactly the keys assigned |
| LastWriteWins.AssignLast | src/getTokensMetadataMap.ts:51-68 | a key's value is the value of the last assignment to it |
| LastWriteWins.AssignAbsent | src/getTokensMetadataMap.ts:51-68 | a key never assigned is absent |
| LastWriteWins.AssignProjects | index.ts:88-98 | assigning `f(v)` wherever `v` was assigned gives `f` applied to every value of the original map |
| TokenIdsChunks.ChunkTokenIds | src/getTokenIdsChunks.ts:20-38 | the loop's chunks laid end to end are exactly the non-coin ids in catalog order; each chunk has 1 to 100 ids and all but the last have 100; there are ceil(N/100) of them; they equal the reference partition `Chunked` |
| TokenIdsChunks.GetTokenIdsChunks | src/getTokenIdsChunks.ts:13-38 | a status other than exactly 200 throws "Cannot get cryptocurrency ids" and nothing else does; otherwise the result is the chunking of the token ids |
| TokenIdsChunks.AppendNewChunk | src/getTokenIdsChunks.ts:30-35 | when the counter is a multiple of 100 the last chunk is full, and pushing the id onto a new chunk keeps a valid chunking |
| TokenIdsChunks.ExtendLastChunk | src/getTokenIdsChunks.ts:30-35 | otherwise a last chunk exists and has room, so pushing onto it keeps a valid chunking |
| TokenIdsChunks.ChunkingCount | src/getTokenIdsChunks.ts:20-36 | any chunking of N ids has ceil(N/100) chunks |
| TokenIdsChunks.ChunkingElements | src/getTokenIdsChunks.ts:20-36 | chunk `i` holds the ids at positions 100·i up to 100·i+100 (or the end) |
| TokenIdsChunks.ChunkingUnique | src/getTokenIdsChunks.ts:20-36 | the chunking of a given id list is unique |
| TokenIdsChunks.ChunkedIsChunking | src/getTokenIdsChunks.ts:20-36 | the reference "take 100 from the front" partition is a chunking |
| TokenIdsChunks.FlattenPrefix | src/getTokenIdsChunks.ts:30-35 | the ids before chunk `i` are the 100·i ids of the full chunks |
| TokenIdsChunks.TokenIdsMembers | src/getTokenIdsChunks.ts:24-28 | an id is kept exactly when some row with a platform carries it |
| TokenIdsChunks.TokenIdsCount | src/getTokenIdsChunks.ts:24-28 | kept ids plus skipped coins account for every catalog row |
| TokenIdsChunks.CoinsExcluded | src/getTokenIdsChunks.ts:26-28 | with unique catalog ids, no coin's id appears in any chunk |
| TokenIdsChunks.OnlyCoinsGiveNoChunks | src/getTokenIdsChunks.ts:24-38 | an empty catalog, or one made only of coins, gives no chunks |
| TokenIdsChunks.TwoHundredFiftyTokens | src/getTokenIdsChunks.ts:20-38 | 260 rows of which 10 are coins give three chunks of 100, 100 and 50 ids |
| TokensMetadata.GetTokensMetadataMap | src/getTokensMetadataMap.ts:27-71 | more than 100 ids throw the batch-size error without a request; otherwise the fetcher is asked with aux "urls,logo,description" and the comma-joined ids; a non-ok status throws "Cannot get cryptocurrency metadata"; otherwise the loops build exactly `MetadataMap` of the payload |
| TokensMetadata.ContractsStep | src/getTokensMetadataMap.ts:64-67 | one more contract sets `addresses[platform.name]` to its address and nothing else |
| TokensMetadata.AddressStep | src/getTokensMetadataMap.ts:66 | the nested assignment to `tokensMetadataMap[symbol].addresses` extends the symbol's addresses by one contract and leaves every other symbol alone |
| TokensMetadata.RecordsStep | src/getTokensMetadataMap.ts:54-60 | one more record replaces the whole entry of its symbol |
| TokensMetadata.AddressesKeys | src/getTokensMetadataMap.ts:59-67 | a record's `addresses` has exactly its contracts' platform names as keys (`{}` for no contracts) |
| TokensMetadata.AddressesLast | src/getTokensMetadataMap.ts:64-67 | `addresses[p]` is the address of the record's last contract on platform `p` |
| TokensMetadata.AddressesExample | src/getTokensMetadataMap.ts:64-67 | an ethereum and a bsc contract give both addresses |
| TokensMetadata.MetadataKeys | src/getTokensMetadataMap.ts:51-68 | the map's keys are exactly the symbols of the payload's records |
| TokensMetadata.MetadataLast | src/getTokensMetadataMap.ts:52-60 | a symbol's record comes whole from the last raw record with that symbol: name, description, logo and urls verbatim, and that record's addresses only |
| TokensMetadata.MetadataHighestId | src/getTokensMetadataMap.ts:51 | in `for...in` order (ascending numeric keys), when ids share a symbol the highest id wins |
| MergeDeep.MergeDeep | src/mergeDeep.ts:5-26 | no sources returns the target unchanged; otherwise the sources are merged in one after the other, giving `MergeAll` |
| MergeDeep.MergeSource | src/mergeDeep.ts:12-23 | the key-by-key loop over the source's keys, with its recursive calls, yields exactly `Merge(target, source)` |
| MergeDeep.MergeOneMoreKey | src/mergeDeep.ts:14-21 | visiting one more source key changes the target at that key only |
| MergeDeep.MergeUntouched | src/mergeDeep.ts:13-22 | a key the source lacks keeps the target's value |
| MergeDeep.MergeAllSingle | src/mergeDeep.ts:25 | with a single source, mergeDeep is one `Merge` |
| MergeDeep.MergeAllAppend | src/mergeDeep.ts:10-25 | sources are applied left to right: merging `a ++ b` is merging `a`, then `b` |
| MergeDeep.MergeTwoSources | src/mergeDeep.ts:10-25 | mergeDeep(t, a, b) is merging `a` and then `b` |
| MergeDeep.MergeNeedsObjects | src/mergeDeep.ts:1-3 | when the target or the source is not a plain object, the source has no effect |
| MergeDeep.MergeKeys | src/mergeDeep.ts:12-22 | merging two objects gives an object with the union of their keys, and target keys the source lacks keep their values |
| MergeDeep.MergeOverwrites | src/mergeDeep.ts:19-21 | a source value that is not a plain object replaces the target's |
| MergeDeep.MergeRecurses | src/mergeDeep.ts:14-18 | a plain-object source value is merged into the target's value, which is first replaced by `{}` when falsy or missing |
| MergeDeep.MergeUnionsNested | src/mergeDeep.ts:14-18 | nested objects on both sides end up with the union of their keys |
| MergeDeep.MergeKeepsTruthyNonObject | src/mergeDeep.ts:15-18 | a truthy non-object target value (a string, an array) is kept when the source brings an object for that key |
| MergeDeep.MergeIntoEmpty | src/mergeDeep.ts:15-18 | merging a plain object into `{}` gives a structurally equal copy of it |
| MergeDeep.MergeExample | src/mergeDeep.ts:12-22 | nested keys are unioned while scalars and arrays are overwritten |
| LegacyPipeline.GetTokenIdsChunks | index.ts:30-61 | any status in 200-299 succeeds and nothing else does; a failure is "Cannot get cryptocurrency ids"; success gives the chunking of the token ids |
| LegacyPipeline.GetTokensMetadataMap | index.ts:69-102 | more than 100 ids throw; otherwise the fetcher is asked with an empty aux and the comma-joined ids; a non-ok status throws; otherwise the loops build exactly `AddressBookOf` the payload |
| LegacyPipeline.AddressBookStep | index.ts:91-98 | one more record resets its symbol's inner map and fills it with its contracts |
| LegacyPipeline.AddressBookInnerStep | index.ts:97 | the nested assignment `tokensMetadataMap[symbol][platform.name]` extends that symbol's map by one contract and leaves every other symbol alone |
| LegacyPipeline.AddressBookLast | index.ts:88-98 | a symbol's inner map holds the addresses of the last record with that symbol and nothing else |
| LegacyPipeline.AddressBookIsMetadataAddresses | index.ts:69-102 | the legacy map is the newer normaliser's map with only `addresses` kept |
| LegacyPipeline.Aggregate | index.ts:105-114 | a catalog failure aborts; otherwise the chunks are fetched in order, the first failing chunk aborts the run with its error, and a successful run returns the shallow union of all chunk maps in chunk order |
| LegacyPipeline.CollectAborts | index.ts:110-112 | once a chunk has failed, later chunks do not change the outcome |
| LegacyPipeline.CollectStep | index.ts:110-112 | one more chunk either ends the run with its error or adds its map to the collected ones |
| LegacyPipeline.CollectSuccess | index.ts:110-112 | when no chunk fails, every chunk's map is collected, in chunk order |
| LegacyPipeline.CollectFirstFailure | index.ts:110-112 | the first failing chunk's error is the run's error |
| LegacyPipeline.CollectOkHasNoFailure | index.ts:110-112 | a successful run had no failing chunk |
| LegacyPipeline.ChunksWithinLimit | index.ts:70-72 | the chunker never hands a request more than 100 ids, so the batch-size error cannot occur in a run |
| LegacyPipeline.ShallowUnionKeys | index.ts:112 | the accumulator holds exactly the symbols of all chunk maps |
| LegacyPipeline.ShallowUnionStep | index.ts:112 | `Object.assign` of one more chunk map overrides the accumulator at that map's keys |
| LegacyPipeline.ShallowUnionLast | index.ts:112 | a symbol's entry comes whole from the last chunk that has it (the assign is shallow) |

## Left out

- `src/index.ts` is not part of this model. It holds the command-line options, the Bottleneck rate limiter, the concurrent `Promise.allSettled` over the chunks and the file write. Concurrency and completion order are outside the model. Its use of `mergeDeep` is covered by the `MergeDeep` laws.
- `openapi.ts` (client generation) is not part of this model.
- The glue in `index.ts` is not modelled: environment variables, DNS prefetch, `sleep`, the API-key header, `JSON.stringify` and `Bun.write`. None of it affects the map.
- The fetch transport and JSON parsing: the responses are inputs. The catalog request's constant query (`aux=platform`, `sort=cmc_rank`, URL paths) is not modelled.
- Malformed payloads are not modelled. The source reads `any` without validation. The model assumes well-typed rows: a `platform` that is an object or null, a `contract_address` list, and string symbols.
- `TokenIdsChunks.IsCoin`: other falsy `platform` values (`0`, `""`, `false`) are folded into "absent".
- Key insertion order of JavaScript objects is not modelled. Maps are unordered, so the order of keys in the written JSON is not captured. `for...in` over the numeric payload keys is modelled as a sequence, assumed ascending in `TokensMetadata.MetadataHighestId`.
- `MergeDeep.MergeDeep`, `MergeDeep.MergeSource`: modelled on values. In-place mutation of the target, aliasing between target and sources, and the consumption of the `sources` array by `shift` are not captured.
- `MergeDeep.IsObject`: a plain object is one built by `Object`. Special keys such as `__proto__`, inherited properties, class instances that pass the constructor-name test, and `NaN` (numbers are reals) are not modelled.
- Both variants of `getTokenIdsChunks` run the same loop, so both use the single method `TokenIdsChunks.ChunkTokenIds`.
