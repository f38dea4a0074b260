/**
 * The older single-file pipeline: the same identifier chunking (with an
 * `ok` status check), a flatter normaliser `symbol -> platform -> address`,
 * and a sequential driver that fetches chunk after chunk and copies each
 * chunk's map into one accumulator with a shallow `Object.assign`.
 */
module LegacyPipeline {
  import opened Outcomes
  import IdsQuery
  import LastWriteWins
  import TokenIdsChunks
  import TokensMetadata

  /** `symbol -> platform name -> contract address`. */
  type AddressBook = map<string, map<string, string>>

  /** The legacy request sets `aux` to the empty string. */
  const LegacyAux := ""

  function LegacyQuery(ids: seq<int>): TokensMetadata.Query
  {
    TokensMetadata.Query(LegacyAux, IdsQuery.JoinIds(ids))
  }

  // ---------------------------------------------------------------------------
  // getTokenIdsChunks

  /** getTokenIdsChunks: any status outside 200-299 throws; otherwise the chunks. */
  method GetTokenIdsChunks(response: TokenIdsChunks.CatalogResponse) returns (r: Result<seq<seq<int>>>)
    ensures IsOkStatus(response.status) <==> r.Ok?
    ensures r.Err? ==> r.error == CatalogFetchFailed
    ensures r.Ok? ==> TokenIdsChunks.IsChunking(r.value, TokenIdsChunks.TokenIds(response.data))
    ensures r.Ok? ==> r.value == TokenIdsChunks.Chunked(TokenIdsChunks.TokenIds(response.data))
  {
    if !IsOkStatus(response.status) {
      return Err(CatalogFetchFailed);
    }
    var chunks := TokenIdsChunks.ChunkTokenIds(response.data);
    r := Ok(chunks);
  }

  // ---------------------------------------------------------------------------
  // getTokensMetadataMap

  function AddressPairs(data: seq<TokensMetadata.RawRecord>): (kvs: seq<(string, map<string, string>)>)
    ensures |kvs| == |data|
  {
    seq(|data|, k requires 0 <= k < |data| => (data[k].symbol, TokensMetadata.Addresses(data[k].contracts)))
  }

  /** `tokensMetadataMap[symbol] = {}` then one address per contract, for each record in turn. */
  function AddressBookOf(data: seq<TokensMetadata.RawRecord>): AddressBook
  {
    LastWriteWins.Assign(AddressPairs(data))
  }

  /**
   * getTokensMetadataMap: more than 100 ids throw; otherwise the fetcher is
   * asked for the comma-joined ids, a response that is not ok throws, and the
   * payload becomes the address book.
   */
  method GetTokensMetadataMap(ids: seq<int>, fetcher: TokensMetadata.Query -> TokensMetadata.MetadataResponse)
    returns (r: Result<AddressBook>)
    ensures |ids| > TokensMetadata.MaxIds ==> r == Err(TooManyIds)
    ensures |ids| <= TokensMetadata.MaxIds && !IsOkStatus(fetcher(LegacyQuery(ids)).status) ==>
              r == Err(MetadataFetchFailed)
    ensures |ids| <= TokensMetadata.MaxIds && IsOkStatus(fetcher(LegacyQuery(ids)).status) ==>
              r == Ok(AddressBookOf(fetcher(LegacyQuery(ids)).data))
  {
    if |ids| > TokensMetadata.MaxIds {
      return Err(TooManyIds);
    }
    var response := fetcher(TokensMetadata.Query(LegacyAux, IdsQuery.JoinIds(ids)));
    if !IsOkStatus(response.status) {
      return Err(MetadataFetchFailed);
    }
    var data := response.data;
    var tokens: AddressBook := map[];
    for i := 0 to |data|
      invariant tokens == AddressBookOf(data[..i])
    {
      var symbol := data[i].symbol;
      tokens := tokens[symbol := map[]];
      var contracts := data[i].contracts;
      for j := 0 to |contracts|
        invariant tokens == AddressBookOf(data[..i])[symbol := TokensMetadata.Addresses(contracts[..j])]
      {
        var contract := contracts[j];
        AddressBookInnerStep(AddressBookOf(data[..i]), symbol, contracts, j);
        tokens := tokens[symbol := tokens[symbol][contract.platformName := contract.contractAddress]];
      }
      assert contracts[..|contracts|] == contracts;
      AddressBookStep(data, i);
    }
    assert data[..|data|] == data;
    r := Ok(tokens);
  }

  /** `tokensMetadataMap[symbol][platform.name] = contract_address` for contract `j`. */
  lemma AddressBookInnerStep(tokens: AddressBook, symbol: string, contracts: seq<TokensMetadata.Contract>, j: nat)
    requires j < |contracts|
    ensures var before := tokens[symbol := TokensMetadata.Addresses(contracts[..j])];
              before[symbol := before[symbol][contracts[j].platformName := contracts[j].contractAddress]]
              == tokens[symbol := TokensMetadata.Addresses(contracts[..j + 1])]
  {
    TokensMetadata.ContractsStep(contracts, j);
  }

  lemma AddressBookStep(data: seq<TokensMetadata.RawRecord>, i: nat)
    requires i < |data|
    ensures AddressBookOf(data[..i + 1])
         == AddressBookOf(data[..i])[data[i].symbol := TokensMetadata.Addresses(data[i].contracts)]
  {
    var pair := (data[i].symbol, TokensMetadata.Addresses(data[i].contracts));
    assert AddressPairs(data[..i + 1]) == AddressPairs(data[..i]) + [pair];
    LastWriteWins.AssignStep(AddressPairs(data[..i]), pair.0, pair.1);
  }

  /**
   * The inner map of a symbol is reset on every visit, so it holds the
   * addresses of the last record with that symbol and nothing else.
   */
  lemma AddressBookLast(data: seq<TokensMetadata.RawRecord>, k: nat)
    requires k < |data|
    requires forall j :: k < j < |data| ==> data[j].symbol != data[k].symbol
    ensures data[k].symbol in AddressBookOf(data)
    ensures AddressBookOf(data)[data[k].symbol] == TokensMetadata.Addresses(data[k].contracts)
  {
    var kvs := AddressPairs(data);
    assert forall j :: k < j < |kvs| ==> kvs[j].0 != kvs[k].0 by {
      assert forall j :: 0 <= j < |data| ==> kvs[j].0 == data[j].symbol;
    }
    LastWriteWins.AssignLast(kvs, k);
  }

  /** The legacy map is the newer normaliser's map with only `addresses` kept. */
  lemma AddressBookIsMetadataAddresses(data: seq<TokensMetadata.RawRecord>)
    ensures AddressBookOf(data)
         == map s | s in TokensMetadata.MetadataMap(data) :: TokensMetadata.MetadataMap(data)[s].addresses
  {
    var f := (t: TokensMetadata.TokenMetadata) => t.addresses;
    LastWriteWins.AssignProjects(TokensMetadata.RecordPairs(data), AddressPairs(data), f);
  }

  // ---------------------------------------------------------------------------
  // main

  /** What one iteration of the driver gets for a chunk. */
  function ChunkOutcome(ids: seq<int>, fetcher: TokensMetadata.Query -> TokensMetadata.MetadataResponse): Result<AddressBook>
  {
    if |ids| > TokensMetadata.MaxIds then Err(TooManyIds)
    else
      var response := fetcher(LegacyQuery(ids));
      if !IsOkStatus(response.status) then Err(MetadataFetchFailed)
      else Ok(AddressBookOf(response.data))
  }

  /** What each chunk gets, in chunk order. */
  function ChunkOutcomes(chunks: seq<seq<int>>, fetcher: TokensMetadata.Query -> TokensMetadata.MetadataResponse)
    : (outcomes: seq<Result<AddressBook>>)
    ensures |outcomes| == |chunks|
  {
    seq(|chunks|, i requires 0 <= i < |chunks| => ChunkOutcome(chunks[i], fetcher))
  }

  /** The maps of the outcomes in order, or the error of the first outcome that is one. */
  function Collect(outcomes: seq<Result<AddressBook>>): Result<seq<AddressBook>>
  {
    if outcomes == [] then Ok([])
    else
      match Collect(outcomes[..|outcomes| - 1])
      case Err(e) => Err(e)
      case Ok(maps) =>
        match outcomes[|outcomes| - 1]
        case Err(e) => Err(e)
        case Ok(m) => Ok(maps + [m])
  }

  /** `Object.assign(acc, m)` for each map in turn, starting from `{}`. */
  function ShallowUnion(maps: seq<AddressBook>): AddressBook
  {
    if maps == [] then map[] else ShallowUnion(maps[..|maps| - 1]) + maps[|maps| - 1]
  }

  /** The value main ends with: the shallow union of the collected maps, or the error. */
  function Finish(collected: Result<seq<AddressBook>>): Result<AddressBook>
  {
    match collected
    case Ok(maps) => Ok(ShallowUnion(maps))
    case Err(e) => Err(e)
  }

  /**
   * main, without the sleeps and the file write: a catalog failure or the
   * failure of any chunk aborts the run; otherwise the accumulator is the
   * shallow union of the chunks' maps in chunk order.
   */
  method Aggregate(catalog: TokenIdsChunks.CatalogResponse,
                   fetcher: TokensMetadata.Query -> TokensMetadata.MetadataResponse)
    returns (r: Result<AddressBook>)
    ensures !IsOkStatus(catalog.status) ==> r == Err(CatalogFetchFailed)
    ensures IsOkStatus(catalog.status) ==>
              r == Finish(Collect(ChunkOutcomes(TokenIdsChunks.Chunked(TokenIdsChunks.TokenIds(catalog.data)), fetcher)))
  {
    var idsChunks := GetTokenIdsChunks(catalog);
    if idsChunks.Err? {
      return Err(idsChunks.error);
    }
    var chunks := idsChunks.value;
    ghost var outcomes := ChunkOutcomes(chunks, fetcher);
    var tokens: AddressBook := map[];
    ghost var maps: seq<AddressBook> := [];
    for i := 0 to |chunks|
      invariant Collect(outcomes[..i]) == Ok(maps)
      invariant tokens == ShallowUnion(maps)
    {
      var chunkTokens := GetTokensMetadataMap(chunks[i], fetcher);
      assert chunkTokens == outcomes[i];
      CollectStep(outcomes, i, maps);
      if chunkTokens.Err? {
        CollectAborts(outcomes, i + 1);
        return Err(chunkTokens.error);
      }
      tokens := tokens + chunkTokens.value;
      ShallowUnionStep(maps, chunkTokens.value);
      maps := maps + [chunkTokens.value];
    }
    assert outcomes[..|chunks|] == outcomes;
    r := Ok(tokens);
  }

  /** One more chunk: its error ends the run, or its map joins the collected ones. */
  lemma CollectStep(outcomes: seq<Result<AddressBook>>, i: nat, maps: seq<AddressBook>)
    requires i < |outcomes| && Collect(outcomes[..i]) == Ok(maps)
    ensures outcomes[i].Err? ==> Collect(outcomes[..i + 1]) == Err(outcomes[i].error)
    ensures outcomes[i].Ok? ==> Collect(outcomes[..i + 1]) == Ok(maps + [outcomes[i].value])
  {
    assert outcomes[..i + 1][..i] == outcomes[..i];
  }

  lemma ShallowUnionStep(maps: seq<AddressBook>, m: AddressBook)
    ensures ShallowUnion(maps + [m]) == ShallowUnion(maps) + m
  {
    assert (maps + [m])[..|maps|] == maps;
  }

  /** Once a prefix of the outcomes holds an error, the whole run has failed with it. */
  lemma {:induction false} CollectAborts(outcomes: seq<Result<AddressBook>>, i: nat)
    requires i <= |outcomes|
    requires Collect(outcomes[..i]).Err?
    ensures Collect(outcomes) == Collect(outcomes[..i])
    decreases |outcomes| - i
  {
    if i < |outcomes| {
      var longer := outcomes[..i + 1];
      assert longer[..i] == outcomes[..i];
      CollectAborts(outcomes, i + 1);
    } else {
      assert outcomes[..i] == outcomes;
    }
  }

  // ---------------------------------------------------------------------------
  // What the driver produces

  /** When no chunk fails, the run collects every chunk's map, in chunk order. */
  lemma {:induction false} CollectSuccess(outcomes: seq<Result<AddressBook>>)
    requires forall i :: 0 <= i < |outcomes| ==> outcomes[i].Ok?
    ensures Collect(outcomes).Ok?
    ensures |Collect(outcomes).value| == |outcomes|
    ensures forall i :: 0 <= i < |outcomes| ==> Collect(outcomes).value[i] == outcomes[i].value
  {
    if outcomes != [] {
      var n := |outcomes| - 1;
      var init := outcomes[..n];
      assert forall j :: 0 <= j < n ==> init[j] == outcomes[j];
      CollectSuccess(init);
    }
  }

  /** The first chunk that fails aborts the run with its error. */
  lemma CollectFirstFailure(outcomes: seq<Result<AddressBook>>, i: nat)
    requires i < |outcomes| && outcomes[i].Err?
    requires forall j :: 0 <= j < i ==> outcomes[j].Ok?
    ensures Collect(outcomes) == Err(outcomes[i].error)
  {
    var init := outcomes[..i];
    assert forall j :: 0 <= j < i ==> init[j] == outcomes[j];
    CollectSuccess(init);
    var longer := outcomes[..i + 1];
    assert longer[..i] == init;
    CollectAborts(outcomes, i + 1);
  }

  /** A run that succeeds had no failing chunk. */
  lemma {:induction false} CollectOkHasNoFailure(outcomes: seq<Result<AddressBook>>, i: nat)
    requires Collect(outcomes).Ok?
    requires i < |outcomes|
    ensures outcomes[i].Ok?
  {
    var n := |outcomes| - 1;
    var init := outcomes[..n];
    if i < n {
      assert init[i] == outcomes[i];
      CollectOkHasNoFailure(init, i);
    }
  }

  /** The chunker never hands the driver more than 100 ids, so the size guard never fires. */
  lemma ChunksWithinLimit(catalog: TokenIdsChunks.CatalogResponse,
                          fetcher: TokensMetadata.Query -> TokensMetadata.MetadataResponse, i: nat)
    requires i < |TokenIdsChunks.Chunked(TokenIdsChunks.TokenIds(catalog.data))|
    ensures ChunkOutcomes(TokenIdsChunks.Chunked(TokenIdsChunks.TokenIds(catalog.data)), fetcher)[i] != Err(TooManyIds)
  {
    TokenIdsChunks.ChunkedIsChunking(TokenIdsChunks.TokenIds(catalog.data));
  }

  /** The accumulator holds every symbol of every chunk. */
  lemma {:induction false} ShallowUnionKeys(maps: seq<AddressBook>, s: string)
    ensures s in ShallowUnion(maps) <==> exists i :: 0 <= i < |maps| && s in maps[i]
  {
    if maps != [] {
      var n := |maps| - 1;
      var init := maps[..n];
      ShallowUnionKeys(init, s);
      assert forall j :: 0 <= j < n ==> init[j] == maps[j];
    }
  }

  /** A symbol's entry comes whole from the last chunk that has it. */
  lemma {:induction false} ShallowUnionLast(maps: seq<AddressBook>, i: nat, s: string)
    requires i < |maps| && s in maps[i]
    requires forall j :: i < j < |maps| ==> s !in maps[j]
    ensures s in ShallowUnion(maps) && ShallowUnion(maps)[s] == maps[i][s]
  {
    var n := |maps| - 1;
    if i < n {
      var init := maps[..n];
      assert forall j :: 0 <= j < n ==> init[j] == maps[j];
      ShallowUnionLast(init, i, s);
    }
  }
}
