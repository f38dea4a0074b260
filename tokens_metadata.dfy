/**
 * Metadata normalisation: one metadata request for at most 100 ids, and the
 * translation of its payload into `symbol -> {name, description, logo, urls,
 * addresses}`, where `addresses` maps a platform name to a contract address.
 */
module TokensMetadata {
  import opened Outcomes
  import IdsQuery
  import LastWriteWins

  /** The fixed set of named URL lists of a token. */
  datatype Urls = Urls(
    website: seq<string>,
    technicalDoc: seq<string>,
    explorer: seq<string>,
    sourceCode: seq<string>,
    messageBoard: seq<string>,
    chat: seq<string>,
    announcement: seq<string>,
    reddit: seq<string>,
    twitter: seq<string>)

  /** One entry of a record's `contract_address` list: `platform.name` and `contract_address`. */
  datatype Contract = Contract(platformName: string, contractAddress: string)

  /** One value of the payload's id-keyed `data` object. */
  datatype RawRecord = RawRecord(
    id: int,
    symbol: string,
    name: string,
    description: Option<string>,
    logo: string,
    urls: Urls,
    contracts: seq<Contract>)

  /**
   * The metadata fetcher's answer. `data` lists the values of the id-keyed
   * payload object in the order `for...in` visits them.
   */
  datatype MetadataResponse = MetadataResponse(status: int, data: seq<RawRecord>)

  /** `for...in` visits integer-like keys in ascending numeric order, and keys are unique. */
  predicate ForInOrder(data: seq<RawRecord>)
  {
    forall i, j :: 0 <= i < j < |data| ==> data[i].id < data[j].id
  }

  /** The query parameters of a metadata request. */
  datatype Query = Query(aux: string, id: string)

  /** The normalised record of one token. */
  datatype TokenMetadata = TokenMetadata(
    name: string,
    description: Option<string>,
    logo: string,
    urls: Urls,
    addresses: map<string, string>)

  type TokenMetadataMap = map<string, TokenMetadata>

  const MaxIds: nat := 100
  const MetadataAux := "urls,logo,description"

  /** The request for a batch of ids. */
  function MetadataQuery(ids: seq<int>): Query
  {
    Query(MetadataAux, IdsQuery.JoinIds(ids))
  }

  // ---------------------------------------------------------------------------
  // The specification of the map the loops build

  function ContractPairs(contracts: seq<Contract>): (kvs: seq<(string, string)>)
    ensures |kvs| == |contracts|
  {
    seq(|contracts|, k requires 0 <= k < |contracts| => (contracts[k].platformName, contracts[k].contractAddress))
  }

  /** `addresses[platform.name] = contract_address` for each contract in turn. */
  function Addresses(contracts: seq<Contract>): map<string, string>
  {
    LastWriteWins.Assign(ContractPairs(contracts))
  }

  /** The record stored for a raw record once its contracts have been visited. */
  function Normalize(r: RawRecord): TokenMetadata
  {
    TokenMetadata(r.name, r.description, r.logo, r.urls, Addresses(r.contracts))
  }

  function RecordPairs(data: seq<RawRecord>): (kvs: seq<(string, TokenMetadata)>)
    ensures |kvs| == |data|
  {
    seq(|data|, k requires 0 <= k < |data| => (data[k].symbol, Normalize(data[k])))
  }

  /** `tokensMetadataMap[symbol] = {...}` for each record in turn. */
  function MetadataMap(data: seq<RawRecord>): TokenMetadataMap
  {
    LastWriteWins.Assign(RecordPairs(data))
  }

  // ---------------------------------------------------------------------------
  // getTokensMetadataMap

  /**
   * getTokensMetadataMap: more than 100 ids throw before any request; otherwise
   * the fetcher is asked for the comma-joined ids, a response that is not ok
   * throws, and the payload is normalised record by record.
   */
  method GetTokensMetadataMap(ids: seq<int>, fetcher: Query -> MetadataResponse)
    returns (r: Result<TokenMetadataMap>)
    ensures |ids| > MaxIds ==> r == Err(TooManyIds)
    ensures |ids| <= MaxIds && !IsOkStatus(fetcher(MetadataQuery(ids)).status) ==> r == Err(MetadataFetchFailed)
    ensures |ids| <= MaxIds && IsOkStatus(fetcher(MetadataQuery(ids)).status) ==>
              r == Ok(MetadataMap(fetcher(MetadataQuery(ids)).data))
  {
    if |ids| > MaxIds {
      return Err(TooManyIds);
    }
    var response := fetcher(Query(MetadataAux, IdsQuery.JoinIds(ids)));
    if !IsOkStatus(response.status) {
      return Err(MetadataFetchFailed);
    }
    var data := response.data;
    var tokens: TokenMetadataMap := map[];
    for i := 0 to |data|
      invariant tokens == MetadataMap(data[..i])
    {
      var record := data[i];
      var symbol := record.symbol;
      tokens := tokens[symbol := TokenMetadata(record.name, record.description, record.logo, record.urls, map[])];
      var contracts := record.contracts;
      for j := 0 to |contracts|
        invariant tokens == MetadataMap(data[..i])[symbol := Normalize(record).(addresses := Addresses(contracts[..j]))]
      {
        var contract := contracts[j];
        AddressStep(MetadataMap(data[..i]), symbol, Normalize(record), contracts, j);
        tokens := tokens[symbol := tokens[symbol].(addresses := tokens[symbol].addresses[contract.platformName := contract.contractAddress])];
      }
      assert contracts[..|contracts|] == contracts;
      RecordsStep(data, i);
    }
    assert data[..|data|] == data;
    r := Ok(tokens);
  }

  lemma ContractsStep(contracts: seq<Contract>, j: nat)
    requires j < |contracts|
    ensures Addresses(contracts[..j + 1]) == Addresses(contracts[..j])[contracts[j].platformName := contracts[j].contractAddress]
  {
    assert ContractPairs(contracts[..j + 1]) == ContractPairs(contracts[..j]) + [(contracts[j].platformName, contracts[j].contractAddress)];
    LastWriteWins.AssignStep(ContractPairs(contracts[..j]), contracts[j].platformName, contracts[j].contractAddress);
  }

  /** `tokensMetadataMap[symbol].addresses[platform.name] = contract_address` for contract `j`. */
  lemma AddressStep(tokens: TokenMetadataMap, symbol: string, t: TokenMetadata, contracts: seq<Contract>, j: nat)
    requires j < |contracts|
    ensures var before := tokens[symbol := t.(addresses := Addresses(contracts[..j]))];
              before[symbol := before[symbol].(addresses := before[symbol].addresses[contracts[j].platformName := contracts[j].contractAddress])]
              == tokens[symbol := t.(addresses := Addresses(contracts[..j + 1]))]
  {
    ContractsStep(contracts, j);
  }

  lemma RecordsStep(data: seq<RawRecord>, i: nat)
    requires i < |data|
    ensures MetadataMap(data[..i + 1]) == MetadataMap(data[..i])[data[i].symbol := Normalize(data[i])]
  {
    assert RecordPairs(data[..i + 1]) == RecordPairs(data[..i]) + [(data[i].symbol, Normalize(data[i]))];
    LastWriteWins.AssignStep(RecordPairs(data[..i]), data[i].symbol, Normalize(data[i]));
  }

  // ---------------------------------------------------------------------------
  // What the normalised map holds

  /** `addresses` has exactly the platform names of the contracts as keys ({} for none). */
  lemma AddressesKeys(contracts: seq<Contract>)
    ensures Addresses(contracts).Keys == set k | 0 <= k < |contracts| :: contracts[k].platformName
  {
    var kvs := ContractPairs(contracts);
    LastWriteWins.AssignKeys(kvs);
    assert (set k | 0 <= k < |kvs| :: kvs[k].0) == (set k | 0 <= k < |contracts| :: contracts[k].platformName) by {
      assert forall k :: 0 <= k < |contracts| ==> kvs[k].0 == contracts[k].platformName;
    }
  }

  /** `addresses[p]` is the address of the last contract on platform `p`. */
  lemma AddressesLast(contracts: seq<Contract>, k: nat)
    requires k < |contracts|
    requires forall j :: k < j < |contracts| ==> contracts[j].platformName != contracts[k].platformName
    ensures contracts[k].platformName in Addresses(contracts)
    ensures Addresses(contracts)[contracts[k].platformName] == contracts[k].contractAddress
  {
    var kvs := ContractPairs(contracts);
    assert forall j :: k < j < |kvs| ==> kvs[j].0 != kvs[k].0 by {
      assert forall j :: 0 <= j < |contracts| ==> kvs[j].0 == contracts[j].platformName;
    }
    LastWriteWins.AssignLast(kvs, k);
  }

  /** Scenario: an ethereum and a bsc contract give both addresses. */
  lemma AddressesExample()
    ensures Addresses([Contract("ethereum", "0xABC"), Contract("bsc", "0xDEF")])
         == map["ethereum" := "0xABC", "bsc" := "0xDEF"]
  {
    var contracts := [Contract("ethereum", "0xABC"), Contract("bsc", "0xDEF")];
    assert ContractPairs(contracts) == [("ethereum", "0xABC"), ("bsc", "0xDEF")];
    var first, second := ("ethereum", "0xABC"), ("bsc", "0xDEF");
    LastWriteWins.AssignStep([], first.0, first.1);
    LastWriteWins.AssignStep([first], second.0, second.1);
    assert [] + [first] == [first];
    assert [first] + [second] == ContractPairs(contracts);
  }

  /** The result's keys are exactly the symbols of the payload. */
  lemma MetadataKeys(data: seq<RawRecord>)
    ensures MetadataMap(data).Keys == set i | 0 <= i < |data| :: data[i].symbol
  {
    var kvs := RecordPairs(data);
    LastWriteWins.AssignKeys(kvs);
    assert (set k | 0 <= k < |kvs| :: kvs[k].0) == (set i | 0 <= i < |data| :: data[i].symbol) by {
      assert forall k :: 0 <= k < |data| ==> kvs[k].0 == data[k].symbol;
    }
  }

  /**
   * The record of a symbol comes wholesale from the last raw record with that
   * symbol: name, description, logo and urls verbatim, and the addresses of
   * that record's contracts only.
   */
  lemma MetadataLast(data: seq<RawRecord>, k: nat)
    requires k < |data|
    requires forall j :: k < j < |data| ==> data[j].symbol != data[k].symbol
    ensures data[k].symbol in MetadataMap(data)
    ensures MetadataMap(data)[data[k].symbol] == Normalize(data[k])
    ensures MetadataMap(data)[data[k].symbol].name == data[k].name
    ensures MetadataMap(data)[data[k].symbol].description == data[k].description
    ensures MetadataMap(data)[data[k].symbol].logo == data[k].logo
    ensures MetadataMap(data)[data[k].symbol].urls == data[k].urls
    ensures MetadataMap(data)[data[k].symbol].addresses == Addresses(data[k].contracts)
  {
    var kvs := RecordPairs(data);
    assert forall j :: k < j < |kvs| ==> kvs[j].0 != kvs[k].0 by {
      assert forall j :: 0 <= j < |data| ==> kvs[j].0 == data[j].symbol;
    }
    LastWriteWins.AssignLast(kvs, k);
  }

  /**
   * In `for...in` order "last" means "highest id": when ids share a symbol the
   * record with the highest id wins.
   */
  lemma MetadataHighestId(data: seq<RawRecord>, k: nat)
    requires ForInOrder(data)
    requires k < |data|
    requires forall j :: 0 <= j < |data| && data[j].symbol == data[k].symbol ==> data[j].id <= data[k].id
    ensures data[k].symbol in MetadataMap(data)
    ensures MetadataMap(data)[data[k].symbol] == Normalize(data[k])
  {
    MetadataLast(data, k);
  }
}
