/**
 * Identifier chunking: the catalog of cryptocurrencies is filtered to the
 * tokens (entries that name a platform, i.e. are deployed on another chain)
 * and their ids are cut, in catalog order, into chunks of at most 100.
 */
module TokenIdsChunks {
  import opened Outcomes

  /** What a catalog row says about the chain a token is deployed on. */
  datatype Platform = Platform(id: int, name: string, symbol: string, slug: string, tokenAddress: string)

  /** One catalog row; a native coin has no platform (`null` in the payload). */
  datatype CatalogEntry = CatalogEntry(id: int, platform: Option<Platform>)

  /** The catalog fetcher's answer: its HTTP status and the rows, in rank order. */
  datatype CatalogResponse = CatalogResponse(status: int, data: seq<CatalogEntry>)

  const ChunkSize: nat := 100

  /** `!cryptocurrency.platform`: the row is a native coin. */
  predicate IsCoin(e: CatalogEntry)
  {
    e.platform.None?
  }

  /** The ids of the non-coin rows, in catalog order. */
  function TokenIds(entries: seq<CatalogEntry>): seq<int>
  {
    if entries == [] then []
    else
      var last := entries[|entries| - 1];
      TokenIds(entries[..|entries| - 1]) + (if IsCoin(last) then [] else [last.id])
  }

  /** The number of coin rows. */
  function CoinCount(entries: seq<CatalogEntry>): nat
  {
    if entries == [] then 0
    else CoinCount(entries[..|entries| - 1]) + (if IsCoin(entries[|entries| - 1]) then 1 else 0)
  }

  /** All chunks laid end to end. */
  function Flatten(chunks: seq<seq<int>>): seq<int>
  {
    if chunks == [] then [] else Flatten(chunks[..|chunks| - 1]) + chunks[|chunks| - 1]
  }

  /** `(n + 99) / 100`, i.e. the ceiling of n / 100. */
  function ChunkCount(n: nat): nat
  {
    (n + ChunkSize - 1) / ChunkSize
  }

  /**
   * `chunks` cuts `ids` into chunks: laid end to end they give `ids`, none is
   * empty or longer than 100, and all but the last hold exactly 100.
   */
  predicate IsChunking(chunks: seq<seq<int>>, ids: seq<int>)
  {
    && Flatten(chunks) == ids
    && (forall i :: 0 <= i < |chunks| ==> 0 < |chunks[i]| <= ChunkSize)
    && (forall i :: 0 <= i < |chunks| - 1 ==> |chunks[i]| == ChunkSize)
  }

  /** Reference partition: take 100 from the front until fewer remain. */
  function Chunked(ids: seq<int>): seq<seq<int>>
    decreases |ids|
  {
    if ids == [] then []
    else if |ids| <= ChunkSize then [ids]
    else [ids[..ChunkSize]] + Chunked(ids[ChunkSize..])
  }

  // ---------------------------------------------------------------------------
  // The loop of getTokenIdsChunks

  /** `chunks.at(-1).push(x)`. */
  function PushOnLast(chunks: seq<seq<int>>, x: int): seq<seq<int>>
    requires chunks != []
  {
    chunks[..|chunks| - 1] + [chunks[|chunks| - 1] + [x]]
  }

  /**
   * The `for...of` loop: skip coins, open a new chunk whenever `counter` is a
   * multiple of 100, push the id onto the last chunk, count it.
   */
  method ChunkTokenIds(entries: seq<CatalogEntry>) returns (chunks: seq<seq<int>>)
    ensures IsChunking(chunks, TokenIds(entries))
    ensures |chunks| == ChunkCount(|TokenIds(entries)|)
    ensures chunks == Chunked(TokenIds(entries))
  {
    chunks := [];
    var counter := 0;
    for i := 0 to |entries|
      invariant counter == |TokenIds(entries[..i])|
      invariant IsChunking(chunks, TokenIds(entries[..i]))
    {
      var e := entries[i];
      TokenIdsStep(entries, i);
      if IsCoin(e) {
        continue;
      }
      ghost var before := chunks;
      if counter % ChunkSize == 0 {
        chunks := chunks + [[]];
        AppendNewChunk(before, TokenIds(entries[..i]), e.id);
      } else {
        ExtendLastChunk(before, TokenIds(entries[..i]), e.id);
      }
      chunks := PushOnLast(chunks, e.id);
      counter := counter + 1;
    }
    assert entries[..|entries|] == entries;
    ChunkingCount(chunks, TokenIds(entries));
    ChunkedIsChunking(TokenIds(entries));
    ChunkingUnique(chunks, Chunked(TokenIds(entries)), TokenIds(entries));
  }

  /**
   * getTokenIdsChunks: a status other than exactly 200 throws; otherwise the
   * chunks of the token ids.
   */
  method GetTokenIdsChunks(response: CatalogResponse) returns (r: Result<seq<seq<int>>>)
    ensures response.status == 200 <==> r.Ok?
    ensures r.Err? ==> r.error == CatalogFetchFailed
    ensures r.Ok? ==> IsChunking(r.value, TokenIds(response.data))
    ensures r.Ok? ==> r.value == Chunked(TokenIds(response.data))
  {
    if response.status != 200 {
      return Err(CatalogFetchFailed);
    }
    var chunks := ChunkTokenIds(response.data);
    r := Ok(chunks);
  }

  // ---------------------------------------------------------------------------
  // Facts about Flatten and IsChunking

  lemma {:induction false} FlattenAppend(a: seq<seq<int>>, b: seq<seq<int>>)
    ensures Flatten(a + b) == Flatten(a) + Flatten(b)
    decreases |b|
  {
    if b == [] {
      assert a + b == a;
    } else {
      var b' := b[..|b| - 1];
      assert (a + b)[..|a + b| - 1] == a + b';
      FlattenAppend(a, b');
    }
  }

  /** With all but the last chunk full, the ids number 100 per full chunk plus the last. */
  lemma {:induction false} FlattenLength(chunks: seq<seq<int>>)
    requires chunks != []
    requires forall i :: 0 <= i < |chunks| - 1 ==> |chunks[i]| == ChunkSize
    ensures |Flatten(chunks)| == ChunkSize * (|chunks| - 1) + |chunks[|chunks| - 1]|
    decreases |chunks|
  {
    var init := chunks[..|chunks| - 1];
    if init != [] {
      assert forall i :: 0 <= i < |init| ==> init[i] == chunks[i];
      FlattenLength(init);
    }
  }

  lemma TokenIdsStep(entries: seq<CatalogEntry>, i: nat)
    requires i < |entries|
    ensures TokenIds(entries[..i + 1]) == TokenIds(entries[..i]) + (if IsCoin(entries[i]) then [] else [entries[i].id])
  {
    assert entries[..i + 1][..i] == entries[..i];
  }

  /** At a multiple of 100 ids the last chunk is full, so a fresh chunk takes the next id. */
  lemma AppendNewChunk(chunks: seq<seq<int>>, ids: seq<int>, x: int)
    requires IsChunking(chunks, ids)
    requires |ids| % ChunkSize == 0
    ensures IsChunking(PushOnLast(chunks + [[]], x), ids + [x])
  {
    var next := PushOnLast(chunks + [[]], x);
    assert (chunks + [[]])[..|chunks|] == chunks;
    assert (chunks + [[]])[|chunks|] == [];
    assert [] + [x] == [x];
    assert next == chunks + [[x]];
    assert next[..|next| - 1] == chunks;
    if chunks != [] {
      FlattenLength(chunks);
    }
  }

  /** Otherwise the last chunk has room for the next id. */
  lemma ExtendLastChunk(chunks: seq<seq<int>>, ids: seq<int>, x: int)
    requires IsChunking(chunks, ids)
    requires |ids| % ChunkSize != 0
    ensures chunks != []
    ensures IsChunking(PushOnLast(chunks, x), ids + [x])
  {
    var q := |chunks| - 1;
    var next := PushOnLast(chunks, x);
    assert next[..q] == chunks[..q];
    assert chunks[..q] + [chunks[q]] == chunks;
    FlattenLength(chunks);
  }

  /** With N ids there are ceil(N / 100) chunks. */
  lemma ChunkingCount(chunks: seq<seq<int>>, ids: seq<int>)
    requires IsChunking(chunks, ids)
    ensures |chunks| == ChunkCount(|ids|)
  {
    if chunks != [] {
      FlattenLength(chunks);
      var q := |chunks| - 1;
      var last := |chunks[q]|;
      assert |ids| + ChunkSize - 1 == ChunkSize * q + (last + ChunkSize - 1);
      assert ChunkSize <= last + ChunkSize - 1 < 2 * ChunkSize;
    }
  }

  /** The ids before chunk `i` are the 100 * i ids of the full chunks. */
  lemma FlattenPrefix(chunks: seq<seq<int>>, i: nat)
    requires i < |chunks|
    requires forall j :: 0 <= j < |chunks| - 1 ==> |chunks[j]| == ChunkSize
    ensures Flatten(chunks) == Flatten(chunks[..i]) + chunks[i] + Flatten(chunks[i + 1..])
    ensures |Flatten(chunks[..i])| == ChunkSize * i
  {
    assert chunks == chunks[..i] + [chunks[i]] + chunks[i + 1..];
    FlattenAppend(chunks[..i] + [chunks[i]], chunks[i + 1..]);
    FlattenAppend(chunks[..i], [chunks[i]]);
    assert Flatten([chunks[i]]) == chunks[i] by {
      assert [chunks[i]][..0] == [];
    }
    if i > 0 {
      FlattenLength(chunks[..i]);
      assert forall j :: 0 <= j < i ==> chunks[..i][j] == chunks[j];
    }
  }

  function Min(a: int, b: int): int
  {
    if a <= b then a else b
  }

  /** Chunk `i` holds the ids at positions 100 * i up to 100 * i + 100 (or the end). */
  lemma ChunkingElements(chunks: seq<seq<int>>, ids: seq<int>, i: nat)
    requires IsChunking(chunks, ids)
    requires i < |chunks|
    ensures ChunkSize * i < |ids|
    ensures chunks[i] == ids[ChunkSize * i .. Min(ChunkSize * i + ChunkSize, |ids|)]
  {
    FlattenPrefix(chunks, i);
    var start := ChunkSize * i;
    assert ids[start .. start + |chunks[i]|] == chunks[i];
    if i < |chunks| - 1 {
      assert start + ChunkSize <= |ids|;
    } else {
      assert chunks[i + 1..] == [];
      assert |ids| == start + |chunks[i]|;
    }
  }

  /** A chunking of given ids is unique. */
  lemma ChunkingUnique(a: seq<seq<int>>, b: seq<seq<int>>, ids: seq<int>)
    requires IsChunking(a, ids) && IsChunking(b, ids)
    ensures a == b
  {
    ChunkingCount(a, ids);
    ChunkingCount(b, ids);
    forall i | 0 <= i < |a|
      ensures a[i] == b[i]
    {
      ChunkingElements(a, ids, i);
      ChunkingElements(b, ids, i);
    }
  }

  /** The reference partition is a chunking. */
  lemma {:induction false} ChunkedIsChunking(ids: seq<int>)
    ensures IsChunking(Chunked(ids), ids)
    decreases |ids|
  {
    if ids == [] {
    } else if |ids| <= ChunkSize {
      assert [ids][..0] == [];
    } else {
      var head, rest := ids[..ChunkSize], ids[ChunkSize..];
      ChunkedIsChunking(rest);
      FlattenAppend([head], Chunked(rest));
      assert [head][..0] == [];
      assert head + rest == ids;
    }
  }

  // ---------------------------------------------------------------------------
  // What the chunks contain

  /** An id is a token id exactly when some non-coin row carries it. */
  lemma {:induction false} TokenIdsMembers(entries: seq<CatalogEntry>, x: int)
    ensures x in TokenIds(entries) <==> exists i :: 0 <= i < |entries| && !IsCoin(entries[i]) && entries[i].id == x
  {
    if entries != [] {
      var init := entries[..|entries| - 1];
      TokenIdsMembers(init, x);
      assert forall i :: 0 <= i < |init| ==> init[i] == entries[i];
      if x in TokenIds(entries) && x !in TokenIds(init) {
        assert entries[|entries| - 1].id == x;
      }
    }
  }

  lemma {:induction false} TokenIdsCount(entries: seq<CatalogEntry>)
    ensures |TokenIds(entries)| + CoinCount(entries) == |entries|
  {
    if entries != [] {
      TokenIdsCount(entries[..|entries| - 1]);
    }
  }

  lemma FlattenMembers(chunks: seq<seq<int>>, c: nat, x: int)
    requires c < |chunks| && x in chunks[c]
    ensures x in Flatten(chunks)
  {
    var all := Flatten(chunks);
    assert chunks == chunks[..c] + [chunks[c]] + chunks[c + 1..];
    FlattenAppend(chunks[..c] + [chunks[c]], chunks[c + 1..]);
    FlattenAppend(chunks[..c], [chunks[c]]);
    assert [chunks[c]][..0] == [];
  }

  /** Catalog ids are unique. */
  predicate UniqueIds(entries: seq<CatalogEntry>)
  {
    forall i, j :: 0 <= i < j < |entries| ==> entries[i].id != entries[j].id
  }

  /** No coin contributes its id to any chunk (catalog ids being unique). */
  lemma CoinsExcluded(entries: seq<CatalogEntry>, chunks: seq<seq<int>>, i: nat, c: nat)
    requires IsChunking(chunks, TokenIds(entries))
    requires UniqueIds(entries)
    requires i < |entries| && IsCoin(entries[i])
    requires c < |chunks|
    ensures entries[i].id !in chunks[c]
  {
    if entries[i].id in chunks[c] {
      FlattenMembers(chunks, c, entries[i].id);
      TokenIdsMembers(entries, entries[i].id);
    }
  }

  /** An empty catalog, or one made only of coins, gives no chunks. */
  lemma OnlyCoinsGiveNoChunks(entries: seq<CatalogEntry>, chunks: seq<seq<int>>)
    requires forall i :: 0 <= i < |entries| ==> IsCoin(entries[i])
    requires IsChunking(chunks, TokenIds(entries))
    ensures chunks == []
  {
    if TokenIds(entries) != [] {
      TokenIdsMembers(entries, TokenIds(entries)[0]);
    }
    ChunkingCount(chunks, TokenIds(entries));
  }

  /** Scenario: 250 tokens plus 10 coins give chunks of 100, 100 and 50 ids. */
  lemma TwoHundredFiftyTokens(entries: seq<CatalogEntry>, chunks: seq<seq<int>>)
    requires |entries| == 260 && CoinCount(entries) == 10
    requires IsChunking(chunks, TokenIds(entries))
    ensures |chunks| == 3
    ensures |chunks[0]| == 100 && |chunks[1]| == 100 && |chunks[2]| == 50
  {
    TokenIdsCount(entries);
    ChunkingCount(chunks, TokenIds(entries));
    FlattenLength(chunks);
  }
}
