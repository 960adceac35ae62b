/**
 `TenantCollectionVectorStore`
 (src/infrastructure/vector_store/tenant_collection_vector_store.py): one collection
 of chunks and one of markers for each tenant, all in one flat namespace.
 */
module TenantVectors {
  import opened Wrappers
  import opened Domain
  import opened Ranking
  import opened MilvusProvider
  import InMemoryVectors

  const STATE_SUFFIX := "_state"
  const STATE_PLACEHOLDER_VECTOR: Vector := [0.0, 0.0]
  const MODULE_OVERFETCH := 4

  type VectorRecord = InMemoryVectors.VectorRecord

  /* ---------- names ---------- */

  function ChunksName(digest: Digest, tenant: string): string {
    TenantCollection(digest, tenant)
  }

  function StateName(digest: Digest, tenant: string): string {
    TenantCollection(digest, tenant) + STATE_SUFFIX
  }

  lemma StateNameIs(digest: Digest, tenant: string)
    ensures StateName(digest, tenant) == ChunksName(digest, tenant) + "_state"
  {
  }

  /** State names are legal too, and leave room below the database's limit of 255. */
  lemma StateNameIsLegal(digest: Digest, tenant: string)
    requires IsDigest(digest)
    ensures LegalName(StateName(digest, tenant)) && |StateName(digest, tenant)| <= 206
  {
    TenantCollectionIsLegal(digest, tenant);
    hide TenantCollection;
    var base, name := TenantCollection(digest, tenant), StateName(digest, tenant);
    assert forall i :: 0 <= i < |base| ==> name[i] == base[i];
    assert forall i :: |base| <= i < |name| ==> name[i] == STATE_SUFFIX[i - |base|];
  }

  /** No chunk collection is called like a marker collection: the last but one character
      of the first is a hex digit, and of the second a `t`. */
  lemma ChunksNameIsNoStateName(digest: Digest, t: string, u: string)
    requires IsDigest(digest)
    ensures ChunksName(digest, t) != StateName(digest, u)
  {
    NameEndsWithDigest(digest, t);
    hide TenantCollection;
    var name := ChunksName(digest, t);
    assert name[|name| - 2] == name[|name| - HASH_LEN..][HASH_LEN - 2];
    assert IsHex(name[|name| - 2]);
    var state := StateName(digest, u);
    assert state[|state| - 2] == STATE_SUFFIX[4];
  }

  /** Within `tenants` no two have one collection. */
  ghost predicate SeparateTenants(digest: Digest, tenants: set<string>) {
    && IsDigest(digest)
    && forall t, u ::
         t in tenants && u in tenants && TenantCollection(digest, t) == TenantCollection(digest, u) ==> t == u
  }

  /** Distinct digests are enough for that. */
  lemma DistinctDigestsSeparate(digest: Digest, tenants: set<string>)
    requires IsDigest(digest)
    requires forall t, u :: t in tenants && u in tenants && ShortDigest(digest, t) == ShortDigest(digest, u) ==> t == u
    ensures SeparateTenants(digest, tenants)
  {
    hide TenantCollection, ShortDigest;
    forall t, u | t in tenants && u in tenants && TenantCollection(digest, t) == TenantCollection(digest, u)
      ensures t == u
    {
      SharedExactlyWhen(digest, t, u);
    }
  }

  /** Equal marker collections mean equal chunk collections. */
  lemma StateNameDeterminesBase(digest: Digest, t: string, u: string)
    requires StateName(digest, t) == StateName(digest, u)
    ensures TenantCollection(digest, t) == TenantCollection(digest, u)
  {
    hide TenantCollection;
    var a, b := TenantCollection(digest, t), TenantCollection(digest, u);
    assert a == StateName(digest, t)[..|StateName(digest, t)| - |STATE_SUFFIX|];
    assert b == StateName(digest, u)[..|StateName(digest, u)| - |STATE_SUFFIX|];
  }

  lemma NamesAreApart(digest: Digest, tenants: set<string>, t: string, u: string)
    requires SeparateTenants(digest, tenants) && t in tenants && u in tenants && t != u
    ensures ChunksName(digest, t) != ChunksName(digest, u)
    ensures StateName(digest, t) != StateName(digest, u)
  {
    if StateName(digest, t) == StateName(digest, u) {
      StateNameDeterminesBase(digest, t, u);
    }
  }

  /* ---------- what is stored ---------- */

  function OrEmpty(m: Option<string>): string {
    if m.Some? then m.value else ""
  }

  function ChunkRecord(r: VectorRecord): NewRecord {
    NewRecord(r.chunkId, r.content, r.embedding,
              map["asset_id" := Text(r.asset), "erp_module" := Text(OrEmpty(r.erpModule)),
                  "chunk_id" := Text(r.chunkId)])
  }

  function MarkerRecord(asset: string, vectorCount: int): NewRecord {
    NewRecord(asset, asset, STATE_PLACEHOLDER_VECTOR,
              map["asset_id" := Text(asset), "vector_count" := Number(vectorCount)])
  }

  /** Nothing of the record is truncated. */
  predicate Fits(json: Json, r: NewRecord) {
    |r.id| <= ID_MAX_LEN && |r.text| <= TEXT_MAX_LEN && |json.dumps(r.metadata)| <= METADATA_MAX_LEN
  }

  lemma FitsExactly(json: Json, r: NewRecord)
    ensures Fits(json, r) <==> |r.id| <= 128 && |r.text| <= 32_000 && |json.dumps(r.metadata)| <= 8_192
  {
  }

  function Store(json: Json, c: map<string, Rows>, name: string, r: NewRecord): map<string, Rows> {
    c[name := RowsIn(c, name)[RowOf(json, r).0 := RowOf(json, r).1]]
  }

  /** Markers are written with a number only. */
  function CountIn(json: Json, rows: Rows, asset: string): int {
    if asset !in rows then 0
    else
      var metadata := DecodeMetadata(json, rows[asset].metadata);
      if "vector_count" in metadata && metadata["vector_count"].Number? then metadata["vector_count"].number else 0
  }

  /* ---------- searching ---------- */

  function TextAt(m: Metadata, key: string): string {
    if key in m && m[key].Text? then m[key].text else ""
  }

  function ModuleOf(hit: SearchHit): Option<string> {
    if TextAt(hit.metadata, "erp_module") == "" then None else Some(TextAt(hit.metadata, "erp_module"))
  }

  function ToChunk(hit: SearchHit): ScoredChunk {
    var id := TextAt(hit.metadata, "chunk_id");
    ScoredChunk(if id != "" then id else hit.recordId, hit.text, hit.score,
                TextAt(hit.metadata, "asset_id"), ModuleOf(hit))
  }

  predicate Matches(hit: SearchHit, erpModule: Option<string>) {
    erpModule.None? || ModuleOf(hit) == erpModule
  }

  function Matching(hits: seq<SearchHit>, erpModule: Option<string>): seq<ScoredChunk> {
    if hits == [] then []
    else
      var last := hits[|hits| - 1];
      var before := Matching(hits[..|hits| - 1], erpModule);
      if Matches(last, erpModule) then before + [ToChunk(last)] else before
  }

  function Limit(k: nat, erpModule: Option<string>): nat {
    if erpModule.Some? && erpModule.value != "" then k * MODULE_OVERFETCH else k
  }

  /** Every row of the collection as a hit, best first. */
  function AllHits(json: Json, index: Index, c: map<string, Rows>, name: string, query: Vector): seq<SearchHit> {
    if name in c then HitsOf(json, c[name], index(c[name], query)) else []
  }

  /* ---------- the class ---------- */

  class TenantCollectionVectorStore {
    const provider: MilvusVectorDBProvider

    constructor (provider: MilvusVectorDBProvider)
      ensures this.provider == provider
    {
      this.provider := provider;
    }

    method Count(asset: string, tenant: string) returns (n: int)
      ensures n == CountIn(provider.json, RowsIn(provider.collections, StateName(provider.digest, tenant)), asset)
    {
      var record := provider.GetRecord(StateName(provider.digest, tenant), asset);
      if record.None? {
        return 0;
      }
      var metadata := record.value.metadata;
      n := if "vector_count" in metadata && metadata["vector_count"].Number?
           then metadata["vector_count"].number else 0;
    }

    method HasVectors(asset: string, tenant: string) returns (found: bool)
      ensures found <==>
              CountIn(provider.json, RowsIn(provider.collections, StateName(provider.digest, tenant)), asset) > 0
    {
      var n := Count(asset, tenant);
      found := n > 0;
    }

    method SaveVectors(asset: string, tenant: string, vectorCount: int)
      modifies provider
      ensures provider.collections ==
              Effect(provider.digest, provider.json, old(provider.collections),
                     Write(InMemoryVectors.SaveOp(Key(asset, tenant), vectorCount)))
    {
      provider.InsertOne(StateName(provider.digest, tenant), asset, STATE_PLACEHOLDER_VECTOR,
                         map["asset_id" := Text(asset), "vector_count" := Number(vectorCount)], asset);
    }

    method Upsert(asset: string, tenant: string, embedding: Vector, chunkId: string, content: string,
                  erpModule: Option<string>)
      modifies provider
      ensures provider.collections ==
              Effect(provider.digest, provider.json, old(provider.collections), Write(InMemoryVectors.UpsertOp(
                InMemoryVectors.VectorRecord(chunkId, content, embedding, asset, tenant, erpModule))))
    {
      provider.InsertOne(ChunksName(provider.digest, tenant), content, embedding,
                         map["asset_id" := Text(asset), "erp_module" := Text(OrEmpty(erpModule)),
                             "chunk_id" := Text(chunkId)],
                         chunkId);
    }

    /** The loop keeps the hits of the wanted module and stops at `k` of them. */
    method SearchSimilar(query: Vector, k: nat, tenant: string, erpModule: Option<string>)
      returns (chunks: seq<ScoredChunk>)
      requires k >= 1
      ensures var hits := AllHits(provider.json, provider.index, provider.collections,
                                  ChunksName(provider.digest, tenant), query);
              chunks == Overfetched(hits, k, erpModule) && IsSearchAnswer(hits, k, erpModule, chunks)
    {
      hide IsSearchAnswer;
      var limit := if erpModule.Some? && erpModule.value != "" then k * MODULE_OVERFETCH else k;
      var hits := provider.SearchByVector(ChunksName(provider.digest, tenant), query, limit);
      ghost var name := ChunksName(provider.digest, tenant);
      FirstHits(provider.json, provider.index, provider.collections, name, query, limit);
      hide HitsOf, FirstK, ModuleOf, ToChunk, TenantCollection, AllHits;
      chunks := [];
      var i := 0;
      MatchingStart(hits, erpModule);
      while i < |hits|
        invariant 0 <= i <= |hits|
        invariant chunks == Matching(hits[..i], erpModule) && |chunks| < k
      {
        var hit := hits[i];
        MatchingNext(hits, i, erpModule);
        hide Matching;
        i := i + 1;
        if !(erpModule.Some? && ModuleOf(hit) != erpModule) {
          chunks := chunks + [ToChunk(hit)];
          if |chunks| == k {
            EnoughFound(hits, i, erpModule, k);
            OverfetchedIsAnswer(AllHits(provider.json, provider.index, provider.collections, name, query), k,
                                erpModule);
            return;
          }
        }
      }
      AllSeen(hits, erpModule, k);
      OverfetchedIsAnswer(AllHits(provider.json, provider.index, provider.collections, name, query), k, erpModule);
    }

    method DropTenant(tenant: string)
      modifies provider
      ensures provider.collections ==
              Effect(provider.digest, provider.json, old(provider.collections), Erase(tenant))
    {
      provider.DeleteCollection(ChunksName(provider.digest, tenant));
      provider.DeleteCollection(StateName(provider.digest, tenant));
    }
  }

  lemma {:induction false} MatchingAppend(a: seq<SearchHit>, b: seq<SearchHit>, erpModule: Option<string>)
    ensures Matching(a + b, erpModule) == Matching(a, erpModule) + Matching(b, erpModule)
    decreases |b|
  {
    if b == [] {
      assert a + b == a;
    } else {
      var init := b[..|b| - 1];
      assert (a + b)[..|a + b| - 1] == a + init;
      MatchingAppend(a, init, erpModule);
    }
  }

  lemma MatchingStart(hits: seq<SearchHit>, erpModule: Option<string>)
    ensures Matching(hits[..0], erpModule) == []
  {
  }

  lemma MatchingNext(hits: seq<SearchHit>, i: nat, erpModule: Option<string>)
    requires i < |hits|
    ensures Matching(hits[..i + 1], erpModule) ==
            if Matches(hits[i], erpModule) then Matching(hits[..i], erpModule) + [ToChunk(hits[i])]
            else Matching(hits[..i], erpModule)
  {
    assert hits[..i + 1][..i] == hits[..i];
  }

  /** The `break`: with `k` chunks in hand the rest of the hits does not matter. */
  lemma EnoughFound(hits: seq<SearchHit>, i: nat, erpModule: Option<string>, k: nat)
    requires i <= |hits| && |Matching(hits[..i], erpModule)| == k
    ensures FirstK(Matching(hits, erpModule), k) == Matching(hits[..i], erpModule)
  {
    MatchingPrefix(hits, i, erpModule);
  }

  lemma AllSeen(hits: seq<SearchHit>, erpModule: Option<string>, k: nat)
    requires |Matching(hits[..|hits|], erpModule)| < k
    ensures FirstK(Matching(hits, erpModule), k) == Matching(hits[..|hits|], erpModule)
  {
    assert hits[..|hits|] == hits;
  }

  lemma FirstHits(json: Json, index: Index, c: map<string, Rows>, name: string, query: Vector, limit: nat)
    ensures name in c ==> HitsOf(json, c[name], FirstK(index(c[name], query), limit)) ==
                          FirstK(AllHits(json, index, c, name, query), limit)
    ensures name !in c ==> FirstK(AllHits(json, index, c, name, query), limit) == []
  {
  }

  lemma MatchingPrefix(hits: seq<SearchHit>, i: nat, erpModule: Option<string>)
    requires i <= |hits|
    ensures Matching(hits[..i], erpModule) <= Matching(hits, erpModule)
  {
    assert hits == hits[..i] + hits[i..];
    MatchingAppend(hits[..i], hits[i..], erpModule);
  }

  function Overfetched(hits: seq<SearchHit>, k: nat, erpModule: Option<string>): seq<ScoredChunk> {
    FirstK(Matching(FirstK(hits, Limit(k, erpModule)), erpModule), k)
  }

  /** Rank everything, then filter, then take `k`. */
  function Exhaustive(hits: seq<SearchHit>, k: nat, erpModule: Option<string>): seq<ScoredChunk> {
    FirstK(Matching(hits, erpModule), k)
  }

  lemma {:induction false} MatchingEverything(hits: seq<SearchHit>)
    ensures |Matching(hits, None)| == |hits|
  {
    if hits != [] {
      MatchingEverything(hits[..|hits| - 1]);
    }
  }

  /** Searching a fixed number of hits, 4 k of them with a module and k without, gives a prefix
      of the exhaustive answer, and the whole of it exactly when those hits hold `k` matches
      or all the matches there are. */
  lemma OverfetchIsPrefix(hits: seq<SearchHit>, k: nat, erpModule: Option<string>)
    ensures Overfetched(hits, k, erpModule) <= Exhaustive(hits, k, erpModule)
    ensures var fetched := if erpModule.None? || erpModule == Some("") then k else 4 * k;
            && (Overfetched(hits, k, erpModule) == Exhaustive(hits, k, erpModule) <==>
                var found := |Matching(FirstK(hits, fetched), erpModule)|;
                found >= k || found == |Matching(hits, erpModule)|)
            && (|hits| <= fetched || erpModule.None? ==>
                  Overfetched(hits, k, erpModule) == Exhaustive(hits, k, erpModule))
  {
    var limit := Limit(k, erpModule);
    var i := if limit < |hits| then limit else |hits|;
    assert FirstK(hits, limit) == hits[..i];
    MatchingPrefix(hits, i, erpModule);
    assert |hits| <= limit ==> hits[..i] == hits;
    if erpModule.None? {
      MatchingEverything(hits[..i]);
      MatchingEverything(hits);
    }
  }

  /* ---------- the answer, hit by hit ---------- */

  /** How many of the hits match. */
  function Matched(hits: seq<SearchHit>, m: Option<string>): nat {
    if hits == [] then 0
    else Matched(hits[..|hits| - 1], m) + if Matches(hits[|hits| - 1], m) then 1 else 0
  }

  /** The hit at `i` is answered: it is among the first `fetched`, it matches, and fewer than
      `k` matches stand before it. */
  predicate Answered(hits: seq<SearchHit>, fetched: nat, k: nat, m: Option<string>, i: nat) {
    i < |hits| && i < fetched && Matches(hits[i], m) && Matched(hits[..i], m) < k
  }

  predicate ComesFromHit(hits: seq<SearchHit>, fetched: nat, k: nat, m: Option<string>, j: nat, c: ScoredChunk) {
    exists i ::
      0 <= i < |hits| && Answered(hits, fetched, k, m, i) && Matched(hits[..i], m) == j && c == ToChunk(hits[i])
  }

  /** The chunks are those of the hits that are answered, each in its place. */
  ghost predicate IsAnswer(hits: seq<SearchHit>, fetched: nat, k: nat, m: Option<string>, chunks: seq<ScoredChunk>) {
    && (forall i :: 0 <= i < |hits| && Answered(hits, fetched, k, m, i) ==>
          Matched(hits[..i], m) < |chunks| && chunks[Matched(hits[..i], m)] == ToChunk(hits[i]))
    && (forall j :: 0 <= j < |chunks| ==> ComesFromHit(hits, fetched, k, m, j, chunks[j]))
  }

  /** What a search for `k` chunks answers. With a module four times as many hits are looked
      at as are wanted, without one just as many; when there are no more than that, every
      match counts. */
  ghost predicate IsSearchAnswer(hits: seq<SearchHit>, k: nat, m: Option<string>, chunks: seq<ScoredChunk>) {
    var fetched := if m.None? || m == Some("") then k else 4 * k;
    IsAnswer(hits, fetched, k, m, chunks) && (|hits| <= fetched ==> chunks == Exhaustive(hits, k, m))
  }

  lemma {:induction false} MatchingCount(hits: seq<SearchHit>, m: Option<string>)
    ensures |Matching(hits, m)| == Matched(hits, m)
  {
    hide Matches, ToChunk;
    if hits != [] {
      MatchingCount(hits[..|hits| - 1], m);
    }
  }

  /** A matching hit stands behind the matches before it. */
  lemma MatchPlace(hits: seq<SearchHit>, m: Option<string>, i: nat)
    requires i < |hits| && Matches(hits[i], m)
    ensures Matched(hits[..i], m) < |Matching(hits, m)| && Matching(hits, m)[Matched(hits[..i], m)] == ToChunk(hits[i])
  {
    MatchingNext(hits, i, m);
    MatchingCount(hits[..i], m);
    MatchingPrefix(hits, i + 1, m);
    hide Matching, Matches, ToChunk, Matched;
  }

  /** Every place in the answer comes from a hit. */
  lemma {:induction false} PlaceMatch(hits: seq<SearchHit>, m: Option<string>, j: nat) returns (i: nat)
    requires j < |Matching(hits, m)|
    ensures i < |hits| && Matches(hits[i], m) && Matched(hits[..i], m) == j
  {
    hide Matches, ToChunk;
    var init := hits[..|hits| - 1];
    if j < |Matching(init, m)| {
      i := PlaceMatch(init, m, j);
      assert init[..i] == hits[..i];
    } else {
      i := |hits| - 1;
      MatchingCount(init, m);
    }
  }

  lemma FirstHit(hits: seq<SearchHit>, fetched: nat, i: nat)
    requires i < |hits| && i < fetched
    ensures var first := FirstK(hits, fetched); i < |first| && first[i] == hits[i] && first[..i] == hits[..i]
  {
  }

  lemma FirstMatchesAnswer(hits: seq<SearchHit>, fetched: nat, k: nat, m: Option<string>)
    ensures IsAnswer(hits, fetched, k, m, FirstK(Matching(FirstK(hits, fetched), m), k))
  {
    var first := FirstK(hits, fetched);
    var found := Matching(first, m);
    var chunks := FirstK(found, k);
    hide Matching, Matches, ToChunk, Matched, FirstK;
    forall i | 0 <= i < |hits| && Answered(hits, fetched, k, m, i)
      ensures Matched(hits[..i], m) < |chunks| && chunks[Matched(hits[..i], m)] == ToChunk(hits[i])
    {
      FirstHit(hits, fetched, i);
      MatchPlace(first, m, i);
    }
    forall j | 0 <= j < |chunks| ensures ComesFromHit(hits, fetched, k, m, j, chunks[j]) {
      var i := PlaceMatch(first, m, j);
      FirstHit(hits, fetched, i);
      MatchPlace(first, m, i);
      assert Answered(hits, fetched, k, m, i);
    }
  }

  lemma OverfetchedIsAnswer(hits: seq<SearchHit>, k: nat, m: Option<string>)
    ensures IsSearchAnswer(hits, k, m, Overfetched(hits, k, m))
  {
    hide IsAnswer, Overfetched, Exhaustive, Matching;
    OverfetchIsPrefix(hits, k, m);
    FirstMatchesAnswer(hits, Limit(k, m), k, m);
    OverfetchedIs(hits, k, m);
  }

  lemma OverfetchedIs(hits: seq<SearchHit>, k: nat, m: Option<string>)
    ensures Overfetched(hits, k, m) == FirstK(Matching(FirstK(hits, Limit(k, m)), m), k)
  {
  }

  /* ---------- the effect of each operation on the flat namespace ---------- */

  datatype Change = Write(op: InMemoryVectors.Op) | Erase(tenant: string)

  function Effect(digest: Digest, json: Json, c: map<string, Rows>, change: Change): map<string, Rows> {
    match change
    case Write(UpsertOp(r)) => Store(json, c, ChunksName(digest, r.tenant), ChunkRecord(r))
    case Write(SaveOp(k, n)) => Store(json, c, StateName(digest, k.tenant), MarkerRecord(k.asset, n))
    case Erase(t) => c - {ChunksName(digest, t)} - {StateName(digest, t)}
  }

  function TenantOf(change: Change): string {
    match change
    case Write(op) => InMemoryVectors.TenantOf(op)
    case Erase(t) => t
  }
}
