/**
 `IngestAssetUseCase` and `EmbedAssetUseCase` (src/use_cases/tasks/) over the in-memory
 stores.
 */
module UseCases {
  import opened Wrappers
  import opened Domain
  import opened InMemoryVectors
  import Pipeline

  /* ---------- stores ---------- */

  // src/infrastructure/persistence/chunk_store.py and
  // src/infrastructure/workers/idempotency_store.py.

  class InMemoryChunkStore {
    var store: map<Key, seq<Chunk>>

    constructor ()
      ensures store == map[]
    {
      store := map[];
    }

    method SaveChunks(asset: string, tenant: string, chunks: seq<Chunk>) returns (n: nat)
      modifies this
      ensures store == old(store)[Key(asset, tenant) := chunks] && n == |chunks|
    {
      store := store[Key(asset, tenant) := chunks];
      n := |chunks|;
    }

    method FindByAsset(asset: string, tenant: string) returns (chunks: seq<Chunk>)
      ensures chunks == if Key(asset, tenant) in store then store[Key(asset, tenant)] else []
    {
      chunks := if Key(asset, tenant) in store then store[Key(asset, tenant)] else [];
    }

    method DeleteByAsset(asset: string, tenant: string) returns (n: nat)
      modifies this
      ensures store == old(store) - {Key(asset, tenant)}
      ensures n == if Key(asset, tenant) in old(store) then |old(store)[Key(asset, tenant)]| else 0
    {
      n := if Key(asset, tenant) in store then |store[Key(asset, tenant)]| else 0;
      store := store - {Key(asset, tenant)};
    }
  }

  /** The in-memory idempotency store keys by one string, `{tenant}:{asset}`. */
  function ProcessedKey(asset: string, tenant: string): string {
    tenant + ":" + asset
  }

  class InMemoryIdempotencyStore {
    var processed: set<string>

    constructor ()
      ensures processed == {}
    {
      processed := {};
    }

    method IsProcessed(asset: string, tenant: string) returns (done: bool)
      ensures done <==> ProcessedKey(asset, tenant) in processed
    {
      done := ProcessedKey(asset, tenant) in processed;
    }

    method MarkProcessed(asset: string, tenant: string)
      modifies this
      ensures processed == old(processed) + {ProcessedKey(asset, tenant)}
    {
      processed := processed + {ProcessedKey(asset, tenant)};
    }
  }

  /** Some asset of `t` and some asset of `u` get the same key. */
  ghost predicate KeysCollide(t: string, u: string) {
    exists a, b :: ProcessedKey(a, t) == ProcessedKey(b, u)
  }

  /** Two tenants never share a key exactly when neither id, with a colon, begins the
      other; ids without colons are safe. */
  lemma KeysCollideExactlyWhen(t: string, u: string)
    requires t != u
    ensures KeysCollide(t, u) <==> t + ":" <= u || u + ":" <= t
    ensures ':' !in t && ':' !in u ==> !KeysCollide(t, u)
  {
    forall a, b | ProcessedKey(a, t) == ProcessedKey(b, u)
      ensures t + ":" <= u || u + ":" <= t
    {
      CollisionIsPrefix(a, t, b, u);
    }
    if t + ":" <= u {
      var a := u[|t| + 1..] + ":";
      assert u == t + ":" + u[|t| + 1..];
      assert ProcessedKey(a, t) == ProcessedKey("", u);
    }
    if u + ":" <= t {
      var b := t[|u| + 1..] + ":";
      assert t == u + ":" + t[|u| + 1..];
      assert ProcessedKey("", t) == ProcessedKey(b, u);
    }
    if t + ":" <= u {
      assert u[|t|] == (t + ":")[|t|];
    }
    if u + ":" <= t {
      assert t[|u|] == (u + ":")[|u|];
    }
  }

  lemma CollisionIsPrefix(a: string, t: string, b: string, u: string)
    requires t != u && ProcessedKey(a, t) == ProcessedKey(b, u)
    ensures t + ":" <= u || u + ":" <= t
  {
    var k := ProcessedKey(a, t);
    assert t == k[..|t|] && u == k[..|u|];
    assert k[|t|] == ':' && k[|u|] == ':';
    if |t| < |u| {
      assert t + ":" == k[..|t| + 1] <= u;
    } else if |u| < |t| {
      assert u + ":" == k[..|u| + 1] <= t;
    }
  }

  /* ---------- ingest ---------- */

  datatype IngestOutcome =
    | AlreadyProcessed
    | FileNotFound
    | ChunkerRaised
    | Ingested(chunkCount: nat)

  /** The two stores that ingesting writes. */
  datatype IngestStores = IngestStores(store: map<Key, seq<Chunk>>, processed: set<string>)

  /** The chunks of an asset, if it has content that the chunker can cut. */
  function Cut(content: Option<string>, chunker: string -> Option<seq<Chunk>>): Option<seq<Chunk>> {
    if content.Some? then chunker(content.value) else None
  }

  /** What one call leaves, where `made` are the chunks that were cut. */
  function AfterIngest(s: IngestStores, k: Key, made: Option<seq<Chunk>>): IngestStores {
    var key := ProcessedKey(k.asset, k.tenant);
    if key in s.processed || made.None? then s
    else IngestStores(s.store[k := made.value], s.processed + {key})
  }

  class IngestAssetUseCase {
    const idempotency: InMemoryIdempotencyStore
    const chunkStore: InMemoryChunkStore

    constructor (idempotency: InMemoryIdempotencyStore, chunkStore: InMemoryChunkStore)
      ensures this.idempotency == idempotency && this.chunkStore == chunkStore
    {
      this.idempotency, this.chunkStore := idempotency, chunkStore;
    }

    /** `content` is what the asset storage holds under the key; `chunker` is `None`
        where the chunker raises. */
    method Execute(asset: string, tenant: string, content: Option<string>, chunker: string -> Option<seq<Chunk>>)
      returns (outcome: IngestOutcome)
      modifies idempotency, chunkStore
      ensures outcome.AlreadyProcessed? <==> ProcessedKey(asset, tenant) in old(idempotency.processed)
      ensures outcome.FileNotFound? <==> !outcome.AlreadyProcessed? && content.None?
      ensures outcome.ChunkerRaised? <==>
                !outcome.AlreadyProcessed? && content.Some? && chunker(content.value).None?
      ensures outcome.Ingested? ==> outcome.chunkCount == |chunker(content.value).value|
      ensures IngestStores(chunkStore.store, idempotency.processed) ==
              AfterIngest(old(IngestStores(chunkStore.store, idempotency.processed)), Key(asset, tenant),
                          Cut(content, chunker))
    {
      var done := idempotency.IsProcessed(asset, tenant);
      if done {
        return AlreadyProcessed;
      }
      if content.None? {
        return FileNotFound;
      }
      var chunks := chunker(content.value);
      if chunks.None? {
        return ChunkerRaised;
      }
      var n := chunkStore.SaveChunks(asset, tenant, chunks.value);
      idempotency.MarkProcessed(asset, tenant);
      outcome := Ingested(|chunks.value|);
    }
  }

  /* ---------- embed ---------- */

  datatype EmbedOutcome = AlreadyEmbedded | Raised | Embedded(vectorCount: nat)

  type Embedder = string -> Vector

  function RecordFor(embed: Embedder, k: Key, c: Chunk): VectorRecord {
    VectorRecord(c.id, c.text, embed(c.text), k.asset, k.tenant, c.erpModule)
  }

  function RecordsFor(embed: Embedder, k: Key, cs: seq<Chunk>): seq<VectorRecord> {
    seq(|cs|, i requires 0 <= i < |cs| => RecordFor(embed, k, cs[i]))
  }

  function PutAll(vs: seq<VectorRecord>, rs: seq<VectorRecord>): seq<VectorRecord>
    decreases |rs|
  {
    if rs == [] then vs else PutAll(Put(vs, rs[0]), rs[1..])
  }

  lemma {:induction false} PutAllSnoc(vs: seq<VectorRecord>, rs: seq<VectorRecord>, r: VectorRecord)
    ensures PutAll(vs, rs + [r]) == Put(PutAll(vs, rs), r)
    decreases |rs|
  {
    if rs == [] {
      assert rs + [r] == [r];
      assert PutAll(vs, [r]) == PutAll(Put(vs, r), [r][1..]);
    } else {
      assert (rs + [r])[1..] == rs[1..] + [r];
      PutAllSnoc(Put(vs, rs[0]), rs[1..], r);
    }
  }

  /** One delivery: what it leaves in the vector store when the embedding call for
      chunk number `raisesAt` raises, if there is such a chunk. */
  function Attempt(embed: Embedder, s: Contents, k: Key, cs: seq<Chunk>, raisesAt: nat): Contents {
    if k in s.store then s
    else if raisesAt < |cs| then s.(vectors := PutAll(s.vectors, RecordsFor(embed, k, cs[..raisesAt])))
    else Contents(s.store[k := |cs|], PutAll(s.vectors, RecordsFor(embed, k, cs)))
  }

  class EmbedAssetUseCase {
    const vectorStore: InMemoryVectorStore
    const chunkStore: InMemoryChunkStore
    const embed: Embedder

    constructor (vectorStore: InMemoryVectorStore, chunkStore: InMemoryChunkStore, embed: Embedder)
      ensures this.vectorStore == vectorStore && this.chunkStore == chunkStore && this.embed == embed
    {
      this.vectorStore, this.chunkStore, this.embed := vectorStore, chunkStore, embed;
    }

    method Execute(asset: string, tenant: string, raisesAt: nat) returns (outcome: EmbedOutcome)
      modifies vectorStore
      ensures var k := Key(asset, tenant);
              var cs := if k in chunkStore.store then chunkStore.store[k] else [];
              && Contents(vectorStore.store, vectorStore.vectors) ==
                 Attempt(embed, old(Contents(vectorStore.store, vectorStore.vectors)), k, cs, raisesAt)
              && outcome == (if k in old(vectorStore.store) then AlreadyEmbedded
                             else if raisesAt < |cs| then Raised else Embedded(|cs|))
    {
      var done := vectorStore.HasVectors(asset, tenant);
      if done {
        return AlreadyEmbedded;
      }
      ghost var k := Key(asset, tenant);
      ghost var before := vectorStore.vectors;
      var chunks := chunkStore.FindByAsset(asset, tenant);
      var i := 0;
      while i < |chunks|
        invariant 0 <= i <= |chunks| && i <= raisesAt
        invariant vectorStore.store == old(vectorStore.store)
        invariant vectorStore.vectors == PutAll(before, RecordsFor(embed, k, chunks[..i]))
      {
        if i == raisesAt {
          return Raised;
        }
        var embedding := embed(chunks[i].text);
        vectorStore.Upsert(asset, tenant, embedding, chunks[i].id, chunks[i].text, chunks[i].erpModule);
        PutAllSnoc(before, RecordsFor(embed, k, chunks[..i]), RecordFor(embed, k, chunks[i]));
        assert RecordsFor(embed, k, chunks[..i + 1]) ==
               RecordsFor(embed, k, chunks[..i]) + [RecordFor(embed, k, chunks[i])];
        i := i + 1;
      }
      assert chunks[..i] == chunks;
      vectorStore.SaveVectors(asset, tenant, |chunks|);
      outcome := Embedded(|chunks|);
    }
  }

  /* ---------- retries converge ---------- */

  function KeysOf(rs: seq<VectorRecord>): set<VectorKey> {
    set r | r in rs :: KeyOf(r)
  }

  /** Upserting a list drops what it replaces and appends the same tail whatever was
      there before. */
  lemma {:induction false} PutAllSplit(a: seq<VectorRecord>, b: seq<VectorRecord>, rs: seq<VectorRecord>)
    ensures PutAll(a + b, rs) == Drop(a, KeysOf(rs)) + PutAll(b, rs)
    decreases |rs|
  {
    if rs == [] {
      assert KeysOf(rs) == {};
      DropNothing(a, {});
    } else {
      var r := rs[0];
      DropAppend(a, b, {KeyOf(r)});
      assert Put(a + b, r) == Drop(a, {KeyOf(r)}) + Put(b, r);
      PutAllSplit(Drop(a, {KeyOf(r)}), Put(b, r), rs[1..]);
      DropTwice(a, {KeyOf(r)}, KeysOf(rs[1..]));
      assert rs == [r] + rs[1..];
      assert KeysOf(rs) == {KeyOf(r)} + KeysOf(rs[1..]);
    }
  }

  lemma {:induction false} PutAllMembers(rs: seq<VectorRecord>, b: seq<VectorRecord>, keys: set<VectorKey>)
    requires KeysOf(rs) <= keys && forall r :: r in b ==> KeyOf(r) in keys
    ensures forall r :: r in PutAll(b, rs) ==> KeyOf(r) in keys
    decreases |rs|
  {
    if rs != [] {
      assert rs[0] in rs;
      DropMembers(b, {KeyOf(rs[0])});
      PutAllMembers(rs[1..], Put(b, rs[0]), keys);
    }
  }

  /** A list of upserts erases the traces of any earlier upserts of its own keys. */
  lemma PutAllAbsorbs(vs: seq<VectorRecord>, part: seq<VectorRecord>, rs: seq<VectorRecord>)
    requires KeysOf(part) <= KeysOf(rs)
    ensures PutAll(PutAll(vs, part), rs) == PutAll(vs, rs)
  {
    hide Drop, PutAll, Put;
    var keys := KeysOf(rs);
    var once := PutAll(vs, part);
    assert vs + [] == vs && once + [] == once;
    PutAllSplit(vs, [], part);
    PutAllSplit(vs, [], rs);
    PutAllSplit(once, [], rs);
    DropAppend(Drop(vs, KeysOf(part)), PutAll([], part), keys);
    DropTwice(vs, KeysOf(part), keys);
    assert KeysOf(part) + keys == keys;
    PutAllMembers(part, [], keys);
    DropAll(PutAll([], part), keys);
  }

  /* ---------- when a failed delivery leaves nothing behind ---------- */

  lemma {:induction false} PutAllReadsBack(vs: seq<VectorRecord>, rs: seq<VectorRecord>, key: VectorKey)
    requires forall i, j :: 0 <= i < j < |rs| ==> KeyOf(rs[i]) != KeyOf(rs[j])
    ensures key in KeysOf(rs) ==> exists i :: 0 <= i < |rs| && KeyOf(rs[i]) == key
    ensures forall i :: 0 <= i < |rs| && KeyOf(rs[i]) == key ==>
              key in ByKey(PutAll(vs, rs)) && ByKey(PutAll(vs, rs))[key] == rs[i]
    ensures key !in KeysOf(rs) ==> (key in ByKey(PutAll(vs, rs)) <==> key in ByKey(vs))
    ensures key !in KeysOf(rs) && key in ByKey(vs) ==> ByKey(PutAll(vs, rs))[key] == ByKey(vs)[key]
    decreases |rs|
  {
    hide ByKey, Put;
    if rs != [] {
      var init, last := rs[..|rs| - 1], rs[|rs| - 1];
      assert rs == init + [last];
      PutAllReadsBack(vs, init, key);
      PutAllSnoc(vs, init, last);
      ByKeyPut(PutAll(vs, init), last);
      assert KeysOf(rs) == KeysOf(init) + {KeyOf(last)};
    }
  }

  /** A delivery that fails at chunk `raisesAt` leaves every key of the vector store as it
      was exactly when the chunks before it were all stored already, just so. */
  lemma NoPartialUpsertsExactlyWhen(embed: Embedder, s: Contents, k: Key, cs: seq<Chunk>, raisesAt: nat)
    requires k !in s.store && raisesAt < |cs|
    requires forall i, j :: 0 <= i < j < |cs| ==> cs[i].id != cs[j].id
    ensures ByKey(Attempt(embed, s, k, cs, raisesAt).vectors) == ByKey(s.vectors) <==>
            forall i :: 0 <= i < raisesAt ==> AlreadyStored(s.vectors, RecordFor(embed, k, cs[i]))
  {
    var rs := RecordsFor(embed, k, cs[..raisesAt]);
    var before, after := ByKey(s.vectors), ByKey(PutAll(s.vectors, rs));
    assert forall i :: 0 <= i < raisesAt ==> rs[i] == RecordFor(embed, k, cs[i]);
    hide ByKey, PutAll;
    forall key
      ensures key in KeysOf(rs) ==> exists i :: 0 <= i < |rs| && KeyOf(rs[i]) == key
      ensures forall i :: 0 <= i < |rs| && KeyOf(rs[i]) == key ==> key in after && after[key] == rs[i]
      ensures key !in KeysOf(rs) ==> (key in after <==> key in before) && (key in before ==> after[key] == before[key])
    {
      PutAllReadsBack(s.vectors, rs, key);
    }
    if after == before {
      forall i | 0 <= i < raisesAt ensures AlreadyStored(s.vectors, RecordFor(embed, k, cs[i])) {
        assert KeyOf(rs[i]) in after && after[KeyOf(rs[i])] == rs[i];
      }
    }
    if forall i :: 0 <= i < raisesAt ==> AlreadyStored(s.vectors, RecordFor(embed, k, cs[i])) {
      forall key ensures (key in after <==> key in before) && (key in before ==> after[key] == before[key]) {
        if key in KeysOf(rs) {
          var i :| 0 <= i < |rs| && KeyOf(rs[i]) == key;
          assert AlreadyStored(s.vectors, RecordFor(embed, k, cs[i]));
        }
      }
      assert after == before;
    }
  }

  predicate AlreadyStored(vs: seq<VectorRecord>, r: VectorRecord) {
    KeyOf(r) in ByKey(vs) && ByKey(vs)[KeyOf(r)] == r
  }

  /** So for an asset none of whose chunks is stored yet, the documented promise of no
      partial upserts holds exactly for a delivery that fails at its first chunk. */
  lemma FreshAssetKeepsPromiseExactlyWhen(embed: Embedder, s: Contents, k: Key, cs: seq<Chunk>, raisesAt: nat)
    requires k !in s.store && raisesAt < |cs|
    requires forall i, r :: 0 <= i < |cs| && r in s.vectors ==> KeyOf(r) != VectorKey(k.tenant, cs[i].id)
    ensures Attempt(embed, s, k, cs, raisesAt) == s <==> raisesAt == 0
  {
    var rs := RecordsFor(embed, k, cs[..raisesAt]);
    if raisesAt > 0 {
      var init, last := RecordsFor(embed, k, cs[..raisesAt - 1]), RecordFor(embed, k, cs[raisesAt - 1]);
      assert rs == init + [last];
      PutAllSnoc(s.vectors, init, last);
      assert last in Put(PutAll(s.vectors, init), last);
    }
  }

  /** What an attempt stores for a chunk: its text with the embedding of that text, under
      its asset, tenant and module. It replaces whatever was stored under the same tenant and
      chunk id, and other keys stay. */
  lemma AttemptStoresChunk(embed: Embedder, s: Contents, k: Key, cs: seq<Chunk>, raisesAt: nat, i: nat)
    requires k !in s.store && i < |cs| && (i < raisesAt || raisesAt >= |cs|)
    requires forall i, j :: 0 <= i < j < |cs| ==> cs[i].id != cs[j].id
    ensures var after := ByKey(Attempt(embed, s, k, cs, raisesAt).vectors);
            var key := VectorKey(k.tenant, cs[i].id);
            && key in after
            && after[key].content == cs[i].text && after[key].embedding == embed(cs[i].text)
            && after[key].asset == k.asset && after[key].tenant == k.tenant
            && after[key].erpModule == cs[i].erpModule && after[key].chunkId == cs[i].id
  {
    var n := if raisesAt < |cs| then raisesAt else |cs|;
    var rs := RecordsFor(embed, k, cs[..n]);
    assert raisesAt >= |cs| ==> cs[..n] == cs;
    assert forall j :: 0 <= j < n ==> rs[j] == RecordFor(embed, k, cs[j]);
    hide ByKey, PutAll;
    PutAllReadsBack(s.vectors, rs, VectorKey(k.tenant, cs[i].id));
    assert KeyOf(rs[i]) == VectorKey(k.tenant, cs[i].id);
  }

  lemma AttemptKeepsOtherKeys(embed: Embedder, s: Contents, k: Key, cs: seq<Chunk>, raisesAt: nat, key: VectorKey)
    requires forall i, j :: 0 <= i < j < |cs| ==> cs[i].id != cs[j].id
    requires forall i :: 0 <= i < |cs| && i < raisesAt ==> key != VectorKey(k.tenant, cs[i].id)
    ensures var before, after := ByKey(s.vectors), ByKey(Attempt(embed, s, k, cs, raisesAt).vectors);
            (key in after <==> key in before) && (key in before ==> after[key] == before[key])
  {
    var n := if raisesAt < |cs| then raisesAt else |cs|;
    var rs := RecordsFor(embed, k, cs[..n]);
    assert raisesAt >= |cs| ==> cs[..n] == cs;
    assert forall j :: 0 <= j < n ==> KeyOf(rs[j]) == VectorKey(k.tenant, cs[j].id);
    hide ByKey, PutAll;
    PutAllReadsBack(s.vectors, rs, key);
  }

  /** Deliveries one after the other, each raising at its own chunk. */
  function Attempts(embed: Embedder, s: Contents, k: Key, cs: seq<Chunk>, raises: seq<nat>): Contents
    decreases |raises|
  {
    if raises == [] then s
    else Attempts(embed, Attempt(embed, s, k, cs, raises[0]), k, cs, raises[1..])
  }

  /** Any number of failed deliveries, each leaving some prefix of the chunks behind,
      and then a complete one: the stores are as after one clean delivery. */
  lemma {:induction false} RetriesConverge(embed: Embedder, s: Contents, k: Key, cs: seq<Chunk>, raises: seq<nat>)
    requires forall i :: 0 <= i < |raises| ==> raises[i] < |cs|
    ensures Attempt(embed, Attempts(embed, s, k, cs, raises), k, cs, |cs|) == Attempt(embed, s, k, cs, |cs|)
    ensures Attempts(embed, s, k, cs, raises).store == s.store
    decreases |raises|
  {
    if raises != [] {
      var next := Attempt(embed, s, k, cs, raises[0]);
      RetriesConverge(embed, next, k, cs, raises[1..]);
      if k !in s.store {
        var all, part := RecordsFor(embed, k, cs), RecordsFor(embed, k, cs[..raises[0]]);
        assert part == all[..raises[0]];
        PutAllAbsorbs(s.vectors, part, all);
      }
    }
  }

  /** The marker appears exactly with a complete delivery, whatever came before it. */
  lemma {:induction false} MarkerMeansComplete(embed: Embedder, s: Contents, k: Key, cs: seq<Chunk>, raises: seq<nat>)
    requires k !in s.store
    ensures k in Attempts(embed, s, k, cs, raises).store <==> exists i :: 0 <= i < |raises| && raises[i] >= |cs|
    ensures k in Attempts(embed, s, k, cs, raises).store ==>
              Attempts(embed, s, k, cs, raises) == Attempt(embed, s, k, cs, |cs|)
    decreases |raises|
  {
    if raises != [] {
      var next := Attempt(embed, s, k, cs, raises[0]);
      if raises[0] < |cs| {
        MarkerMeansComplete(embed, next, k, cs, raises[1..]);
        RetriesConverge(embed, s, k, cs, [raises[0]]);
        assert Attempts(embed, s, k, cs, [raises[0]]) == next by {
          assert [raises[0]][1..] == [];
        }
        if i :| 0 <= i < |raises| && raises[i] >= |cs| {
          assert raises[1..][i - 1] == raises[i];
        }
      } else {
        MarkedStays(embed, next, k, cs, raises[1..]);
      }
    }
  }

  lemma {:induction false} MarkedStays(embed: Embedder, s: Contents, k: Key, cs: seq<Chunk>, raises: seq<nat>)
    requires k in s.store
    ensures Attempts(embed, s, k, cs, raises) == s
    decreases |raises|
  {
    if raises != [] {
      MarkedStays(embed, s, k, cs, raises[1..]);
    }
  }

  /* ---------- the protocol's steps are these calls ---------- */

  function RecordOf(r: VectorRecord): Record {
    Record(r.asset, r.tenant, r.content, r.erpModule)
  }

  /** The vector store as the protocol sees it: the record of each key. */
  function View(vs: seq<VectorRecord>): map<VectorKey, Record> {
    map k | k in ByKey(vs) :: RecordOf(ByKey(vs)[k])
  }

  /** Storing a vector is a map update. */
  lemma ViewPut(vs: seq<VectorRecord>, r: VectorRecord)
    ensures View(Put(vs, r)) == View(vs)[KeyOf(r) := RecordOf(r)]
  {
    hide ByKey, Put;
    ByKeyPut(vs, r);
  }

  /** The in-memory stores behind the protocol. */
  const IN_MEMORY := Pipeline.Config(true, true, true)

  /** The steps of embed delivery `d` when it is not interrupted, except that the
      embedding call for chunk `raisesAt` raises. */
  function EmbedSteps(s: Pipeline.State, d: nat, k: Key, raisesAt: nat): seq<Pipeline.Action> {
    var n := |Pipeline.Stored(s, k)|;
    [Pipeline.StartEmbed(d, k), Pipeline.CheckEmbed(d)] +
    (if k in s.markers then []
     else [Pipeline.LoadChunks(d)] +
          (if raisesAt < n then Upserts(d, raisesAt) + [Pipeline.LoseEmbed(d)]
           else Upserts(d, n) + [Pipeline.SaveVectors(d)]))
  }

  function Upserts(d: nat, n: nat): seq<Pipeline.Action> {
    if n == 0 then [] else [Pipeline.UpsertNext(d)] + Upserts(d, n - 1)
  }

  function AfterUpserts(s: Pipeline.State, d: nat, k: Key, cs: seq<Chunk>, done: nat,
                        vs: seq<VectorRecord>): Pipeline.State
  {
    s.(vectors := View(vs), embeds := s.embeds[d := Pipeline.EmbedRun(k, Pipeline.Upserting(cs, done))])
  }

  lemma RunOne(s: Pipeline.State, a: Pipeline.Action, rest: seq<Pipeline.Action>)
    requires Pipeline.Enabled(IN_MEMORY, s, a)
    ensures Pipeline.Run(IN_MEMORY, s, [a] + rest) == Pipeline.Run(IN_MEMORY, Pipeline.Apply(IN_MEMORY, s, a), rest)
  {
    assert ([a] + rest)[1..] == rest;
  }

  lemma RunTwo(s: Pipeline.State, a: Pipeline.Action, b: Pipeline.Action, rest: seq<Pipeline.Action>)
    requires Pipeline.Enabled(IN_MEMORY, s, a)
    requires Pipeline.Enabled(IN_MEMORY, Pipeline.Apply(IN_MEMORY, s, a), b)
    ensures Pipeline.Run(IN_MEMORY, s, [a, b] + rest) ==
            Pipeline.Run(IN_MEMORY, Pipeline.Apply(IN_MEMORY, Pipeline.Apply(IN_MEMORY, s, a), b), rest)
  {
  }

  lemma FirstUpsertIsExecuted(
      embed: Embedder, s: Pipeline.State, d: nat, k: Key, cs: seq<Chunk>, i: nat,
      vs: seq<VectorRecord>, rest: seq<Pipeline.Action>)
    requires i < |cs| && d in s.embeds && s.embeds[d] == Pipeline.EmbedRun(k, Pipeline.Upserting(cs, i))
    requires s.vectors == View(vs)
    ensures Pipeline.Run(IN_MEMORY, s, [Pipeline.UpsertNext(d)] + rest) ==
            Pipeline.Run(IN_MEMORY, AfterUpserts(s, d, k, cs, i + 1, Put(vs, RecordFor(embed, k, cs[i]))), rest)
  {
    RunOne(s, Pipeline.UpsertNext(d), rest);
    ViewPut(vs, RecordFor(embed, k, cs[i]));
    hide View, Pipeline.Run, Put;
    assert Pipeline.Apply(IN_MEMORY, s, Pipeline.UpsertNext(d)) ==
           AfterUpserts(s, d, k, cs, i + 1, Put(vs, RecordFor(embed, k, cs[i])));
  }

  lemma {:induction false} UpsertsAreExecuted(
      embed: Embedder, s: Pipeline.State, d: nat, k: Key, cs: seq<Chunk>, i: nat, n: nat,
      vs: seq<VectorRecord>, next: seq<Pipeline.Action>)
    requires i + n <= |cs|
    ensures Pipeline.Run(IN_MEMORY, AfterUpserts(s, d, k, cs, i, vs), Upserts(d, n) + next) ==
            Pipeline.Run(IN_MEMORY,
              AfterUpserts(s, d, k, cs, i + n, PutAll(vs, RecordsFor(embed, k, cs[i..i + n]))), next)
    decreases n
  {
    hide Pipeline.Run, View;
    var rs := RecordsFor(embed, k, cs[i..i + n]);
    if n == 0 {
      assert Upserts(d, n) + next == next && rs == [];
    } else {
      var r := RecordFor(embed, k, cs[i]);
      FirstUpsertIsExecuted(embed, AfterUpserts(s, d, k, cs, i, vs), d, k, cs, i, vs, Upserts(d, n - 1) + next);
      assert Upserts(d, n) + next == [Pipeline.UpsertNext(d)] + (Upserts(d, n - 1) + next);
      assert AfterUpserts(AfterUpserts(s, d, k, cs, i, vs), d, k, cs, i + 1, Put(vs, r)) ==
             AfterUpserts(s, d, k, cs, i + 1, Put(vs, r));
      UpsertsAreExecuted(embed, s, d, k, cs, i + 1, n - 1, Put(vs, r), next);
      assert rs[0] == r && rs[1..] == RecordsFor(embed, k, cs[i + 1..i + n]);
    }
  }

  /** A delivery for an asset that is already marked does nothing. */
  lemma SkippedDelivery(s: Pipeline.State, d: nat, k: Key)
    requires d !in s.embeds && k in s.jobs && k in s.markers
    ensures Pipeline.Run(IN_MEMORY, s, [Pipeline.StartEmbed(d, k), Pipeline.CheckEmbed(d)]) == Some(s)
  {
    var start, check := Pipeline.StartEmbed(d, k), Pipeline.CheckEmbed(d);
    RunTwo(s, start, check, []);
    assert [start, check] + [] == [start, check];
    assert s.embeds[d := Pipeline.EmbedRun(k, Pipeline.Waiting)] - {d} == s.embeds;
  }

  lemma ClearedDelivery(s: Pipeline.State, d: nat, k: Key, rest: seq<Pipeline.Action>)
    requires d !in s.embeds && k in s.jobs && k !in s.markers
    ensures Pipeline.Run(IN_MEMORY, s, [Pipeline.StartEmbed(d, k), Pipeline.CheckEmbed(d)] + rest) ==
            Pipeline.Run(IN_MEMORY, s.(embeds := s.embeds[d := Pipeline.EmbedRun(k, Pipeline.Cleared)]), rest)
  {
    hide Pipeline.Run;
    var s1 := s.(embeds := s.embeds[d := Pipeline.EmbedRun(k, Pipeline.Waiting)]);
    RunTwo(s, Pipeline.StartEmbed(d, k), Pipeline.CheckEmbed(d), rest);
    assert s1.embeds[d := Pipeline.EmbedRun(k, Pipeline.Cleared)] ==
           s.embeds[d := Pipeline.EmbedRun(k, Pipeline.Cleared)];
  }

  /** Otherwise it comes to the loop with the stored chunks. */
  lemma LoadedDelivery(s: Pipeline.State, d: nat, k: Key, vs: seq<VectorRecord>, rest: seq<Pipeline.Action>)
    requires d !in s.embeds && k in s.jobs && k !in s.markers && s.vectors == View(vs)
    ensures Pipeline.Run(IN_MEMORY, s,
              [Pipeline.StartEmbed(d, k), Pipeline.CheckEmbed(d)] + ([Pipeline.LoadChunks(d)] + rest)) ==
            Pipeline.Run(IN_MEMORY, AfterUpserts(s, d, k, Pipeline.Stored(s, k), 0, vs), rest)
  {
    hide View, Pipeline.Run;
    ClearedDelivery(s, d, k, [Pipeline.LoadChunks(d)] + rest);
    var s2 := s.(embeds := s.embeds[d := Pipeline.EmbedRun(k, Pipeline.Cleared)]);
    RunOne(s2, Pipeline.LoadChunks(d), rest);
    var loaded := Pipeline.EmbedRun(k, Pipeline.Upserting(Pipeline.Stored(s, k), 0));
    assert s2.embeds[d := loaded] == s.embeds[d := loaded];
  }

  lemma LastStep(s: Pipeline.State, d: nat, k: Key, cs: seq<Chunk>, n: nat, vs: seq<VectorRecord>)
    requires d !in s.embeds && n <= |cs|
    ensures var u := AfterUpserts(s, d, k, cs, n, vs);
            && Pipeline.Run(IN_MEMORY, u, [Pipeline.LoseEmbed(d)]) == Some(s.(vectors := View(vs)))
            && (n == |cs| ==> Pipeline.Run(IN_MEMORY, u, [Pipeline.SaveVectors(d)]) ==
                              Some(s.(vectors := View(vs), markers := s.markers[k := n])))
  {
    hide View;
    var u := AfterUpserts(s, d, k, cs, n, vs);
    assert u.embeds - {d} == s.embeds;
    RunOne(u, Pipeline.LoseEmbed(d), []);
    assert [Pipeline.LoseEmbed(d)] + [] == [Pipeline.LoseEmbed(d)];
    if n == |cs| {
      RunOne(u, Pipeline.SaveVectors(d), []);
      assert [Pipeline.SaveVectors(d)] + [] == [Pipeline.SaveVectors(d)];
    }
  }

  /** An embed delivery of the protocol that nothing interrupts does to the stores what
      one call of the use case does. */
  lemma EmbedDeliveryIsExecute(embed: Embedder, s: Pipeline.State, d: nat, k: Key, raisesAt: nat, c: Contents)
    requires d !in s.embeds && k in s.jobs
    requires s.vectors == View(c.vectors) && s.markers == c.store
    ensures var t := Pipeline.Run(IN_MEMORY, s, EmbedSteps(s, d, k, raisesAt));
            var after := Attempt(embed, c, k, Pipeline.Stored(s, k), raisesAt);
            t.Some? && t.value.markers == after.store
            && t.value == s.(vectors := View(after.vectors), markers := t.value.markers)
  {
    hide View, Pipeline.Run, PutAll;
    if k in s.markers {
      SkippedDelivery(s, d, k);
      assert EmbedSteps(s, d, k, raisesAt) == [Pipeline.StartEmbed(d, k), Pipeline.CheckEmbed(d)];
    } else {
      var cs := Pipeline.Stored(s, k);
      var n := if raisesAt < |cs| then raisesAt else |cs|;
      var last := if raisesAt < |cs| then Pipeline.LoseEmbed(d) else Pipeline.SaveVectors(d);
      assert EmbedSteps(s, d, k, raisesAt) ==
             [Pipeline.StartEmbed(d, k), Pipeline.CheckEmbed(d)] +
             ([Pipeline.LoadChunks(d)] + (Upserts(d, n) + [last]));
      LoadedDelivery(s, d, k, c.vectors, Upserts(d, n) + [last]);
      UpsertsAreExecuted(embed, s, d, k, cs, 0, n, c.vectors, [last]);
      assert cs[0..n] == cs[..n] && (raisesAt >= |cs| ==> cs[..n] == cs);
      LastStep(s, d, k, cs, n, PutAll(c.vectors, RecordsFor(embed, k, cs[..n])));
    }
  }

  /* ---------- and so are those of ingesting ---------- */

  /** The steps of ingest delivery `d` when its worker lives: skipped, failed before the
      chunks are stored, or complete, when the embed job may be sent or not. */
  function IngestSteps(s: Pipeline.State, d: nat, k: Key, made: Option<seq<Chunk>>, sent: bool): seq<Pipeline.Action> {
    [Pipeline.StartIngest(d, k), Pipeline.CheckIngest(d)] +
    (if k in s.processed then []
     else if made.None? then [Pipeline.LoseIngest(d)]
     else [Pipeline.CutChunks(d, made.value), Pipeline.SaveAtOnce(d)] +
          [Pipeline.MarkProcessed(d), if sent then Pipeline.DispatchEmbed(d) else Pipeline.LoseIngest(d)])
  }

  /** The idempotency store answers for these assets as the protocol does. */
  ghost predicate ShowsProcessed(processed: set<string>, s: Pipeline.State, assets: set<Key>) {
    forall j :: j in assets ==> (ProcessedKey(j.asset, j.tenant) in processed <==> j in s.processed)
  }

  ghost predicate KeysApart(assets: set<Key>) {
    forall i, j ::
      i in assets && j in assets && ProcessedKey(i.asset, i.tenant) == ProcessedKey(j.asset, j.tenant) ==> i == j
  }

  /** Where ingest delivery `d` of `k` stands. */
  function AtIngest(s: Pipeline.State, d: nat, k: Key, pc: Pipeline.IngestPc): Pipeline.State {
    s.(ingests := s.ingests[d := Pipeline.IngestRun(k, pc)])
  }

  /** What a complete ingest adds to the state. */
  function WithIngested(s: Pipeline.State, k: Key, cs: seq<Chunk>, sent: bool): Pipeline.State {
    s.(issued := s.issued + set c | c in cs :: Pipeline.Issued(k, c), stored := s.stored[k := cs],
       processed := s.processed + {k}, produced := s.produced[k := cs],
       jobs := if sent then s.jobs + {k} else s.jobs)
  }

  lemma CheckedDelivery(s: Pipeline.State, d: nat, k: Key, rest: seq<Pipeline.Action>)
    requires d !in s.ingests && forall e :: e in s.ingests ==> s.ingests[e].key != k
    ensures Pipeline.Run(IN_MEMORY, s, [Pipeline.StartIngest(d, k), Pipeline.CheckIngest(d)] + rest) ==
            Pipeline.Run(IN_MEMORY, if k in s.processed then s else AtIngest(s, d, k, Pipeline.Checked), rest)
  {
    hide Pipeline.Run;
    RunTwo(s, Pipeline.StartIngest(d, k), Pipeline.CheckIngest(d), rest);
    var run := Pipeline.IngestRun(k, Pipeline.Received);
    assert s.ingests[d := run] - {d} == s.ingests;
    assert s.ingests[d := run][d := Pipeline.IngestRun(k, Pipeline.Checked)] ==
           s.ingests[d := Pipeline.IngestRun(k, Pipeline.Checked)];
  }

  lemma FreshAtIngest(s: Pipeline.State, d: nat, k: Key, cs: seq<Chunk>)
    requires Pipeline.FreshIds(s, cs)
    ensures Pipeline.FreshIds(AtIngest(s, d, k, Pipeline.Checked), cs)
  {
  }

  lemma SavedDelivery(s: Pipeline.State, d: nat, k: Key, cs: seq<Chunk>, rest: seq<Pipeline.Action>)
    requires Pipeline.FreshIds(s, cs)
    ensures Pipeline.Run(IN_MEMORY, AtIngest(s, d, k, Pipeline.Checked),
              [Pipeline.CutChunks(d, cs), Pipeline.SaveAtOnce(d)] + rest) ==
            Pipeline.Run(IN_MEMORY,
              AtIngest(s.(issued := s.issued + set c | c in cs :: Pipeline.Issued(k, c), stored := s.stored[k := cs]),
                       d, k, Pipeline.Saved(cs)), rest)
  {
    FreshAtIngest(s, d, k, cs);
    hide Pipeline.Run, Pipeline.FreshIds;
    var u := AtIngest(s, d, k, Pipeline.Checked);
    RunTwo(u, Pipeline.CutChunks(d, cs), Pipeline.SaveAtOnce(d), rest);
    var chunked, saved := Pipeline.IngestRun(k, Pipeline.Chunked(cs)), Pipeline.IngestRun(k, Pipeline.Saved(cs));
    assert u.ingests[d := chunked][d := saved] == s.ingests[d := saved];
  }

  lemma MarkedDelivery(s: Pipeline.State, d: nat, k: Key, cs: seq<Chunk>, sent: bool)
    requires d !in s.ingests
    ensures Pipeline.Run(IN_MEMORY, AtIngest(s, d, k, Pipeline.Saved(cs)),
              [Pipeline.MarkProcessed(d), if sent then Pipeline.DispatchEmbed(d) else Pipeline.LoseIngest(d)]) ==
            Some(s.(processed := s.processed + {k}, produced := s.produced[k := cs],
                    jobs := if sent then s.jobs + {k} else s.jobs))
  {
    var u := AtIngest(s, d, k, Pipeline.Saved(cs));
    var last := if sent then Pipeline.DispatchEmbed(d) else Pipeline.LoseIngest(d);
    RunTwo(u, Pipeline.MarkProcessed(d), last, []);
    assert [Pipeline.MarkProcessed(d), last] + [] == [Pipeline.MarkProcessed(d), last];
    assert u.ingests[d := Pipeline.IngestRun(k, Pipeline.Marked)] - {d} == s.ingests;
  }

  lemma FailedDelivery(s: Pipeline.State, d: nat, k: Key)
    requires d !in s.ingests
    ensures Pipeline.Run(IN_MEMORY, AtIngest(s, d, k, Pipeline.Checked), [Pipeline.LoseIngest(d)]) == Some(s)
  {
    var u := AtIngest(s, d, k, Pipeline.Checked);
    RunOne(u, Pipeline.LoseIngest(d), []);
    assert [Pipeline.LoseIngest(d)] + [] == [Pipeline.LoseIngest(d)];
    assert u.ingests - {d} == s.ingests;
  }

  /** An ingest delivery of the protocol whose worker lives does to the stores what one
      call of the use case does, among assets whose joined keys differ. */
  lemma IngestDeliveryIsExecute(s: Pipeline.State, d: nat, k: Key, made: Option<seq<Chunk>>, sent: bool,
                                c: IngestStores, assets: set<Key>)
    requires d !in s.ingests && forall e :: e in s.ingests ==> s.ingests[e].key != k
    requires made.Some? ==> Pipeline.FreshIds(s, made.value)
    requires k in assets && KeysApart(assets) && s.stored == c.store && ShowsProcessed(c.processed, s, assets)
    ensures var t := Pipeline.Run(IN_MEMORY, s, IngestSteps(s, d, k, made, sent));
            var after := AfterIngest(c, k, made);
            && t.Some? && t.value.stored == after.store && ShowsProcessed(after.processed, t.value, assets)
            && t.value == if k in s.processed || made.None? then s else WithIngested(s, k, made.value, sent)
  {
    hide Pipeline.Run, Pipeline.FreshIds;
    var front := [Pipeline.StartIngest(d, k), Pipeline.CheckIngest(d)];
    if k in s.processed {
      CheckedDelivery(s, d, k, []);
      assert IngestSteps(s, d, k, made, sent) == front + [];
      NothingLeftToRun(s);
    } else if made.None? {
      CheckedDelivery(s, d, k, [Pipeline.LoseIngest(d)]);
      FailedDelivery(s, d, k);
    } else {
      var cs := made.value;
      var last := [Pipeline.MarkProcessed(d), if sent then Pipeline.DispatchEmbed(d) else Pipeline.LoseIngest(d)];
      CheckedDelivery(s, d, k, [Pipeline.CutChunks(d, cs), Pipeline.SaveAtOnce(d)] + last);
      SavedDelivery(s, d, k, cs, last);
      MarkedDelivery(s.(issued := s.issued + set c | c in cs :: Pipeline.Issued(k, c), stored := s.stored[k := cs]),
                     d, k, cs, sent);
    }
  }

  lemma NothingLeftToRun(s: Pipeline.State)
    ensures Pipeline.Run(IN_MEMORY, s, []) == Some(s)
  {
  }
}
