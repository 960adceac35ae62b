/**
 `InMemoryVectorStore` (src/infrastructure/vector_store/in_memory_vector_store.py), the
 reference store. Only the order of its similarities matters.
 */
module InMemoryVectors {
  import opened Wrappers
  import opened Domain
  import opened Ranking

  datatype VectorRecord = VectorRecord(
    chunkId: string, content: string, embedding: Vector,
    asset: string, tenant: string, erpModule: Option<string>)

  type Similarity = (Vector, Vector) -> real

  function KeyOf(r: VectorRecord): VectorKey {
    VectorKey(r.tenant, r.chunkId)
  }

  /* ---------- the store as values ---------- */

  /** The records whose key is not in `keys`. */
  function Drop(vs: seq<VectorRecord>, keys: set<VectorKey>): seq<VectorRecord> {
    if vs == [] then []
    else if KeyOf(vs[0]) in keys then Drop(vs[1..], keys)
    else [vs[0]] + Drop(vs[1..], keys)
  }

  function Put(vs: seq<VectorRecord>, r: VectorRecord): seq<VectorRecord> {
    Drop(vs, {KeyOf(r)}) + [r]
  }

  predicate Wanted(r: VectorRecord, tenant: string, erpModule: Option<string>) {
    r.tenant == tenant && (erpModule.None? || r.erpModule == erpModule)
  }

  function Candidates(vs: seq<VectorRecord>, tenant: string, erpModule: Option<string>): seq<VectorRecord> {
    if vs == [] then []
    else if Wanted(vs[0], tenant, erpModule) then [vs[0]] + Candidates(vs[1..], tenant, erpModule)
    else Candidates(vs[1..], tenant, erpModule)
  }

  datatype Hit = Hit(score: real, hit: VectorRecord)

  function ScoreOf(h: Hit): real { h.score }

  function Scored(similarity: Similarity, query: Vector, rs: seq<VectorRecord>): seq<Hit> {
    seq(|rs|, i requires 0 <= i < |rs| => Hit(similarity(query, rs[i].embedding), rs[i]))
  }

  function ToChunks(hits: seq<Hit>): seq<ScoredChunk> {
    seq(|hits|, i requires 0 <= i < |hits| =>
      ScoredChunk(hits[i].hit.chunkId, hits[i].hit.content, hits[i].score, hits[i].hit.asset, hits[i].hit.erpModule))
  }

  function Search(similarity: Similarity, vs: seq<VectorRecord>, query: Vector, k: int,
                  tenant: string, erpModule: Option<string>): seq<ScoredChunk> {
    ToChunks(FirstK(Ranked(Scored(similarity, query, Candidates(vs, tenant, erpModule)), ScoreOf), k))
  }

  /* ---------- the class ---------- */

  class InMemoryVectorStore {
    const similarity: Similarity
    var store: map<Key, int>
    var vectors: seq<VectorRecord>

    constructor (similarity: Similarity)
      ensures this.similarity == similarity && store == map[] && vectors == []
    {
      this.similarity := similarity;
      store, vectors := map[], [];
    }

    method HasVectors(asset: string, tenant: string) returns (found: bool)
      ensures found <==> Key(asset, tenant) in store
    {
      found := Key(asset, tenant) in store;
    }

    method SaveVectors(asset: string, tenant: string, vectorCount: int)
      modifies this`store
      ensures store == old(store)[Key(asset, tenant) := vectorCount]
    {
      store := store[Key(asset, tenant) := vectorCount];
    }

    method Count(asset: string, tenant: string) returns (n: int)
      ensures n == if Key(asset, tenant) in store then store[Key(asset, tenant)] else 0
    {
      n := if Key(asset, tenant) in store then store[Key(asset, tenant)] else 0;
    }

    method Upsert(asset: string, tenant: string, embedding: Vector, chunkId: string, content: string,
                  erpModule: Option<string>)
      modifies this`vectors
      ensures vectors == Put(old(vectors), VectorRecord(chunkId, content, embedding, asset, tenant, erpModule))
    {
      vectors := Drop(vectors, {VectorKey(tenant, chunkId)});
      vectors := vectors + [VectorRecord(chunkId, content, embedding, asset, tenant, erpModule)];
    }

    /** The first `k` of the tenant's records of that module, in the descending order of
        their similarity that keeps ties in place. */
    method SearchSimilar(query: Vector, k: int, tenant: string, erpModule: Option<string>)
      returns (chunks: seq<ScoredChunk>)
      ensures chunks == Search(similarity, vectors, query, k, tenant, erpModule)
      ensures exists ranking ::
                && IsRanking(Scored(similarity, query, Candidates(vectors, tenant, erpModule)), ranking, ScoreOf)
                && chunks == ToChunks(FirstK(ranking, k))
      ensures forall c :: c in chunks ==> exists r ::
                && r in vectors && Wanted(r, tenant, erpModule)
                && c == ScoredChunk(r.chunkId, r.content, similarity(query, r.embedding), r.asset, r.erpModule)
    {
      var candidates := Candidates(vectors, tenant, erpModule);
      var scored := Ranked(Scored(similarity, query, candidates), ScoreOf);
      chunks := ToChunks(FirstK(scored, k));
      RankedIsRanking(Scored(similarity, query, candidates), ScoreOf);
      forall c | c in chunks
        ensures exists r ::
                  && r in vectors && Wanted(r, tenant, erpModule)
                  && c == ScoredChunk(r.chunkId, r.content, similarity(query, r.embedding), r.asset, r.erpModule)
      {
        SearchIsScoped(similarity, vectors, query, k, tenant, erpModule, c);
      }
    }

    method Clear()
      modifies this
      ensures store == map[] && vectors == []
    {
      store, vectors := map[], [];
    }
  }

  /* ---------- what one upsert does ---------- */

  lemma {:induction false} DropAppend(a: seq<VectorRecord>, b: seq<VectorRecord>, keys: set<VectorKey>)
    ensures Drop(a + b, keys) == Drop(a, keys) + Drop(b, keys)
    decreases |a|
  {
    if a == [] {
      assert a + b == b;
    } else {
      assert (a + b)[1..] == a[1..] + b;
      DropAppend(a[1..], b, keys);
    }
  }

  lemma {:induction false} DropTwice(vs: seq<VectorRecord>, keys: set<VectorKey>, more: set<VectorKey>)
    ensures Drop(Drop(vs, keys), more) == Drop(vs, keys + more)
    decreases |vs|
  {
    if vs != [] {
      DropTwice(vs[1..], keys, more);
      var rest := Drop(vs[1..], keys);
      assert ([vs[0]] + rest)[1..] == rest;
    }
  }

  lemma {:induction false} DropAll(vs: seq<VectorRecord>, keys: set<VectorKey>)
    requires forall r :: r in vs ==> KeyOf(r) in keys
    ensures Drop(vs, keys) == []
    decreases |vs|
  {
    if vs != [] {
      assert vs[0] in vs;
      DropAll(vs[1..], keys);
    }
  }

  lemma {:induction false} DropMembers(vs: seq<VectorRecord>, keys: set<VectorKey>)
    ensures forall r :: r in Drop(vs, keys) <==> r in vs && KeyOf(r) !in keys
    decreases |vs|
  {
    if vs != [] {
      DropMembers(vs[1..], keys);
      assert forall r :: r in vs <==> r == vs[0] || r in vs[1..];
    }
  }

  /** The store by key; where a key occurs twice, the later record. */
  function ByKey(vs: seq<VectorRecord>): map<VectorKey, VectorRecord> {
    if vs == [] then map[] else ByKey(vs[..|vs| - 1])[KeyOf(vs[|vs| - 1]) := vs[|vs| - 1]]
  }

  lemma ByKeySnoc(vs: seq<VectorRecord>, r: VectorRecord)
    ensures ByKey(vs + [r]) == ByKey(vs)[KeyOf(r) := r]
  {
    assert (vs + [r])[..|vs|] == vs;
  }

  lemma {:induction false} ByKeyDrop(vs: seq<VectorRecord>, keys: set<VectorKey>)
    ensures ByKey(Drop(vs, keys)) == ByKey(vs) - keys
    decreases |vs|
  {
    if vs != [] {
      var r, init := vs[|vs| - 1], vs[..|vs| - 1];
      assert vs == init + [r];
      ByKeyDrop(init, keys);
      ByKeyDropStep(init, r, keys);
    }
  }

  lemma ByKeyDropStep(init: seq<VectorRecord>, r: VectorRecord, keys: set<VectorKey>)
    requires ByKey(Drop(init, keys)) == ByKey(init) - keys
    ensures ByKey(Drop(init + [r], keys)) == ByKey(init + [r]) - keys
  {
    hide *;
    DropAppend(init, [r], keys);
    DropOne(r, keys);
    ByKeySnoc(init, r);
    var m, rest := ByKey(init), Drop(init, keys);
    if KeyOf(r) in keys {
      assert rest + [] == rest;
      assert m[KeyOf(r) := r] - keys == m - keys;
    } else {
      ByKeySnoc(rest, r);
      assert m[KeyOf(r) := r] - keys == (m - keys)[KeyOf(r) := r];
    }
  }

  lemma DropOne(r: VectorRecord, keys: set<VectorKey>)
    ensures Drop([r], keys) == if KeyOf(r) in keys then [] else [r]
  {
  }

  lemma {:induction false} ByKeyMembers(vs: seq<VectorRecord>)
    ensures forall k :: k in ByKey(vs) ==> ByKey(vs)[k] in vs && KeyOf(ByKey(vs)[k]) == k
    ensures forall r :: r in vs ==> KeyOf(r) in ByKey(vs)
  {
    if vs != [] {
      ByKeyMembers(vs[..|vs| - 1]);
      assert vs == vs[..|vs| - 1] + [vs[|vs| - 1]];
    }
  }

  /** Storing a vector is a map update. */
  lemma ByKeyPut(vs: seq<VectorRecord>, r: VectorRecord)
    ensures ByKey(Put(vs, r)) == ByKey(vs)[KeyOf(r) := r]
  {
    ByKeyDrop(vs, {KeyOf(r)});
    ByKeySnoc(Drop(vs, {KeyOf(r)}), r);
  }

  /* ---------- tenants do not interfere ---------- */

  datatype Op =
    | UpsertOp(record: VectorRecord)
    | SaveOp(key: Key, vectorCount: int)

  datatype Contents = Contents(store: map<Key, int>, vectors: seq<VectorRecord>)

  function TenantOf(op: Op): string {
    match op
    case UpsertOp(r) => r.tenant
    case SaveOp(k, _) => k.tenant
  }

  function Do(c: Contents, op: Op): Contents {
    match op
    case UpsertOp(r) => c.(vectors := Put(c.vectors, r))
    case SaveOp(k, n) => c.(store := c.store[k := n])
  }

  function DoAll(c: Contents, ops: seq<Op>): Contents
    decreases |ops|
  {
    if ops == [] then c else DoAll(Do(c, ops[0]), ops[1..])
  }

  /** The run with every other tenant's operations erased. */
  function Only(tenant: string, ops: seq<Op>): seq<Op> {
    if ops == [] then []
    else if TenantOf(ops[0]) == tenant then [ops[0]] + Only(tenant, ops[1..])
    else Only(tenant, ops[1..])
  }

  lemma {:induction false} CandidatesAppend(a: seq<VectorRecord>, b: seq<VectorRecord>, tenant: string,
                                            m: Option<string>)
    ensures Candidates(a + b, tenant, m) == Candidates(a, tenant, m) + Candidates(b, tenant, m)
    decreases |a|
  {
    if a == [] {
      assert a + b == b;
    } else {
      assert (a + b)[1..] == a[1..] + b;
      CandidatesAppend(a[1..], b, tenant, m);
    }
  }

  lemma {:induction false} CandidatesDrop(vs: seq<VectorRecord>, keys: set<VectorKey>, tenant: string,
                                          m: Option<string>)
    ensures Candidates(Drop(vs, keys), tenant, m) == Drop(Candidates(vs, tenant, m), keys)
    decreases |vs|
  {
    if vs != [] {
      CandidatesDrop(vs[1..], keys, tenant, m);
      var rest := Drop(vs[1..], keys);
      assert ([vs[0]] + rest)[1..] == rest;
      var found := Candidates(vs[1..], tenant, m);
      assert ([vs[0]] + found)[1..] == found;
    }
  }

  lemma {:induction false} DropNothing(vs: seq<VectorRecord>, keys: set<VectorKey>)
    requires forall r :: r in vs ==> KeyOf(r) !in keys
    ensures Drop(vs, keys) == vs
    decreases |vs|
  {
    if vs != [] {
      assert vs[0] in vs;
      DropNothing(vs[1..], keys);
    }
  }

  lemma {:induction false} CandidatesAreWanted(vs: seq<VectorRecord>, tenant: string, m: Option<string>)
    ensures forall r :: r in Candidates(vs, tenant, m) ==> Wanted(r, tenant, m)
    decreases |vs|
  {
    if vs != [] {
      CandidatesAreWanted(vs[1..], tenant, m);
    }
  }

  /** Both stores hold the same things of `tenant`, in the same order. */
  ghost predicate Agree(c: Contents, d: Contents, tenant: string) {
    && (forall m :: Candidates(c.vectors, tenant, m) == Candidates(d.vectors, tenant, m))
    && (forall k: Key :: k.tenant == tenant ==>
          (k in c.store <==> k in d.store) && (k in c.store ==> c.store[k] == d.store[k]))
  }

  lemma AgreeOnOwn(c: Contents, d: Contents, tenant: string, op: Op)
    requires Agree(c, d, tenant)
    ensures Agree(Do(c, op), Do(d, op), tenant)
  {
    if op.UpsertOp? {
      var r := op.record;
      forall m ensures Candidates(Put(c.vectors, r), tenant, m) == Candidates(Put(d.vectors, r), tenant, m) {
        CandidatesAppend(Drop(c.vectors, {KeyOf(r)}), [r], tenant, m);
        CandidatesAppend(Drop(d.vectors, {KeyOf(r)}), [r], tenant, m);
        CandidatesDrop(c.vectors, {KeyOf(r)}, tenant, m);
        CandidatesDrop(d.vectors, {KeyOf(r)}, tenant, m);
      }
    }
  }

  lemma AgreeOnOther(c: Contents, d: Contents, tenant: string, op: Op)
    requires Agree(c, d, tenant) && TenantOf(op) != tenant
    ensures Agree(Do(c, op), d, tenant)
  {
    if op.UpsertOp? {
      var r := op.record;
      forall m ensures Candidates(Put(c.vectors, r), tenant, m) == Candidates(d.vectors, tenant, m) {
        CandidatesAppend(Drop(c.vectors, {KeyOf(r)}), [r], tenant, m);
        CandidatesDrop(c.vectors, {KeyOf(r)}, tenant, m);
        CandidatesAreWanted(c.vectors, tenant, m);
        DropNothing(Candidates(c.vectors, tenant, m), {KeyOf(r)});
        assert Candidates([r], tenant, m) == [];
      }
    }
  }

  lemma {:induction false} ErasingKeepsAgreement(c: Contents, d: Contents, tenant: string, ops: seq<Op>)
    requires Agree(c, d, tenant)
    ensures Agree(DoAll(c, ops), DoAll(d, Only(tenant, ops)), tenant)
    decreases |ops|
  {
    hide Agree, Do;
    if ops != [] {
      if TenantOf(ops[0]) == tenant {
        AgreeOnOwn(c, d, tenant, ops[0]);
        ErasingKeepsAgreement(Do(c, ops[0]), Do(d, ops[0]), tenant, ops[1..]);
        assert ([ops[0]] + Only(tenant, ops[1..]))[1..] == Only(tenant, ops[1..]);
      } else {
        AgreeOnOther(c, d, tenant, ops[0]);
        ErasingKeepsAgreement(Do(c, ops[0]), d, tenant, ops[1..]);
      }
    }
  }

  /** Over any run, a tenant sees exactly what it would see if no other tenant had
      done anything: every search, marker and count, element for element. */
  lemma TenantsDoNotInterfere(similarity: Similarity, ops: seq<Op>, tenant: string, asset: string,
                              query: Vector, k: int, erpModule: Option<string>)
    ensures var all := DoAll(Contents(map[], []), ops);
            var own := DoAll(Contents(map[], []), Only(tenant, ops));
            && Search(similarity, all.vectors, query, k, tenant, erpModule) ==
               Search(similarity, own.vectors, query, k, tenant, erpModule)
            && (Key(asset, tenant) in all.store <==> Key(asset, tenant) in own.store)
            && (Key(asset, tenant) in all.store ==> all.store[Key(asset, tenant)] == own.store[Key(asset, tenant)])
  {
    ErasingKeepsAgreement(Contents(map[], []), Contents(map[], []), tenant, ops);
  }

  /** A search only returns records of its tenant and module. */
  lemma SearchIsScoped(similarity: Similarity, vs: seq<VectorRecord>, query: Vector, k: int,
                       tenant: string, erpModule: Option<string>, c: ScoredChunk)
    requires c in Search(similarity, vs, query, k, tenant, erpModule)
    ensures exists r ::
              && r in vs && Wanted(r, tenant, erpModule)
              && c == ScoredChunk(r.chunkId, r.content, similarity(query, r.embedding), r.asset, r.erpModule)
  {
    var found := Candidates(vs, tenant, erpModule);
    var scored := Scored(similarity, query, found);
    var ranked := Ranked(scored, ScoreOf);
    var i :| 0 <= i < |FirstK(ranked, k)| && ToChunks(FirstK(ranked, k))[i] == c;
    RankedIsRanking(scored, ScoreOf);
    assert ranked[i] in multiset(ranked);
    assert ranked[i] in scored;
    var j :| 0 <= j < |scored| && scored[j] == ranked[i];
    CandidatesAreWanted(vs, tenant, erpModule);
    CandidatesAreMembers(vs, tenant, erpModule);
    assert found[j] in found;
  }

  lemma {:induction false} CandidatesAreMembers(vs: seq<VectorRecord>, tenant: string, m: Option<string>)
    ensures forall r :: r in Candidates(vs, tenant, m) ==> r in vs
    decreases |vs|
  {
    if vs != [] {
      CandidatesAreMembers(vs[1..], tenant, m);
    }
  }
}
